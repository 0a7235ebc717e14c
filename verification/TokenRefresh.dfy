/**
 The single-flight refresh of the push service's access token (pkg/fcm/fcm.go, `accessToken`).
 A call holds the mutex only for short sections, so the model interleaves those sections, the
 closing of each channel, wake-ups and cancellations. A call makes at most one channel, which is
 named by the call.
 */
module TokenRefresh {
  import opened Options

  /** The fields guarded by the mutex; an empty token means none. */
  datatype Shared = Shared(token: string, expiresAt: int, inFlight: bool, waiters: seq<int>)

  const MARGIN_SECONDS := 60

  predicate Usable(s: Shared, now: int) {
    s.token != "" && now < s.expiresAt - MARGIN_SECONDS
  }

  datatype Phase =
    | Waiting
    | Woken
    | Refreshing
    | Leaving(result: Option<string>)
    | Closing(result: Option<string>, list: seq<int>, next: nat)
    | Done(result: Option<string>)

  datatype State = State(shared: Shared, phases: map<int, Phase>, closed: set<int>)

  datatype Op =
    | Enter(call: int, now: int)
    | Wake(call: int)
    | Cancel(call: int)
    | Recheck(call: int, now: int)
    | Succeed(call: int, token: string, expiresIn: int, now: int)
    | Fail(call: int)
    | Leave(call: int)
    | CloseNext(call: int)

  // ----- the sections under the mutex -----

  function EnterPhase(s: Shared, now: int): Phase {
    if Usable(s, now) then Done(Some(s.token)) else if s.inFlight then Waiting else Refreshing
  }

  function EnterShared(s: Shared, call: int, now: int): Shared {
    if Usable(s, now) then s
    else if s.inFlight then s.(waiters := s.waiters + [call])
    else s.(inFlight := true)
  }

  function RecheckPhase(s: Shared, now: int): Phase {
    if Usable(s, now) then Done(Some(s.token)) else Done(None)
  }

  function Stored(s: Shared, token: string, expiresIn: int, now: int): Shared {
    s.(token := token, expiresAt := now + expiresIn)
  }

  function Left(s: Shared): Shared {
    s.(inFlight := false, waiters := [])
  }

  /** Each step is taken only by a call that is where the code has it; otherwise nothing happens. */
  function Apply(st: State, op: Op): State {
    var c := op.call;
    match op
    case Enter(_, now) =>
      if c in st.phases then st
      else st.(shared := EnterShared(st.shared, c, now), phases := st.phases[c := EnterPhase(st.shared, now)])
    case Wake(_) =>
      if At(st, c, Waiting) && c in st.closed then st.(phases := st.phases[c := Woken]) else st
    case Cancel(_) =>
      if At(st, c, Waiting) then st.(phases := st.phases[c := Done(None)]) else st
    case Recheck(_, now) =>
      if At(st, c, Woken) then st.(phases := st.phases[c := RecheckPhase(st.shared, now)]) else st
    case Succeed(_, token, expiresIn, now) =>
      if At(st, c, Refreshing) && token != ""
      then st.(shared := Stored(st.shared, token, expiresIn, now), phases := st.phases[c := Leaving(Some(token))])
      else st
    case Fail(_) =>
      if At(st, c, Refreshing) then st.(phases := st.phases[c := Leaving(None)]) else st
    case Leave(_) =>
      if c in st.phases && st.phases[c].Leaving?
      then st.(shared := Left(st.shared), phases := st.phases[c := Closing(st.phases[c].result, st.shared.waiters, 0)])
      else st
    case CloseNext(_) =>
      if c !in st.phases || !st.phases[c].Closing? then st
      else if st.phases[c].next >= |st.phases[c].list| then st.(phases := st.phases[c := Done(st.phases[c].result)])
      else st.(closed := st.closed + {st.phases[c].list[st.phases[c].next]},
               phases := st.phases[c := st.phases[c].(next := st.phases[c].next + 1)])
  }

  predicate At(st: State, c: int, ph: Phase) {
    c in st.phases && st.phases[c] == ph
  }

  const INITIAL := State(Shared("", 0, false, []), map[], {})

  function Run(ops: seq<Op>, k: nat): State
    requires k <= |ops|
  {
    if k == 0 then INITIAL else Apply(Run(ops, k - 1), ops[k - 1])
  }

  // ----- the client object -----

  class TokenClient {
    var cachedToken: string
    var tokenExpiresAt: int
    var tokenInFlight: bool
    var tokenWaiters: seq<int>

    function View(): Shared
      reads this
    {
      Shared(cachedToken, tokenExpiresAt, tokenInFlight, tokenWaiters)
    }

    constructor ()
      ensures View() == INITIAL.shared
    {
      cachedToken, tokenExpiresAt, tokenInFlight, tokenWaiters := "", 0, false, [];
    }

    /** The first section: use the cached token, queue up, or become the one that refreshes. */
    method Begin(call: int, now: int) returns (phase: Phase)
      modifies this
      ensures phase == EnterPhase(old(View()), now) && View() == EnterShared(old(View()), call, now)
      ensures phase.Done? <==> old(cachedToken) != "" && now + 60 < old(tokenExpiresAt)
      ensures phase.Done? ==> phase.result == Some(old(cachedToken)) && View() == old(View())
    {
      if cachedToken != "" && now < tokenExpiresAt - MARGIN_SECONDS { return Done(Some(cachedToken)); }
      if tokenInFlight {
        tokenWaiters := tokenWaiters + [call];
        return Waiting;
      }
      tokenInFlight := true;
      return Refreshing;
    }

    method AfterWake(now: int) returns (phase: Phase)
      ensures phase == RecheckPhase(View(), now)
      ensures phase == Done(if cachedToken != "" && now + 60 < tokenExpiresAt then Some(cachedToken) else None)
    {
      if cachedToken != "" && now < tokenExpiresAt - MARGIN_SECONDS { return Done(Some(cachedToken)); }
      return Done(None);
    }

    method StoreToken(token: string, expiresIn: int, now: int)
      modifies this
      ensures View() == Stored(old(View()), token, expiresIn, now)
    {
      cachedToken := token;
      tokenExpiresAt := now + expiresIn;
    }

    /** The deferred section: hand the waiters over and let the next refresh begin. */
    method TakeWaiters() returns (waiters: seq<int>)
      modifies this
      ensures waiters == old(View()).waiters && View() == Left(old(View()))
    {
      tokenInFlight := false;
      waiters := tokenWaiters;
      tokenWaiters := [];
    }
  }

  // ----- what holds in every reachable state -----

  /** The call holds the flight: it is refreshing, or has finished and not yet left. */
  predicate Owns(ph: Phase) {
    ph.Refreshing? || ph.Leaving?
  }

  /** The channel is one this call has still to close. */
  predicate ToClose(ph: Phase, w: int) {
    ph.Closing? && exists j :: ph.next <= j < |ph.list| && ph.list[j] == w
  }

  predicate Distinct(s: seq<int>) {
    forall i, j :: 0 <= i < j < |s| ==> s[i] != s[j]
  }

  ghost predicate SingleFlight(st: State) {
    && (forall c, d :: c in st.phases && d in st.phases && Owns(st.phases[c]) && Owns(st.phases[d]) ==> c == d)
    && (forall c :: c in st.phases && Owns(st.phases[c]) ==> st.shared.inFlight)
    && (st.shared.inFlight ==> exists c :: c in st.phases && Owns(st.phases[c]))
    && (st.shared.waiters != [] ==> st.shared.inFlight)
  }

  /** Every channel that is to be closed is open and on exactly one list, once. */
  ghost predicate OneClosePerChannel(st: State) {
    && Distinct(st.shared.waiters)
    && (forall w :: w in st.shared.waiters ==> w in st.phases && w !in st.closed)
    && (forall c :: c in st.phases && st.phases[c].Closing? ==> Distinct(st.phases[c].list))
    && (forall c, w :: c in st.phases && ToClose(st.phases[c], w) ==>
          w in st.phases && w !in st.closed && w !in st.shared.waiters)
    && (forall c, d, w :: c in st.phases && d in st.phases && ToClose(st.phases[c], w) && ToClose(st.phases[d], w) ==>
          c == d)
    && (forall w :: w in st.closed ==> w in st.phases)
  }

  ghost predicate Reachable(st: State, w: int) {
    w in st.shared.waiters || w in st.closed || exists c :: c in st.phases && ToClose(st.phases[c], w)
  }

  /** No wake-up is lost: a blocked call's channel is queued, about to be closed, or closed. */
  ghost predicate NoLostWakeup(st: State) {
    forall w :: w in st.phases && st.phases[w].Waiting? ==> Reachable(st, w)
  }

  ghost predicate Inv(st: State) {
    SingleFlight(st) && OneClosePerChannel(st) && NoLostWakeup(st)
  }

  /** Changing one call's phase loses no wake-up, if that call holds no channels to close. */
  lemma WakeupsKept(st: State, st': State, c: int)
    requires NoLostWakeup(st)
    requires forall w :: w in st.shared.waiters ==> w in st'.shared.waiters
    requires st.closed <= st'.closed && c in st'.phases
    requires st'.phases == st.phases[c := st'.phases[c]]
    requires c in st.phases ==> !st.phases[c].Closing?
    requires st'.phases[c].Waiting? ==> c in st'.shared.waiters
    ensures NoLostWakeup(st')
  {
    forall w | w in st'.phases && st'.phases[w].Waiting? ensures Reachable(st', w) {
      if w != c {
        assert Reachable(st, w);
        if d :| d in st.phases && ToClose(st.phases[d], w) { assert ToClose(st'.phases[d], w); }
      }
    }
  }

  lemma FlightKept(st: State, st': State, c: int)
    requires SingleFlight(st) && c in st'.phases && st'.phases == st.phases[c := st'.phases[c]]
    requires st'.shared.inFlight == st.shared.inFlight
    requires st'.shared.waiters != [] ==> st.shared.inFlight
    requires Owns(st'.phases[c]) == (c in st.phases && Owns(st.phases[c]))
    ensures SingleFlight(st')
  {
    if st.shared.inFlight {
      var d :| d in st.phases && Owns(st.phases[d]);
      assert Owns(st'.phases[d]);
    }
  }

  lemma ChannelsKept(st: State, st': State, c: int)
    requires OneClosePerChannel(st) && c in st'.phases && st'.phases == st.phases[c := st'.phases[c]]
    requires st'.closed == st.closed && !st'.phases[c].Closing?
    requires st'.shared.waiters == st.shared.waiters
    ensures OneClosePerChannel(st')
  {}

  /** A call moves between phases that neither own the flight nor hold channels to close. */
  lemma MoveInv(st: State, c: int, shared: Shared, ph: Phase)
    requires Inv(st) && shared.inFlight == st.shared.inFlight && shared.waiters == st.shared.waiters
    requires c in st.phases ==> !st.phases[c].Closing?
    requires Owns(ph) == (c in st.phases && Owns(st.phases[c])) && !ph.Closing? && !ph.Waiting?
    ensures Inv(st.(shared := shared, phases := st.phases[c := ph]))
  {
    var st' := st.(shared := shared, phases := st.phases[c := ph]);
    FlightKept(st, st', c);
    ChannelsKept(st, st', c);
    WakeupsKept(st, st', c);
  }

  lemma QueueInv(st: State, c: int)
    requires Inv(st) && c !in st.phases && st.shared.inFlight
    ensures Inv(st.(shared := st.shared.(waiters := st.shared.waiters + [c]), phases := st.phases[c := Waiting]))
  {
    var st' := st.(shared := st.shared.(waiters := st.shared.waiters + [c]), phases := st.phases[c := Waiting]);
    FlightKept(st, st', c);
    WakeupsKept(st, st', c);
    assert c !in st.shared.waiters;
  }

  lemma BeginInv(st: State, c: int)
    requires Inv(st) && c !in st.phases && !st.shared.inFlight
    ensures Inv(st.(shared := st.shared.(inFlight := true), phases := st.phases[c := Refreshing]))
  {
    var st' := st.(shared := st.shared.(inFlight := true), phases := st.phases[c := Refreshing]);
    assert Owns(st'.phases[c]);
    ChannelsKept(st, st', c);
    WakeupsKept(st, st', c);
  }

  lemma LeaveInv(st: State, c: int)
    requires Inv(st) && c in st.phases && st.phases[c].Leaving?
    ensures Inv(Apply(st, Leave(c)))
  {
    var st' := Apply(st, Leave(c));
    forall w ensures ToClose(st'.phases[c], w) <==> w in st.shared.waiters {
      if w in st.shared.waiters {
        var j :| 0 <= j < |st.shared.waiters| && st.shared.waiters[j] == w;
        assert st'.phases[c].list[j] == w;
      }
    }
    forall w | w in st'.phases && st'.phases[w].Waiting? ensures Reachable(st', w) {
      assert Reachable(st, w);
      if d :| d in st.phases && ToClose(st.phases[d], w) { assert ToClose(st'.phases[d], w); }
    }
  }

  lemma CloseChannels(st: State, c: int)
    requires OneClosePerChannel(st) && c in st.phases && st.phases[c].Closing?
    ensures OneClosePerChannel(Apply(st, CloseNext(c)))
  {
    var st' := Apply(st, CloseNext(c));
    var ph := st.phases[c];
    if ph.next < |ph.list| { assert ToClose(ph, ph.list[ph.next]); }
    forall w ensures ToClose(st'.phases[c], w) ==> ToClose(ph, w) && w !in st'.closed {}
  }

  lemma CloseWakeups(st: State, c: int)
    requires NoLostWakeup(st) && c in st.phases && st.phases[c].Closing?
    ensures NoLostWakeup(Apply(st, CloseNext(c)))
  {
    var st' := Apply(st, CloseNext(c));
    var ph := st.phases[c];
    forall w | w in st'.phases && st'.phases[w].Waiting? ensures Reachable(st', w) {
      assert Reachable(st, w);
      if d :| d in st.phases && ToClose(st.phases[d], w) {
        if d != c {
          assert ToClose(st'.phases[d], w);
        } else {
          var j :| ph.next <= j < |ph.list| && ph.list[j] == w;
          if j > ph.next { assert st'.phases[c].list[j] == w; }
        }
      }
    }
  }

  lemma CloseInv(st: State, c: int)
    requires Inv(st) && c in st.phases && st.phases[c].Closing?
    ensures Inv(Apply(st, CloseNext(c)))
  {
    FlightKept(st, Apply(st, CloseNext(c)), c);
    CloseChannels(st, c);
    CloseWakeups(st, c);
  }

  lemma EnterInv(st: State, c: int, now: int)
    requires Inv(st)
    ensures Inv(Apply(st, Enter(c, now)))
  {
    if c !in st.phases {
      if Usable(st.shared, now) { MoveInv(st, c, st.shared, EnterPhase(st.shared, now)); }
      else if st.shared.inFlight { QueueInv(st, c); }
      else { BeginInv(st, c); }
    }
  }

  lemma ApplyInv(st: State, op: Op)
    requires Inv(st)
    ensures Inv(Apply(st, op))
  {
    var c := op.call;
    match op
    case Enter(_, now) => EnterInv(st, c, now);
    case Wake(_) => if At(st, c, Waiting) { MoveInv(st, c, st.shared, Woken); }
    case Cancel(_) => if At(st, c, Waiting) { MoveInv(st, c, st.shared, Done(None)); }
    case Recheck(_, now) => if At(st, c, Woken) { MoveInv(st, c, st.shared, RecheckPhase(st.shared, now)); }
    case Succeed(_, token, expiresIn, now) =>
      if At(st, c, Refreshing) { MoveInv(st, c, Stored(st.shared, token, expiresIn, now), Leaving(Some(token))); }
    case Fail(_) => if At(st, c, Refreshing) { MoveInv(st, c, st.shared, Leaving(None)); }
    case Leave(_) => if c in st.phases && st.phases[c].Leaving? { LeaveInv(st, c); }
    case CloseNext(_) => if c in st.phases && st.phases[c].Closing? { CloseInv(st, c); }
  }

  /**
   In every interleaving at most one refresh is in flight, waiters queue only behind one, and no
   wake-up is lost.
   */
  lemma {:induction false} RunInv(ops: seq<Op>, k: nat)
    requires k <= |ops|
    ensures Inv(Run(ops, k))
  {
    if k > 0 {
      RunInv(ops, k - 1);
      ApplyInv(Run(ops, k - 1), ops[k - 1]);
    }
  }

  /** No channel is ever closed twice: a channel about to be closed is still open. */
  lemma NeverClosedTwice(ops: seq<Op>, k: nat, c: int)
    requires k <= |ops| && c in Run(ops, k).phases
    requires var ph := Run(ops, k).phases[c]; ph.Closing? && ph.next < |ph.list|
    ensures var ph := Run(ops, k).phases[c]; ph.list[ph.next] !in Run(ops, k).closed
  {
    RunInv(ops, k);
    var ph := Run(ops, k).phases[c];
    assert ToClose(ph, ph.list[ph.next]);
  }

  /** When nobody is refreshing, leaving or closing, every blocked call has been woken. */
  lemma QuiescentMeansWoken(ops: seq<Op>, k: nat, w: int)
    requires k <= |ops| && w in Run(ops, k).phases && Run(ops, k).phases[w].Waiting?
    requires forall c :: c in Run(ops, k).phases ==>
      !Owns(Run(ops, k).phases[c]) && !Run(ops, k).phases[c].Closing?
    ensures w in Run(ops, k).closed
  {
    RunInv(ops, k);
    assert Reachable(Run(ops, k), w);
  }

  /** The state after a call has closed n more channels. */
  function Drained(st: State, c: int, n: nat): State {
    if n == 0 then st else Apply(Drained(st, c, n - 1), CloseNext(c))
  }

  /** A call that leaves wakes everyone who queued behind it, in as many steps as there are channels. */
  lemma {:induction false} LeavingWakesAll(st: State, c: int, n: nat)
    requires c in st.phases && st.phases[c].Leaving? && n <= |st.shared.waiters|
    ensures var now := Drained(Apply(st, Leave(c)), c, n);
      && c in now.phases && now.phases[c] == Closing(st.phases[c].result, st.shared.waiters, n)
      && now.closed == st.closed + set j | 0 <= j < n :: st.shared.waiters[j]
  {
    if n > 0 { LeavingWakesAll(st, c, n - 1); }
  }

  // ----- which tokens are handed out -----

  /** At the j-th step an exchange succeeds and its token is cached. */
  predicate Stores(ops: seq<Op>, j: nat)
    requires j < |ops|
  {
    && ops[j].Succeed? && ops[j].token != ""
    && ops[j].call in Run(ops, j).phases && Run(ops, j).phases[ops[j].call].Refreshing?
  }

  /** The last of the first k steps that caches a token. */
  function LastStore(ops: seq<Op>, k: nat): (r: Option<nat>)
    requires k <= |ops|
    ensures r.Some? ==> r.value < k && Stores(ops, r.value) && forall i :: r.value < i < k ==> !Stores(ops, i)
    ensures r.None? ==> forall i :: 0 <= i < k ==> !Stores(ops, i)
  {
    if k == 0 then None else if Stores(ops, k - 1) then Some(k - 1) else LastStore(ops, k - 1)
  }

  lemma StepCache(ops: seq<Op>, k: nat)
    requires k < |ops|
    ensures var s, s' := Run(ops, k).shared, Run(ops, k + 1).shared;
      if Stores(ops, k) then s'.token == ops[k].token && s'.expiresAt == ops[k].now + ops[k].expiresIn
      else s'.token == s.token && s'.expiresAt == s.expiresAt
  {}

  /** The cache is empty until a token is stored, and then holds the last one stored with its expiry. */
  lemma {:induction false} CacheIsLastStored(ops: seq<Op>, k: nat)
    requires k <= |ops|
    ensures var s := Run(ops, k).shared;
      match LastStore(ops, k)
      case None => s.token == ""
      case Some(j) => s.token == ops[j].token && s.token != "" && s.expiresAt == ops[j].now + ops[j].expiresIn
  {
    if k > 0 {
      CacheIsLastStored(ops, k - 1);
      StepCache(ops, k - 1);
    }
  }

  /** The token of the last exchange, with more than a minute left at this time. */
  predicate FreshToken(ops: seq<Op>, k: nat, token: string, now: int)
    requires k <= |ops|
  {
    match LastStore(ops, k)
    case None => false
    case Some(j) => ops[j].token == token && now + 60 < ops[j].now + ops[j].expiresIn
  }

  lemma UsableIffFresh(ops: seq<Op>, k: nat, now: int)
    requires k <= |ops|
    ensures var s := Run(ops, k).shared; Usable(s, now) <==> FreshToken(ops, k, s.token, now)
  {
    CacheIsLastStored(ops, k);
  }

  lemma FreshIsCached(ops: seq<Op>, k: nat, token: string, now: int)
    requires k <= |ops| && FreshToken(ops, k, token, now)
    ensures Run(ops, k).shared.token == token
  {
    CacheIsLastStored(ops, k);
  }

  /**
   In every run a call that enters is answered from the cache exactly when the last exchange's token
   has more than a minute left, with that token and without a new flight.
   */
  lemma EnterServesFreshIff(ops: seq<Op>, k: nat, c: int, now: int, token: string)
    requires k < |ops| && ops[k] == Enter(c, now) && c !in Run(ops, k).phases
    ensures Run(ops, k + 1).phases[c] == Done(Some(token)) <==> FreshToken(ops, k, token, now)
    ensures Run(ops, k + 1).phases[c].Done? ==>
      Run(ops, k + 1).phases[c].result.Some? && Run(ops, k + 1).shared == Run(ops, k).shared
  {
    UsableIffFresh(ops, k, now);
    if FreshToken(ops, k, token, now) { FreshIsCached(ops, k, token, now); }
  }

  /** So is a call that rechecks after its wake-up; without a fresh token it fails. */
  lemma RecheckServesFreshIff(ops: seq<Op>, k: nat, c: int, now: int, token: string)
    requires k < |ops| && ops[k] == Recheck(c, now) && c in Run(ops, k).phases && Run(ops, k).phases[c].Woken?
    ensures Run(ops, k + 1).phases[c] == Done(Some(token)) <==> FreshToken(ops, k, token, now)
    ensures Run(ops, k + 1).phases[c].Done? && Run(ops, k + 1).shared == Run(ops, k).shared
  {
    UsableIffFresh(ops, k, now);
    if FreshToken(ops, k, token, now) { FreshIsCached(ops, k, token, now); }
  }

  /** A cancelled call returns at once without a token; its channel stays where it is. */
  lemma CancelReturns(st: State, c: int)
    requires At(st, c, Waiting)
    ensures var now := Apply(st, Cancel(c));
      now.phases == st.phases[c := Done(None)] && now.shared == st.shared && now.closed == st.closed
  {}

  /** The call that refreshed returns its own token when it has woken the others, and a failed one none. */
  lemma RefresherReturnsItsToken(st: State, c: int, token: string, expiresIn: int, now: int)
    requires At(st, c, Refreshing) && token != ""
    ensures var n := |st.shared.waiters|;
      var stored, failed := Apply(st, Succeed(c, token, expiresIn, now)), Apply(st, Fail(c));
      && At(Drained(Apply(stored, Leave(c)), c, n + 1), c, Done(Some(token)))
      && At(Drained(Apply(failed, Leave(c)), c, n + 1), c, Done(None))
  {
    LeavingWakesAll(Apply(st, Succeed(c, token, expiresIn, now)), c, |st.shared.waiters|);
    LeavingWakesAll(Apply(st, Fail(c)), c, |st.shared.waiters|);
  }
}
