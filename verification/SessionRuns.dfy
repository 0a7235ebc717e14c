/**
 Every interleaving of the steps of refreshes and logouts (internal/auth/service.go and
 session.go): the sessions that descend from one login form a chain with at most one live member.
 */
module SessionRuns {
  import opened Options
  import opened Sessions

  /** A refresh has passed its checks on a session, or has revoked it and not yet made the next one. */
  datatype Phase = Checked(session: nat) | Won(session: nat)

  /** `parents[i]` is the session whose rotation made session i; the code does not store it. */
  datatype State = State(sessions: seq<Session>, parents: seq<Option<nat>>, calls: map<int, Phase>)

  datatype Op =
    | Login(user: string, tokenHash: string, expiresAt: int)
    | Check(call: int, tokenHash: string, now: int, active: set<string>)
    | Claim(call: int, now: int)
    | Issue(call: int, tokenHash: string, expiresAt: int)
    | Crash(call: int)
    | Logout(tokenHash: string, now: int)

  const INITIAL := State([], [], map[])

  function Added(st: State, user: string, tokenHash: string, expiresAt: int, parent: Option<nat>): State {
    if Lookup(st.sessions, tokenHash, |st.sessions|).Some? then st
    else st.(sessions := st.sessions + [Session(user, tokenHash, expiresAt, None)], parents := st.parents + [parent])
  }

  function ClaimStep(st: State, call: int, now: int): State {
    if call !in st.calls || !st.calls[call].Checked? || st.calls[call].session >= |st.sessions| then st
    else
      var i := st.calls[call].session;
      if IsLive(st.sessions[i])
      then st.(sessions := Revoked(st.sessions, i, now), calls := st.calls[call := Won(i)])
      else st.(calls := st.calls - {call})
  }

  /** The insert ends the call whether or not it succeeds. */
  function IssueStep(st: State, call: int, tokenHash: string, expiresAt: int): State {
    if call !in st.calls || !st.calls[call].Won? || st.calls[call].session >= |st.sessions| then st
    else
      var i := st.calls[call].session;
      Added(st, st.sessions[i].user, tokenHash, expiresAt, Some(i)).(calls := st.calls - {call})
  }

  function Apply(st: State, op: Op): State {
    match op
    case Login(user, tokenHash, expiresAt) => Added(st, user, tokenHash, expiresAt, None)
    case Check(call, tokenHash, now, active) =>
      var found := CheckToken(st.sessions, tokenHash, now, active);
      if call in st.calls || found.Failure? then st else st.(calls := st.calls[call := Checked(found.value)])
    case Claim(call, now) => ClaimStep(st, call, now)
    case Issue(call, tokenHash, expiresAt) => IssueStep(st, call, tokenHash, expiresAt)
    case Crash(call) => st.(calls := st.calls - {call})
    case Logout(tokenHash, now) =>
      match Lookup(st.sessions, tokenHash, |st.sessions|)
      case None => st
      case Some(i) => st.(sessions := Revoked(st.sessions, i, now))
  }

  function Run(ops: seq<Op>, k: nat): State
    requires k <= |ops|
  {
    if k == 0 then INITIAL else Apply(Run(ops, k - 1), ops[k - 1])
  }

  /** The three steps with nobody in between are `Refresh`. */
  lemma AloneIsRefresh(st: State, call: int, tokenHash: string, now: int, active: set<string>,
                       freshHash: string, expiresAt: int)
    requires call !in st.calls
    ensures var done := Apply(Apply(Apply(st, Check(call, tokenHash, now, active)), Claim(call, now)),
                              Issue(call, freshHash, expiresAt));
      var checked := CheckToken(st.sessions, tokenHash, now, active);
      done.sessions == if checked.Failure? then st.sessions
                       else Rotated(st.sessions, checked.value, now, freshHash, expiresAt)
  {}

  // ----- families -----

  /** Sessions come after the ones they were rotated from. */
  predicate Ordered(parents: seq<Option<nat>>) {
    forall i :: 0 <= i < |parents| && parents[i].Some? ==> parents[i].value < i
  }

  /** The login a session descends from. */
  function Root(parents: seq<Option<nat>>, i: nat): (r: nat)
    requires Ordered(parents) && i < |parents|
    ensures r <= i
  {
    if parents[i].None? then i else Root(parents, parents[i].value)
  }

  function Generation(parents: seq<Option<nat>>, i: nat): nat
    requires Ordered(parents) && i < |parents|
  {
    if parents[i].None? then 0 else Generation(parents, parents[i].value) + 1
  }

  /** i is j or was rotated, in one or more rotations, into j. */
  predicate LeadsTo(parents: seq<Option<nat>>, i: nat, j: nat)
    requires Ordered(parents) && i < |parents| && j < |parents|
    decreases j
  {
    i == j || (parents[j].Some? && LeadsTo(parents, i, parents[j].value))
  }

  predicate HasSuccessor(parents: seq<Option<nat>>, i: nat) {
    exists j :: 0 <= j < |parents| && parents[j] == Some(i)
  }

  ghost predicate OneSuccessor(parents: seq<Option<nat>>) {
    forall i, j :: 0 <= i < j < |parents| && parents[i].Some? ==> parents[i] != parents[j]
  }

  predicate CallOk(st: State, call: int) {
    call in st.calls && st.calls[call].Won? ==>
      var i := st.calls[call].session;
      i < |st.sessions| && !IsLive(st.sessions[i]) && !HasSuccessor(st.parents, i)
  }

  ghost predicate Inv(st: State) {
    && |st.parents| == |st.sessions|
    && Ordered(st.parents)
    && OneSuccessor(st.parents)
    && (forall i :: 0 <= i < |st.sessions| && HasSuccessor(st.parents, i) ==> !IsLive(st.sessions[i]))
    && (forall c :: CallOk(st, c))
    && (forall c, d :: c in st.calls && d in st.calls && st.calls[c].Won? && st.calls[c] == st.calls[d] ==> c == d)
  }

  lemma AddedSuccessors(parents: seq<Option<nat>>, p: Option<nat>, i: nat)
    ensures HasSuccessor(parents + [p], i) <==> HasSuccessor(parents, i) || p == Some(i)
  {
    var more := parents + [p];
    assert more[|parents|] == p;
    if j :| 0 <= j < |parents| && parents[j] == Some(i) { assert more[j] == Some(i); }
  }

  lemma LoginInv(st: State, user: string, tokenHash: string, expiresAt: int)
    requires Inv(st)
    ensures Inv(Added(st, user, tokenHash, expiresAt, None))
  {
    var st' := Added(st, user, tokenHash, expiresAt, None);
    forall i: nat ensures HasSuccessor(st.parents + [None], i) <==> HasSuccessor(st.parents, i) {
      AddedSuccessors(st.parents, None, i);
    }
    forall c ensures CallOk(st', c) { assert CallOk(st, c); }
  }

  lemma RevokeInv(st: State, i: nat, now: int)
    requires Inv(st) && i < |st.sessions|
    ensures Inv(st.(sessions := Revoked(st.sessions, i, now)))
  {
    var st' := st.(sessions := Revoked(st.sessions, i, now));
    forall c ensures CallOk(st', c) { assert CallOk(st, c); }
  }

  lemma DropInv(st: State, call: int)
    requires Inv(st)
    ensures Inv(st.(calls := st.calls - {call}))
  {
    var st' := st.(calls := st.calls - {call});
    forall c ensures CallOk(st', c) { assert CallOk(st, c); }
  }

  /** Whoever finds the session live is the only one to win it, and it has no successor yet. */
  lemma ClaimInv(st: State, call: int, now: int)
    requires Inv(st)
    ensures Inv(ClaimStep(st, call, now))
  {
    if call in st.calls && st.calls[call].Checked? && st.calls[call].session < |st.sessions| {
      var i := st.calls[call].session;
      if IsLive(st.sessions[i]) {
        RevokeInv(st, i, now);
        var revoked := st.(sessions := Revoked(st.sessions, i, now));
        var st' := ClaimStep(st, call, now);
        forall c ensures CallOk(st', c) { assert CallOk(revoked, c) && CallOk(st, c); }
        forall c, d | c in st'.calls && d in st'.calls && st'.calls[c].Won? && st'.calls[c] == st'.calls[d]
          ensures c == d
        {
          assert CallOk(st, c) && CallOk(st, d);
        }
      } else {
        DropInv(st, call);
      }
    }
  }

  lemma IssueInv(st: State, call: int, tokenHash: string, expiresAt: int)
    requires Inv(st)
    ensures Inv(IssueStep(st, call, tokenHash, expiresAt))
  {
    if call in st.calls && st.calls[call].Won? && st.calls[call].session < |st.sessions| {
      var i := st.calls[call].session;
      assert CallOk(st, call);
      var st' := IssueStep(st, call, tokenHash, expiresAt);
      if Lookup(st.sessions, tokenHash, |st.sessions|).Some? {
        DropInv(st, call);
      } else {
        forall j: nat ensures HasSuccessor(st'.parents, j) <==> HasSuccessor(st.parents, j) || j == i {
          AddedSuccessors(st.parents, Some(i), j);
        }
        forall c ensures CallOk(st', c) { assert CallOk(st, c); }
      }
    }
  }

  lemma ApplyInv(st: State, op: Op)
    requires Inv(st)
    ensures Inv(Apply(st, op))
  {
    match op
    case Login(user, tokenHash, expiresAt) => LoginInv(st, user, tokenHash, expiresAt);
    case Check(_, _, _, _) =>
      var st' := Apply(st, op);
      forall c ensures CallOk(st', c) { assert CallOk(st, c); }
    case Claim(call, now) => ClaimInv(st, call, now);
    case Issue(call, tokenHash, expiresAt) => IssueInv(st, call, tokenHash, expiresAt);
    case Crash(call) => DropInv(st, call);
    case Logout(tokenHash, now) =>
      match Lookup(st.sessions, tokenHash, |st.sessions|)
      case None =>
      case Some(i) => RevokeInv(st, i, now);
  }

  lemma {:induction false} RunInv(ops: seq<Op>, k: nat)
    requires k <= |ops|
    ensures Inv(Run(ops, k))
  {
    if k == 0 {
      forall c ensures CallOk(INITIAL, c) {}
    } else {
      RunInv(ops, k - 1);
      ApplyInv(Run(ops, k - 1), ops[k - 1]);
    }
  }

  // ----- the shape of a family -----

  /** In a family there is one session of each generation. */
  lemma {:induction false} GenerationUnique(parents: seq<Option<nat>>, i: nat, j: nat)
    requires Ordered(parents) && OneSuccessor(parents) && i < |parents| && j < |parents|
    requires Root(parents, i) == Root(parents, j) && Generation(parents, i) == Generation(parents, j)
    ensures i == j
    decreases i
  {
    if parents[i].Some? {
      assert parents[j].Some?;
      GenerationUnique(parents, parents[i].value, parents[j].value);
    }
  }

  /** An earlier generation leads to a later one, through a successor of its own. */
  lemma {:induction false} EarlierLeads(parents: seq<Option<nat>>, i: nat, j: nat)
    requires Ordered(parents) && OneSuccessor(parents) && i < |parents| && j < |parents|
    requires Root(parents, i) == Root(parents, j) && Generation(parents, i) < Generation(parents, j)
    ensures LeadsTo(parents, i, j) && HasSuccessor(parents, i)
    decreases j
  {
    var p := parents[j].value;
    if Generation(parents, p) == Generation(parents, i) {
      GenerationUnique(parents, i, p);
    } else {
      EarlierLeads(parents, i, p);
    }
  }

  /** A session that a refresh has revoked without having made its successor yet. */
  predicate Pending(st: State, i: nat) {
    exists c :: c in st.calls && st.calls[c] == Won(i)
  }

  /**
   In every interleaving: each session has at most one successor and is revoked once it has one or
   a refresh has won it; of two sessions that descend from one login, one leads to the other, and at
   most one of them is live or about to be rotated.
   */
  lemma FamilyIsChain(ops: seq<Op>, k: nat, i: nat, j: nat)
    requires k <= |ops| && i < j < |Run(ops, k).sessions|
    ensures var st := Run(ops, k);
      && |st.parents| == |st.sessions| && Ordered(st.parents) && OneSuccessor(st.parents)
      && (HasSuccessor(st.parents, i) ==> !IsLive(st.sessions[i]))
      && (Pending(st, i) ==> !IsLive(st.sessions[i]))
      && (Root(st.parents, i) == Root(st.parents, j) ==>
           && (LeadsTo(st.parents, i, j) || LeadsTo(st.parents, j, i))
           && !((IsLive(st.sessions[i]) || Pending(st, i)) && (IsLive(st.sessions[j]) || Pending(st, j))))
  {
    RunInv(ops, k);
    var st := Run(ops, k);
    if c :| c in st.calls && st.calls[c] == Won(i) { assert CallOk(st, c); }
    if c :| c in st.calls && st.calls[c] == Won(j) { assert CallOk(st, c); }
    if Root(st.parents, i) == Root(st.parents, j) {
      if Generation(st.parents, i) < Generation(st.parents, j) {
        EarlierLeads(st.parents, i, j);
      } else if Generation(st.parents, j) < Generation(st.parents, i) {
        EarlierLeads(st.parents, j, i);
      } else {
        GenerationUnique(st.parents, i, j);
      }
    }
  }

  // ----- what a rotated session had to be -----

  /** At one of the first k steps a refresh presented the session's token, unexpired, its user active. */
  predicate PassedCheck(ops: seq<Op>, k: nat, s: Session)
    requires k <= |ops|
  {
    exists e :: 0 <= e < k && Presents(ops[e], s)
  }

  predicate Presents(op: Op, s: Session) {
    op.Check? && op.tokenHash == s.tokenHash && op.now <= s.expiresAt && s.user in op.active
  }

  predicate CallChecked(ops: seq<Op>, k: nat, c: int)
    requires k <= |ops|
  {
    var st := Run(ops, k);
    c in st.calls ==>
      st.calls[c].session < |st.sessions| && PassedCheck(ops, k, st.sessions[st.calls[c].session])
  }

  predicate ParentChecked(ops: seq<Op>, k: nat, j: nat)
    requires k <= |ops|
  {
    var st := Run(ops, k);
    j < |st.sessions| && j < |st.parents| && st.parents[j].Some? ==>
      var i := st.parents[j].value;
      i < |st.sessions| && PassedCheck(ops, k, st.sessions[i]) && st.sessions[j].user == st.sessions[i].user
  }

  /** Sessions that calls hold, or that were rotated, passed the check. */
  ghost predicate CheckedOk(ops: seq<Op>, k: nat)
    requires k <= |ops|
  {
    && |Run(ops, k).parents| == |Run(ops, k).sessions|
    && (forall c :: CallChecked(ops, k, c))
    && (forall j: nat :: ParentChecked(ops, k, j))
  }

  /** Rows keep their user, hash and expiry. */
  lemma RowsKept(ops: seq<Op>, k: nat, i: nat)
    requires k < |ops| && i < |Run(ops, k).sessions|
    ensures var s, st' := Run(ops, k).sessions[i], Run(ops, k + 1);
      && i < |st'.sessions|
      && st'.sessions[i].user == s.user && st'.sessions[i].tokenHash == s.tokenHash
      && st'.sessions[i].expiresAt == s.expiresAt
  {}

  lemma PassedStays(ops: seq<Op>, k: nat, i: nat)
    requires k < |ops| && i < |Run(ops, k).sessions| && PassedCheck(ops, k, Run(ops, k).sessions[i])
    ensures i < |Run(ops, k + 1).sessions| && PassedCheck(ops, k + 1, Run(ops, k + 1).sessions[i])
  {
    RowsKept(ops, k, i);
    var e :| 0 <= e < k && Presents(ops[e], Run(ops, k).sessions[i]);
    assert Presents(ops[e], Run(ops, k + 1).sessions[i]);
  }

  /** Every call that works on a session now did so before, or has just presented its token. */
  lemma CallsFrom(ops: seq<Op>, k: nat, c: int)
    requires k < |ops| && c in Run(ops, k + 1).calls
    ensures var st, st' := Run(ops, k), Run(ops, k + 1);
      || (c in st.calls && st'.calls[c].session == st.calls[c].session)
      || (st'.calls[c].session < |st.sessions| && st'.sessions == st.sessions
            && Presents(ops[k], st.sessions[st'.calls[c].session]))
  {}

  /** A new session descends from one that a call was working on, and is the same user's. */
  lemma ParentsFrom(ops: seq<Op>, k: nat, j: nat)
    requires k < |ops| && |Run(ops, k).parents| == |Run(ops, k).sessions|
    requires j < |Run(ops, k + 1).parents| && Run(ops, k + 1).parents[j].Some?
    ensures var st, st' := Run(ops, k), Run(ops, k + 1);
      if j < |st.parents| then st'.parents[j] == st.parents[j]
      else
        exists c :: c in st.calls && st.calls[c].session == st'.parents[j].value && st'.parents[j].value < |st.sessions|
          && j < |st'.sessions| && st'.sessions[j].user == st.sessions[st'.parents[j].value].user
  {
    if j >= |Run(ops, k).parents| { assert ops[k].call in Run(ops, k).calls; }
  }

  lemma CallStaysChecked(ops: seq<Op>, k: nat, n: nat, c: int)
    requires k < |ops| && CallChecked(ops, k, c) && n == k + 1
    ensures CallChecked(ops, n, c)
  {
    var st, st' := Run(ops, k), Run(ops, k + 1);
    if c in st'.calls {
      CallsFrom(ops, k, c);
      if c in st.calls && st'.calls[c].session == st.calls[c].session {
        PassedStays(ops, k, st.calls[c].session);
      } else {
        assert Presents(ops[k], st'.sessions[st'.calls[c].session]);
      }
    }
  }

  lemma ParentStaysChecked(ops: seq<Op>, k: nat, n: nat, j: nat)
    requires k < |ops| && CheckedOk(ops, k) && n == k + 1
    ensures ParentChecked(ops, n, j)
  {
    var st, st' := Run(ops, k), Run(ops, k + 1);
    if j < |st'.sessions| && j < |st'.parents| && st'.parents[j].Some? {
      var i := st'.parents[j].value;
      ParentsFrom(ops, k, j);
      if j < |st.parents| {
        assert ParentChecked(ops, k, j);
        RowsKept(ops, k, j);
      } else {
        var c :| c in st.calls && st.calls[c].session == i && i < |st.sessions|
              && st'.sessions[j].user == st.sessions[i].user;
        assert CallChecked(ops, k, c);
      }
      PassedStays(ops, k, i);
      RowsKept(ops, k, i);
    }
  }

  lemma NothingChecked(ops: seq<Op>)
    ensures CheckedOk(ops, 0)
  {
    forall c ensures CallChecked(ops, 0, c) {}
    forall j: nat ensures ParentChecked(ops, 0, j) {}
  }

  lemma SameLength(ops: seq<Op>, k: nat)
    requires k <= |ops|
    ensures |Run(ops, k).parents| == |Run(ops, k).sessions|
  {
    RunInv(ops, k);
  }

  lemma {:induction false} RunChecked(ops: seq<Op>, k: nat)
    requires k <= |ops|
    ensures CheckedOk(ops, k)
  {
    SameLength(ops, k);
    if k > 0 {
      var p := k - 1;
      RunChecked(ops, p);
      forall c ensures CallChecked(ops, k, c) {
        assert CallChecked(ops, p, c);
        CallStaysChecked(ops, p, k, c);
      }
      forall j: nat ensures ParentChecked(ops, k, j) { ParentStaysChecked(ops, p, k, j); }
    } else {
      NothingChecked(ops);
    }
  }

  /**
   In every interleaving a session that was rotated had been presented unexpired while its user was
   active, and its successor is the same user's.
   */
  lemma RotatedWasValid(ops: seq<Op>, k: nat, j: nat)
    requires k <= |ops| && j < |Run(ops, k).parents| && Run(ops, k).parents[j].Some?
    ensures var st := Run(ops, k);
      var i := st.parents[j].value;
      && i < |st.sessions| && j < |st.sessions|
      && PassedCheck(ops, k, st.sessions[i])
      && st.sessions[j].user == st.sessions[i].user
  {
    RunChecked(ops, k);
    assert ParentChecked(ops, k, j);
  }

  // ----- the end of a family -----

  /** Every session that descends from the login is revoked, and none is about to be rotated. */
  ghost predicate FamilyDead(st: State, root: nat) {
    && |st.parents| == |st.sessions| && Ordered(st.parents)
    && forall i :: 0 <= i < |st.sessions| && Root(st.parents, i) == root ==> !IsLive(st.sessions[i]) && !Pending(st, i)
  }

  lemma {:induction false} RootKept(parents: seq<Option<nat>>, p: Option<nat>, i: nat)
    requires Ordered(parents) && Ordered(parents + [p]) && i < |parents|
    ensures Root(parents + [p], i) == Root(parents, i)
  {
    if parents[i].Some? { RootKept(parents, p, parents[i].value); }
  }

  lemma AddedKeepsDead(st: State, user: string, tokenHash: string, expiresAt: int, parent: Option<nat>, root: nat)
    requires FamilyDead(st, root) && root < |st.sessions|
    requires parent.Some? ==> parent.value < |st.sessions| && Root(st.parents, parent.value) != root
    ensures FamilyDead(Added(st, user, tokenHash, expiresAt, parent), root)
  {
    var st' := Added(st, user, tokenHash, expiresAt, parent);
    if |st'.sessions| > |st.sessions| {
      assert st'.calls == st.calls;
      forall i: nat | i < |st'.sessions| && Root(st'.parents, i) == root
        ensures !IsLive(st'.sessions[i]) && !Pending(st', i)
      {
        if i < |st.sessions| {
          RootKept(st.parents, parent, i);
        } else if parent.Some? {
          RootKept(st.parents, parent, parent.value);
        }
      }
    }
  }

  /** Revoking, and calls that come, fail or go, wake no session of the family. */
  lemma CallsKeepDead(st: State, st': State, root: nat)
    requires FamilyDead(st, root) && st'.parents == st.parents && |st'.sessions| == |st.sessions|
    requires forall i :: 0 <= i < |st.sessions| && IsLive(st'.sessions[i]) ==> IsLive(st.sessions[i])
    requires forall i :: 0 <= i < |st.sessions| && Pending(st', i) ==> Pending(st, i) || IsLive(st.sessions[i])
    ensures FamilyDead(st', root)
  {}

  lemma ClaimKeepsDead(st: State, call: int, now: int, root: nat)
    requires FamilyDead(st, root)
    ensures FamilyDead(ClaimStep(st, call, now), root)
  {
    var st' := ClaimStep(st, call, now);
    forall i | 0 <= i < |st.sessions| && Pending(st', i) ensures Pending(st, i) || IsLive(st.sessions[i]) {
      var c :| c in st'.calls && st'.calls[c] == Won(i);
      if c in st.calls && st.calls[c] == Won(i) {} else { assert c == call; }
    }
    CallsKeepDead(st, st', root);
  }

  lemma DropKeepsDead(st: State, call: int, root: nat)
    requires FamilyDead(st, root)
    ensures FamilyDead(st.(calls := st.calls - {call}), root)
  {
    var st' := st.(calls := st.calls - {call});
    forall i | Pending(st', i) ensures Pending(st, i) {
      var c :| c in st'.calls && st'.calls[c] == Won(i);
      assert c in st.calls && st.calls[c] == Won(i);
    }
    CallsKeepDead(st, st', root);
  }

  lemma IssueKeepsDead(st: State, call: int, tokenHash: string, expiresAt: int, root: nat)
    requires FamilyDead(st, root) && root < |st.sessions|
    ensures FamilyDead(IssueStep(st, call, tokenHash, expiresAt), root)
  {
    if call in st.calls && st.calls[call].Won? && st.calls[call].session < |st.sessions| {
      var i := st.calls[call].session;
      assert Pending(st, i);
      AddedKeepsDead(st, st.sessions[i].user, tokenHash, expiresAt, Some(i), root);
      DropKeepsDead(Added(st, st.sessions[i].user, tokenHash, expiresAt, Some(i)), call, root);
    }
  }

  lemma ApplyKeepsDead(st: State, op: Op, root: nat)
    requires FamilyDead(st, root) && root < |st.sessions|
    ensures FamilyDead(Apply(st, op), root) && root < |Apply(st, op).sessions|
  {
    match op
    case Login(user, tokenHash, expiresAt) => AddedKeepsDead(st, user, tokenHash, expiresAt, None, root);
    case Check(call, _, _, _) =>
      var st' := Apply(st, op);
      forall i | Pending(st', i) ensures Pending(st, i) {
        var c :| c in st'.calls && st'.calls[c] == Won(i);
        assert c in st.calls && st.calls[c] == Won(i);
      }
      CallsKeepDead(st, st', root);
    case Claim(call, now) => ClaimKeepsDead(st, call, now, root);
    case Issue(call, tokenHash, expiresAt) => IssueKeepsDead(st, call, tokenHash, expiresAt, root);
    case Crash(call) => DropKeepsDead(st, call, root);
    case Logout(_, _) =>
      var st' := Apply(st, op);
      forall i | Pending(st', i) ensures Pending(st, i) {
        var c :| c in st'.calls && st'.calls[c] == Won(i);
        assert c in st.calls && st.calls[c] == Won(i);
      }
      CallsKeepDead(st, st', root);
  }

  lemma StepKeepsDead(ops: seq<Op>, k: nat, n: nat, root: nat)
    requires k < |ops| && n == k + 1 && FamilyDead(Run(ops, k), root) && root < |Run(ops, k).sessions|
    ensures FamilyDead(Run(ops, n), root) && root < |Run(ops, n).sessions|
  {
    ApplyKeepsDead(Run(ops, k), ops[k], root);
  }

  /** A family that is dead stays dead: only a new login gives its user a live session again. */
  lemma {:induction false} DeadFamilyStaysDead(ops: seq<Op>, k: nat, n: nat, root: nat)
    requires k <= n <= |ops| && FamilyDead(Run(ops, k), root) && root < |Run(ops, k).sessions|
    ensures FamilyDead(Run(ops, n), root) && root < |Run(ops, n).sessions|
  {
    if k < n {
      var p := n - 1;
      DeadFamilyStaysDead(ops, k, p, root);
      StepKeepsDead(ops, p, n, root);
    }
  }

  /** The session is live or about to be rotated. */
  ghost predicate Current(st: State, i: nat) {
    i < |st.sessions| && (IsLive(st.sessions[i]) || Pending(st, i))
  }

  lemma OnlyCurrent(ops: seq<Op>, k: nat, i: nat, j: nat)
    requires k <= |ops| && Current(Run(ops, k), i) && j < |Run(ops, k).sessions| && i != j && Inv(Run(ops, k))
    requires Root(Run(ops, k).parents, i) == Root(Run(ops, k).parents, j)
    ensures !Current(Run(ops, k), j)
  {
    if i < j { FamilyIsChain(ops, k, i, j); } else { FamilyIsChain(ops, k, j, i); }
  }

  lemma LiveNotPending(st: State, i: nat)
    requires Inv(st) && i < |st.sessions| && IsLive(st.sessions[i])
    ensures !Pending(st, i)
  {
    forall c ensures !(c in st.calls && st.calls[c] == Won(i)) { assert CallOk(st, c); }
  }

  lemma WonAlone(st: State, i: nat, call: int)
    requires Inv(st) && call in st.calls && st.calls[call] == Won(i)
    ensures Current(st, i) && !IsLive(st.sessions[i]) && !Pending(st.(calls := st.calls - {call}), i)
  {
    assert CallOk(st, call);
    var st' := st.(calls := st.calls - {call});
    forall c ensures !(c in st'.calls && st'.calls[c] == Won(i)) {
      assert c in st'.calls ==> c in st.calls && c != call && st'.calls[c] == st.calls[c];
    }
  }

  lemma DropPending(st: State, call: int, j: nat)
    requires Pending(st.(calls := st.calls - {call}), j)
    ensures Pending(st, j)
  {
    var c :| c in st.calls - {call} && (st.calls - {call})[c] == Won(j);
    assert c in st.calls && st.calls[c] == Won(j);
  }

  /** Logging out with the family's live token ends the family. */
  lemma LogoutEndsFamily(ops: seq<Op>, k: nat, i: nat, now: int)
    requires k < |ops| && i < |Run(ops, k).sessions| && IsLive(Run(ops, k).sessions[i])
    requires ops[k] == Logout(Run(ops, k).sessions[i].tokenHash, now)
    requires Lookup(Run(ops, k).sessions, Run(ops, k).sessions[i].tokenHash, |Run(ops, k).sessions|) == Some(i)
    ensures Ordered(Run(ops, k).parents) && i < |Run(ops, k).parents|
    ensures FamilyDead(Run(ops, k + 1), Root(Run(ops, k).parents, i))
  {
    RunInv(ops, k);
    var st, st' := Run(ops, k), Run(ops, k + 1);
    assert st' == st.(sessions := Revoked(st.sessions, i, now));
    LiveNotPending(st, i);
    forall j: nat | j < |st'.sessions| && Root(st'.parents, j) == Root(st.parents, i)
      ensures !IsLive(st'.sessions[j]) && !Pending(st', j)
    {
      assert Pending(st', j) <==> Pending(st, j);
      if j != i { OnlyCurrent(ops, k, i, j); }
    }
  }

  /** A refresh that crashes after revoking ends the family as well: its user has to log in again. */
  lemma CrashEndsFamily(ops: seq<Op>, k: nat, i: nat, call: int)
    requires k < |ops| && ops[k] == Crash(call) && call in Run(ops, k).calls && Run(ops, k).calls[call] == Won(i)
    ensures Ordered(Run(ops, k).parents) && i < |Run(ops, k).parents|
    ensures FamilyDead(Run(ops, k + 1), Root(Run(ops, k).parents, i))
  {
    RunInv(ops, k);
    var st, st' := Run(ops, k), Run(ops, k + 1);
    WonAlone(st, i, call);
    forall j: nat | j < |st'.sessions| && Root(st'.parents, j) == Root(st.parents, i)
      ensures !IsLive(st'.sessions[j]) && !Pending(st', j)
    {
      if j != i {
        OnlyCurrent(ops, k, i, j);
        if Pending(st', j) { DropPending(st, call, j); }
      }
    }
  }
}
