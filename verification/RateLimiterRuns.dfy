/**
 What the limiter admits over whole traces of calls, in the order in which they take its lock
 (pkg/httpx/ratelimit.go).
 */
module RateLimiterRuns {
  import opened RateLimiter

  datatype Call = Call(key: string, time: real)

  /** The table after the first k calls, starting empty. */
  function Table(l: Limits, pruning: bool, calls: seq<Call>, k: nat): map<string, Bucket>
    requires k <= |calls|
  {
    if k == 0 then map[]
    else After(l, pruning, Table(l, pruning, calls, k - 1), calls[k - 1].key, calls[k - 1].time)
  }

  /** Whether the k-th call is let through. */
  predicate Admitted(l: Limits, pruning: bool, calls: seq<Call>, k: nat)
    requires k < |calls|
  {
    Allowed(l, pruning, Table(l, pruning, calls, k), calls[k].key, calls[k].time)
  }

  /** How many of the key's calls i..k are let through. */
  function Count(l: Limits, pruning: bool, calls: seq<Call>, key: string, i: nat, k: nat): nat
    requires i <= k <= |calls|
  {
    if i == k then 0
    else if calls[k - 1].key == key && Admitted(l, pruning, calls, k - 1)
      then Count(l, pruning, calls, key, i, k - 1) + 1
      else Count(l, pruning, calls, key, i, k - 1)
  }

  predicate Monotone(calls: seq<Call>) {
    forall i, j :: 0 <= i <= j < |calls| ==> calls[i].time <= calls[j].time
  }

  // ----- the bound -----

  lemma CreditGrows(l: Limits, t1: real, t2: real)
    requires l.perSec >= 0.0 && t1 <= t2
    ensures Credit(l, t1) <= Credit(l, t2)
  {}

  /**
   Every admitted call of the window costs one token of what the bucket can have had since t1;
   refilling does not change that account and clamping only lowers it.
   */
  ghost predicate Spent(l: Limits, m: map<string, Bucket>, key: string, t1: real, n: nat) {
    n == 0 || (key in m && m[key].tokens - Credit(l, m[key].lastFill) <= l.cap - Credit(l, t1) - n as real)
  }

  lemma SpendStep(l: Limits, m: map<string, Bucket>, call: Call, key: string, t1: real, n: nat)
    requires l.perSec >= 0.0 && Spent(l, m, key, t1, n)
    requires call.key == key ==> t1 <= call.time
    ensures var took := call.key == key && Allowed(l, false, m, call.key, call.time);
      Spent(l, After(l, false, m, call.key, call.time), key, t1, if took then n + 1 else n)
  {
    if call.key == key { CreditGrows(l, t1, call.time); }
  }

  lemma {:induction false} SpentByCount(l: Limits, calls: seq<Call>, key: string, t1: real, i: nat, k: nat)
    requires i <= k <= |calls| && l.perSec >= 0.0
    requires forall j :: i <= j < k && calls[j].key == key ==> t1 <= calls[j].time
    ensures Spent(l, Table(l, false, calls, k), key, t1, Count(l, false, calls, key, i, k))
  {
    if i < k {
      SpentByCount(l, calls, key, t1, i, k - 1);
      SpendStep(l, Table(l, false, calls, k - 1), calls[k - 1], key, t1, Count(l, false, calls, key, i, k - 1));
    }
  }

  /** A call that was let through leaves a bucket that is not overdrawn. */
  lemma AfterAdmitted(l: Limits, calls: seq<Call>, k: nat)
    requires k < |calls| && Admitted(l, false, calls, k)
    ensures var m := Table(l, false, calls, k + 1);
      calls[k].key in m && m[calls[k].key].tokens >= 0.0 && m[calls[k].key].lastFill == calls[k].time
  {}

  /**
   Up to and including an admitted call at t2, at most cap + perSec * (t2 - t1) of a key's calls made
   since t1 are admitted, whatever the clock does in between.
   */
  lemma AdmittedWithinRate(l: Limits, calls: seq<Call>, key: string, t1: real, i: nat, k: nat)
    requires i <= k < |calls| && l.perSec >= 0.0
    requires calls[k].key == key && Admitted(l, false, calls, k)
    requires forall j :: i <= j <= k && calls[j].key == key ==> t1 <= calls[j].time
    ensures Count(l, false, calls, key, i, k + 1) as real <= l.cap + Credit(l, calls[k].time) - Credit(l, t1)
  {
    SpentByCount(l, calls, key, t1, i, k + 1);
    AfterAdmitted(l, calls, k);
    assert Count(l, false, calls, key, i, k + 1) > 0;
  }

  /** The same for a window of calls, when the clock does not run backwards in it. */
  lemma {:induction false} FullRateBound(l: Limits, calls: seq<Call>, key: string, t1: real, t2: real, i: nat, k: nat)
    requires i <= k <= |calls| && l.perSec >= 0.0 && l.cap >= 0.0 && t1 <= t2
    requires forall j :: i <= j < k ==> t1 <= calls[j].time <= t2
    ensures Count(l, false, calls, key, i, k) as real <= l.cap + Credit(l, t2) - Credit(l, t1)
  {
    CreditGrows(l, t1, t2);
    if i < k {
      if calls[k - 1].key == key && Admitted(l, false, calls, k - 1) {
        AdmittedWithinRate(l, calls, key, t1, i, k - 1);
        CreditGrows(l, calls[k - 1].time, t2);
      } else {
        FullRateBound(l, calls, key, t1, t2, i, k - 1);
      }
    }
  }

  // ----- pruning changes no decision -----

  /** The pruned table is the full one less some buckets that have been idle long enough to be full. */
  ghost predicate Refines(pruned: map<string, Bucket>, full: map<string, Bucket>, now: real) {
    && (forall k :: k in pruned ==> k in full && pruned[k] == full[k])
    && (forall k :: k in full ==> 0.0 <= full[k].tokens && full[k].lastFill <= now)
    && (forall k :: k in full && k !in pruned ==> Stale(full[k], now))
  }

  /** Fifteen idle minutes fill any bucket to the brim. */
  lemma StaleFills(rpm: int, b: Bucket, now: real)
    requires rpm > 0 && b.tokens >= 0.0 && Stale(b, now)
    ensures var l := LimitsFor(rpm); Filled(l, b, now) == Filled(l, Bucket(l.cap, now), now) == Bucket(l.cap, now)
  {
    var l := LimitsFor(rpm);
    CreditGrows(l, b.lastFill + 900.0, now);
    assert Credit(l, b.lastFill + 900.0) == Credit(l, b.lastFill) + 15.0 * l.cap;
  }

  /** The caller's own bucket is filled alike whether it was kept, pruned or never there. */
  lemma FoundAtKey(rpm: int, pruned: map<string, Bucket>, full: map<string, Bucket>, key: string, now: real)
    requires rpm > 0 && Refines(pruned, full, now)
    ensures var l := LimitsFor(rpm);
      && Filled(l, Found(l, true, pruned, key, now)[key], now) == Filled(l, Found(l, false, full, key, now)[key], now)
      && 0.0 <= Filled(l, Found(l, false, full, key, now)[key], now).tokens
  {
    var l := LimitsFor(rpm);
    assert l.perSec >= 0.0 && l.cap >= 0.0;
    if key in full {
      FillNonNegative(l, full[key], now);
      if key !in pruned { StaleFills(rpm, full[key], now); }
    } else {
      FillNonNegative(l, Bucket(l.cap, now), now);
    }
  }

  lemma FillNonNegative(l: Limits, b: Bucket, now: real)
    requires l.perSec >= 0.0 && l.cap >= 0.0 && b.tokens >= 0.0 && b.lastFill <= now
    ensures Filled(l, b, now).tokens >= 0.0
  {
    CreditGrows(l, b.lastFill, now);
  }

  lemma FoundElsewhere(l: Limits, pruned: map<string, Bucket>, full: map<string, Bucket>, key: string, now: real)
    requires Refines(pruned, full, now)
    ensures var p := Found(l, true, pruned, key, now);
      var f := Found(l, false, full, key, now);
      && (forall k :: k in p && k != key ==> k in f && p[k] == f[k])
      && (forall k :: k in f && k != key ==> k in full && f[k] == full[k])
      && (forall k :: k in f && k != key && k !in p ==> Stale(f[k], now))
  {}

  lemma StepRefines(rpm: int, pruned: map<string, Bucket>, full: map<string, Bucket>, key: string, now: real)
    requires rpm > 0 && Refines(pruned, full, now)
    ensures var l := LimitsFor(rpm);
      && (Allowed(l, true, pruned, key, now) <==> Allowed(l, false, full, key, now))
      && Refines(After(l, true, pruned, key, now), After(l, false, full, key, now), now)
  {
    FoundAtKey(rpm, pruned, full, key, now);
    FoundElsewhere(LimitsFor(rpm), pruned, full, key, now);
  }

  lemma {:induction false} TablesRefine(rpm: int, calls: seq<Call>, k: nat, now: real)
    requires rpm > 0 && k <= |calls| && Monotone(calls)
    requires forall j :: 0 <= j < k ==> calls[j].time <= now
    ensures Refines(Table(LimitsFor(rpm), true, calls, k), Table(LimitsFor(rpm), false, calls, k), now)
  {
    if k > 0 {
      var t := calls[k - 1].time;
      TablesRefine(rpm, calls, k - 1, t);
      StepRefines(rpm, Table(LimitsFor(rpm), true, calls, k - 1), Table(LimitsFor(rpm), false, calls, k - 1),
                  calls[k - 1].key, t);
    }
  }

  /** With a clock that does not run backwards, pruning changes no decision. */
  lemma PruningIsInvisible(rpm: int, calls: seq<Call>, k: nat)
    requires rpm > 0 && k < |calls| && Monotone(calls)
    ensures Admitted(LimitsFor(rpm), true, calls, k) <==> Admitted(LimitsFor(rpm), false, calls, k)
  {
    TablesRefine(rpm, calls, k, calls[k].time);
    StepRefines(rpm, Table(LimitsFor(rpm), true, calls, k), Table(LimitsFor(rpm), false, calls, k),
                calls[k].key, calls[k].time);
  }

  lemma {:induction false} CountsAgree(rpm: int, calls: seq<Call>, key: string, i: nat, k: nat)
    requires rpm > 0 && i <= k <= |calls| && Monotone(calls)
    ensures Count(LimitsFor(rpm), true, calls, key, i, k) == Count(LimitsFor(rpm), false, calls, key, i, k)
  {
    if i < k {
      CountsAgree(rpm, calls, key, i, k - 1);
      PruningIsInvisible(rpm, calls, k - 1);
    }
  }

  lemma PerMinute(rpm: int, t1: real, t2: real, n: nat)
    requires rpm > 0 && t1 <= t2
    requires n as real <= LimitsFor(rpm).cap + Credit(LimitsFor(rpm), t2) - Credit(LimitsFor(rpm), t1)
    ensures n as real <= rpm as real * (1.0 + (t2 - t1) / 60.0)
  {
    var perSec := rpm as real / 60.0;
    assert perSec * t2 - perSec * t1 == perSec * (t2 - t1) == rpm as real * ((t2 - t1) / 60.0);
  }

  /** The limiter as it runs: of a key's calls between t1 and t2, at most rpm * (1 + (t2 - t1) / 60) pass. */
  lemma RateBound(rpm: int, calls: seq<Call>, key: string, t1: real, t2: real, i: nat, k: nat)
    requires rpm > 0 && i <= k <= |calls| && Monotone(calls) && t1 <= t2
    requires forall j :: i <= j < k ==> t1 <= calls[j].time <= t2
    ensures Count(LimitsFor(rpm), true, calls, key, i, k) as real <= rpm as real * (1.0 + (t2 - t1) / 60.0)
  {
    CountsAgree(rpm, calls, key, i, k);
    var n := Count(LimitsFor(rpm), false, calls, key, i, k);
    FullRateBound(LimitsFor(rpm), calls, key, t1, t2, i, k);
    PerMinute(rpm, t1, t2, n);
  }

  lemma BurstStep(rpm: int, m: map<string, Bucket>, key: string, t: real, left: nat)
    requires rpm > 0 && left <= rpm
    requires m == map[key := Bucket(left as real, t)] || (m == map[] && left == rpm)
    ensures var l := LimitsFor(rpm);
      && (Allowed(l, true, m, key, t) <==> left > 0)
      && After(l, true, m, key, t) == map[key := Bucket(if left > 0 then (left - 1) as real else 0.0, t)]
  {
    var l := LimitsFor(rpm);
    assert Filled(l, Bucket(left as real, t), t) == Bucket(left as real, t);
    assert |m| <= 1;
  }

  /** The bound is reached: of a burst by a new client exactly the first `rpm` calls pass. */
  lemma {:induction false} BurstAdmitsExactlyCap(rpm: int, calls: seq<Call>, key: string, t: real, k: nat)
    requires rpm > 0 && k < |calls| && forall j :: 0 <= j < |calls| ==> calls[j] == Call(key, t)
    ensures Admitted(LimitsFor(rpm), true, calls, k) <==> k < rpm
    ensures Table(LimitsFor(rpm), true, calls, k + 1)
            == map[key := Bucket(if k < rpm then (rpm - k - 1) as real else 0.0, t)]
  {
    if k > 0 { BurstAdmitsExactlyCap(rpm, calls, key, t, k - 1); }
    BurstStep(rpm, Table(LimitsFor(rpm), true, calls, k), key, t, if k <= rpm then rpm - k else 0);
  }

  // ----- who is never refused -----

  /** Of the first k calls the j-th is the key's last. */
  predicate IsLastCall(calls: seq<Call>, key: string, j: int, k: nat)
    requires k <= |calls|
  {
    0 <= j < k && calls[j].key == key && forall i :: j < i < k ==> calls[i].key != key
  }

  /** A bucket was last filled at its key's last call. */
  lemma {:induction false} BucketIsLastCall(l: Limits, pruning: bool, calls: seq<Call>, key: string, k: nat)
    returns (j: nat)
    requires k <= |calls| && key in Table(l, pruning, calls, k)
    ensures IsLastCall(calls, key, j, k) && Table(l, pruning, calls, k)[key].lastFill == calls[j].time
  {
    if calls[k - 1].key == key {
      j := k - 1;
    } else {
      j := BucketIsLastCall(l, pruning, calls, key, k - 1);
    }
  }

  /** The key's calls are at least this many seconds apart. */
  predicate Spaced(calls: seq<Call>, key: string, gap: real) {
    forall i, j :: 0 <= i < j < |calls| && calls[i].key == key && calls[j].key == key ==>
      calls[i].time + gap <= calls[j].time
  }

  lemma TokenPerGap(rpm: int, from: real, now: real)
    requires rpm > 0 && from + 60.0 / rpm as real <= now
    ensures Credit(LimitsFor(rpm), from) + 1.0 <= Credit(LimitsFor(rpm), now)
  {
    var perSec, gap := rpm as real / 60.0, 60.0 / rpm as real;
    assert perSec * gap == 1.0;
    assert perSec * (from + gap) == perSec * from + perSec * gap;
    CreditGrows(LimitsFor(rpm), from + gap, now);
  }

  lemma SpacedStep(rpm: int, m: map<string, Bucket>, key: string, now: real)
    requires rpm > 0
    requires key in m ==> m[key].tokens >= 0.0 && m[key].lastFill + 60.0 / rpm as real <= now
    ensures Allowed(LimitsFor(rpm), true, m, key, now)
    ensures After(LimitsFor(rpm), true, m, key, now)[key].tokens >= 0.0
  {
    if key in m { TokenPerGap(rpm, m[key].lastFill, now); }
  }

  lemma {:induction false} SpacedNotOverdrawn(rpm: int, calls: seq<Call>, key: string, k: nat)
    requires rpm > 0 && k <= |calls| && Spaced(calls, key, 60.0 / rpm as real)
    ensures key in Table(LimitsFor(rpm), true, calls, k) ==> Table(LimitsFor(rpm), true, calls, k)[key].tokens >= 0.0
  {
    if k > 0 {
      SpacedNotOverdrawn(rpm, calls, key, k - 1);
      if calls[k - 1].key == key {
        if key in Table(LimitsFor(rpm), true, calls, k - 1) {
          var j := BucketIsLastCall(LimitsFor(rpm), true, calls, key, k - 1);
        }
        SpacedStep(rpm, Table(LimitsFor(rpm), true, calls, k - 1), key, calls[k - 1].time);
      }
    }
  }

  /** A client whose calls are at least 60/rpm seconds apart is never refused, whatever others do. */
  lemma SpacedNeverRefused(rpm: int, calls: seq<Call>, key: string, k: nat)
    requires rpm > 0 && k < |calls| && calls[k].key == key && Spaced(calls, key, 60.0 / rpm as real)
    ensures Admitted(LimitsFor(rpm), true, calls, k)
  {
    SpacedNotOverdrawn(rpm, calls, key, k);
    if key in Table(LimitsFor(rpm), true, calls, k) {
      var j := BucketIsLastCall(LimitsFor(rpm), true, calls, key, k);
    }
    SpacedStep(rpm, Table(LimitsFor(rpm), true, calls, k), key, calls[k].time);
  }

  /** With up to ten thousand buckets, and for clients already known, nothing is dropped. */
  lemma NothingDropped(l: Limits, calls: seq<Call>, key: string, k: nat)
    requires k < |calls| && key in Table(l, true, calls, k)
    requires |Table(l, true, calls, k)| <= 10000 || calls[k].key in Table(l, true, calls, k)
    ensures key in Table(l, true, calls, k + 1)
    ensures key != calls[k].key ==> Table(l, true, calls, k + 1)[key] == Table(l, true, calls, k)[key]
  {}

  /**
   When a new client finds more than ten thousand buckets, exactly those survive whose clients called
   within the last fifteen minutes.
   */
  lemma PruneKeepsRecentIff(l: Limits, calls: seq<Call>, key: string, k: nat)
    requires k < |calls| && key != calls[k].key && key in Table(l, true, calls, k)
    requires calls[k].key !in Table(l, true, calls, k) && |Table(l, true, calls, k)| > 10000
    ensures key in Table(l, true, calls, k + 1) <==>
      exists j :: IsLastCall(calls, key, j, k) && calls[k].time - calls[j].time <= 900.0
  {
    var j := BucketIsLastCall(l, true, calls, key, k);
    forall i | IsLastCall(calls, key, i, k) ensures i == j {}
  }
}
