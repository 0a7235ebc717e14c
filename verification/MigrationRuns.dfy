/**
 Applying and rolling back migrations (pkg/database/migrate.go, `MigrateUp` and `MigrateDown`).
 A statement may fail at any point; what stays is the set of recorded versions.
 */
module MigrationRuns {
  import opened MigrationFiles

  /** What the database answers to a migration's statements: the script, then the bookkeeping row. */
  datatype Outcome = Works | ScriptFails | RecordFails

  type Environment = int -> Outcome

  datatype Attempt = Attempt(recorded: set<int>, ok: bool)

  // ----- what the calls do -----

  /** Going up from the i-th migration. */
  function UpFrom(ms: seq<Migration>, recorded: set<int>, env: Environment, i: nat): Attempt
    requires i <= |ms|
    decreases |ms| - i
  {
    if i == |ms| then Attempt(recorded, true)
    else if ms[i].version in recorded then UpFrom(ms, recorded, env, i + 1)
    else if ms[i].up == "" || env(ms[i].version) != Works then Attempt(recorded, false)
    else UpFrom(ms, recorded + {ms[i].version}, env, i + 1)
  }

  /** The recorded ones of the first k migrations, in order. */
  function Applied(ms: seq<Migration>, recorded: set<int>, k: nat): (r: seq<Migration>)
    requires k <= |ms|
    ensures |r| <= k
  {
    if k == 0 then []
    else if ms[k - 1].version in recorded then Applied(ms, recorded, k - 1) + [ms[k - 1]]
    else Applied(ms, recorded, k - 1)
  }

  /** Rolling back `steps` of the applied migrations, the last of the first `left` first. */
  function DownFrom(applied: seq<Migration>, recorded: set<int>, env: Environment, left: nat, steps: nat): Attempt
    requires steps <= left <= |applied|
    decreases steps
  {
    if steps == 0 then Attempt(recorded, true)
    else
      var m := applied[left - 1];
      if m.down == "" || env(m.version) != Works then Attempt(recorded, false)
      else DownFrom(applied, recorded - {m.version}, env, left - 1, steps - 1)
  }

  /** Zero, a negative number or too many steps mean all. */
  function Clamped(steps: int, n: nat): nat {
    if steps <= 0 || steps > n then n else steps
  }

  function Down(ms: seq<Migration>, recorded: set<int>, env: Environment, steps: int): Attempt {
    var applied := Applied(ms, recorded, |ms|);
    DownFrom(applied, recorded, env, |applied|, Clamped(steps, |applied|))
  }

  // ----- the code -----

  class Database {
    var recorded: set<int>

    constructor ()
      ensures recorded == {}
    {
      recorded := {};
    }

    /** `applyMigration`. */
    method ApplyMigration(m: Migration, answer: Outcome) returns (ok: bool)
      modifies this
      ensures ok <==> answer == Works
      ensures recorded == if ok then old(recorded) + {m.version} else old(recorded)
    {
      if answer == ScriptFails || answer == RecordFails { return false; }
      recorded := recorded + {m.version};
      return true;
    }

    /** `rollbackMigration`. */
    method RollbackMigration(m: Migration, answer: Outcome) returns (ok: bool)
      modifies this
      ensures ok <==> m.down != "" && answer == Works
      ensures recorded == if ok then old(recorded) - {m.version} else old(recorded)
    {
      if m.down == "" { return false; }
      if answer == ScriptFails || answer == RecordFails { return false; }
      recorded := recorded - {m.version};
      return true;
    }

    /** The recorded versions are read once, before the loop. */
    method MigrateUp(ms: seq<Migration>, env: Environment) returns (ok: bool)
      requires Increasing(ms)
      modifies this
      ensures Attempt(recorded, ok) == UpFrom(ms, old(recorded), env, 0)
    {
      var applied := recorded;
      for i := 0 to |ms|
        invariant UpFrom(ms, recorded, env, i) == UpFrom(ms, old(recorded), env, 0)
        invariant forall j :: i <= j < |ms| ==> (ms[j].version in recorded <==> ms[j].version in applied)
      {
        if ms[i].version in applied { continue; }
        if ms[i].up == "" { return false; }
        var done := ApplyMigration(ms[i], env(ms[i].version));
        if !done { return false; }
      }
      return true;
    }

    /** The applied migrations, newest first: collected in order, then reversed in place. */
    method NewestFirst(ms: seq<Migration>) returns (order: array<Migration>)
      ensures fresh(order) && order.Length == |Applied(ms, recorded, |ms|)|
      ensures forall j :: 0 <= j < order.Length ==> order[j] == Applied(ms, recorded, |ms|)[order.Length - 1 - j]
    {
      var applied: seq<Migration> := [];
      for i := 0 to |ms|
        invariant applied == Applied(ms, recorded, i)
      {
        if ms[i].version in recorded { applied := applied + [ms[i]]; }
      }
      order := new Migration[|applied|](i requires 0 <= i < |applied| => applied[i]);
      Reverse(order);
    }

    method MigrateDown(ms: seq<Migration>, env: Environment, steps: int) returns (ok: bool)
      modifies this
      ensures Attempt(recorded, ok) == Down(ms, old(recorded), env, steps)
    {
      var order := NewestFirst(ms);
      ghost var applied := Applied(ms, recorded, |ms|);
      var n := order.Length;
      var count := steps;
      if count <= 0 || count > n { count := n; }
      if count == 0 { return true; }
      for i := 0 to count
        invariant forall j :: 0 <= j < n ==> order[j] == applied[n - 1 - j]
        invariant DownFrom(applied, recorded, env, n - i, count - i) == Down(ms, old(recorded), env, steps)
      {
        var done := RollbackMigration(order[i], env(order[i].version));
        if !done { return false; }
      }
      return true;
    }
  }

  /** Two indices move towards each other, swapping as they go. */
  method Reverse(a: array<Migration>)
    modifies a
    ensures forall k :: 0 <= k < a.Length ==> a[k] == old(a[a.Length - 1 - k])
  {
    var i, j := 0, a.Length - 1;
    while i < j
      invariant 0 <= i <= a.Length && j == a.Length - 1 - i && i <= j + 1
      invariant forall k :: 0 <= k < i || j < k < a.Length ==> a[k] == old(a[a.Length - 1 - k])
      invariant forall k :: i <= k <= j ==> a[k] == old(a[k])
    {
      a[i], a[j] := a[j], a[i];
      i, j := i + 1, j - 1;
    }
  }

  // ----- the recorded set is a prefix -----

  /** The versions of the first n migrations. */
  function FirstOf(ms: seq<Migration>, n: nat): set<int>
    requires n <= |ms|
  {
    set i | 0 <= i < n :: ms[i].version
  }

  lemma InFirst(ms: seq<Migration>, n: nat, i: nat)
    requires Increasing(ms) && n <= |ms| && i < |ms|
    ensures ms[i].version in FirstOf(ms, n) <==> i < n
  {}

  lemma FirstGrows(ms: seq<Migration>, n: nat)
    requires Increasing(ms) && n < |ms|
    ensures FirstOf(ms, n) + {ms[n].version} == FirstOf(ms, n + 1)
    ensures FirstOf(ms, n + 1) - {ms[n].version} == FirstOf(ms, n)
  {
    InFirst(ms, n, n);
  }

  /** The migration cannot be applied. */
  predicate Stuck(m: Migration, env: Environment) {
    m.up == "" || env(m.version) != Works
  }

  /** The migration cannot be rolled back. */
  predicate Pinned(m: Migration, env: Environment) {
    m.down == "" || env(m.version) != Works
  }

  /** Going up from a prefix ends in the longer prefix before the first migration that fails. */
  lemma {:induction false} UpExtends(ms: seq<Migration>, n: nat, env: Environment, i: nat) returns (m: nat)
    requires Increasing(ms) && i <= n <= |ms|
    ensures n <= m <= |ms|
    ensures UpFrom(ms, FirstOf(ms, n), env, i) == Attempt(FirstOf(ms, m), m == |ms|)
    ensures forall j :: n <= j < m ==> !Stuck(ms[j], env)
    ensures m < |ms| ==> Stuck(ms[m], env)
    decreases |ms| - i
  {
    if i == |ms| { return n; }
    InFirst(ms, n, i);
    if i < n {
      m := UpExtends(ms, n, env, i + 1);
    } else if Stuck(ms[i], env) {
      m := n;
    } else {
      FirstGrows(ms, n);
      m := UpExtends(ms, n + 1, env, i + 1);
    }
  }

  lemma {:induction false} AppliedOfPrefix(ms: seq<Migration>, n: nat, k: nat)
    requires Increasing(ms) && n <= |ms| && k <= |ms|
    ensures Applied(ms, FirstOf(ms, n), k) == if k <= n then ms[..k] else ms[..n]
  {
    if k > 0 {
      AppliedOfPrefix(ms, n, k - 1);
      InFirst(ms, n, k - 1);
    }
  }

  /** Going down from a prefix ends in the shorter prefix after the last migration that cannot be undone. */
  lemma {:induction false} DownShrinks(ms: seq<Migration>, n: nat, env: Environment, steps: nat) returns (m: nat)
    requires Increasing(ms) && steps <= n <= |ms|
    ensures n - steps <= m <= n
    ensures DownFrom(ms[..n], FirstOf(ms, n), env, n, steps) == Attempt(FirstOf(ms, m), m == n - steps)
    ensures forall j :: m <= j < n ==> !Pinned(ms[j], env)
    ensures m > n - steps ==> Pinned(ms[m - 1], env)
    decreases steps
  {
    if steps == 0 || Pinned(ms[n - 1], env) { return n; }
    FirstGrows(ms, n - 1);
    m := DownShrinks(ms, n - 1, env, steps - 1);
    DownFromPrefix(ms, FirstOf(ms, n - 1), env, n, n - 1, steps - 1);
  }

  /** Only the migrations still to be rolled back matter. */
  lemma {:induction false} DownFromPrefix(ms: seq<Migration>, recorded: set<int>, env: Environment,
                                          n: nat, left: nat, steps: nat)
    requires steps <= left <= n <= |ms|
    ensures DownFrom(ms[..n], recorded, env, left, steps) == DownFrom(ms[..left], recorded, env, left, steps)
    decreases steps
  {
    if steps > 0 {
      DownFromPrefix(ms, recorded - {ms[left - 1].version}, env, n, left - 1, steps - 1);
      DownFromPrefix(ms, recorded - {ms[left - 1].version}, env, left, left - 1, steps - 1);
    }
  }

  /** One call of the command, by whatever environment it meets. */
  datatype Command = GoUp(env: Environment) | GoDown(env: Environment, steps: int)

  function Perform(ms: seq<Migration>, recorded: set<int>, c: Command): Attempt {
    match c
    case GoUp(env) => UpFrom(ms, recorded, env, 0)
    case GoDown(env, steps) => Down(ms, recorded, env, steps)
  }

  function History(ms: seq<Migration>, cs: seq<Command>, k: nat): set<int>
    requires k <= |cs|
  {
    if k == 0 then {} else Perform(ms, History(ms, cs, k - 1), cs[k - 1]).recorded
  }

  /** After any commands, failed or not, the recorded versions are a prefix of the version order. */
  lemma {:induction false} RecordedIsPrefix(ms: seq<Migration>, cs: seq<Command>, k: nat) returns (n: nat)
    requires Increasing(ms) && k <= |cs|
    ensures n <= |ms| && History(ms, cs, k) == FirstOf(ms, n)
  {
    n := 0;
    if k > 0 {
      var m := RecordedIsPrefix(ms, cs, k - 1);
      match cs[k - 1]
      case GoUp(env) => n := UpExtends(ms, m, env, 0);
      case GoDown(env, steps) =>
        AppliedOfPrefix(ms, m, |ms|);
        n := DownShrinks(ms, m, env, Clamped(steps, m));
    }
  }

  /**
   With everything working, down leaves the prefix shorter by the steps asked for; zero, negative or
   too many steps roll everything back.
   */
  lemma DownLeaves(ms: seq<Migration>, env: Environment, n: nat, steps: int)
    requires Increasing(ms) && n <= |ms| && forall m :: m in ms ==> !Pinned(m, env)
    ensures Down(ms, FirstOf(ms, n), env, steps)
         == Attempt(FirstOf(ms, if 1 <= steps <= n then n - steps else 0), true)
  {
    AppliedOfPrefix(ms, n, |ms|);
    var m := DownShrinks(ms, n, env, Clamped(steps, n));
  }

  /** With everything working, Down(k) from the full state leaves the first n - k, and Up restores all. */
  lemma DownThenUp(ms: seq<Migration>, env: Environment, k: int)
    requires Increasing(ms) && 0 < k <= |ms|
    requires forall m :: m in ms ==> !Stuck(m, env) && !Pinned(m, env)
    ensures Down(ms, FirstOf(ms, |ms|), env, k) == Attempt(FirstOf(ms, |ms| - k), true)
    ensures UpFrom(ms, FirstOf(ms, |ms| - k), env, 0) == Attempt(FirstOf(ms, |ms|), true)
  {
    AppliedOfPrefix(ms, |ms|, |ms|);
    var m := DownShrinks(ms, |ms|, env, k);
    var n := UpExtends(ms, |ms| - k, env, 0);
  }
}
