/**
 Loading migrations: merging the .up and .down files of a directory into one record per version,
 in version order (pkg/database/migrate.go, `LoadMigrations`).
 */
module MigrationFiles {
  import opened Options

  datatype Migration = Migration(version: int, name: string, up: string, down: string)

  /** A directory entry; content is None when reading it fails. */
  datatype File = File(isDir: bool, name: string, content: Option<string>)

  // ----- strings -----

  predicate HasSuffix(s: string, suffix: string) {
    |suffix| <= |s| && s[|s| - |suffix|..] == suffix
  }

  function TrimSuffix(s: string, suffix: string): string {
    if HasSuffix(s, suffix) then s[..|s| - |suffix|] else s
  }

  /** The position of the first underscore at or after k, or the length. */
  function Underscore(s: string, k: nat): (r: nat)
    requires k <= |s|
    ensures k <= r <= |s|
    ensures forall j :: k <= j < r ==> s[j] != '_'
    ensures r < |s| ==> s[r] == '_'
    decreases |s| - k
  {
    if k == |s| || s[k] == '_' then k else Underscore(s, k + 1)
  }

  function Digits(s: string, k: nat): Option<int>
    requires k <= |s|
  {
    if k == 0 then Some(0)
    else if !('0' <= s[k - 1] <= '9') then None
    else
      match Digits(s, k - 1)
      case None => None
      case Some(n) => Some(10 * n + (s[k - 1] as int - '0' as int))
  }

  /** A decimal 64-bit integer with an optional sign. */
  function ParseInt(s: string): Option<int> {
    var signed := |s| > 0 && (s[0] == '-' || s[0] == '+');
    var digits := if signed then s[1..] else s;
    if digits == "" then None
    else
      match Digits(digits, |digits|)
      case None => None
      case Some(n) =>
        var v: int := if signed && s[0] == '-' then -n else n;
        if -0x8000_0000_0000_0000 <= v <= 0x7fff_ffff_ffff_ffff then Some(v) else None
  }

  /** What a migration's file name says: its version, and the rest without ".sql". */
  datatype Title = Title(version: int, rest: string)

  /** The title of the entries that are migrations. */
  function Parse(f: File): Option<Title> {
    if f.isDir || !HasSuffix(f.name, ".sql") then None
    else
      var u := Underscore(f.name, 0);
      if u == |f.name| then None
      else
        match ParseInt(f.name[..u])
        case None => None
        case Some(v) => Some(Title(v, TrimSuffix(f.name[u + 1..], ".sql")))
  }

  // ----- which names are migrations -----

  function Decimal(n: nat): (s: string)
    ensures |s| > 0 && forall i :: 0 <= i < |s| ==> '0' <= s[i] <= '9'
  {
    if n < 10 then [('0' as int + n) as char] else Decimal(n / 10) + [('0' as int + n % 10) as char]
  }

  lemma {:induction false} DigitsPrefix(s: string, t: string, k: nat)
    requires k <= |s|
    ensures Digits(s + t, k) == Digits(s, k)
  {
    if k > 0 { DigitsPrefix(s, t, k - 1); }
  }

  lemma {:induction false} DigitsOfDecimal(n: nat)
    ensures Digits(Decimal(n), |Decimal(n)|) == Some(n)
  {
    if n < 10 {
      assert Digits(Decimal(n), 0) == Some(0);
    } else {
      DigitsOfDecimal(n / 10);
      DigitsPrefix(Decimal(n / 10), [('0' as int + n % 10) as char], |Decimal(n / 10)|);
    }
  }

  function Zeros(z: nat): string {
    seq(z, _ => '0')
  }

  lemma {:induction false} DigitsOfZeros(z: nat, t: string, k: nat)
    requires k <= z
    ensures Digits(Zeros(z) + t, k) == Some(0)
  {
    if k > 0 { DigitsOfZeros(z, t, k - 1); }
  }

  lemma {:induction false} DigitsPadded(z: nat, t: string, k: nat)
    requires k <= |t|
    ensures Digits(Zeros(z) + t, z + k) == Digits(t, k)
  {
    if k == 0 {
      DigitsOfZeros(z, t, z);
    } else {
      DigitsPadded(z, t, k - 1);
      assert (Zeros(z) + t)[z + k - 1] == t[k - 1];
    }
  }

  lemma ParseDigits(s: string, n: int)
    requires s != "" && s[0] != '-' && s[0] != '+' && Digits(s, |s|) == Some(n) && 0 <= n <= 0x7fff_ffff_ffff_ffff
    ensures ParseInt(s) == Some(n)
    ensures ParseInt(['-'] + s) == Some(-n) && ParseInt(['+'] + s) == Some(n)
  {
    assert (['-'] + s)[1..] == s && (['+'] + s)[1..] == s;
  }

  /** A version is read back from its decimal digits, with leading zeros or a sign in front. */
  lemma VersionReadBack(z: nat, n: int)
    requires 0 <= n <= 0x7fff_ffff_ffff_ffff
    ensures var s := Zeros(z) + Decimal(n);
      ParseInt(s) == Some(n) && ParseInt(['-'] + s) == Some(-n) && ParseInt(['+'] + s) == Some(n)
  {
    var d := Decimal(n);
    var s := Zeros(z) + d;
    DigitsPadded(z, d, |d|);
    DigitsOfDecimal(n);
    assert s[0] == if z > 0 then Zeros(z)[0] else d[0];
    ParseDigits(s, n);
  }

  /** The part before the first underscore gives the version, the rest without ".sql" the name. */
  predicate Named(name: string, prefix: string, t: Title) {
    '_' !in prefix && ParseInt(prefix) == Some(t.version) && name == prefix + "_" + t.rest + ".sql"
  }

  lemma FirstUnderscore(prefix: string, rest: string)
    requires '_' !in prefix
    ensures Underscore(prefix + "_" + rest, 0) == |prefix|
  {
    var s := prefix + "_" + rest;
    assert s[|prefix|] == '_';
    forall j | 0 <= j < |prefix| ensures s[j] != '_' {
      assert s[j] == prefix[j] && prefix[j] in prefix;
    }
  }

  lemma SuffixOf(s: string, suffix: string)
    ensures HasSuffix(s + suffix, suffix) && TrimSuffix(s + suffix, suffix) == s
  {
    assert (s + suffix)[|s|..] == suffix && (s + suffix)[..|s|] == s;
  }

  lemma NameParses(f: File, prefix: string, t: Title)
    requires !f.isDir && Named(f.name, prefix, t)
    ensures Parse(f) == Some(t)
  {
    var tail := t.rest + ".sql";
    assert f.name == prefix + "_" + tail;
    FirstUnderscore(prefix, tail);
    assert f.name[..|prefix|] == prefix && f.name[|prefix| + 1..] == tail;
    SuffixOf(t.rest, ".sql");
    SuffixOf(prefix + "_" + t.rest, ".sql");
    assert f.name == (prefix + "_" + t.rest) + ".sql";
  }

  /** A suffix without underscores comes after the first underscore. */
  lemma UnderscoreBefore(s: string, suffix: string)
    requires HasSuffix(s, suffix) && '_' !in suffix && Underscore(s, 0) < |s|
    ensures Underscore(s, 0) < |s| - |suffix|
  {
    forall j | |s| - |suffix| <= j < |s| ensures s[j] != '_' {
      assert s[j] == suffix[j - (|s| - |suffix|)];
    }
  }

  lemma SplitSuffix(s: string, u: nat, suffix: string)
    requires HasSuffix(s, suffix) && u < |s| - |suffix|
    ensures s[u + 1..] == TrimSuffix(s[u + 1..], suffix) + suffix
  {
    var tail := s[u + 1..];
    assert tail[|tail| - |suffix|..] == s[|s| - |suffix|..];
  }

  lemma Rejoin(name: string, u: nat, suffix: string)
    requires HasSuffix(name, suffix) && u < |name| - |suffix| && name[u] == '_'
    ensures name == name[..u] + "_" + TrimSuffix(name[u + 1..], suffix) + suffix
  {
    SplitSuffix(name, u, suffix);
    var tail := name[u + 1..];
    assert name == name[..u] + [name[u]] + tail;
    assert name[..u] + [name[u]] + tail == name[..u] + "_" + tail;
    assert name[..u] + "_" + (TrimSuffix(tail, suffix) + suffix) == name[..u] + "_" + TrimSuffix(tail, suffix) + suffix;
  }

  lemma ParsedIsNamed(f: File, t: Title)
    requires Parse(f) == Some(t)
    ensures !f.isDir && exists prefix :: Named(f.name, prefix, t)
  {
    var u := Underscore(f.name, 0);
    UnderscoreBefore(f.name, ".sql");
    Rejoin(f.name, u, ".sql");
    var prefix := f.name[..u];
    assert '_' !in prefix;
    assert Named(f.name, prefix, t);
  }

  /** An entry is taken for a migration exactly when it is a file named version_name.sql. */
  lemma ParseIff(f: File, t: Title)
    ensures Parse(f) == Some(t) <==> !f.isDir && exists prefix :: Named(f.name, prefix, t)
  {
    if Parse(f) == Some(t) { ParsedIsNamed(f, t); }
    if prefix :| Named(f.name, prefix, t) && !f.isDir { NameParses(f, prefix, t); }
  }

  predicate IsFor(f: File, version: int) {
    Parse(f).Some? && Parse(f).value.version == version
  }

  // ----- what the merged records should be -----

  /** A migration file that cannot be read. */
  predicate Unreadable(f: File) {
    Parse(f).Some? && f.content.None?
  }

  /** The content of the last of the first k files of the version whose name ends this way. */
  function LastContent(files: seq<File>, version: int, ending: string, k: nat): string
    requires k <= |files|
  {
    if k == 0 then ""
    else if IsFor(files[k - 1], version) && HasSuffix(Parse(files[k - 1]).value.rest, ending) && files[k - 1].content.Some?
      then files[k - 1].content.value
      else LastContent(files, version, ending, k - 1)
  }

  function Stem(rest: string): string {
    if HasSuffix(rest, ".down") then TrimSuffix(rest, ".down") else TrimSuffix(rest, ".up")
  }

  /** The name the last of the first k files of the version gives it. */
  function LastName(files: seq<File>, version: int, k: nat): string
    requires k <= |files|
  {
    if k == 0 then ""
    else if IsFor(files[k - 1], version) then Stem(Parse(files[k - 1]).value.rest)
    else LastName(files, version, k - 1)
  }

  lemma StemOfName(name: string)
    ensures Stem(name + ".up") == name && Stem(name + ".down") == name
  {
    EndingsDiffer(name + ".up");
    assert (name + ".up")[|name|..] == ".up" && (name + ".up")[..|name|] == name;
    assert (name + ".down")[|name|..] == ".down" && (name + ".down")[..|name|] == name;
  }

  predicate Mentioned(files: seq<File>, version: int, k: nat)
    requires k <= |files|
  {
    exists j :: 0 <= j < k && IsFor(files[j], version)
  }

  predicate MergedAt(files: seq<File>, byVersion: map<int, Migration>, k: nat, v: int)
    requires k <= |files|
  {
    && (v in byVersion <==> Mentioned(files, v, k))
    && (v in byVersion ==>
          && byVersion[v].version == v
          && byVersion[v].name == LastName(files, v, k)
          && byVersion[v].up == LastContent(files, v, ".up", k)
          && byVersion[v].down == LastContent(files, v, ".down", k))
  }

  ghost predicate Merged(files: seq<File>, byVersion: map<int, Migration>, k: nat)
    requires k <= |files|
  {
    forall v :: MergedAt(files, byVersion, k, v)
  }

  predicate Increasing(ms: seq<Migration>) {
    forall i, j :: 0 <= i < j < |ms| ==> ms[i].version < ms[j].version
  }

  predicate Has(ms: seq<Migration>, version: int) {
    exists i :: 0 <= i < |ms| && ms[i].version == version
  }

  /** One record per version of the directory, in strictly increasing order, with its latest contents. */
  ghost predicate Loaded(files: seq<File>, ms: seq<Migration>) {
    && Increasing(ms)
    && (forall v :: Mentioned(files, v, |files|) <==> Has(ms, v))
    && (forall i :: 0 <= i < |ms| ==>
          && ms[i].name == LastName(files, ms[i].version, |files|)
          && ms[i].up == LastContent(files, ms[i].version, ".up", |files|)
          && ms[i].down == LastContent(files, ms[i].version, ".down", |files|))
  }

  // ----- the loops -----

  /** The record so far, or an empty one. */
  function Record(byVersion: map<int, Migration>, version: int): Migration {
    if version in byVersion then byVersion[version] else Migration(version, "", "", "")
  }

  function WithFile(m: Migration, t: Title, content: string): Migration {
    if HasSuffix(t.rest, ".down") then m.(version := t.version, name := TrimSuffix(t.rest, ".down"), down := content)
    else if HasSuffix(t.rest, ".up") then m.(version := t.version, name := TrimSuffix(t.rest, ".up"), up := content)
    else m.(version := t.version, name := t.rest)
  }

  lemma LastOf(s: string, suffix: string)
    requires HasSuffix(s, suffix) && suffix != ""
    ensures s[|s| - 1] == suffix[|suffix| - 1]
  {
    assert s[|s| - |suffix|..][|suffix| - 1] == s[|s| - 1];
  }

  lemma EndingsDiffer(s: string)
    ensures !(HasSuffix(s, ".up") && HasSuffix(s, ".down"))
  {
    if HasSuffix(s, ".up") { LastOf(s, ".up"); }
    if HasSuffix(s, ".down") { LastOf(s, ".down"); }
  }

  lemma MentionStep(files: seq<File>, k: nat, w: int)
    requires k < |files|
    ensures Mentioned(files, w, k + 1) <==> Mentioned(files, w, k) || IsFor(files[k], w)
  {
    if Mentioned(files, w, k + 1) {
      var j :| 0 <= j < k + 1 && IsFor(files[j], w);
      assert j < k || IsFor(files[k], w);
    }
  }

  lemma {:induction false} NothingYet(files: seq<File>, v: int, ending: string, k: nat)
    requires k <= |files| && !Mentioned(files, v, k)
    ensures LastContent(files, v, ending, k) == ""
  {
    if k > 0 {
      MentionStep(files, k - 1, v);
      NothingYet(files, v, ending, k - 1);
    }
  }

  lemma LastStep(files: seq<File>, k: nat, t: Title, v: int, ending: string)
    requires k < |files| && Parse(files[k]) == Some(t) && files[k].content.Some?
    ensures LastContent(files, v, ending, k + 1) ==
      if v == t.version && HasSuffix(t.rest, ending) then files[k].content.value else LastContent(files, v, ending, k)
  {}

  lemma RecordSoFar(files: seq<File>, byVersion: map<int, Migration>, k: nat, v: int)
    requires k <= |files| && Merged(files, byVersion, k)
    ensures Record(byVersion, v).up == LastContent(files, v, ".up", k)
    ensures Record(byVersion, v).down == LastContent(files, v, ".down", k)
  {
    assert MergedAt(files, byVersion, k, v);
    if v !in byVersion {
      NothingYet(files, v, ".up", k);
      NothingYet(files, v, ".down", k);
    }
  }

  lemma WithFileSoFar(files: seq<File>, m: Migration, k: nat, t: Title)
    requires k < |files| && Parse(files[k]) == Some(t) && files[k].content.Some?
    requires m.up == LastContent(files, t.version, ".up", k) && m.down == LastContent(files, t.version, ".down", k)
    ensures var r := WithFile(m, t, files[k].content.value);
      && r.version == t.version
      && r.name == LastName(files, t.version, k + 1)
      && r.up == LastContent(files, t.version, ".up", k + 1)
      && r.down == LastContent(files, t.version, ".down", k + 1)
  {
    LastStep(files, k, t, t.version, ".up");
    LastStep(files, k, t, t.version, ".down");
    EndingsDiffer(t.rest);
  }

  /** Merging one more file. */
  lemma MergeStep(files: seq<File>, byVersion: map<int, Migration>, k: nat, t: Title, m: Migration)
    requires k < |files| && Merged(files, byVersion, k) && Parse(files[k]) == Some(t) && files[k].content.Some?
    requires m == WithFile(Record(byVersion, t.version), t, files[k].content.value)
    ensures Merged(files, byVersion[t.version := m], k + 1)
  {
    RecordSoFar(files, byVersion, k, t.version);
    WithFileSoFar(files, Record(byVersion, t.version), k, t);
    var n, merged := k + 1, byVersion[t.version := m];
    forall v ensures MergedAt(files, merged, n, v) {
      assert MergedAt(files, byVersion, k, v);
      MentionStep(files, k, v);
      if v != t.version {
        LastStep(files, k, t, v, ".up");
        LastStep(files, k, t, v, ".down");
      }
    }
  }

  method MergeFile(m: Migration, t: Title, content: string) returns (r: Migration)
    ensures r == WithFile(m, t, content)
  {
    r := m.(version := t.version, name := t.rest);
    if HasSuffix(t.rest, ".up") {
      r := r.(name := TrimSuffix(t.rest, ".up"), up := content);
    }
    if HasSuffix(t.rest, ".down") {
      r := r.(name := TrimSuffix(t.rest, ".down"), down := content);
    }
    EndingsDiffer(t.rest);
  }

  /** One round of the loop; None when the file cannot be read. */
  method MergeNext(files: seq<File>, byVersion: map<int, Migration>, k: nat)
    returns (r: Option<map<int, Migration>>)
    requires k < |files| && Merged(files, byVersion, k)
    ensures r.None? <==> Unreadable(files[k])
    ensures r.Some? ==> Merged(files, r.value, k + 1)
  {
    var title := Parse(files[k]);
    if title.None? {
      SkipStep(files, byVersion, k);
      return Some(byVersion);
    }
    if files[k].content.None? { return None; }
    var m := MergeFile(Record(byVersion, title.value.version), title.value, files[k].content.value);
    MergeStep(files, byVersion, k, title.value, m);
    return Some(byVersion[title.value.version := m]);
  }

  method LoadMigrations(files: seq<File>) returns (r: Result<seq<Migration>, File>)
    ensures r.Failure? <==> exists i :: 0 <= i < |files| && Unreadable(files[i])
    ensures r.Failure? ==> r.error in files && Unreadable(r.error)
    ensures r.Success? ==> Loaded(files, r.value)
  {
    var byVersion: map<int, Migration> := map[];
    for k := 0 to |files|
      invariant Merged(files, byVersion, k)
      invariant forall i :: 0 <= i < k ==> !Unreadable(files[i])
    {
      var next := MergeNext(files, byVersion, k);
      if next.None? { return Failure(files[k]); }
      byVersion := next.value;
    }
    forall v | v in byVersion ensures byVersion[v].version == v {
      assert MergedAt(files, byVersion, |files|, v);
    }
    var ms := InVersionOrder(byVersion);
    LoadedFrom(files, byVersion, ms);
    return Success(ms);
  }

  lemma SkipStep(files: seq<File>, byVersion: map<int, Migration>, k: nat)
    requires k < |files| && Merged(files, byVersion, k) && Parse(files[k]).None?
    ensures Merged(files, byVersion, k + 1)
  {
    var n := k + 1;
    forall v ensures MergedAt(files, byVersion, n, v) {
      assert MergedAt(files, byVersion, k, v);
      MentionStep(files, k, v);
    }
  }

  /** The records of the versions not left, in order, all before those left. */
  ghost predicate Taken(byVersion: map<int, Migration>, left: set<int>, ms: seq<Migration>) {
    && Increasing(ms)
    && (forall i :: 0 <= i < |ms| ==> ms[i].version in byVersion && ms[i] == byVersion[ms[i].version])
    && (forall i, v :: 0 <= i < |ms| && v in left ==> ms[i].version < v)
    && (forall v :: v in byVersion && v !in left ==> Has(ms, v))
  }

  lemma TakeNext(byVersion: map<int, Migration>, left: set<int>, ms: seq<Migration>, v: int)
    requires Taken(byVersion, left, ms) && v in left && v in byVersion && byVersion[v].version == v
    requires forall w :: w in left ==> v <= w
    ensures Taken(byVersion, left - {v}, ms + [byVersion[v]])
  {
    var more := ms + [byVersion[v]];
    forall w | w in byVersion && w !in left - {v} ensures Has(more, w) {
      if w == v {
        assert more[|ms|].version == w;
      } else {
        var i :| 0 <= i < |ms| && ms[i].version == w;
        assert more[i].version == w;
      }
    }
  }

  /** The values of the map, sorted by version. */
  method InVersionOrder(byVersion: map<int, Migration>) returns (ms: seq<Migration>)
    requires forall v :: v in byVersion ==> byVersion[v].version == v
    ensures Taken(byVersion, {}, ms)
  {
    ms := [];
    var left := byVersion.Keys;
    while exists v :: v in left
      invariant left <= byVersion.Keys && Taken(byVersion, left, ms)
      decreases left
    {
      var v := Least(left);
      TakeNext(byVersion, left, ms, v);
      ms := ms + [byVersion[v]];
      left := left - {v};
    }
    assert left == {};
  }

  lemma LoadedFrom(files: seq<File>, byVersion: map<int, Migration>, ms: seq<Migration>)
    requires Merged(files, byVersion, |files|) && Taken(byVersion, {}, ms)
    ensures Loaded(files, ms)
  {
    forall v ensures Mentioned(files, v, |files|) <==> Has(ms, v) {
      assert MergedAt(files, byVersion, |files|, v);
      if Has(ms, v) {
        var i :| 0 <= i < |ms| && ms[i].version == v;
        assert ms[i].version in byVersion;
      }
    }
    forall i | 0 <= i < |ms|
      ensures ms[i].name == LastName(files, ms[i].version, |files|)
      ensures ms[i].up == LastContent(files, ms[i].version, ".up", |files|)
      ensures ms[i].down == LastContent(files, ms[i].version, ".down", |files|)
    {
      assert MergedAt(files, byVersion, |files|, ms[i].version);
    }
  }

  method Least(s: set<int>) returns (v: int)
    requires exists w :: w in s
    ensures v in s && forall w :: w in s ==> v <= w
  {
    v :| v in s;
    var rest := s - {v};
    while exists w :: w in rest
      invariant v in s && rest <= s
      invariant forall w :: w in s && w !in rest ==> v <= w
      decreases rest
    {
      var w :| w in rest;
      if w < v { v := w; }
      rest := rest - {w};
    }
  }
}
