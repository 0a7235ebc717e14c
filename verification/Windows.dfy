/**
 Windows of the day, in minutes, and the subtraction of a blocked range from a list of
 them (internal/bookings/service.go, `removeCovered`).

 The subtraction reuses its input as its output buffer: writes go to the slice that is
 still being read. `RemoveFresh` is what the loop would compute with an output of its
 own, `RemoveInPlace` what it computes on the shared buffer; the lemmas say when the two
 cover the same minutes.
 */
module Windows {

  datatype Window = Window(start: int, end: int)

  ghost predicate Covers(w: Window, m: int) {
    w.start <= m < w.end
  }

  /** Some window with index in [lo, hi) is open at minute m. */
  ghost predicate CoveredIn(ws: seq<Window>, lo: int, hi: int, m: int) {
    exists i :: 0 <= lo <= i < hi <= |ws| && Covers(ws[i], m)
  }

  ghost predicate CoveredBy(ws: seq<Window>, m: int) {
    exists i :: 0 <= i < |ws| && Covers(ws[i], m)
  }

  /** What one window leaves outside [from, to): none, one or two pieces. */
  function Pieces(w: Window, from: int, to: int): seq<Window> {
    if to <= w.start || from >= w.end then [w]
    else if w.start < from && w.end > to then [Window(w.start, from), Window(to, w.end)]
    else if w.start < from then [Window(w.start, from)]
    else if w.end > to then [Window(to, w.end)]
    else []
  }

  /** The window leaves two pieces. */
  predicate Splits(w: Window, from: int, to: int) {
    w.start < from < w.end && w.start < to < w.end
  }

  /** The first k iterations with an output of their own. */
  function FreshUpTo(ws: seq<Window>, from: int, to: int, k: nat): seq<Window>
    requires k <= |ws|
  {
    if k == 0 then [] else FreshUpTo(ws, from, to, k - 1) + Pieces(ws[k - 1], from, to)
  }

  /** The first k iterations on the shared buffer: a read at an index already written sees the write. */
  function InPlaceUpTo(ws: seq<Window>, from: int, to: int, k: nat): (out: seq<Window>)
    requires k <= |ws|
    ensures |out| <= k + 1
    ensures |out| == k + 1 ==> out[k].start == to
  {
    if k == 0 then []
    else
      var done := InPlaceUpTo(ws, from, to, k - 1);
      done + Pieces(Read(ws, done, k - 1), from, to)
  }

  function Read(ws: seq<Window>, done: seq<Window>, i: nat): Window
    requires i < |ws|
  {
    if i < |done| then done[i] else ws[i]
  }

  function RemoveFresh(ws: seq<Window>, from: int, to: int): seq<Window> {
    FreshUpTo(ws, from, to, |ws|)
  }

  function RemoveInPlace(ws: seq<Window>, from: int, to: int): seq<Window> {
    InPlaceUpTo(ws, from, to, |ws|)
  }

  // ----- the slice operations -----

  /** Go's append on the slice buf[..n]: in place while there is capacity, else a copy. */
  method Append(buf: array<Window>, n: nat, w: Window) returns (buf': array<Window>, n': nat)
    requires n <= buf.Length
    modifies buf
    ensures n' == n + 1 <= buf'.Length
    ensures buf'[..n'] == old(buf[..n]) + [w]
    ensures n < buf.Length ==> buf' == buf && (forall j :: n < j < buf.Length ==> buf[j] == old(buf[j]))
    ensures n == buf.Length ==> fresh(buf') && buf[..] == old(buf[..])
  {
    n' := n + 1;
    if n < buf.Length {
      buf[n] := w;
      buf' := buf;
    } else {
      buf' := new Window[2 * n + 1](i => w);
      forall j | 0 <= j < n { buf'[j] := buf[j]; }
    }
  }

  /** One iteration's appends; they fill at most the two slots after buf[..n]. */
  method AppendPieces(buf: array<Window>, n: nat, w: Window, from: int, to: int)
    returns (out: array<Window>, m: nat)
    requires n <= buf.Length
    modifies buf
    ensures m <= out.Length
    ensures out[..m] == old(buf[..n]) + Pieces(w, from, to)
    ensures m <= buf.Length ==> out == buf && (forall j :: m <= j < buf.Length ==> buf[j] == old(buf[j]))
    ensures out == buf || fresh(out)
  {
    out, m := buf, n;
    if to <= w.start || from >= w.end {
      out, m := Append(out, m, w);
    } else {
      if w.start < from {
        out, m := Append(out, m, Window(w.start, from));
      }
      if w.end > to {
        out, m := Append(out, m, Window(to, w.end));
      }
    }
  }

  /** `removeCovered`: the output starts as windows[:0], so it shares the input's buffer. */
  method RemoveCovered(windows: array<Window>, n: nat, from: int, to: int)
    returns (out: array<Window>, m: nat)
    requires n <= windows.Length
    modifies windows
    ensures m <= out.Length
    ensures out[..m] == RemoveInPlace(old(windows[..n]), from, to)
    ensures out == windows || fresh(out)
  {
    ghost var ws := windows[..n];
    out, m := windows, 0;
    for i := 0 to n
      invariant m <= out.Length
      invariant out[..m] == InPlaceUpTo(ws, from, to, i)
      invariant i < n ==> out == windows
      invariant out == windows || fresh(out)
      invariant forall j :: i <= j < n && m <= j ==> windows[j] == ws[j]
    {
      assert i < m ==> windows[i] == out[..m][i];
      var w := windows[i];
      out, m := AppendPieces(out, m, w, from, to);
      assert out[..m] == InPlaceUpTo(ws, from, to, i + 1);
    }
  }

  // ----- coverage of the fresh-output subtraction -----

  lemma CoveredByConcat(a: seq<Window>, b: seq<Window>, m: int)
    ensures CoveredBy(a + b, m) <==> CoveredBy(a, m) || CoveredBy(b, m)
  {
    if i :| 0 <= i < |a| && Covers(a[i], m) {
      assert (a + b)[i] == a[i];
    }
    if i :| 0 <= i < |b| && Covers(b[i], m) {
      assert (a + b)[|a| + i] == b[i];
    }
  }

  lemma PiecesCover(w: Window, from: int, to: int, m: int)
    ensures CoveredBy(Pieces(w, from, to), m) <==> Covers(w, m) && !(from <= m < to)
  {
    var p := Pieces(w, from, to);
    if Covers(w, m) && !(from <= m < to) {
      assert Covers(p[0], m) || (|p| == 2 && Covers(p[1], m));
    }
  }

  lemma {:induction false} FreshUpToExact(ws: seq<Window>, from: int, to: int, k: nat, m: int)
    requires k <= |ws|
    ensures CoveredBy(FreshUpTo(ws, from, to, k), m) <==> CoveredIn(ws, 0, k, m) && !(from <= m < to)
  {
    if k > 0 {
      FreshUpToExact(ws, from, to, k - 1, m);
      PiecesCover(ws[k - 1], from, to, m);
      CoveredByConcat(FreshUpTo(ws, from, to, k - 1), Pieces(ws[k - 1], from, to), m);
      assert CoveredIn(ws, 0, k, m) <==> CoveredIn(ws, 0, k - 1, m) || Covers(ws[k - 1], m);
    }
  }

  /** With an output of its own the loop computes the set difference, on every input. */
  lemma RemoveFreshExact(ws: seq<Window>, from: int, to: int, m: int)
    ensures CoveredBy(RemoveFresh(ws, from, to), m) <==> CoveredBy(ws, m) && !(from <= m < to)
  {
    FreshUpToExact(ws, from, to, |ws|, m);
  }

  // ----- the shared buffer -----

  lemma {:induction false} InPlaceUpToSound(ws: seq<Window>, from: int, to: int, k: nat, m: int)
    requires k <= |ws| && CoveredBy(InPlaceUpTo(ws, from, to, k), m)
    ensures CoveredBy(ws, m) && !(from <= m < to)
  {
    if k > 0 {
      var done := InPlaceUpTo(ws, from, to, k - 1);
      var w := Read(ws, done, k - 1);
      CoveredByConcat(done, Pieces(w, from, to), m);
      PiecesCover(w, from, to, m);
      if CoveredBy(done, m) {
        InPlaceUpToSound(ws, from, to, k - 1, m);
      }
    }
  }

  /** No minute of the block, and no minute that was not open, ever comes out. */
  lemma RemoveInPlaceSound(ws: seq<Window>, from: int, to: int, m: int)
    requires CoveredBy(RemoveInPlace(ws, from, to), m)
    ensures CoveredBy(ws, m) && !(from <= m < to)
  {
    InPlaceUpToSound(ws, from, to, |ws|, m);
  }

  /** The split of window i writes over window i + 1 before it is read. */
  predicate Overtakes(ws: seq<Window>, from: int, to: int, i: nat) {
    i < |ws| && Splits(ws[i], from, to) && |FreshUpTo(ws, from, to, i)| == i
  }

  lemma {:induction false} NoOvertakeSame(ws: seq<Window>, from: int, to: int, k: nat)
    requires k <= |ws|
    requires forall i: nat :: i < k ==> !Overtakes(ws, from, to, i)
    ensures InPlaceUpTo(ws, from, to, k) == FreshUpTo(ws, from, to, k)
    ensures |FreshUpTo(ws, from, to, k)| <= k
  {
    if k > 0 {
      NoOvertakeSame(ws, from, to, k - 1);
      assert !Overtakes(ws, from, to, k - 1);
    }
  }

  /** While no split overtakes the reader the shared buffer makes no difference. */
  lemma NoOvertakeExact(ws: seq<Window>, from: int, to: int)
    requires forall i: nat :: i < |ws| ==> !Overtakes(ws, from, to, i)
    ensures RemoveInPlace(ws, from, to) == RemoveFresh(ws, from, to)
  {
    NoOvertakeSame(ws, from, to, |ws|);
  }

  function Copies(w: Window, n: nat): seq<Window> {
    seq(n, _ => w)
  }

  lemma OvertakeHead(ws: seq<Window>, from: int, to: int, i: nat)
    requires Overtakes(ws, from, to, i)
    ensures |FreshUpTo(ws, from, to, i + 1)| == i + 2
    ensures FreshUpTo(ws, from, to, i + 1)[i + 1] == Window(to, ws[i].end)
  {
    assert Pieces(ws[i], from, to) == [Window(ws[i].start, from), Window(to, ws[i].end)];
  }

  /** After the first overtaking split every later read finds, and repeats, its right piece. */
  lemma {:induction false} OvertakeClosedForm(ws: seq<Window>, from: int, to: int, i: nat, k: nat)
    requires i < k <= |ws| && Overtakes(ws, from, to, i)
    requires forall j: nat :: j < i ==> !Overtakes(ws, from, to, j)
    ensures InPlaceUpTo(ws, from, to, k)
         == FreshUpTo(ws, from, to, i + 1) + Copies(Window(to, ws[i].end), k - 1 - i)
  {
    var right := Window(to, ws[i].end);
    if k == i + 1 {
      NoOvertakeSame(ws, from, to, i);
    } else {
      OvertakeClosedForm(ws, from, to, i, k - 1);
      OvertakeHead(ws, from, to, i);
      var done := InPlaceUpTo(ws, from, to, k - 1);
      assert done[k - 1] == right;
      assert Pieces(right, from, to) == [right];
      assert Copies(right, k - 2 - i) + [right] == Copies(right, k - 1 - i);
    }
  }

  ghost predicate ExactDifference(out: seq<Window>, ws: seq<Window>, from: int, to: int) {
    forall m :: CoveredBy(out, m) <==> CoveredBy(ws, m) && !(from <= m < to)
  }

  lemma CoveredByCopies(head: seq<Window>, w: Window, n: nat, m: int)
    requires head != [] && head[|head| - 1] == w
    ensures CoveredBy(head + Copies(w, n), m) <==> CoveredBy(head, m)
  {
    CoveredByConcat(head, Copies(w, n), m);
    assert Covers(w, m) ==> CoveredBy(head, m);
  }

  /** With an overtaking split, the windows after it are lost. */
  lemma OvertakeCover(ws: seq<Window>, from: int, to: int, i: nat, m: int)
    requires Overtakes(ws, from, to, i)
    requires forall j: nat :: j < i ==> !Overtakes(ws, from, to, j)
    ensures CoveredBy(RemoveInPlace(ws, from, to), m) <==> CoveredIn(ws, 0, i + 1, m) && !(from <= m < to)
  {
    OvertakeClosedForm(ws, from, to, i, |ws|);
    FreshUpToExact(ws, from, to, i + 1, m);
    OvertakeHead(ws, from, to, i);
    CoveredByCopies(FreshUpTo(ws, from, to, i + 1), Window(to, ws[i].end), |ws| - 1 - i, m);
  }

  /** The windows from index k on open no minute outside the block that an earlier one lacks. */
  ghost predicate AddsNothing(ws: seq<Window>, from: int, to: int, k: nat) {
    forall m :: CoveredIn(ws, k, |ws|, m) && !(from <= m < to) ==> CoveredIn(ws, 0, k, m)
  }

  /** Exact if and only if the windows after the overtaking split open no further minute. */
  lemma RemoveInPlaceExactIff(ws: seq<Window>, from: int, to: int, i: nat)
    requires Overtakes(ws, from, to, i)
    requires forall j: nat :: j < i ==> !Overtakes(ws, from, to, j)
    ensures ExactDifference(RemoveInPlace(ws, from, to), ws, from, to)
       <==> AddsNothing(ws, from, to, i + 1)
  {
    var out := RemoveInPlace(ws, from, to);
    forall m
      ensures CoveredBy(out, m) <==> CoveredIn(ws, 0, i + 1, m) && !(from <= m < to)
      ensures CoveredBy(ws, m) <==> CoveredIn(ws, 0, i + 1, m) || CoveredIn(ws, i + 1, |ws|, m)
    {
      OvertakeCover(ws, from, to, i, m);
    }
    if ExactDifference(out, ws, from, to) {
      var k := i + 1;
      forall m | CoveredIn(ws, k, |ws|, m) && !(from <= m < to) ensures CoveredIn(ws, 0, k, m) {
        assert CoveredBy(out, m) <==> CoveredBy(ws, m) && !(from <= m < to);
      }
    }
  }

  /** Non-empty windows without a common minute, in any order. */
  ghost predicate Separate(ws: seq<Window>) {
    && (forall i :: 0 <= i < |ws| ==> ws[i].start < ws[i].end)
    && (forall i, j :: 0 <= i < j < |ws| ==> ws[i].end <= ws[j].start || ws[j].end <= ws[i].start)
  }

  lemma {:induction false} UntouchedPrefix(ws: seq<Window>, from: int, to: int, i: nat, k: nat)
    requires Separate(ws) && k <= i < |ws| && Splits(ws[i], from, to)
    ensures |FreshUpTo(ws, from, to, k)| == k
    ensures forall j: nat :: j < k ==> !Overtakes(ws, from, to, j)
  {
    if k > 0 {
      UntouchedPrefix(ws, from, to, i, k - 1);
      assert ws[k - 1].end <= ws[i].start || ws[i].end <= ws[k - 1].start;
    }
  }

  lemma NextWindowIsNew(ws: seq<Window>, i: nat)
    requires Separate(ws) && i + 1 < |ws|
    ensures CoveredIn(ws, i + 1, |ws|, ws[i + 1].start) && !CoveredIn(ws, 0, i + 1, ws[i + 1].start)
  {
    assert Covers(ws[i + 1], ws[i + 1].start);
    forall j | 0 <= j < i + 1 ensures !Covers(ws[j], ws[i + 1].start) {
      assert ws[j].end <= ws[i + 1].start || ws[i + 1].end <= ws[j].start;
    }
  }

  /** No window but the last splits. */
  predicate OnlyLastSplits(ws: seq<Window>, from: int, to: int) {
    forall i :: 0 <= i < |ws| - 1 ==> !Splits(ws[i], from, to)
  }

  /** On separate windows the shared buffer is harmless exactly when only the last may split. */
  lemma SeparateExactIffSplitLast(ws: seq<Window>, from: int, to: int)
    requires Separate(ws)
    ensures ExactDifference(RemoveInPlace(ws, from, to), ws, from, to)
       <==> OnlyLastSplits(ws, from, to)
  {
    if i :| 0 <= i < |ws| - 1 && Splits(ws[i], from, to) {
      UntouchedPrefix(ws, from, to, i, i);
      RemoveInPlaceExactIff(ws, from, to, i);
      NextWindowIsNew(ws, i);
      assert ws[i].end <= ws[i + 1].start || ws[i + 1].end <= ws[i].start;
    } else if ws != [] && Overtakes(ws, from, to, |ws| - 1) {
      RemoveInPlaceExactIff(ws, from, to, |ws| - 1);
    } else {
      NoOvertakeExact(ws, from, to);
      forall m ensures CoveredBy(RemoveInPlace(ws, from, to), m) <==> CoveredBy(ws, m) && !(from <= m < to) {
        RemoveFreshExact(ws, from, to, m);
      }
    }
  }

  /** A morning and an afternoon window; blocking half an hour of the morning loses the afternoon. */
  lemma BlockedMorningLosesAfternoon()
    ensures RemoveInPlace([Window(540, 720), Window(780, 1020)], 600, 630)
         == [Window(540, 600), Window(630, 720), Window(630, 720)]
    ensures RemoveFresh([Window(540, 720), Window(780, 1020)], 600, 630)
         == [Window(540, 600), Window(630, 720), Window(780, 1020)]
  {
    var ws := [Window(540, 720), Window(780, 1020)];
    assert FreshUpTo(ws, 600, 630, 1) == [Window(540, 600), Window(630, 720)];
    assert InPlaceUpTo(ws, 600, 630, 1) == [Window(540, 600), Window(630, 720)];
  }
}
