/**
 * The fixed N-line dashboard: one progress bar per job slot, each with a
 * percentage out of 100, a description, whether it has been closed and
 * whether it has been coloured red. Rendering to the terminal is not
 * modelled; the state each call leaves behind is.
 */
module Board {
  import opened Text

  const Total: int := 100
  const DoneText: string := "DONE \U{2713}"
  const FailedText: string := "FAILED \U{2717}"

  /** The state of one bar. */
  datatype Bar = Bar(n: int, desc: string, closed: bool, red: bool)

  /** `max(0, min(100, percent))`. */
  function Clamp(percent: int): (r: int)
    ensures 0 <= r <= Total
    ensures 0 <= percent <= Total ==> r == percent
    ensures percent < 0 ==> r == 0
    ensures percent > Total ==> r == Total
  {
    if percent < 0 then 0 else if percent > Total then Total else percent
  }

  /** Clamping keeps the order of percentages. */
  lemma ClampMonotone(a: int, b: int)
    requires a <= b
    ensures Clamp(a) <= Clamp(b)
  {
  }

  /** The bar a fresh board shows in slot `i`. */
  function InitialBar(i: nat): Bar {
    Bar(0, "Job " + NatToString(i + 1), false, false)
  }

  /** Slots `0 .. nLines-1`, each at 0% and labelled `Job 1`, `Job 2`, ... */
  function InitialBars(nLines: int): map<int, Bar> {
    map i | 0 <= i < nLines :: InitialBar(i)
  }

  /** Every bar holds a percentage between 0 and 100. */
  predicate InRange(bars: map<int, Bar>) {
    forall i :: i in bars ==> 0 <= bars[i].n <= Total
  }

  /** `set_progress(i, text, percent)` on the bars; a missing slot is ignored. */
  function Progressed(bars: map<int, Bar>, i: int, text: string, percent: int): map<int, Bar> {
    if i in bars then bars[i := bars[i].(n := Clamp(percent), desc := text)] else bars
  }

  /** `complete(i, text)` on the bars. */
  function Completed(bars: map<int, Bar>, i: int, text: string): map<int, Bar> {
    if i in bars then bars[i := bars[i].(n := Total, desc := text, closed := true)] else bars
  }

  /** `fail(i, text)` on the bars: the percentage is left where it was. */
  function Failed(bars: map<int, Bar>, i: int, text: string): map<int, Bar> {
    if i in bars then bars[i := bars[i].(desc := text, red := true, closed := true)] else bars
  }

  /** `close_all()` on the bars. */
  function AllClosed(bars: map<int, Bar>): map<int, Bar> {
    map i | i in bars :: bars[i].(closed := true)
  }

  /** A fresh board has exactly the slots `0 .. nLines-1`, all open and at 0%. */
  lemma InitialBarsShape(nLines: int)
    ensures forall i :: i in InitialBars(nLines) <==> 0 <= i < nLines
    ensures InRange(InitialBars(nLines))
    ensures forall i :: 0 <= i < nLines ==> InitialBars(nLines)[i].n == 0 && !InitialBars(nLines)[i].closed
    ensures forall i, j :: 0 <= i < j < nLines ==> InitialBars(nLines)[i].desc != InitialBars(nLines)[j].desc
  {
    forall i, j | 0 <= i < j < nLines
      ensures InitialBars(nLines)[i].desc != InitialBars(nLines)[j].desc
    {
      var a := NatToString(i + 1);
      var b := NatToString(j + 1);
      assert ("Job " + a)[4..] == a && ("Job " + b)[4..] == b;
    }
  }

  /**
   * Setting progress touches only slot `i`, which then shows exactly the
   * clamped percentage and the text; every bar stays within 0..100 and the
   * set of slots does not change.
   */
  lemma ProgressedEffect(bars: map<int, Bar>, i: int, text: string, percent: int)
    requires InRange(bars)
    ensures var b := Progressed(bars, i, text, percent);
      && b.Keys == bars.Keys
      && InRange(b)
      && (i in bars ==> b[i].n == Clamp(percent) && b[i].desc == text && b[i].closed == bars[i].closed)
      && (forall j :: j in bars && j != i ==> b[j] == bars[j])
  {
  }

  /** A completed bar is full, closed and shows the text; nothing else changes. */
  lemma CompletedEffect(bars: map<int, Bar>, i: int, text: string)
    requires InRange(bars)
    ensures var b := Completed(bars, i, text);
      && b.Keys == bars.Keys
      && InRange(b)
      && (i in bars ==> b[i].n == Total && b[i].closed && b[i].desc == text && b[i].red == bars[i].red)
      && (forall j :: j in bars && j != i ==> b[j] == bars[j])
  {
  }

  /** A failed bar keeps its percentage, turns red, closes and shows the text. */
  lemma FailedEffect(bars: map<int, Bar>, i: int, text: string)
    requires InRange(bars)
    ensures var b := Failed(bars, i, text);
      && b.Keys == bars.Keys
      && InRange(b)
      && (i in bars ==> b[i].n == bars[i].n && b[i].red && b[i].closed && b[i].desc == text)
      && (forall j :: j in bars && j != i ==> b[j] == bars[j])
  {
  }

  /** Closing all bars closes each of them, changes nothing else and can be repeated. */
  lemma AllClosedEffect(bars: map<int, Bar>)
    ensures var b := AllClosed(bars);
      && b.Keys == bars.Keys
      && (forall j :: j in bars ==> b[j].closed && b[j] == bars[j].(closed := true))
      && AllClosed(b) == b
  {
  }

  /** Updates on different slots commute: concurrent jobs do not disturb each other's bars. */
  lemma ProgressCommutes(bars: map<int, Bar>, i: int, ti: string, pi: int, j: int, tj: string, pj: int)
    requires i != j
    ensures Progressed(Progressed(bars, i, ti, pi), j, tj, pj) == Progressed(Progressed(bars, j, tj, pj), i, ti, pi)
  {
  }

  /** A bar set after it was completed still takes the new values (the source does not guard against it). */
  lemma ProgressAfterComplete(bars: map<int, Bar>, i: int, text: string, percent: int)
    requires i in bars
    ensures Progressed(Completed(bars, i, DoneText), i, text, percent)[i].n == Clamp(percent)
    ensures Progressed(Completed(bars, i, DoneText), i, text, percent)[i].closed
  {
  }

  class ConsoleBoard {
    var n: int
    var bars: map<int, Bar>

    /** The slots are `0 .. n-1` and every percentage lies in 0..100. */
    ghost predicate Valid()
      reads this
    {
      && (forall i :: i in bars <==> 0 <= i < n)
      && InRange(bars)
    }

    /** `ConsoleBoard(n_lines)`. */
    constructor(nLines: int)
      ensures n == nLines && bars == InitialBars(nLines)
      ensures Valid()
    {
      var m: map<int, Bar> := map[];
      var i := 0;
      while i < nLines
        invariant 0 <= i <= if nLines < 0 then 0 else nLines
        invariant m == map k | 0 <= k < i :: InitialBar(k)
      {
        m := m[i := InitialBar(i)];
        i := i + 1;
      }
      n := nLines;
      bars := m;
      InitialBarsShape(nLines);
    }

    /** `set_progress(i, text, percent)`. */
    method SetProgress(i: int, text: string, percent: int)
      requires Valid()
      modifies this
      ensures n == old(n) && bars == Progressed(old(bars), i, text, percent)
      ensures Valid()
    {
      if i in bars {
        var pct := if percent < 0 then 0 else if percent > Total then Total else percent;
        bars := bars[i := bars[i].(n := pct, desc := text)];
      }
      ProgressedEffect(old(bars), i, text, percent);
    }

    /** `complete(i, text)`; the default text is `DoneText`. */
    method Complete(i: int, text: string)
      requires Valid()
      modifies this
      ensures n == old(n) && bars == Completed(old(bars), i, text)
      ensures Valid()
    {
      if i in bars {
        bars := bars[i := bars[i].(n := Total, desc := text, closed := true)];
      }
      CompletedEffect(old(bars), i, text);
    }

    /** `fail(i, text)`; the default text is `FailedText`. */
    method Fail(i: int, text: string)
      requires Valid()
      modifies this
      ensures n == old(n) && bars == Failed(old(bars), i, text)
      ensures Valid()
    {
      if i in bars {
        bars := bars[i := bars[i].(desc := text, red := true, closed := true)];
      }
      FailedEffect(old(bars), i, text);
    }

    /** `close_all()`: closes every bar of the board, one slot at a time. */
    method CloseAll()
      requires Valid()
      modifies this
      ensures n == old(n) && bars == AllClosed(old(bars))
      ensures Valid()
    {
      var i := 0;
      while i < n
        invariant n == old(n) && bars.Keys == old(bars).Keys
        invariant forall k :: k in bars && (k < 0 || k >= i) ==> bars[k] == old(bars)[k]
        invariant forall k :: k in bars && 0 <= k < i ==> bars[k] == old(bars)[k].(closed := true)
      {
        bars := bars[i := bars[i].(closed := true)];
        i := i + 1;
      }
      ghost var closed := AllClosed(old(bars));
      assert bars.Keys == closed.Keys;
      assert forall k :: k in bars ==> bars[k] == closed[k];
    }
  }
}
