/** Date windows, the fetch ceiling, and the tree of windows that bisection
    visits.

    Times are whole microseconds counted from 2000-01-01, the lower end of
    every folder's range.  A folder is the sequence of the sent times of its
    messages.  A fetch asks for "sent >= from and sent <= to", so a window is
    closed at both ends and a message that sits exactly on a midpoint belongs
    to both halves. */
module DateBisection {

  import opened Options

  const MICROS_PER_DAY: int := 86_400_000_000
  const NEAR_CAP: int := 1900
  const FETCH_CEILING: int := 2000
  const MAX_WINDOWS: int := 64

  datatype Window = Window(from: int, to: int) {
    function Span(): int {
      to - from
    }
  }

  /** Half of a span, rounded to the nearest microsecond and, on a tie, to the
      even one: what dividing a Python timedelta by two does. */
  function HalfEven(n: int): (h: int)
    ensures -1 <= n - 2 * h <= 1
    ensures n != 2 * h ==> h % 2 == 0
  {
    if n % 2 == 0 || (n / 2) % 2 == 0 then n / 2 else n / 2 + 1
  }

  function Midpoint(w: Window): int {
    w.from + HalfEven(w.Span())
  }

  function FirstHalf(w: Window): Window {
    Window(w.from, Midpoint(w))
  }

  function SecondHalf(w: Window): Window {
    Window(Midpoint(w), w.to)
  }

  /** How many messages of the folder were sent inside the closed window. */
  function Count(ms: seq<int>, w: Window): nat {
    if ms == [] then 0
    else (if w.from <= ms[0] <= w.to then 1 else 0) + Count(ms[1..], w)
  }

  /** How many messages were sent at exactly t. */
  function At(ms: seq<int>, t: int): nat {
    Count(ms, Window(t, t))
  }

  /** What a successful fetch of the window reports: pages stop at the ceiling. */
  function Fetched(ms: seq<int>, w: Window): nat {
    if Count(ms, w) <= FETCH_CEILING then Count(ms, w) else FETCH_CEILING
  }

  predicate TooFull(count: nat, w: Window) {
    count >= NEAR_CAP && w.Span() > MICROS_PER_DAY
  }

  predicate Splits(ms: seq<int>, w: Window) {
    TooFull(Fetched(ms, w), w)
  }

  // ---- The tree that bisection visits, node by node ----

  /** Number of windows fetched in all. */
  function Size(ms: seq<int>, w: Window): nat
    decreases if w.Span() > 0 then w.Span() else 0
  {
    if Splits(ms, w) then 1 + Size(ms, FirstHalf(w)) + Size(ms, SecondHalf(w)) else 1
  }

  /** The count a complete run reports: leaves only. */
  function Total(ms: seq<int>, w: Window): nat
    decreases if w.Span() > 0 then w.Span() else 0
  {
    if Splits(ms, w) then Total(ms, FirstHalf(w)) + Total(ms, SecondHalf(w)) else Fetched(ms, w)
  }

  /** Messages counted twice: those on the midpoint of a split window. */
  function Duplicates(ms: seq<int>, w: Window): nat
    decreases if w.Span() > 0 then w.Span() else 0
  {
    if Splits(ms, w)
    then At(ms, Midpoint(w)) + Duplicates(ms, FirstHalf(w)) + Duplicates(ms, SecondHalf(w))
    else 0
  }

  /** Messages cut off by the ceiling in a window too short to split. */
  function Loss(ms: seq<int>, w: Window): nat
    decreases if w.Span() > 0 then w.Span() else 0
  {
    if Splits(ms, w) then Loss(ms, FirstHalf(w)) + Loss(ms, SecondHalf(w))
    else Count(ms, w) - Fetched(ms, w)
  }

  /** t is a point where bisection of w can cut, whatever the folder holds. */
  predicate OnCut(w: Window, t: int)
    decreases if w.Span() > 0 then w.Span() else 0
  {
    w.Span() > MICROS_PER_DAY &&
    (t == Midpoint(w) || OnCut(FirstHalf(w), t) || OnCut(SecondHalf(w), t))
  }

  predicate NoneOnCut(ms: seq<int>, w: Window) {
    forall i :: 0 <= i < |ms| ==> !OnCut(w, ms[i])
  }

  // ---- Counting ----

  lemma {:induction false} CountCut(ms: seq<int>, a: int, m: int, b: int)
    requires a <= m <= b
    ensures Count(ms, Window(a, m)) + Count(ms, Window(m, b)) == Count(ms, Window(a, b)) + At(ms, m)
  {
    if ms != [] {
      CountCut(ms[1..], a, m, b);
    }
  }

  lemma {:induction false} CountApart(ms: seq<int>, a: int, m: int, n: int, b: int)
    requires m < n
    ensures Count(ms, Window(a, m)) + Count(ms, Window(n, b))
         <= Count(ms, Window(if a <= n then a else n, if m <= b then b else m))
  {
    if ms != [] {
      CountApart(ms[1..], a, m, n, b);
    }
  }

  lemma {:induction false} CountWithin(ms: seq<int>, inner: Window, outer: Window)
    requires outer.from <= inner.from && inner.to <= outer.to
    ensures Count(ms, inner) <= Count(ms, outer)
  {
    if ms != [] {
      CountWithin(ms[1..], inner, outer);
    }
  }

  lemma {:induction false} AtNowhere(ms: seq<int>, t: int)
    requires forall i :: 0 <= i < |ms| ==> ms[i] != t
    ensures At(ms, t) == 0
  {
    if ms != [] {
      AtNowhere(ms[1..], t);
    }
  }

  lemma HalvesCount(ms: seq<int>, w: Window)
    requires w.Span() > 1
    ensures w.from < Midpoint(w) < w.to
    ensures Count(ms, FirstHalf(w)) + Count(ms, SecondHalf(w)) == Count(ms, w) + At(ms, Midpoint(w))
  {
    CountCut(ms, w.from, Midpoint(w), w.to);
  }

  /** The cut is at the middle; if that is no whole microsecond, it is the nearer
      one that is an even number of microseconds from the lower end. */
  lemma MidpointIs(w: Window)
    ensures -1 <= w.from + w.to - 2 * Midpoint(w) <= 1
    ensures w.from + w.to != 2 * Midpoint(w) ==> (Midpoint(w) - w.from) % 2 == 0
  {
  }

  // ---- What the reported total means ----

  /** A complete bisection reports the number of messages in range, plus the
      ones counted twice, minus the ones the ceiling cut off. */
  lemma {:induction false} TotalBalance(ms: seq<int>, w: Window)
    ensures Total(ms, w) + Loss(ms, w) == Count(ms, w) + Duplicates(ms, w)
    decreases if w.Span() > 0 then w.Span() else 0
  {
    if Splits(ms, w) {
      HalvesCount(ms, w);
      TotalBalance(ms, FirstHalf(w));
      TotalBalance(ms, SecondHalf(w));
    }
  }

  /** A window is cut exactly if it holds at least 1900 messages and is longer
      than a day; otherwise it is fetched once and reports what it holds, up to
      2000. */
  lemma CutIff(ms: seq<int>, w: Window)
    ensures Size(ms, w) > 1 <==> Count(ms, w) >= 1900 && w.to - w.from > 86_400_000_000
    ensures Size(ms, w) == 1 ==> Total(ms, w) == if Count(ms, w) <= 2000 then Count(ms, w) else 2000
  {
    assert Splits(ms, w) ==> Size(ms, w) == 1 + Size(ms, FirstHalf(w)) + Size(ms, SecondHalf(w));
    SizePositive(ms, w);
    if Splits(ms, w) {
      SizePositive(ms, FirstHalf(w));
    }
  }

  lemma SizePositive(ms: seq<int>, w: Window)
    ensures Size(ms, w) >= 1
  {
  }

  lemma {:induction false} NoDuplicatesOffCut(ms: seq<int>, w: Window)
    requires NoneOnCut(ms, w)
    ensures Duplicates(ms, w) == 0
    decreases if w.Span() > 0 then w.Span() else 0
  {
    if Splits(ms, w) {
      AtNowhere(ms, Midpoint(w));
      NoDuplicatesOffCut(ms, FirstHalf(w));
      NoDuplicatesOffCut(ms, SecondHalf(w));
    }
  }

  /** Some window that bisection accepts holds more than a fetch can return. */
  predicate OverfullLeaf(ms: seq<int>, w: Window)
    decreases if w.Span() > 0 then w.Span() else 0
  {
    if Splits(ms, w) then OverfullLeaf(ms, FirstHalf(w)) || OverfullLeaf(ms, SecondHalf(w))
    else Count(ms, w) > FETCH_CEILING
  }

  lemma {:induction false} LossIffOverfull(ms: seq<int>, w: Window)
    ensures Loss(ms, w) == 0 <==> !OverfullLeaf(ms, w)
    decreases if w.Span() > 0 then w.Span() else 0
  {
    if Splits(ms, w) {
      LossIffOverfull(ms, FirstHalf(w));
      LossIffOverfull(ms, SecondHalf(w));
    }
  }

  /** Off the cuts the total is never too high, and it is right exactly when
      no accepted window is over the ceiling.  Such a window is at most a day
      long: see OverfullLeafIsShort. */
  lemma TotalOffCut(ms: seq<int>, w: Window)
    requires NoneOnCut(ms, w)
    ensures Total(ms, w) <= Count(ms, w)
    ensures Total(ms, w) == Count(ms, w) <==> !OverfullLeaf(ms, w)
  {
    TotalBalance(ms, w);
    NoDuplicatesOffCut(ms, w);
    LossIffOverfull(ms, w);
  }

  lemma {:induction false} OverfullLeafIsShort(ms: seq<int>, w: Window) returns (leaf: Window)
    requires OverfullLeaf(ms, w)
    ensures w.from <= leaf.from && leaf.to <= w.to
    ensures leaf.Span() <= MICROS_PER_DAY && Count(ms, leaf) > FETCH_CEILING
    decreases if w.Span() > 0 then w.Span() else 0
  {
    if Splits(ms, w) {
      HalvesCount(ms, w);
      if OverfullLeaf(ms, FirstHalf(w)) {
        leaf := OverfullLeafIsShort(ms, FirstHalf(w));
      } else {
        leaf := OverfullLeafIsShort(ms, SecondHalf(w));
      }
    } else {
      leaf := w;
    }
  }

  // ---- How many windows there can be ----

  function Pow2(h: nat): (p: nat)
    ensures p >= 1
  {
    if h == 0 then 1 else 2 * Pow2(h - 1)
  }

  /** The windows split at depth d, from the earliest to the latest. */
  function SplitsAt(ms: seq<int>, w: Window, d: nat): seq<Window>
    decreases d
  {
    if !Splits(ms, w) then []
    else if d == 0 then [w]
    else SplitsAt(ms, FirstHalf(w), d - 1) + SplitsAt(ms, SecondHalf(w), d - 1)
  }

  function SplitsBelow(ms: seq<int>, w: Window, h: nat): nat {
    if h == 0 then 0 else SplitsBelow(ms, w, h - 1) + |SplitsAt(ms, w, h - 1)|
  }

  lemma {:induction false} SplitsBelowHalves(ms: seq<int>, w: Window, h: nat)
    requires Splits(ms, w)
    ensures SplitsBelow(ms, w, h + 1) == 1 + SplitsBelow(ms, FirstHalf(w), h) + SplitsBelow(ms, SecondHalf(w), h)
  {
    if h == 0 {
      assert SplitsBelow(ms, w, 0) == 0;
      assert SplitsAt(ms, w, 0) == [w];
    } else {
      SplitsBelowHalves(ms, w, h - 1);
    }
  }

  lemma {:induction false} NoSplitsBelow(ms: seq<int>, w: Window, h: nat)
    requires !Splits(ms, w)
    ensures SplitsBelow(ms, w, h) == 0
  {
    if h > 0 {
      NoSplitsBelow(ms, w, h - 1);
    }
  }

  /** Splitting stops after h levels, and every split adds two windows. */
  lemma {:induction false} SizeBySplits(ms: seq<int>, w: Window, h: nat)
    requires w.Span() <= Pow2(h) * MICROS_PER_DAY
    ensures Size(ms, w) == 1 + 2 * SplitsBelow(ms, w, h)
    decreases h
  {
    if Splits(ms, w) {
      assert h > 0;
      HalfFits(w.Span(), Pow2(h - 1));
      SizeBySplits(ms, FirstHalf(w), h - 1);
      SizeBySplits(ms, SecondHalf(w), h - 1);
      SplitsBelowHalves(ms, w, h - 1);
    } else {
      NoSplitsBelow(ms, w, h);
    }
  }

  lemma HalfFits(span: int, k: nat)
    requires span <= 2 * k * MICROS_PER_DAY
    ensures HalfEven(span) <= k * MICROS_PER_DAY
    ensures span - HalfEven(span) <= k * MICROS_PER_DAY
  {
  }

  /** ws lists windows of positive length from left to right inside [lo, hi];
      neighbours may touch. */
  predicate InOrder(ws: seq<Window>, lo: int, hi: int) {
    && (forall i :: 0 <= i < |ws| ==> lo <= ws[i].from < ws[i].to <= hi)
    && (forall i, j :: 0 <= i < j < |ws| ==> ws[i].to <= ws[j].from)
  }

  lemma InOrderConcat(a: seq<Window>, b: seq<Window>, lo: int, m: int, hi: int)
    requires lo <= m <= hi && InOrder(a, lo, m) && InOrder(b, m, hi)
    ensures InOrder(a + b, lo, hi)
  {
  }

  lemma {:induction false} SplitsInOrder(ms: seq<int>, w: Window, d: nat)
    ensures InOrder(SplitsAt(ms, w, d), w.from, w.to)
    decreases d
  {
    if Splits(ms, w) && d > 0 {
      assert w.from < Midpoint(w) < w.to;
      SplitsInOrder(ms, FirstHalf(w), d - 1);
      SplitsInOrder(ms, SecondHalf(w), d - 1);
      InOrderConcat(SplitsAt(ms, FirstHalf(w), d - 1), SplitsAt(ms, SecondHalf(w), d - 1),
                    w.from, Midpoint(w), w.to);
    }
  }

  lemma {:induction false} SplitsAreFull(ms: seq<int>, w: Window, d: nat)
    ensures forall v :: v in SplitsAt(ms, w, d) ==> Count(ms, v) >= NEAR_CAP
    ensures |SplitsAt(ms, w, d)| <= Pow2(d)
    decreases d
  {
    if Splits(ms, w) && d > 0 {
      SplitsAreFull(ms, FirstHalf(w), d - 1);
      SplitsAreFull(ms, SecondHalf(w), d - 1);
    }
  }

  /** Touching windows can share messages, but every second one cannot. */
  lemma {:induction false} EverySecondIsDisjoint(ms: seq<int>, ws: seq<Window>, lo: int, hi: int)
    requires InOrder(ws, lo, hi)
    requires forall i :: 0 <= i < |ws| ==> Count(ms, ws[i]) >= NEAR_CAP
    ensures NEAR_CAP * ((|ws| + 1) / 2) <= Count(ms, Window(lo, hi))
    decreases |ws|
  {
    if |ws| >= 1 {
      CountWithin(ms, ws[0], Window(lo, ws[0].to));
      CountWithin(ms, ws[0], Window(lo, hi));
    }
    if |ws| >= 2 {
      var rest := ws[2..];
      assert InOrder(rest, ws[1].to, hi);
      EverySecondIsDisjoint(ms, rest, ws[1].to, hi);
      CountApart(ms, lo, ws[0].to, ws[1].to, hi);
    }
  }

  lemma SplitsAtDepth(ms: seq<int>, w: Window, d: nat)
    ensures |SplitsAt(ms, w, d)| <= 2 * (Count(ms, w) / NEAR_CAP)
    ensures |SplitsAt(ms, w, d)| <= Pow2(d)
  {
    SplitsInOrder(ms, w, d);
    SplitsAreFull(ms, w, d);
    EverySecondIsDisjoint(ms, SplitsAt(ms, w, d), w.from, w.to);
  }

  lemma {:induction false} SplitsAtDepthOffCut(ms: seq<int>, w: Window, d: nat)
    requires NoneOnCut(ms, w)
    ensures NEAR_CAP * |SplitsAt(ms, w, d)| <= Count(ms, w)
    decreases d
  {
    if Splits(ms, w) && d > 0 {
      HalvesCount(ms, w);
      AtNowhere(ms, Midpoint(w));
      SplitsAtDepthOffCut(ms, FirstHalf(w), d - 1);
      SplitsAtDepthOffCut(ms, SecondHalf(w), d - 1);
    }
  }

  /** Sum over the first h levels of the smaller of 2^d and k. */
  function LevelSum(k: nat, h: nat): nat {
    if h == 0 then 0
    else LevelSum(k, h - 1) + if Pow2(h - 1) <= k then Pow2(h - 1) else k
  }

  lemma {:induction false} SplitsBelowLevelSum(ms: seq<int>, w: Window, k: nat, h: nat)
    requires forall d: nat :: |SplitsAt(ms, w, d)| <= k && |SplitsAt(ms, w, d)| <= Pow2(d)
    ensures SplitsBelow(ms, w, h) <= LevelSum(k, h)
  {
    if h > 0 {
      SplitsBelowLevelSum(ms, w, k, h - 1);
    }
  }

  /** The number of windows of a folder with N messages whose range is at most
      2^h days long: 1 + 2 * sum over d < h of min(2^d, 2 * (N / 1900)), and
      with N / 1900 in place of its double when no message sits on a cut. */
  lemma WindowBound(ms: seq<int>, w: Window, h: nat)
    requires w.Span() <= Pow2(h) * MICROS_PER_DAY
    ensures Size(ms, w) <= 1 + 2 * LevelSum(2 * (Count(ms, w) / NEAR_CAP), h)
    ensures NoneOnCut(ms, w) ==> Size(ms, w) <= 1 + 2 * LevelSum(Count(ms, w) / NEAR_CAP, h)
  {
    SizeBySplits(ms, w, h);
    forall d: nat
      ensures |SplitsAt(ms, w, d)| <= 2 * (Count(ms, w) / NEAR_CAP)
      ensures |SplitsAt(ms, w, d)| <= Pow2(d)
      ensures NoneOnCut(ms, w) ==> |SplitsAt(ms, w, d)| <= Count(ms, w) / NEAR_CAP
    {
      SplitsAtDepth(ms, w, d);
      if NoneOnCut(ms, w) {
        SplitsAtDepthOffCut(ms, w, d);
      }
    }
    SplitsBelowLevelSum(ms, w, 2 * (Count(ms, w) / NEAR_CAP), h);
    if NoneOnCut(ms, w) {
      SplitsBelowLevelSum(ms, w, Count(ms, w) / NEAR_CAP, h);
    }
  }

  lemma {:induction false} LevelSumGrows(k: nat, l: nat, h: nat)
    requires k <= l
    ensures LevelSum(k, h) <= LevelSum(l, h)
  {
    if h > 0 {
      LevelSumGrows(k, l, h - 1);
    }
  }

  /** Up to 2^14 days after 2000-01-01 (November 2044) a folder with fewer than
      3800 messages, or fewer than 5700 when none sits on a cut, never needs
      more than 55 windows. */
  lemma SmallFolderFewWindows(ms: seq<int>, w: Window)
    requires w.Span() <= 16384 * MICROS_PER_DAY
    requires Count(ms, w) < 3800 || (Count(ms, w) < 5700 && NoneOnCut(ms, w))
    ensures Size(ms, w) <= 55
  {
    var h := FourteenLevels();
    WindowBound(ms, w, h);
    if Count(ms, w) < 3800 {
      LevelSumGrows(2 * (Count(ms, w) / NEAR_CAP), 2, h);
    } else {
      LevelSumGrows(Count(ms, w) / NEAR_CAP, 2, h);
    }
  }

  lemma FourteenLevels() returns (h: nat)
    ensures Pow2(h) == 16384 && LevelSum(2, h) == 27
  {
    h := 14;
    assert Pow2(14) == 16384 && LevelSum(2, 14) == 27;
  }

  // ---- When the total can be too high ----

  /** n messages all sent at t. */
  function Burst(n: nat, t: int): (ms: seq<int>)
    ensures |ms| == n
    ensures forall i :: 0 <= i < n ==> ms[i] == t
  {
    seq(n, i => t)
  }

  lemma {:induction false} CountBurst(n: nat, t: int, w: Window)
    ensures Count(Burst(n, t), w) == if w.from <= t <= w.to then n else 0
  {
    if n > 0 {
      assert Burst(n, t)[1..] == Burst(n - 1, t);
      CountBurst(n - 1, t, w);
    }
  }

  lemma {:induction false} CutsAreInside(w: Window, t: int)
    requires OnCut(w, t)
    ensures w.from + MICROS_PER_DAY / 2 <= t < w.to
    decreases if w.Span() > 0 then w.Span() else 0
  {
    if t != Midpoint(w) {
      CutsAreInside(if OnCut(FirstHalf(w), t) then FirstHalf(w) else SecondHalf(w), t);
    }
  }

  lemma NotOwnEnd(w: Window)
    ensures !OnCut(w, w.from) && !OnCut(w, w.to)
  {
    if OnCut(w, w.from) {
      CutsAreInside(w, w.from);
    }
    if OnCut(w, w.to) {
      CutsAreInside(w, w.to);
    }
  }

  lemma BurstOffCutTotal(w: Window, t: int)
    requires w.from <= t <= w.to && !OnCut(w, t)
    ensures Total(Burst(1900, t), w) == 1900
  {
    CountBurst(1900, t, w);
    TotalOffCut(Burst(1900, t), w);
    if OverfullLeaf(Burst(1900, t), w) {
      var leaf := OverfullLeafIsShort(Burst(1900, t), w);
      CountBurst(1900, t, leaf);
    }
  }

  /** 1900 messages sent at a cut of any range are reported as 3800. */
  lemma {:induction false} BurstOnCutTotal(w: Window, t: int)
    requires OnCut(w, t)
    ensures Count(Burst(1900, t), w) == 1900
    ensures Total(Burst(1900, t), w) == 3800
    decreases if w.Span() > 0 then w.Span() else 0
  {
    CutsAreInside(w, t);
    CountBurst(1900, t, w);
    CountBurst(1900, t, FirstHalf(w));
    CountBurst(1900, t, SecondHalf(w));
    if t == Midpoint(w) {
      NotOwnEnd(FirstHalf(w));
      NotOwnEnd(SecondHalf(w));
      BurstOffCutTotal(FirstHalf(w), t);
      BurstOffCutTotal(SecondHalf(w), t);
    } else if OnCut(FirstHalf(w), t) {
      CutsAreInside(FirstHalf(w), t);
      BurstOnCutTotal(FirstHalf(w), t);
    } else {
      CutsAreInside(SecondHalf(w), t);
      BurstOnCutTotal(SecondHalf(w), t);
    }
  }

  predicate SentAmong(ms: seq<int>, times: iset<int>) {
    forall i :: 0 <= i < |ms| ==> ms[i] in times
  }

  /** The total of a range is never too high, whatever was sent at the given
      times, if and only if none of the times is a cut of the range. */
  lemma NeverTooHighIff(w: Window, times: iset<int>)
    ensures (forall ms: seq<int> :: SentAmong(ms, times) ==> Total(ms, w) <= Count(ms, w))
       <==> (forall t :: t in times ==> !OnCut(w, t))
  {
    if t :| t in times && OnCut(w, t) {
      BurstOnCutTotal(w, t);
      assert SentAmong(Burst(1900, t), times);
    } else {
      forall ms: seq<int> | SentAmong(ms, times)
        ensures Total(ms, w) <= Count(ms, w)
      {
        TotalOffCut(ms, w);
      }
    }
  }

  /** So it can be too high on every range that is longer than a day. */
  lemma DoubleCounted(w: Window) returns (ms: seq<int>)
    requires w.Span() > MICROS_PER_DAY
    ensures Count(ms, w) == 1900 && Total(ms, w) == 3800
  {
    ms := Burst(1900, Midpoint(w));
    BurstOnCutTotal(w, Midpoint(w));
  }
}
