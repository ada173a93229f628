/** The bounds on the number of windows are reached: for every range, and every
    number of messages until there are no more windows to cut, some folder needs
    just as many. */
module WindowSharpness {

  import opened DateBisection

  /** Halving the range k times, and no fewer, leaves windows of at most a day,
      however the odd microseconds are rounded. */
  predicate Fits(w: Window, k: nat) {
    (if k == 0 then 4 else Pow2(k - 1) * 86_400_000_001) <= w.Span() <= Pow2(k) * 86_400_000_000
  }

  /** Bisection of the range can go just k deep everywhere. */
  predicate Full(w: Window, k: nat)
    decreases k
  {
    if k == 0 then 4 <= w.Span() <= MICROS_PER_DAY
    else w.Span() > MICROS_PER_DAY && Full(FirstHalf(w), k - 1) && Full(SecondHalf(w), k - 1)
  }

  lemma HalvesFit(w: Window, k: nat)
    requires k > 0 && Fits(w, k)
    ensures w.Span() > MICROS_PER_DAY && Fits(FirstHalf(w), k - 1) && Fits(SecondHalf(w), k - 1)
  {
  }

  lemma {:induction false} FitsIsFull(w: Window, k: nat)
    requires Fits(w, k)
    ensures Full(w, k)
    decreases k
  {
    if k > 0 {
      HalvesFit(w, k);
      FitsIsFull(FirstHalf(w), k - 1);
      FitsIsFull(SecondHalf(w), k - 1);
    }
  }

  // ---- Where a folder's messages must sit to be chased all the way down ----

  lemma {:induction false} CountConcat(a: seq<int>, b: seq<int>, w: Window)
    ensures Count(a + b, w) == Count(a, w) + Count(b, w)
  {
    if a == [] {
      assert a + b == b;
    } else {
      assert (a + b)[1..] == a[1..] + b;
      CountConcat(a[1..], b, w);
    }
  }

  predicate Inside(ms: seq<int>, w: Window) {
    forall i :: 0 <= i < |ms| ==> w.from < ms[i] < w.to
  }

  lemma {:induction false} CountInside(ms: seq<int>, w: Window, v: Window)
    requires Inside(ms, w)
    ensures v.from <= w.from && w.to <= v.to ==> Count(ms, v) == |ms|
    ensures v.to <= w.from || w.to <= v.from ==> Count(ms, v) == 0
  {
    if ms != [] {
      CountInside(ms[1..], w, v);
    }
  }

  predicate PartOf(v: Window, w: Window) {
    w.from <= v.from && v.to <= w.to
  }

  ghost predicate Alike(ms: seq<int>, ns: seq<int>, w: Window) {
    forall v :: PartOf(v, w) ==> Count(ms, v) == Count(ns, v)
  }

  /** What bisection does depends on the counts inside the window only. */
  lemma {:induction false} SizeIsLocal(ms: seq<int>, ns: seq<int>, w: Window)
    requires Alike(ms, ns, w)
    ensures Size(ms, w) == Size(ns, w)
    decreases if w.Span() > 0 then w.Span() else 0
  {
    assert PartOf(w, w);
    if Splits(ms, w) {
      HalvesCount(ms, w);
      AlikeWithin(ms, ns, w, FirstHalf(w));
      AlikeWithin(ms, ns, w, SecondHalf(w));
      SizeIsLocal(ms, ns, FirstHalf(w));
      SizeIsLocal(ms, ns, SecondHalf(w));
    }
  }

  lemma AlikeWithin(ms: seq<int>, ns: seq<int>, w: Window, v: Window)
    requires Alike(ms, ns, w) && PartOf(v, w)
    ensures Alike(ms, ns, v)
  {
    forall u | PartOf(u, v)
      ensures Count(ms, u) == Count(ns, u)
    {
      assert PartOf(u, w);
    }
  }

  /** A burst off the cuts is chased down to a window of a day. */
  lemma {:induction false} BurstChased(n: nat, t: int, w: Window, k: nat)
    requires n >= NEAR_CAP && Full(w, k) && w.from <= t <= w.to && !OnCut(w, t)
    ensures Size(Burst(n, t), w) == 1 + 2 * k
    decreases k
  {
    CountBurst(n, t, w);
    if k > 0 {
      CountBurst(n, t, FirstHalf(w));
      CountBurst(n, t, SecondHalf(w));
      BurstChased(n, t, if t < Midpoint(w) then FirstHalf(w) else SecondHalf(w), k - 1);
    }
  }

  /** From one end of the window, too. */
  lemma BurstAtEnd(w: Window, k: nat, n: nat)
    requires Full(w, k) && n >= NEAR_CAP
    ensures Size(Burst(n, w.from), w) == 1 + 2 * k && Size(Burst(n, w.to), w) == 1 + 2 * k
  {
    FullSpan(w, k);
    NotOwnEnd(w);
    BurstChased(n, w.from, w, k);
    BurstChased(n, w.to, w, k);
  }

  lemma FullSpan(w: Window, k: nat)
    requires Full(w, k)
    ensures w.Span() >= 4
  {
  }

  /** A burst on the middle is chased down on both sides of it. */
  lemma BurstOnCut(w: Window, k: nat, n: nat)
    requires k > 0 && Full(w, k) && n >= NEAR_CAP
    ensures Size(Burst(n, Midpoint(w)), w) == 4 * k - 1
  {
    BurstAtEnd(FirstHalf(w), k - 1, n);
    BurstAtEnd(SecondHalf(w), k - 1, n);
    CountBurst(n, Midpoint(w), w);
    SizeHalves(Burst(n, Midpoint(w)), w, 2 * k - 1);
  }

  lemma SizeHalves(ms: seq<int>, w: Window, half: nat)
    requires Splits(ms, w) && Size(ms, FirstHalf(w)) == half && Size(ms, SecondHalf(w)) == half
    ensures Size(ms, w) == 1 + 2 * half
  {
  }

  lemma BurstNextToCut(w: Window, k: nat, n: nat)
    requires Full(w, k) && n >= NEAR_CAP
    ensures !OnCut(w, Midpoint(w) + 1) && Size(Burst(n, Midpoint(w) + 1), w) == 1 + 2 * k
  {
    FullSpan(w, k);
    MiddleIsInside(w);
    if OnCut(w, Midpoint(w) + 1) {
      CutsAreInside(if OnCut(FirstHalf(w), Midpoint(w) + 1) then FirstHalf(w) else SecondHalf(w), Midpoint(w) + 1);
    }
    BurstChased(n, Midpoint(w) + 1, w, k);
  }

  lemma MiddleIsInside(w: Window)
    requires w.Span() >= 4
    ensures w.from < Midpoint(w) < Midpoint(w) + 1 < w.to
  {
  }

  // ---- The folder: bursts spread over the windows of bisection ----

  datatype Shape = One | Two(first: Shape, second: Shape)

  function Bursts(shape: Shape): nat {
    match shape
    case One => 1
    case Two(a, b) => Bursts(a) + Bursts(b)
  }

  /** The shape is at most h splits deep. */
  predicate Within(shape: Shape, h: nat) {
    shape.Two? ==> h > 0 && Within(shape.first, h - 1) && Within(shape.second, h - 1)
  }

  /** How deep bisection goes below a shape with h splits at the most: a burst
      on the middle of a window splits that window, too. */
  function Depth(h: nat, onCut: bool): nat {
    if onCut then h + 1 else h
  }

  lemma HalvesAreFull(w: Window, h: nat, onCut: bool)
    requires h > 0 && Full(w, Depth(h, onCut))
    ensures w.Span() > MICROS_PER_DAY
    ensures Full(FirstHalf(w), Depth(h - 1, onCut)) && Full(SecondHalf(w), Depth(h - 1, onCut))
  {
    assert Depth(h, onCut) - 1 == Depth(h - 1, onCut);
  }

  /** One burst for each end of the shape, on the middle of its window or next
      to it; the first one has r messages more than 1900. */
  function Spread(w: Window, shape: Shape, r: nat, onCut: bool): seq<int>
    decreases shape
  {
    match shape
    case One => Burst(1900 + r, if onCut then Midpoint(w) else Midpoint(w) + 1)
    case Two(a, b) => Spread(FirstHalf(w), a, r, onCut) + Spread(SecondHalf(w), b, 0, onCut)
  }

  lemma {:induction false} SpreadInside(w: Window, shape: Shape, h: nat, r: nat, onCut: bool)
    requires Full(w, Depth(h, onCut)) && Within(shape, h)
    ensures Inside(Spread(w, shape, r, onCut), w)
    decreases shape
  {
    FullSpan(w, Depth(h, onCut));
    MiddleIsInside(w);
    match shape
    case One =>
    case Two(a, b) =>
      HalvesAreFull(w, h, onCut);
      SpreadInside(FirstHalf(w), a, h - 1, r, onCut);
      SpreadInside(SecondHalf(w), b, h - 1, 0, onCut);
  }

  lemma {:induction false} SpreadLength(w: Window, shape: Shape, r: nat, onCut: bool)
    ensures |Spread(w, shape, r, onCut)| == 1900 * Bursts(shape) + r
    decreases shape
  {
    match shape
    case One =>
    case Two(a, b) =>
      SpreadLength(FirstHalf(w), a, r, onCut);
      SpreadLength(SecondHalf(w), b, 0, onCut);
  }

  lemma {:induction false} SomeBurst(shape: Shape)
    ensures Bursts(shape) >= 1
  {
    if shape.Two? {
      SomeBurst(shape.first);
    }
  }

  lemma SpreadCount(w: Window, shape: Shape, h: nat, r: nat, onCut: bool)
    requires Full(w, Depth(h, onCut)) && Within(shape, h)
    ensures Count(Spread(w, shape, r, onCut), w) == 1900 * Bursts(shape) + r
  {
    SpreadInside(w, shape, h, r, onCut);
    SpreadLength(w, shape, r, onCut);
    CountInside(Spread(w, shape, r, onCut), w, w);
  }

  /** How many windows the shape needs. */
  function Needed(shape: Shape, h: nat, onCut: bool): nat
    requires Within(shape, h)
  {
    match shape
    case One => if onCut then 4 * h + 3 else 2 * h + 1
    case Two(a, b) => 1 + Needed(a, h - 1, onCut) + Needed(b, h - 1, onCut)
  }

  lemma {:induction false} SpreadSize(w: Window, shape: Shape, h: nat, r: nat, onCut: bool)
    requires Full(w, Depth(h, onCut)) && Within(shape, h)
    ensures Size(Spread(w, shape, r, onCut), w) == Needed(shape, h, onCut)
    decreases shape, 1
  {
    match shape
    case One => BurstSize(w, h, r, onCut);
    case Two(a, b) => TwoSizes(w, a, b, h, r, onCut);
  }

  lemma {:induction false} TwoSizes(w: Window, a: Shape, b: Shape, h: nat, r: nat, onCut: bool)
    requires Full(w, Depth(h, onCut)) && Within(Two(a, b), h)
    ensures Size(Spread(w, Two(a, b), r, onCut), w) == Needed(Two(a, b), h, onCut)
    decreases Two(a, b), 0
  {
    var u, v := SpreadHalves(w, a, b, h, r, onCut);
    SpreadSize(u, a, h - 1, r, onCut);
    SpreadSize(v, b, h - 1, 0, onCut);
    NeededTwo(a, b, h, onCut);
  }

  lemma NeededTwo(a: Shape, b: Shape, h: nat, onCut: bool)
    requires Within(Two(a, b), h)
    ensures Needed(Two(a, b), h, onCut) == 1 + Needed(a, h - 1, onCut) + Needed(b, h - 1, onCut)
  {
  }

  lemma BurstSize(w: Window, h: nat, r: nat, onCut: bool)
    requires Full(w, Depth(h, onCut))
    ensures Size(Spread(w, One, r, onCut), w) == Needed(One, h, onCut)
  {
    if onCut {
      BurstOnCut(w, h + 1, 1900 + r);
    } else {
      BurstNextToCut(w, h, 1900 + r);
    }
  }

  /** The root and, below it, both halves. */
  lemma SpreadHalves(w: Window, a: Shape, b: Shape, h: nat, r: nat, onCut: bool) returns (u: Window, v: Window)
    requires Full(w, Depth(h, onCut)) && Within(Two(a, b), h)
    ensures Full(u, Depth(h - 1, onCut)) && Full(v, Depth(h - 1, onCut))
    ensures Size(Spread(w, Two(a, b), r, onCut), w)
         == 1 + Size(Spread(u, a, r, onCut), u) + Size(Spread(v, b, 0, onCut), v)
  {
    u, v := FirstHalf(w), SecondHalf(w);
    HalvesAreFull(w, h, onCut);
    SpreadInside(u, a, h - 1, r, onCut);
    SpreadInside(v, b, h - 1, 0, onCut);
    SpreadSplits(w, Two(a, b), h, r, onCut);
    JoinedSizes(Spread(u, a, r, onCut), Spread(v, b, 0, onCut), w);
  }

  lemma SpreadSplits(w: Window, shape: Shape, h: nat, r: nat, onCut: bool)
    requires Full(w, Depth(h, onCut)) && Within(shape, h) && w.Span() > MICROS_PER_DAY
    ensures Splits(Spread(w, shape, r, onCut), w)
  {
    SpreadCount(w, shape, h, r, onCut);
    SomeBurst(shape);
  }

  lemma JoinedSizes(a: seq<int>, b: seq<int>, w: Window)
    requires Splits(a + b, w) && Inside(a, FirstHalf(w)) && Inside(b, SecondHalf(w))
    ensures Size(a + b, w) == 1 + Size(a, FirstHalf(w)) + Size(b, SecondHalf(w))
  {
    JoinedCounts(a, b, FirstHalf(w), SecondHalf(w));
    SizeIsLocal(a + b, a, FirstHalf(w));
    SizeIsLocal(a + b, b, SecondHalf(w));
  }

  lemma JoinedCounts(a: seq<int>, b: seq<int>, u: Window, v: Window)
    requires u.to == v.from && Inside(a, u) && Inside(b, v)
    ensures Alike(a + b, a, u) && Alike(a + b, b, v)
  {
    forall x | PartOf(x, u)
      ensures Count(a + b, x) == Count(a, x)
    {
      CountConcat(a, b, x);
      CountInside(b, v, x);
    }
    forall x | PartOf(x, v)
      ensures Count(a + b, x) == Count(b, x)
    {
      CountConcat(a, b, x);
      CountInside(a, u, x);
    }
  }

  /** Bursts next to the middles sit on no cut. */
  lemma {:induction false} SpreadOffCut(w: Window, shape: Shape, h: nat, r: nat)
    requires Full(w, h) && Within(shape, h)
    ensures NoneOnCut(Spread(w, shape, r, false), w)
    decreases shape
  {
    match shape
    case One => BurstNextToCut(w, h, 1900);
    case Two(a, b) =>
      HalvesAreFull(w, h, false);
      SpreadOffCut(FirstHalf(w), a, h - 1, r);
      SpreadOffCut(SecondHalf(w), b, h - 1, 0);
      SpreadInside(FirstHalf(w), a, h - 1, r, false);
      SpreadInside(SecondHalf(w), b, h - 1, 0, false);
      OffCutHalves(w, Spread(FirstHalf(w), a, r, false), Spread(SecondHalf(w), b, 0, false));
  }

  lemma OffCutHalves(w: Window, a: seq<int>, b: seq<int>)
    requires NoneOnCut(a, FirstHalf(w)) && Inside(a, FirstHalf(w))
    requires NoneOnCut(b, SecondHalf(w)) && Inside(b, SecondHalf(w))
    ensures NoneOnCut(a + b, w)
  {
    forall i | 0 <= i < |a + b|
      ensures !OnCut(w, (a + b)[i])
    {
      var t := (a + b)[i];
      if OnCut(FirstHalf(w), t) {
        CutsAreInside(FirstHalf(w), t);
      }
      if OnCut(SecondHalf(w), t) {
        CutsAreInside(SecondHalf(w), t);
      }
    }
  }

  // ---- How many windows an even shape needs ----

  /** The first half has as many bursts as the second, or one more. */
  predicate Balanced(shape: Shape) {
    shape.Two? ==>
      && Balanced(shape.first) && Balanced(shape.second)
      && Bursts(shape.second) <= Bursts(shape.first) <= Bursts(shape.second) + 1
  }

  /** One burst more, where the balance asks for it. */
  function Grown(shape: Shape): Shape {
    match shape
    case One => Two(One, One)
    case Two(a, b) => if Bursts(a) == Bursts(b) then Two(Grown(a), b) else Two(a, Grown(b))
  }

  lemma {:induction false} GrownIsBalanced(shape: Shape)
    requires Balanced(shape)
    ensures Balanced(Grown(shape)) && Bursts(Grown(shape)) == Bursts(shape) + 1
  {
    if shape.Two? {
      GrownIsBalanced(shape.first);
      GrownIsBalanced(shape.second);
    }
  }

  /** m bursts, spread evenly. */
  lemma {:induction false} EvenShape(m: nat) returns (shape: Shape)
    requires m >= 1
    ensures Bursts(shape) == m && Balanced(shape)
  {
    if m == 1 {
      shape := One;
    } else {
      var smaller := EvenShape(m - 1);
      GrownIsBalanced(smaller);
      shape := Grown(smaller);
    }
  }

  /** Balanced shapes are as flat as can be. */
  lemma {:induction false} BalancedWithin(shape: Shape, h: nat)
    requires Balanced(shape) && Bursts(shape) <= Pow2(h)
    ensures Within(shape, h)
    decreases shape
  {
    if shape.Two? {
      SomeBurst(shape.first);
      SomeBurst(shape.second);
      assert h > 0;
      BalancedWithin(shape.first, h - 1);
      BalancedWithin(shape.second, h - 1);
    }
  }

  function Least(a: nat, b: nat): nat {
    if a <= b then a else b
  }

  /** One level of two halves is the next level of the whole. */
  lemma LevelSplits(p: nat, a: nat, b: nat)
    requires 1 <= b <= a <= b + 1
    ensures Least(p, a) + Least(p, b) == Least(2 * p, a + b)
  {
  }

  lemma LevelDoubles(p: nat, q: nat, a: nat, b: nat)
    requires (p == 1 || p == 2 * q) && 1 <= b <= a <= b + 1
    ensures Least(p, 2 * a) + Least(p, 2 * b) == Least(2 * p, 2 * (a + b))
  {
  }

  lemma {:induction false} LevelSumSplits(a: nat, b: nat, k: nat)
    requires 1 <= b <= a <= b + 1 && k > 0
    ensures LevelSum(a + b, k) == 1 + LevelSum(a, k - 1) + LevelSum(b, k - 1)
  {
    if k == 1 {
      FirstLevel(a + b);
    } else {
      LevelSumSplits(a, b, k - 1);
      LevelSplits(Pow2(k - 2), a, b);
    }
  }

  lemma {:induction false} LevelSumDoubles(a: nat, b: nat, k: nat)
    requires 1 <= b <= a <= b + 1 && k > 0
    ensures LevelSum(2 * (a + b), k) == 1 + LevelSum(2 * a, k - 1) + LevelSum(2 * b, k - 1)
  {
    if k == 1 {
      FirstLevel(2 * (a + b));
    } else {
      LevelSumDoubles(a, b, k - 1);
      LevelDoubles(Pow2(k - 2), if k > 2 then Pow2(k - 3) else 0, a, b);
    }
  }

  lemma FirstLevel(k: nat)
    requires k >= 1
    ensures LevelSum(k, 1) == 1
  {
    assert LevelSum(k, 0) == 0 && Pow2(0) == 1;
  }

  lemma {:induction false} LevelSumOne(k: nat)
    ensures LevelSum(1, k) == k
  {
    if k > 0 {
      LevelSumOne(k - 1);
    }
  }

  lemma LevelSumTwo(k: nat)
    requires k > 0
    ensures LevelSum(2, k) == 2 * k - 1
  {
    LevelSumOne(k - 1);
    LevelSumSplits(1, 1, k);
  }

  lemma {:induction false} NeededOffCut(shape: Shape, h: nat)
    requires Balanced(shape) && Within(shape, h)
    ensures Needed(shape, h, false) == 1 + 2 * LevelSum(Bursts(shape), h)
    decreases shape
  {
    match shape
    case One => LevelSumOne(h);
    case Two(a, b) =>
      NeededOffCut(a, h - 1);
      NeededOffCut(b, h - 1);
      SomeBurst(b);
      LevelSumSplits(Bursts(a), Bursts(b), h);
      NeededTwo(a, b, h, false);
  }

  lemma {:induction false} NeededOnCut(shape: Shape, k: nat)
    requires k > 0 && Balanced(shape) && Within(shape, k - 1)
    ensures Needed(shape, k - 1, true) == 1 + 2 * LevelSum(2 * Bursts(shape), k)
    decreases shape
  {
    match shape
    case One => LevelSumTwo(k);
    case Two(a, b) =>
      NeededOnCut(a, k - 1);
      NeededOnCut(b, k - 1);
      SomeBurst(b);
      LevelSumDoubles(Bursts(a), Bursts(b), k);
      NeededTwo(a, b, k - 1, true);
  }

  lemma SpreadOnCuts(w: Window, h: nat, m: nat, r: nat) returns (ms: seq<int>)
    requires Full(w, h + 1) && 1 <= m <= Pow2(h)
    ensures Count(ms, w) == 1900 * m + r && Size(ms, w) == 1 + 2 * LevelSum(2 * m, h + 1)
  {
    var shape := EvenShape(m);
    BalancedWithin(shape, h);
    ms := Spread(w, shape, r, true);
    SpreadCount(w, shape, h, r, true);
    SpreadSize(w, shape, h, r, true);
    NeededOnCut(shape, h + 1);
  }

  lemma SpreadNextToCuts(w: Window, h: nat, m: nat, r: nat) returns (ms: seq<int>)
    requires Full(w, h) && 1 <= m <= Pow2(h)
    ensures Count(ms, w) == 1900 * m + r && NoneOnCut(ms, w) && Size(ms, w) == 1 + 2 * LevelSum(m, h)
  {
    var shape := EvenShape(m);
    BalancedWithin(shape, h);
    ms := Spread(w, shape, r, false);
    SpreadCount(w, shape, h, r, false);
    SpreadOffCut(w, shape, h, r);
    SpreadSize(w, shape, h, r, false);
    NeededOffCut(shape, h);
  }

  /** The bound for any folder is reached by a folder of n messages, as long as
      there are no more bursts than windows to cut. */
  lemma WindowBoundReached(w: Window, k: nat, n: nat) returns (ms: seq<int>)
    requires k > 0 && Fits(w, k) && n / NEAR_CAP <= Pow2(k - 1)
    ensures Count(ms, w) == n && Size(ms, w) == 1 + 2 * LevelSum(2 * (n / NEAR_CAP), k)
  {
    if n < NEAR_CAP {
      ms := FewMessages(w, k, n);
    } else {
      FitsIsFull(w, k);
      ms := SpreadOnCuts(w, k - 1, n / 1900, n % 1900);
    }
  }

  /** And the bound for folders off the cuts by one that is off the cuts. */
  lemma OffCutBoundReached(w: Window, k: nat, n: nat) returns (ms: seq<int>)
    requires Fits(w, k) && n / NEAR_CAP <= Pow2(k)
    ensures Count(ms, w) == n && NoneOnCut(ms, w) && Size(ms, w) == 1 + 2 * LevelSum(n / NEAR_CAP, k)
  {
    if n < NEAR_CAP {
      ms := FewMessages(w, k, n);
    } else {
      FitsIsFull(w, k);
      ms := SpreadNextToCuts(w, k, n / 1900, n % 1900);
    }
  }

  lemma FewMessages(w: Window, k: nat, n: nat) returns (ms: seq<int>)
    requires Fits(w, k) && n < NEAR_CAP
    ensures Count(ms, w) == n && NoneOnCut(ms, w) && Size(ms, w) == 1 + 2 * LevelSum(0, k)
  {
    ms := Burst(n, w.from);
    CountBurst(n, w.from, w);
    NotOwnEnd(w);
    NoLevels(k);
  }

  lemma {:induction false} NoLevels(k: nat)
    ensures LevelSum(0, k) == 0
  {
    if k > 0 {
      NoLevels(k - 1);
    }
  }

  // ---- What the limit of 64 windows guarantees ----

  /** For a range of 2^13 to 2^14 days (any run between June 2022 and November
      2044): the limit is kept by every folder of n messages exactly when n is
      below 3800, and by every one off the cuts exactly when it is below
      5700. */
  lemma LimitIff(w: Window, n: nat)
    requires 8192 * (MICROS_PER_DAY + 1) <= w.Span() <= 16384 * MICROS_PER_DAY
    ensures (forall ms :: Count(ms, w) == n ==> Size(ms, w) <= MAX_WINDOWS) <==> n < 3800
    ensures (forall ms :: Count(ms, w) == n && NoneOnCut(ms, w) ==> Size(ms, w) <= MAX_WINDOWS) <==> n < 5700
  {
    forall ms | Count(ms, w) == n && (n < 3800 || (n < 5700 && NoneOnCut(ms, w)))
      ensures Size(ms, w) <= MAX_WINDOWS
    {
      SmallFolderFewWindows(ms, w);
    }
    if n >= 3800 {
      var ms := ManyWindows(w, n);
      assert Count(ms, w) == n && Size(ms, w) > MAX_WINDOWS;
    }
    if n >= 5700 {
      var ms := ManyWindowsOffCut(w, n);
      assert Count(ms, w) == n && NoneOnCut(ms, w) && Size(ms, w) > MAX_WINDOWS;
    }
  }

  /** From 3800 messages on, 103 windows can be needed. */
  lemma ManyWindows(w: Window, n: nat) returns (ms: seq<int>)
    requires 8192 * (MICROS_PER_DAY + 1) <= w.Span() <= 16384 * MICROS_PER_DAY && n >= 3800
    ensures Count(ms, w) == n && Size(ms, w) == 103
  {
    var h, m := TwoBursts();
    FitsIsFull(w, h + 1);
    ms := SpreadOnCuts(w, h, m, n - 3800);
  }

  lemma TwoBursts() returns (h: nat, m: nat)
    ensures m == 2 && Pow2(h) == 8192 && LevelSum(2 * m, h + 1) == 51
  {
    h, m := 13, 2;
    assert Pow2(13) == 8192 && LevelSum(4, 14) == 51;
  }

  /** From 5700 messages on, 79 can be needed with none on a cut. */
  lemma ManyWindowsOffCut(w: Window, n: nat) returns (ms: seq<int>)
    requires 8192 * (MICROS_PER_DAY + 1) <= w.Span() <= 16384 * MICROS_PER_DAY && n >= 5700
    ensures Count(ms, w) == n && NoneOnCut(ms, w) && Size(ms, w) == 79
  {
    var h, m := ThreeBursts();
    FitsIsFull(w, h);
    ms := SpreadNextToCuts(w, h, m, n - 5700);
  }

  lemma ThreeBursts() returns (h: nat, m: nat)
    ensures m == 3 && h > 0 && Pow2(h - 1) == 8192 && Pow2(h) == 16384 && LevelSum(m, h) == 39
  {
    h, m := 14, 3;
    assert Pow2(13) == 8192 && Pow2(14) == 16384 && LevelSum(3, 14) == 39;
  }
}
