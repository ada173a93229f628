/** Indexing one folder: a first-in first-out queue of date windows, fetched
    one at a time and bisected when a fetch comes back nearly full. */
module FolderIndexing {

  import opened Options
  import opened DateBisection

  datatype FolderStatus = Pendiente | Indexando | Listo | Parcial

  datatype Note = LimitReached | JobNote(text: string)

  datatype Detail = LastNotes(notes: seq<Note>) | CancelledByAdmin

  /** How one fetch job ended, as the caller sees it.  The count of a finished
      job can be missing, and then stands for zero. */
  datatype JobEnd = Done(count: Option<nat>) | Failed(text: string) | Cancelled

  function Reported(e: JobEnd): nat
    requires e.Done?
  {
    if e.count.Some? then e.count.value else 0
  }

  /** Every finished fetch reports what the folder holds, up to the ceiling. */
  ghost predicate Honest(job: (nat, Window) -> JobEnd, ms: seq<int>) {
    forall k, w :: job(k, w).Done? ==> Reported(job(k, w)) == Fetched(ms, w)
  }

  /** That is: it reports the number of messages in the window, at most 2000, or
      nothing at all if there are none. */
  ghost predicate HonestEnd(end: JobEnd, ms: seq<int>, w: Window) {
    end.Done? ==>
      || (Count(ms, w) <= 2000 && end.count == Some(Count(ms, w)))
      || (Count(ms, w) > 2000 && end.count == Some(2000))
      || (Count(ms, w) == 0 && end.count == None)
  }

  lemma HonestIff(job: (nat, Window) -> JobEnd, ms: seq<int>)
    ensures Honest(job, ms) <==> forall k, w :: HonestEnd(job(k, w), ms, w)
  {
    if Honest(job, ms) {
      forall k, w
        ensures HonestEnd(job(k, w), ms, w)
      {
        assert job(k, w).Done? ==> Reported(job(k, w)) == Fetched(ms, w);
      }
    } else {
      var k, w :| job(k, w).Done? && Reported(job(k, w)) != Fetched(ms, w);
      assert !HonestEnd(job(k, w), ms, w);
    }
  }

  ghost predicate Undisturbed(flag: nat -> bool, job: (nat, Window) -> JobEnd) {
    (forall k :: !flag(k)) && (forall k, w :: job(k, w).Done?)
  }

  // ---- Where the windows lie ----

  /** ws covers w from end to end, each window starting where the one before
      it stops. */
  ghost predicate Tiles(ws: seq<Window>, w: Window) {
    && ws != []
    && ws[0].from == w.from
    && ws[|ws| - 1].to == w.to
    && (forall i :: 0 <= i < |ws| - 1 ==> ws[i].to == ws[i + 1].from)
    && (forall i :: 0 <= i < |ws| ==> ws[i].from <= ws[i].to)
  }

  /** w is one of the windows d bisections below root. */
  predicate NodeAt(root: Window, w: Window, d: nat)
    decreases d
  {
    if d == 0 then w == root
    else NodeAt(FirstHalf(root), w, d - 1) || NodeAt(SecondHalf(root), w, d - 1)
  }

  lemma HalvedOnce(p: int, span: int, half: int, root: int)
    requires -p < p * span - half < p && -1 <= 2 * half - root <= 1
    ensures -2 * p < 2 * p * span - root < 2 * p
  {
    assert 2 * p * span == 2 * (p * span);
  }

  lemma HalfSpans(root: Window)
    ensures -1 <= 2 * FirstHalf(root).Span() - root.Span() <= 1
    ensures -1 <= 2 * SecondHalf(root).Span() - root.Span() <= 1
  {
  }

  /** At depth d a window is a 2^d-th of the root long, but for less than a
      microsecond. */
  lemma {:induction false} NodeSpan(root: Window, w: Window, d: nat)
    requires NodeAt(root, w, d)
    ensures 0 - Pow2(d) < Pow2(d) * w.Span() - root.Span() < Pow2(d)
    decreases d
  {
    if d == 0 {
      assert Pow2(0) == 1;
    } else {
      var half := if NodeAt(FirstHalf(root), w, d - 1) then FirstHalf(root) else SecondHalf(root);
      NodeSpan(half, w, d - 1);
      HalfSpans(root);
      HalvedOnce(Pow2(d - 1), w.Span(), half.Span(), root.Span());
      assert Pow2(d) == 2 * Pow2(d - 1);
    }
  }

  /** The windows of one depth, followed by windows of the next. */
  ghost predicate InLevels(root: Window, ws: seq<Window>) {
    exists n: nat, d: nat :: LevelThenNext(root, ws, n, d)
  }

  ghost predicate LevelThenNext(root: Window, ws: seq<Window>, n: nat, d: nat) {
    && n <= |ws|
    && (forall i :: 0 <= i < n ==> NodeAt(root, ws[i], d))
    && (forall i :: n <= i < |ws| ==> NodeAt(root, ws[i], d + 1))
  }

  lemma {:induction false} ChildrenAt(root: Window, w: Window, d: nat)
    requires NodeAt(root, w, d)
    ensures NodeAt(root, FirstHalf(w), d + 1) && NodeAt(root, SecondHalf(w), d + 1)
    decreases d
  {
    if d == 0 {
      assert NodeAt(FirstHalf(root), FirstHalf(root), 0) && NodeAt(SecondHalf(root), SecondHalf(root), 0);
    } else if NodeAt(FirstHalf(root), w, d - 1) {
      ChildrenAt(FirstHalf(root), w, d - 1);
    } else {
      ChildrenAt(SecondHalf(root), w, d - 1);
    }
  }

  lemma LevelsNext(root: Window, ws: seq<Window>, split: bool)
    requires ws != [] && InLevels(root, ws)
    ensures InLevels(root, ws[1..] + if split then [FirstHalf(ws[0]), SecondHalf(ws[0])] else [])
  {
    var n: nat, d: nat :| LevelThenNext(root, ws, n, d);
    if n == 0 {
      n, d := |ws|, d + 1;
    }
    ChildrenAt(root, ws[0], d);
    assert LevelThenNext(root, ws[1..] + if split then [FirstHalf(ws[0]), SecondHalf(ws[0])] else [], n - 1, d);
  }

  /** The windows in bag, in some order, tile the root. */
  ghost predicate Covers(bag: multiset<Window>, root: Window) {
    exists leaves :: Tiles(leaves, root) && multiset(leaves) == bag
  }

  /** Replacing one window of a tiling by its halves tiles the same range. */
  lemma CoversSplit(bag: multiset<Window>, w: Window, root: Window)
    requires Covers(bag, root) && w in bag && w.Span() > 1
    ensures Covers(bag - multiset{w} + multiset{FirstHalf(w), SecondHalf(w)}, root)
  {
    var leaves :| Tiles(leaves, root) && multiset(leaves) == bag;
    var i := Place(leaves, w);
    SplitTile(leaves, i, root);
    SplitBag(leaves, i, FirstHalf(w), SecondHalf(w));
    assert Tiles(leaves[..i] + [FirstHalf(w), SecondHalf(w)] + leaves[i + 1..], root);
  }

  lemma Place(ws: seq<Window>, w: Window) returns (i: nat)
    requires w in multiset(ws)
    ensures i < |ws| && ws[i] == w
  {
    assert w in ws;
    i :| 0 <= i < |ws| && ws[i] == w;
  }

  lemma SplitTile(ws: seq<Window>, i: nat, root: Window)
    requires Tiles(ws, root) && i < |ws| && ws[i].Span() > 1
    ensures Tiles(ws[..i] + [FirstHalf(ws[i]), SecondHalf(ws[i])] + ws[i + 1..], root)
  {
  }

  lemma SplitBag(ws: seq<Window>, i: nat, a: Window, b: Window)
    requires i < |ws|
    ensures multiset(ws[..i] + [a, b] + ws[i + 1..]) == multiset(ws) - multiset{ws[i]} + multiset{a, b}
  {
    assert ws == ws[..i] + [ws[i]] + ws[i + 1..];
  }

  // ---- What the queued windows still stand for ----

  function SizeOf(ms: seq<int>, ws: seq<Window>): nat {
    if ws == [] then 0 else Size(ms, ws[0]) + SizeOf(ms, ws[1..])
  }

  function TotalOf(ms: seq<int>, ws: seq<Window>): nat {
    if ws == [] then 0 else Total(ms, ws[0]) + TotalOf(ms, ws[1..])
  }

  function CopiesOf(ms: seq<int>, ws: seq<Window>): nat {
    if ws == [] then 0 else Count(ms, ws[0]) + Duplicates(ms, ws[0]) + CopiesOf(ms, ws[1..])
  }

  lemma {:induction false} SumsAppend(ms: seq<int>, ws: seq<Window>, v: Window)
    ensures SizeOf(ms, ws + [v]) == SizeOf(ms, ws) + Size(ms, v)
    ensures TotalOf(ms, ws + [v]) == TotalOf(ms, ws) + Total(ms, v)
    ensures CopiesOf(ms, ws + [v]) == CopiesOf(ms, ws) + Count(ms, v) + Duplicates(ms, v)
  {
    if ws != [] {
      assert (ws + [v])[1..] == ws[1..] + [v];
      SumsAppend(ms, ws[1..], v);
    }
  }

  /** What is accepted so far and what the queue stands for add up to at most
      what the root stands for. */
  ghost predicate Within(ms: seq<int>, root: Window, processed: nat, indexed: nat, ws: seq<Window>) {
    && processed + SizeOf(ms, ws) <= Size(ms, root)
    && indexed + CopiesOf(ms, ws) <= Count(ms, root) + Duplicates(ms, root)
  }

  /** With no failed fetch, it adds up exactly. */
  ghost predicate Exact(ms: seq<int>, root: Window, processed: nat, indexed: nat, ws: seq<Window>) {
    && processed + SizeOf(ms, ws) == Size(ms, root)
    && indexed + TotalOf(ms, ws) == Total(ms, root)
  }

  lemma StartAccounts(ms: seq<int>, root: Window)
    ensures Within(ms, root, 0, 0, [root]) && Exact(ms, root, 0, 0, [root])
  {
    assert [root] == [] + [root];
    SumsAppend(ms, [], root);
  }

  lemma SplitAccounts(ms: seq<int>, root: Window, processed: nat, indexed: nat, ws: seq<Window>)
    requires ws != [] && Splits(ms, ws[0])
    ensures var next := ws[1..] + [FirstHalf(ws[0])] + [SecondHalf(ws[0])];
            && (Within(ms, root, processed, indexed, ws) ==> Within(ms, root, processed + 1, indexed, next))
            && (Exact(ms, root, processed, indexed, ws) ==> Exact(ms, root, processed + 1, indexed, next))
  {
    var w := ws[0];
    SumsAppend(ms, ws[1..], FirstHalf(w));
    SumsAppend(ms, ws[1..] + [FirstHalf(w)], SecondHalf(w));
    HalvesCount(ms, w);
  }

  lemma AcceptAccounts(ms: seq<int>, root: Window, processed: nat, indexed: nat, ws: seq<Window>)
    requires ws != [] && !Splits(ms, ws[0])
    ensures var counted := indexed + Fetched(ms, ws[0]);
            && (Within(ms, root, processed, indexed, ws) ==> Within(ms, root, processed + 1, counted, ws[1..]))
            && (Exact(ms, root, processed, indexed, ws) ==> Exact(ms, root, processed + 1, counted, ws[1..]))
  {
  }

  lemma FailAccounts(ms: seq<int>, root: Window, processed: nat, indexed: nat, ws: seq<Window>)
    requires ws != []
    ensures Within(ms, root, processed, indexed, ws) ==> Within(ms, root, processed + 1, indexed, ws[1..])
  {
  }

  /** The accepted windows needed no split, and their counts make up the
      total. */
  ghost predicate Counted(ms: seq<int>, accepted: seq<Window>, indexed: nat) {
    indexed == FetchedOf(ms, accepted) && forall i :: 0 <= i < |accepted| ==> !Splits(ms, accepted[i])
  }

  function FetchedOf(ms: seq<int>, ws: seq<Window>): nat {
    if ws == [] then 0 else FetchedOf(ms, ws[..|ws| - 1]) + Fetched(ms, ws[|ws| - 1])
  }

  lemma CountedNext(ms: seq<int>, accepted: seq<Window>, indexed: nat, w: Window)
    requires Counted(ms, accepted, indexed) && !Splits(ms, w)
    ensures Counted(ms, accepted + [w], indexed + Fetched(ms, w))
  {
    assert (accepted + [w])[..|accepted|] == accepted;
  }

  // ---- One turn of the loop ----

  function Bag(accepted: seq<Window>, failed: seq<Window>, queued: seq<Window>): multiset<Window> {
    multiset(accepted) + multiset(failed) + multiset(queued)
  }

  /** What holds each time the loop is about to look at its queue. */
  ghost predicate LoopHead(ms: seq<int>, root: Window, honest: bool, processed: nat, indexed: nat,
                           accepted: seq<Window>, failed: seq<Window>, windows: seq<Window>)
  {
    && 2 * (|accepted| + |failed|) + |windows| == processed + 1
    && Covers(Bag(accepted, failed, windows), root)
    && InLevels(root, windows)
    && (honest ==> Within(ms, root, processed, indexed, windows))
    && (honest && failed == [] ==> Exact(ms, root, processed, indexed, windows))
    && (honest ==> Counted(ms, accepted, indexed))
  }

  lemma LoopStarts(ms: seq<int>, root: Window, honest: bool)
    requires root.from <= root.to
    ensures LoopHead(ms, root, honest, 0, 0, [], [], [root])
  {
    StartAccounts(ms, root);
    assert NodeAt(root, root, 0) && LevelThenNext(root, [root], 1, 0);
    assert Tiles([root], root) && multiset([root]) == Bag([], [], [root]);
  }

  lemma TurnFails(ms: seq<int>, root: Window, honest: bool, processed: nat, indexed: nat,
                  accepted: seq<Window>, failed: seq<Window>, windows: seq<Window>)
    requires windows != [] && LoopHead(ms, root, honest, processed, indexed, accepted, failed, windows)
    ensures LoopHead(ms, root, honest, processed + 1, indexed, accepted, failed + [windows[0]], windows[1..])
  {
    FailAccounts(ms, root, processed, indexed, windows);
    LevelsNext(root, windows, false);
    assert windows[1..] + [] == windows[1..];
    assert windows == [windows[0]] + windows[1..];
    assert Bag(accepted, failed + [windows[0]], windows[1..]) == Bag(accepted, failed, windows);
  }

  lemma TurnAccepts(ms: seq<int>, root: Window, honest: bool, processed: nat, indexed: nat, count: nat,
                    accepted: seq<Window>, failed: seq<Window>, windows: seq<Window>)
    requires windows != [] && LoopHead(ms, root, honest, processed, indexed, accepted, failed, windows)
    requires !TooFull(count, windows[0]) && (honest ==> count == Fetched(ms, windows[0]))
    ensures LoopHead(ms, root, honest, processed + 1, indexed + count, accepted + [windows[0]], failed, windows[1..])
  {
    if honest {
      AcceptAccounts(ms, root, processed, indexed, windows);
      CountedNext(ms, accepted, indexed, windows[0]);
    }
    LevelsNext(root, windows, false);
    assert windows[1..] + [] == windows[1..];
    assert windows == [windows[0]] + windows[1..];
    assert Bag(accepted + [windows[0]], failed, windows[1..]) == Bag(accepted, failed, windows);
  }

  lemma BagSplit(accepted: seq<Window>, failed: seq<Window>, windows: seq<Window>, a: Window, b: Window)
    requires windows != []
    ensures Bag(accepted, failed, windows[1..] + [a] + [b])
         == Bag(accepted, failed, windows) - multiset{windows[0]} + multiset{a, b}
  {
    assert windows == [windows[0]] + windows[1..];
  }

  lemma TurnSplits(ms: seq<int>, root: Window, honest: bool, processed: nat, indexed: nat, count: nat,
                   accepted: seq<Window>, failed: seq<Window>, windows: seq<Window>)
    requires windows != [] && LoopHead(ms, root, honest, processed, indexed, accepted, failed, windows)
    requires TooFull(count, windows[0]) && (honest ==> count == Fetched(ms, windows[0]))
    ensures LoopHead(ms, root, honest, processed + 1, indexed, accepted, failed,
                     windows[1..] + [FirstHalf(windows[0])] + [SecondHalf(windows[0])])
  {
    var w := windows[0];
    var next := windows[1..] + [FirstHalf(w)] + [SecondHalf(w)];
    if honest {
      SplitAccounts(ms, root, processed, indexed, windows);
    }
    LevelsNext(root, windows, true);
    assert windows[1..] + [FirstHalf(w), SecondHalf(w)] == next;
    assert windows == [w] + windows[1..];
    CoversSplit(Bag(accepted, failed, windows), w, root);
    BagSplit(accepted, failed, windows, FirstHalf(w), SecondHalf(w));
  }

  /** What the head of the loop says when the loop stops there. */
  lemma LoopStops(ms: seq<int>, root: Window, honest: bool, processed: nat, indexed: nat,
                  accepted: seq<Window>, failed: seq<Window>, windows: seq<Window>)
    requires LoopHead(ms, root, honest, processed, indexed, accepted, failed, windows)
    ensures honest ==> Counted(ms, accepted, indexed) && indexed <= Count(ms, root) + Duplicates(ms, root)
    ensures honest && failed == [] && windows == [] ==> indexed == Total(ms, root) && processed == Size(ms, root)
    ensures honest && failed == [] && windows != [] ==> processed < Size(ms, root)
  {
  }

  // ---- Which fetches there are ----

  /** All windows that are ever queued when these are fetched, in the order in
      which they join the queue. */
  ghost function Queued(job: (nat, Window) -> JobEnd, root: Window, asked: seq<Window>): seq<Window> {
    if asked == [] then [root]
    else
      var n := |asked| - 1;
      Queued(job, root, asked[..n])
      + if Refused(job(n, asked[n]), asked[n]) then [FirstHalf(asked[n]), SecondHalf(asked[n])] else []
  }

  /** The fetch comes back nearly full and its window is longer than a day. */
  predicate Refused(end: JobEnd, w: Window) {
    end.Done? && end.count.Some? && end.count.value >= 1900 && w.to - w.from > 86_400_000_000
  }

  /** The sum of the counts that are not refused. */
  ghost function CountedBy(job: (nat, Window) -> JobEnd, asked: seq<Window>): nat {
    if asked == [] then 0
    else
      var n := |asked| - 1;
      var end := job(n, asked[n]);
      CountedBy(job, asked[..n])
      + if end.Done? && end.count.Some? && !Refused(end, asked[n]) then end.count.value else 0
  }

  /** A note for each fetch that failed. */
  ghost function NotesBy(job: (nat, Window) -> JobEnd, asked: seq<Window>): seq<Note> {
    if asked == [] then []
    else
      var n := |asked| - 1;
      NotesBy(job, asked[..n]) + if job(n, asked[n]).Failed? then [JobNote(job(n, asked[n]).text)] else []
  }

  /** The flag was down before each of the first n fetches. */
  ghost predicate FlagDown(flag: nat -> bool, n: nat) {
    forall k: nat :: k < n ==> !flag(k)
  }

  ghost predicate NoneCancelled(job: (nat, Window) -> JobEnd, asked: seq<Window>) {
    forall k :: 0 <= k < |asked| ==> job(k, asked[k]) != Cancelled
  }

  /** The windows asked for so far are the first that joined the queue, the rest
      is still queued, and what they brought is counted and noted. */
  ghost predicate Followed(job: (nat, Window) -> JobEnd, root: Window, asked: seq<Window>, windows: seq<Window>,
                           indexed: nat, errors: seq<Note>)
  {
    && asked + windows == Queued(job, root, asked) && NoneCancelled(job, asked)
    && indexed == CountedBy(job, asked) && errors == NotesBy(job, asked)
  }

  lemma FlagDownNext(flag: nat -> bool, n: nat)
    requires FlagDown(flag, n) && !flag(n)
    ensures FlagDown(flag, n + 1)
  {
  }

  lemma FollowedNext(job: (nat, Window) -> JobEnd, root: Window, asked: seq<Window>, windows: seq<Window>,
                     indexed: nat, errors: seq<Note>, end: JobEnd, next: seq<Window>)
    requires Followed(job, root, asked, windows, indexed, errors) && windows != []
    requires end == job(|asked|, windows[0]) && end != Cancelled
    requires next == windows[1..] + if end.Done? && TooFull(Reported(end), windows[0])
                                    then [FirstHalf(windows[0]), SecondHalf(windows[0])] else []
    ensures Followed(job, root, asked + [windows[0]], next,
                     indexed + if end.Done? && !TooFull(Reported(end), windows[0]) then Reported(end) else 0,
                     errors + if end.Failed? then [JobNote(end.text)] else [])
  {
    var more := asked + [windows[0]];
    assert more[..|asked|] == asked;
    assert end.Done? ==> (Refused(end, windows[0]) <==> TooFull(Reported(end), windows[0]));
    assert more + next == asked + windows + next[|windows| - 1..];
  }

  /** All that holds each time the loop looks at its queue. */
  ghost predicate AtHead(flag: nat -> bool, job: (nat, Window) -> JobEnd, ms: seq<int>, root: Window, indexed: nat,
                         errors: seq<Note>, asked: seq<Window>, accepted: seq<Window>, failed: seq<Window>,
                         windows: seq<Window>)
  {
    && LoopHead(ms, root, Honest(job, ms), |asked|, indexed, accepted, failed, windows)
    && Followed(job, root, asked, windows, indexed, errors)
    && FlagDown(flag, |asked|) && |errors| == |failed|
    && (Undisturbed(flag, job) ==> failed == [])
  }

  lemma HeadFails(flag: nat -> bool, job: (nat, Window) -> JobEnd, ms: seq<int>, root: Window, indexed: nat,
                  errors: seq<Note>, asked: seq<Window>, accepted: seq<Window>, failed: seq<Window>,
                  windows: seq<Window>, end: JobEnd)
    requires AtHead(flag, job, ms, root, indexed, errors, asked, accepted, failed, windows) && windows != []
    requires !flag(|asked|) && end == job(|asked|, windows[0]) && end.Failed?
    ensures AtHead(flag, job, ms, root, indexed, errors + [JobNote(end.text)], asked + [windows[0]], accepted,
                   failed + [windows[0]], windows[1..])
  {
    TurnFails(ms, root, Honest(job, ms), |asked|, indexed, accepted, failed, windows);
    FlagDownNext(flag, |asked|);
    assert windows[1..] + [] == windows[1..];
    FollowedNext(job, root, asked, windows, indexed, errors, end, windows[1..]);
  }

  lemma HeadSplits(flag: nat -> bool, job: (nat, Window) -> JobEnd, ms: seq<int>, root: Window, indexed: nat,
                   errors: seq<Note>, asked: seq<Window>, accepted: seq<Window>, failed: seq<Window>,
                   windows: seq<Window>, end: JobEnd)
    requires AtHead(flag, job, ms, root, indexed, errors, asked, accepted, failed, windows) && windows != []
    requires !flag(|asked|) && end == job(|asked|, windows[0]) && end.Done? && TooFull(Reported(end), windows[0])
    ensures AtHead(flag, job, ms, root, indexed, errors, asked + [windows[0]], accepted, failed,
                   windows[1..] + [FirstHalf(windows[0])] + [SecondHalf(windows[0])])
  {
    var next := windows[1..] + [FirstHalf(windows[0])] + [SecondHalf(windows[0])];
    TurnSplits(ms, root, Honest(job, ms), |asked|, indexed, Reported(end), accepted, failed, windows);
    FlagDownNext(flag, |asked|);
    assert next == windows[1..] + [FirstHalf(windows[0]), SecondHalf(windows[0])];
    assert errors + [] == errors;
    FollowedNext(job, root, asked, windows, indexed, errors, end, next);
  }

  lemma HeadAccepts(flag: nat -> bool, job: (nat, Window) -> JobEnd, ms: seq<int>, root: Window, indexed: nat,
                    errors: seq<Note>, asked: seq<Window>, accepted: seq<Window>, failed: seq<Window>,
                    windows: seq<Window>, end: JobEnd)
    requires AtHead(flag, job, ms, root, indexed, errors, asked, accepted, failed, windows) && windows != []
    requires !flag(|asked|) && end == job(|asked|, windows[0]) && end.Done? && !TooFull(Reported(end), windows[0])
    ensures AtHead(flag, job, ms, root, indexed + Reported(end), errors, asked + [windows[0]],
                   accepted + [windows[0]], failed, windows[1..])
  {
    TurnAccepts(ms, root, Honest(job, ms), |asked|, indexed, Reported(end), accepted, failed, windows);
    FlagDownNext(flag, |asked|);
    assert windows[1..] + [] == windows[1..] && errors + [] == errors;
    FollowedNext(job, root, asked, windows, indexed, errors, end, windows[1..]);
  }

  // ---- The row and the loop ----

  class FolderRow {
    var status: FolderStatus
    var messagesIndexed: nat
    var windowsProcessed: nat
    var detail: Option<Detail>

    constructor ()
      ensures status == Pendiente && messagesIndexed == 0 && windowsProcessed == 0 && detail == None
    {
      status, messagesIndexed, windowsProcessed, detail := Pendiente, 0, 0, None;
    }

    /** The last three notes, or fewer if there are not as many. */
    function Last3(notes: seq<Note>): (r: Option<Detail>)
      ensures r == None <==> notes == []
      ensures notes != [] ==>
                r.value.LastNotes? && |r.value.notes| == (if |notes| < 3 then |notes| else 3)
                && r.value.notes == notes[|notes| - |r.value.notes|..]
    {
      if notes == [] then None
      else Some(LastNotes(if |notes| <= 3 then notes else notes[|notes| - 3..]))
    }

    method Finish(cancelled: bool, errors: seq<Note>)
      modifies this`status, this`detail
      ensures detail == if cancelled then Some(CancelledByAdmin) else Last3(errors)
      ensures status == if cancelled || errors != [] then Parcial else Listo
    {
      if cancelled {
        status, detail := Parcial, Some(CancelledByAdmin);
      } else if errors != [] {
        status, detail := Parcial, Last3(errors);
      } else {
        status, detail := Listo, None;
      }
    }

    /** What a fetch that ended does to the queue and the counts. */
    method Turn(end: JobEnd, queue: seq<Window>, indexed0: nat, errors0: seq<Note>,
                ghost flag: nat -> bool, ghost job: (nat, Window) -> JobEnd, ghost ms: seq<int>, ghost root: Window,
                ghost asked: seq<Window>, ghost accepted0: seq<Window>, ghost failed0: seq<Window>)
      returns (indexed: nat, errors: seq<Note>, windows: seq<Window>,
               ghost accepted: seq<Window>, ghost failed: seq<Window>)
      requires AtHead(flag, job, ms, root, indexed0, errors0, asked, accepted0, failed0, queue)
      requires queue != [] && !flag(|asked|) && end == job(|asked|, queue[0]) && end != Cancelled
      ensures AtHead(flag, job, ms, root, indexed, errors, asked + [queue[0]], accepted, failed, windows)
    {
      indexed, errors, windows, accepted, failed := indexed0, errors0, queue[1..], accepted0, failed0;
      match end
      case Failed(text) =>
        HeadFails(flag, job, ms, root, indexed0, errors0, asked, accepted0, failed0, queue, end);
        errors, failed := errors + [JobNote(text)], failed + [queue[0]];
      case Done(_) =>
        var w, count := queue[0], Reported(end);
        if TooFull(count, w) {
          HeadSplits(flag, job, ms, root, indexed0, errors0, asked, accepted0, failed0, queue, end);
          windows := windows + [FirstHalf(w)] + [SecondHalf(w)];
        } else {
          HeadAccepts(flag, job, ms, root, indexed0, errors0, asked, accepted0, failed0, queue, end);
          indexed, accepted := indexed + count, accepted + [w];
        }
    }

    /** The loop over the queue. */
    method Walk(now: int, flag: nat -> bool, job: (nat, Window) -> JobEnd, ghost ms: seq<int>)
      returns (indexed: nat, cancelled: bool, errors: seq<Note>,
               ghost asked: seq<Window>, ghost accepted: seq<Window>, ghost failed: seq<Window>,
               ghost left: seq<Window>, ghost jobErrors: seq<Note>)
      requires 0 <= now
      requires messagesIndexed == 0 && windowsProcessed == 0
      modifies this
      ensures messagesIndexed == indexed && windowsProcessed == |asked| <= MAX_WINDOWS
      ensures status == Indexando && detail == if asked == [] then old(detail) else Last3(jobErrors)
      ensures AtHead(flag, job, ms, Window(0, now), indexed, jobErrors, asked, accepted, failed, left)
      ensures cancelled ==> left != [] && (flag(|asked|) || job(|asked|, left[0]) == Cancelled)
      ensures !cancelled && left != [] ==> |asked| == MAX_WINDOWS
      ensures !cancelled ==> errors == jobErrors + if left != [] then [LimitReached] else []
    {
      status := Indexando;
      ghost var root := Window(0, now);
      var windows := [Window(0, now)];
      var processed: nat := 0;
      indexed, cancelled, errors := 0, false, [];
      asked, accepted, failed, left, jobErrors := [], [], [], [], [];
      LoopStarts(ms, root, Honest(job, ms));

      while windows != []
        invariant processed == |asked| <= MAX_WINDOWS && !cancelled && left == [] && jobErrors == errors
        invariant messagesIndexed == indexed && windowsProcessed == processed
        invariant status == Indexando && detail == if asked == [] then old(detail) else Last3(errors)
        invariant AtHead(flag, job, ms, root, indexed, errors, asked, accepted, failed, windows)
        decreases MAX_WINDOWS - processed
      {
        if processed >= MAX_WINDOWS {
          left := windows;
          errors := errors + [LimitReached];
          break;
        }
        if flag(processed) {
          cancelled := true;
          left := windows;
          break;
        }
        var w := windows[0];
        var end := job(processed, w);
        if end == Cancelled {
          cancelled := true;
          left := windows;
          break;
        }
        indexed, errors, windows, accepted, failed :=
          Turn(end, windows, indexed, errors, flag, job, ms, root, asked, accepted, failed);
        asked, jobErrors := asked + [w], errors;
        processed := processed + 1;
        messagesIndexed, windowsProcessed, detail := indexed, processed, Last3(errors);
      }
    }

    /** flag(k) is the cancel flag as read before fetch number k, and job(k, w)
        how that fetch ends when asked for window w.  The ghost results say
        which windows were asked for, in this order, which of them were
        accepted, which failed, and which were left when the loop stopped.  ms
        is what the folder really holds. */
    method Index(now: int, flag: nat -> bool, job: (nat, Window) -> JobEnd, ghost ms: seq<int>)
      returns (indexed: nat, cancelled: bool, ghost asked: seq<Window>, ghost accepted: seq<Window>,
               ghost failed: seq<Window>, ghost left: seq<Window>, ghost notes: seq<Note>)
      requires 0 <= now
      requires messagesIndexed == 0 && windowsProcessed == 0
      modifies this
      // The row
      ensures messagesIndexed == indexed
      ensures 2 * (|accepted| + |failed|) + |left| - 1 == windowsProcessed == |asked| <= MAX_WINDOWS
      ensures status == if detail == None then Listo else Parcial
      ensures cancelled <==> detail == Some(CancelledByAdmin)
      ensures status == Listo ==> failed == [] && left == []
      // What it did, and why it stopped
      ensures FlagDown(flag, |asked|) && Followed(job, Window(0, now), asked, left, indexed, notes)
      ensures cancelled ==> left != [] && (flag(|asked|) || job(|asked|, left[0]) == Cancelled)
      ensures !cancelled && left != [] ==> |asked| == MAX_WINDOWS
      ensures !cancelled ==> detail == Last3(notes + if left != [] then [LimitReached] else [])
      // Coverage
      ensures Covers(Bag(accepted, failed, left), Window(0, now))
      ensures InLevels(Window(0, now), left)
      // Counting
      ensures Honest(job, ms) ==> Counted(ms, accepted, indexed)
      ensures Honest(job, ms) ==>
                indexed <= Count(ms, Window(0, now)) + Duplicates(ms, Window(0, now))
      ensures Honest(job, ms) && status == Listo ==>
                && indexed == Total(ms, Window(0, now))
                && windowsProcessed == Size(ms, Window(0, now))
      // Completion
      ensures Honest(job, ms) && Undisturbed(flag, job) ==>
                (status == Listo <==> Size(ms, Window(0, now)) <= MAX_WINDOWS)
    {
      var errors;
      indexed, cancelled, errors, asked, accepted, failed, left, notes := Walk(now, flag, job, ms);
      LoopStops(ms, Window(0, now), Honest(job, ms), windowsProcessed, indexed, accepted, failed, left);
      Finish(cancelled, errors);
    }
  }

  /** A small folder is completed in at most 55 fetches when no fetch fails and
      nobody cancels; its total is right if no message sits on a cut and no
      accepted window is over the ceiling. */
  method IndexSmallFolder(row: FolderRow, now: int, flag: nat -> bool, job: (nat, Window) -> JobEnd,
                          ghost ms: seq<int>)
    returns (indexed: nat)
    requires 0 <= now <= 16384 * MICROS_PER_DAY && row.messagesIndexed == 0 && row.windowsProcessed == 0
    requires Honest(job, ms) && Undisturbed(flag, job)
    requires Count(ms, Window(0, now)) < 3800 || (Count(ms, Window(0, now)) < 5700 && NoneOnCut(ms, Window(0, now)))
    modifies row
    ensures row.status == Listo && row.windowsProcessed <= 55 && row.messagesIndexed == indexed
    ensures NoneOnCut(ms, Window(0, now)) ==>
              (indexed == Count(ms, Window(0, now)) <==> !OverfullLeaf(ms, Window(0, now)))
  {
    var cancelled;
    ghost var asked, accepted, failed, left, notes;
    indexed, cancelled, asked, accepted, failed, left, notes := row.Index(now, flag, job, ms);
    SmallFolderFewWindows(ms, Window(0, now));
    if NoneOnCut(ms, Window(0, now)) {
      TotalOffCut(ms, Window(0, now));
    }
  }
}
