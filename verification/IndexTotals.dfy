/** What the total of a successful indexing run means. */
module IndexTotals {

  import opened Options
  import opened DateBisection
  import opened FolderIndexing
  import opened IndexRun

  /** mail says what each folder holds.  A fetch that succeeds reports what its
      window holds, up to the ceiling. */
  ghost predicate HonestCount(mail: seq<seq<int>>, why: Purpose, count: Option<nat>) {
    why.Fetch? && why.folder < |mail| ==> Reported(Done(count)) == Fetched(mail[why.folder], why.window)
  }

  ghost predicate HonestStep(mail: seq<seq<int>>, s: State, step: Step) {
    step.EngineSucceeds? && step.job < |s.purposes| ==> HonestCount(mail, s.purposes[step.job], step.count)
  }

  ghost predicate AllHonest(mail: seq<seq<int>>, steps: seq<Step>) {
    forall k :: 0 <= k < |steps| ==> HonestStep(mail, After(|mail|, steps[..k]), steps[k])
  }

  // ---- Jobs ----

  ghost predicate JobReports(jobs: seq<JobStatus>, purposes: seq<Purpose>, mail: seq<seq<int>>) {
    && |purposes| == |jobs|
    && forall j :: 0 <= j < |jobs| && jobs[j].JobSuccess? ==> HonestCount(mail, purposes[j], jobs[j].count)
  }

  /** The jobs' results are honest, and so is what the run has read. */
  ghost predicate Reports(s: State, mail: seq<seq<int>>) {
    && JobReports(s.jobs, s.purposes, mail)
    && (s.pc.Waiting? ==> s.pc.job < |s.jobs| && s.purposes[s.pc.job] == s.pc.why)
    && (s.pc.Returned? && s.pc.end.Done? ==> HonestCount(mail, s.pc.why, s.pc.end.count))
  }

  lemma ReportsRun(s: State, mail: seq<seq<int>>, dispatched: bool, now: nat)
    requires Reports(s, mail)
    ensures Reports(Advance(s, |mail|, dispatched, now), mail)
  {
    match s.pc
    case Folder(_, _) => ReportsFolder(s, mail, now);
    case Waiting(_, _, _) => ReportsWait(s, mail, dispatched);
    case Returned(_, _) => ReportsReturned(s, mail);
    case Create(why) => assert Advance(s, |mail|, dispatched, now).purposes == s.purposes + [why];
    case _ =>
  }

  lemma ReportsReturned(s: State, mail: seq<seq<int>>)
    requires Reports(s, mail) && s.pc.Returned?
    ensures Reports(Advance(s, |mail|, true, 0), mail)
  {
  }

  lemma ReportsFolder(s: State, mail: seq<seq<int>>, now: nat)
    requires Reports(s, mail) && s.pc.Folder?
    ensures Reports(AdvanceFolder(s, s.pc.stage, s.pc.folder, now), mail)
  {
  }

  lemma ReportsWait(s: State, mail: seq<seq<int>>, dispatched: bool)
    requires Reports(s, mail) && s.pc.Waiting?
    ensures Reports(AdvanceWait(s, s.pc.phase, s.pc.why, s.pc.job, dispatched), mail)
  {
    match s.pc.phase
    case ReadJob(_) => ReportsRead(s, mail);
    case StopJob => JobStops(s.jobs, s.purposes, mail, s.pc.job, JobCancelled);
    case Dispatch => JobStops(s.jobs, s.purposes, mail, s.pc.job, JobFailed);
    case _ =>
  }

  /** What the run reads is what the job reports. */
  lemma ReportsRead(s: State, mail: seq<seq<int>>)
    requires Reports(s, mail) && s.pc.Waiting? && s.pc.phase.ReadJob?
    ensures Reports(AdvanceWait(s, s.pc.phase, s.pc.why, s.pc.job, true), mail)
  {
  }

  lemma JobStops(jobs: seq<JobStatus>, purposes: seq<Purpose>, mail: seq<seq<int>>, j: nat, status: JobStatus)
    requires JobReports(jobs, purposes, mail) && j < |jobs| && !status.JobSuccess?
    ensures JobReports(jobs[j := status], purposes, mail)
  {
  }

  lemma ReportsStep(s: State, mail: seq<seq<int>>, step: Step)
    requires Reports(s, mail) && HonestStep(mail, s, step)
    ensures Reports(Apply(s, |mail|, step), mail)
  {
    if step.Run? {
      ReportsRun(s, mail, step.dispatched, step.now);
    }
  }

  // ---- Folders ----

  /** The whole range of a folder, up to when its turn came. */
  function Range(s: State, i: nat): Window
    requires i < |s.ends|
  {
    Window(0, s.ends[i])
  }

  /** A completed folder records the total of its bisection. */
  ghost predicate Recorded(s: State, mail: seq<seq<int>>) {
    && |s.folders| <= |mail|
    && forall k :: 0 <= k < |s.folders| && k < |s.ends| && s.folders[k].status == Listo ==>
         s.folders[k].indexed == Total(mail[k], Range(s, k))
  }

  /** No walk of the folder counts more than this. */
  function Most(ms: seq<int>, w: Window): nat {
    Count(ms, w) + Duplicates(ms, w)
  }

  /** Folder i is being walked: what is counted and what the queue stands for
      is never more than the folder, and if no fetch failed they make up its
      total. */
  ghost predicate Progress(s: State, mail: seq<seq<int>>, i: nat, queue: seq<Window>) {
    && i < |s.folders| && i < |mail| && |s.ends| == i + 1
    && FolderIndexing.Within(mail[i], Range(s, i), s.processed, s.indexed, queue)
    && (!s.troubled ==> Exact(mail[i], Range(s, i), s.processed, s.indexed, queue))
  }

  ghost predicate Counting(s: State, mail: seq<seq<int>>) {
    match s.pc
    case Folder(Windows, i) => Progress(s, mail, i, s.windows)
    case Folder(End(stopped), i) =>
      && i < |s.folders| && i < |mail| && |s.ends| == i + 1
      && s.indexed <= Most(mail[i], Range(s, i))
      && (!stopped && !s.troubled ==> s.indexed == Total(mail[i], Range(s, i)))
    case Folder(Totals(_), i) => i < |s.folders| && |s.ends| == i + 1
    case Folder(_, i) => i < |s.folders| && |s.ends| == i
    case Create(Fetch(i, w)) => Progress(s, mail, i, [w] + s.windows)
    case Waiting(_, Fetch(i, w), _) => Progress(s, mail, i, [w] + s.windows)
    case Returned(Fetch(i, w), _) => Progress(s, mail, i, [w] + s.windows)
    case RunEnd(stopped) => !stopped ==> |s.ends| == |s.folders|
    case Finish(final) => final == Success ==> |s.ends| == |s.folders|
    case Over => s.status == Success ==> |s.ends| == |s.folders|
    case Crashed => true
    case _ => s.ends == [] && s.folders == []
  }

  ghost predicate Tallied(s: State, mail: seq<seq<int>>) {
    Recorded(s, mail) && Counting(s, mail)
  }

  lemma TalliedFetched(s: State, mail: seq<seq<int>>)
    requires Tallied(s, mail) && Reports(s, mail) && s.pc.Returned? && s.pc.why.Fetch?
    ensures Tallied(AdvanceFetched(s, s.pc.why.folder, s.pc.why.window, s.pc.end), mail)
  {
    RecordedFetched(s, mail, s.pc.why.folder, s.pc.why.window, s.pc.end);
    CountingFetched(s, mail, s.pc.why.folder, s.pc.why.window, s.pc.end);
  }

  lemma RecordedFetched(s: State, mail: seq<seq<int>>, i: nat, w: Window, end: JobEnd)
    requires Recorded(s, mail)
    ensures Recorded(AdvanceFetched(s, i, w, end), mail)
  {
  }

  lemma CountingFetched(s: State, mail: seq<seq<int>>, i: nat, w: Window, end: JobEnd)
    requires Progress(s, mail, i, [w] + s.windows) && (end.Done? ==> Reported(end) == Fetched(mail[i], w))
    ensures Counting(AdvanceFetched(s, i, w, end), mail)
  {
    if end.Done? {
      QueueMoves(s, mail, i, w, end);
    } else {
      WindowFails(s, mail, i, w);
    }
  }

  lemma WindowFails(s: State, mail: seq<seq<int>>, i: nat, w: Window)
    requires Progress(s, mail, i, [w] + s.windows)
    ensures FolderIndexing.Within(mail[i], Range(s, i), s.processed + 1, s.indexed, s.windows)
    ensures s.indexed <= Most(mail[i], Range(s, i))
  {
    var queue := [w] + s.windows;
    assert queue[0] == w && queue[1..] == s.windows;
    FailAccounts(mail[i], Range(s, i), s.processed, s.indexed, queue);
  }

  lemma QueueMoves(s: State, mail: seq<seq<int>>, i: nat, w: Window, end: JobEnd)
    requires Progress(s, mail, i, [w] + s.windows) && end.Done? && Reported(end) == Fetched(mail[i], w)
    ensures Progress(AdvanceFetched(s, i, w, end), mail, i, AdvanceFetched(s, i, w, end).windows)
  {
    var queue := [w] + s.windows;
    assert queue[0] == w && queue[1..] == s.windows;
    if Splits(mail[i], w) {
      SplitAccounts(mail[i], Range(s, i), s.processed, s.indexed, queue);
    } else {
      AcceptAccounts(mail[i], Range(s, i), s.processed, s.indexed, queue);
    }
  }

  lemma TalliedWindows(s: State, mail: seq<seq<int>>, now: nat)
    requires Tallied(s, mail) && s.pc.Folder? && s.pc.stage == Windows
    ensures Tallied(AdvanceFolder(s, Windows, s.pc.folder, now), mail)
  {
    if s.windows != [] {
      assert [s.windows[0]] + s.windows[1..] == s.windows;
    }
  }

  lemma TalliedStart(s: State, mail: seq<seq<int>>, now: nat)
    requires Tallied(s, mail) && s.pc.Folder? && s.pc.stage == Start
    ensures Tallied(AdvanceFolder(s, Start, s.pc.folder, now), mail)
  {
    StartAccounts(mail[s.pc.folder], Window(0, now));
  }

  lemma TalliedFolder(s: State, mail: seq<seq<int>>, now: nat)
    requires Tallied(s, mail) && s.pc.Folder? && s.pc.stage != Windows && s.pc.stage != Start
    ensures Tallied(AdvanceFolder(s, s.pc.stage, s.pc.folder, now), mail)
  {
    if s.pc.stage.End? {
      TalliedEnd(s, mail, now);
    }
  }

  lemma TalliedEnd(s: State, mail: seq<seq<int>>, now: nat)
    requires Tallied(s, mail) && s.pc.Folder? && s.pc.stage.End?
    ensures Tallied(AdvanceFolder(s, s.pc.stage, s.pc.folder, now), mail)
  {
    var i, t := s.pc.folder, AdvanceFolder(s, s.pc.stage, s.pc.folder, now);
    forall k | 0 <= k < |t.folders| && k < |t.ends| && t.folders[k].status == Listo
      ensures t.folders[k].indexed == Total(mail[k], Range(t, k))
    {
      if k != i {
        assert t.folders[k] == s.folders[k];
      }
    }
  }

  lemma TalliedWait(s: State, mail: seq<seq<int>>, dispatched: bool)
    requires Tallied(s, mail) && s.pc.Waiting?
    ensures Tallied(AdvanceWait(s, s.pc.phase, s.pc.why, s.pc.job, dispatched), mail)
  {
    WaitIsLocal(s, dispatched);
    TalliedStillWaiting(s, AdvanceWait(s, s.pc.phase, s.pc.why, s.pc.job, dispatched), mail);
  }

  lemma TalliedStillWaiting(s: State, t: State, mail: seq<seq<int>>)
    requires Tallied(s, mail) && s.pc.Waiting?
    requires t == s.(jobs := t.jobs, currentJob := t.currentJob, pc := t.pc)
    requires (t.pc.Waiting? || t.pc.Returned?) && t.pc.why == s.pc.why
    ensures Tallied(t, mail)
  {
  }

  lemma TalliedRun(s: State, mail: seq<seq<int>>, dispatched: bool, now: nat)
    requires Tallied(s, mail) && Reports(s, mail)
    ensures Tallied(Advance(s, |mail|, dispatched, now), mail)
  {
    match s.pc
    case Folder(_, _) => TalliedAnyStage(s, mail, now);
    case Waiting(_, _, _) => TalliedWait(s, mail, dispatched);
    case Returned(Fetch(_, _), _) => TalliedFetched(s, mail);
    case Returned(Discover, _) => TalliedDiscovered(s, mail);
    case Create(_) => TalliedCreate(s, mail);
    case _ => TalliedRest(s, mail);
  }

  lemma TalliedCreate(s: State, mail: seq<seq<int>>)
    requires Tallied(s, mail) && s.pc.Create?
    ensures Tallied(Advance(s, |mail|, true, 0), mail)
  {
  }

  lemma TalliedAnyStage(s: State, mail: seq<seq<int>>, now: nat)
    requires Tallied(s, mail) && s.pc.Folder?
    ensures Tallied(AdvanceFolder(s, s.pc.stage, s.pc.folder, now), mail)
  {
    match s.pc.stage
    case Windows => TalliedWindows(s, mail, now);
    case Start => TalliedStart(s, mail, now);
    case _ => TalliedFolder(s, mail, now);
  }

  lemma TalliedRest(s: State, mail: seq<seq<int>>)
    requires Tallied(s, mail) && !s.pc.Folder? && !s.pc.Waiting? && !s.pc.Returned? && !s.pc.Create?
    ensures Tallied(Advance(s, |mail|, true, 0), mail)
  {
  }

  lemma TalliedDiscovered(s: State, mail: seq<seq<int>>)
    requires Tallied(s, mail) && s.pc.Returned? && s.pc.why.Discover?
    ensures Tallied(AdvanceDiscovered(s, |mail|, s.pc.end), mail)
  {
  }

  lemma TalliedStep(s: State, mail: seq<seq<int>>, step: Step)
    requires Tallied(s, mail) && Reports(s, mail)
    ensures Tallied(Apply(s, |mail|, step), mail)
  {
    if step.Run? {
      TalliedRun(s, mail, step.dispatched, step.now);
    } else if step != Restart {
      OthersAreLocal(s, |mail|, step);
      TalliedSame(s, Apply(s, |mail|, step), mail);
    }
  }

  lemma TalliedSame(s: State, t: State, mail: seq<seq<int>>)
    requires Tallied(s, mail)
    requires t == s.(jobs := t.jobs, cancelRequested := t.cancelRequested, pendingCancels := t.pendingCancels,
                     pendingDeletes := t.pendingDeletes)
    ensures Tallied(t, mail)
  {
  }

  lemma AllHonestBefore(mail: seq<seq<int>>, steps: seq<Step>)
    requires AllHonest(mail, steps) && steps != []
    ensures AllHonest(mail, steps[..|steps| - 1])
    ensures HonestStep(mail, After(|mail|, steps[..|steps| - 1]), steps[|steps| - 1])
  {
    var init := steps[..|steps| - 1];
    forall k | 0 <= k < |init|
      ensures HonestStep(mail, After(|mail|, init[..k]), init[k])
    {
      assert init[..k] == steps[..k];
    }
  }

  lemma {:induction false} StaysTallied(mail: seq<seq<int>>, steps: seq<Step>)
    requires AllHonest(mail, steps)
    ensures Tallied(After(|mail|, steps), mail) && Reports(After(|mail|, steps), mail)
  {
    if steps != [] {
      var init := steps[..|steps| - 1];
      AllHonestBefore(mail, steps);
      StaysTallied(mail, init);
      ReportsStep(After(|mail|, init), mail, steps[|steps| - 1]);
      TalliedStep(After(|mail|, init), mail, steps[|steps| - 1]);
    }
  }

  // ---- The whole run ----

  function TotalsOf(mail: seq<seq<int>>, ends: seq<int>): nat
    requires |ends| == |mail|
  {
    if mail == [] then 0
    else
      var n := |mail| - 1;
      TotalsOf(mail[..n], ends[..n]) + Total(mail[n], Window(0, ends[n]))
  }

  function CountsOf(mail: seq<seq<int>>, ends: seq<int>): nat
    requires |ends| == |mail|
  {
    if mail == [] then 0
    else
      var n := |mail| - 1;
      CountsOf(mail[..n], ends[..n]) + Count(mail[n], Window(0, ends[n]))
  }

  lemma {:induction false} SumIsTotals(folders: seq<FolderRecord>, mail: seq<seq<int>>, ends: seq<int>)
    requires |folders| == |mail| == |ends|
    requires forall k :: 0 <= k < |folders| ==> folders[k].indexed == Total(mail[k], Window(0, ends[k]))
    ensures Sum(folders) == TotalsOf(mail, ends)
  {
    if mail != [] {
      var n := |mail| - 1;
      SumIsTotals(folders[..n], mail[..n], ends[..n]);
    }
  }

  /** If every fetch that succeeds is honest, a run that ends as a success
      reports the sum, over all folders, of what a complete bisection of the
      folder reports. */
  lemma SuccessCountsAll(mail: seq<seq<int>>, steps: seq<Step>)
    requires AllHonest(mail, steps)
    ensures var s := After(|mail|, steps);
      s.pc == Over && s.status == Success ==>
        |s.ends| == |mail| && s.totalIndexed == TotalsOf(mail, s.ends)
  {
    var s := After(|mail|, steps);
    StaysTallied(mail, steps);
    RunOutcome(|mail|, steps);
    BooksBalance(|mail|, steps);
    if s.pc == Over && s.status == Success {
      SettledTotals(s, mail);
    }
  }

  lemma SettledTotals(s: State, mail: seq<seq<int>>)
    requires Settled(s) && s.status == Success && |s.folders| == |mail| == |s.ends| && Recorded(s, mail)
    ensures s.totalIndexed == TotalsOf(mail, s.ends)
  {
    forall k | 0 <= k < |s.folders|
      ensures s.folders[k].indexed == Total(mail[k], Window(0, s.ends[k]))
    {
      assert s.folders[k].status == Listo;
    }
    SumIsTotals(s.folders, mail, s.ends);
  }

  // ---- Runs that end in any other way ----

  /** The most that walking the first n folders can count. */
  function MostOf(mail: seq<seq<int>>, ends: seq<int>, n: nat): nat
    requires n <= |mail| && n <= |ends|
  {
    if n == 0 then 0 else MostOf(mail, ends, n - 1) + Most(mail[n - 1], Window(0, ends[n - 1]))
  }

  lemma {:induction false} MostOfAppend(mail: seq<seq<int>>, ends: seq<int>, now: int, n: nat)
    requires n <= |mail| && n <= |ends|
    ensures MostOf(mail, ends + [now], n) == MostOf(mail, ends, n)
  {
    if n > 0 {
      MostOfAppend(mail, ends, now, n - 1);
    }
  }

  /** The run has begun to walk a folder and not yet added it to its total. */
  predicate Walking(pc: Pc) {
    match pc
    case Create(why) => why.Fetch?
    case Waiting(_, why, _) => why.Fetch?
    case Returned(why, _) => why.Fetch?
    case Folder(stage, _) => stage == Windows || stage.End?
    case _ => false
  }

  ghost predicate Capped(s: State, mail: seq<seq<int>>) {
    && |s.ends| <= |mail| && s.totalIndexed <= s.total
    && (Walking(s.pc) ==> |s.ends| > 0)
    && s.total <= MostOf(mail, s.ends, if Walking(s.pc) then |s.ends| - 1 else |s.ends|)
  }

  lemma CappedSame(s: State, t: State, mail: seq<seq<int>>)
    requires Capped(s, mail) && Walking(t.pc) == Walking(s.pc)
    requires t.ends == s.ends && t.total == s.total && t.totalIndexed == s.totalIndexed
    ensures Capped(t, mail)
  {
  }

  lemma CappedStart(s: State, mail: seq<seq<int>>, now: nat)
    requires Capped(s, mail) && Tallied(s, mail) && s.pc.Folder? && s.pc.stage == Start
    ensures Capped(AdvanceFolder(s, Start, s.pc.folder, now), mail)
  {
    MostOfAppend(mail, s.ends, now, |s.ends|);
  }

  lemma CappedEnd(s: State, mail: seq<seq<int>>, now: nat)
    requires Capped(s, mail) && Tallied(s, mail) && s.pc.Folder? && s.pc.stage.End?
    ensures Capped(AdvanceFolder(s, s.pc.stage, s.pc.folder, now), mail)
  {
    var n := |s.ends|;
    assert MostOf(mail, s.ends, n) == MostOf(mail, s.ends, n - 1) + Most(mail[n - 1], Range(s, n - 1));
  }

  lemma CappedTotals(s: State, mail: seq<seq<int>>, now: nat)
    requires Capped(s, mail) && s.pc.Folder? && s.pc.stage.Totals?
    ensures Capped(AdvanceFolder(s, s.pc.stage, s.pc.folder, now), mail)
  {
  }

  /** The other steps of the run leave the totals alone. */
  lemma QuietFolder(s: State, now: nat)
    requires s.pc.Folder? && (s.pc.stage == Head || s.pc.stage == Windows)
    ensures var t := AdvanceFolder(s, s.pc.stage, s.pc.folder, now);
      Walking(t.pc) == Walking(s.pc)
      && t.ends == s.ends && t.total == s.total && t.totalIndexed == s.totalIndexed
  {
  }

  lemma QuietReturn(s: State, found: nat)
    requires s.pc.Returned?
    ensures var t := Advance(s, found, true, 0);
      Walking(t.pc) == Walking(s.pc)
      && t.ends == s.ends && t.total == s.total && t.totalIndexed == s.totalIndexed
  {
  }

  lemma QuietRest(s: State, found: nat)
    requires !s.pc.Folder? && !s.pc.Returned? && !s.pc.Waiting?
    ensures var t := Advance(s, found, true, 0);
      Walking(t.pc) == Walking(s.pc)
      && t.ends == s.ends && t.total == s.total && t.totalIndexed == s.totalIndexed
  {
  }

  lemma CappedFolder(s: State, mail: seq<seq<int>>, now: nat)
    requires Capped(s, mail) && Tallied(s, mail) && s.pc.Folder?
    ensures Capped(AdvanceFolder(s, s.pc.stage, s.pc.folder, now), mail)
  {
    match s.pc.stage
    case Start => CappedStart(s, mail, now);
    case End(_) => CappedEnd(s, mail, now);
    case Totals(_) => CappedTotals(s, mail, now);
    case _ =>
      QuietFolder(s, now);
      CappedSame(s, AdvanceFolder(s, s.pc.stage, s.pc.folder, now), mail);
  }

  lemma CappedRun(s: State, mail: seq<seq<int>>, dispatched: bool, now: nat)
    requires Capped(s, mail) && Tallied(s, mail)
    ensures Capped(Advance(s, |mail|, dispatched, now), mail)
  {
    match s.pc
    case Folder(_, _) => CappedFolder(s, mail, now);
    case Waiting(_, _, _) =>
      WaitIsLocal(s, dispatched);
      CappedSame(s, AdvanceWait(s, s.pc.phase, s.pc.why, s.pc.job, dispatched), mail);
    case Returned(_, _) =>
      QuietReturn(s, |mail|);
      CappedSame(s, Advance(s, |mail|, dispatched, now), mail);
    case _ =>
      QuietRest(s, |mail|);
      CappedSame(s, Advance(s, |mail|, dispatched, now), mail);
  }

  lemma CappedStep(s: State, mail: seq<seq<int>>, step: Step)
    requires Capped(s, mail) && Tallied(s, mail)
    ensures Capped(Apply(s, |mail|, step), mail)
  {
    if step.Run? {
      CappedRun(s, mail, step.dispatched, step.now);
    } else if step != Restart {
      OthersAreLocal(s, |mail|, step);
      CappedSame(s, Apply(s, |mail|, step), mail);
    } else {
      CappedRestart(s, mail);
    }
  }

  lemma CappedRestart(s: State, mail: seq<seq<int>>)
    requires Capped(s, mail)
    ensures Capped(Apply(s, |mail|, Restart), mail)
  {
    var n := |s.ends|;
    if Walking(s.pc) {
      assert MostOf(mail, s.ends, n) >= MostOf(mail, s.ends, n - 1);
    }
  }

  lemma {:induction false} StaysCapped(mail: seq<seq<int>>, steps: seq<Step>)
    requires AllHonest(mail, steps)
    ensures Capped(After(|mail|, steps), mail)
  {
    if steps != [] {
      var init := steps[..|steps| - 1];
      AllHonestBefore(mail, steps);
      StaysCapped(mail, init);
      StaysTallied(mail, init);
      CappedStep(After(|mail|, init), mail, steps[|steps| - 1]);
    }
  }

  /** At every moment, and however the run ends, it has reported no more than
      the messages of the folders whose turn has come, and those that sit on a
      cut once more for each cut. */
  lemma ReportedAtMost(mail: seq<seq<int>>, steps: seq<Step>)
    requires AllHonest(mail, steps)
    ensures var s := After(|mail|, steps);
      |s.ends| <= |mail| && s.totalIndexed <= MostOf(mail, s.ends, |s.ends|)
  {
    StaysCapped(mail, steps);
  }

  /** So with no message on a cut it never reports too many. */
  lemma NeverTooMany(mail: seq<seq<int>>, steps: seq<Step>)
    requires AllHonest(mail, steps)
    requires var s := After(|mail|, steps);
      |s.ends| <= |mail| && forall k :: 0 <= k < |s.ends| ==> NoneOnCut(mail[k], Window(0, s.ends[k]))
    ensures var s := After(|mail|, steps);
      s.totalIndexed <= CountsOf(mail[..|s.ends|], s.ends)
  {
    var ends := After(|mail|, steps).ends;
    ReportedAtMost(mail, steps);
    MostOffCut(mail, ends, |ends|);
    assert ends[..|ends|] == ends;
  }

  lemma {:induction false} MostOffCut(mail: seq<seq<int>>, ends: seq<int>, n: nat)
    requires n <= |mail| && n <= |ends|
    requires forall k :: 0 <= k < n ==> NoneOnCut(mail[k], Window(0, ends[k]))
    ensures MostOf(mail, ends, n) == CountsOf(mail[..n], ends[..n])
  {
    if n > 0 {
      MostOffCut(mail, ends, n - 1);
      NoDuplicatesOffCut(mail[n - 1], Window(0, ends[n - 1]));
      assert mail[..n][..n - 1] == mail[..n - 1] && ends[..n][..n - 1] == ends[..n - 1];
    }
  }

  // ---- When the total of a success is right ----

  ghost predicate OffCuts(mail: seq<seq<int>>, ends: seq<int>)
    requires |ends| == |mail|
  {
    forall k :: 0 <= k < |mail| ==> NoneOnCut(mail[k], Window(0, ends[k]))
  }

  ghost predicate NoneOverfull(mail: seq<seq<int>>, ends: seq<int>)
    requires |ends| == |mail|
  {
    forall k :: 0 <= k < |mail| ==> !OverfullLeaf(mail[k], Window(0, ends[k]))
  }

  lemma {:induction false} TotalsAreCountsIff(mail: seq<seq<int>>, ends: seq<int>)
    requires |ends| == |mail| && OffCuts(mail, ends)
    ensures TotalsOf(mail, ends) <= CountsOf(mail, ends)
    ensures TotalsOf(mail, ends) == CountsOf(mail, ends) <==> NoneOverfull(mail, ends)
  {
    if mail != [] {
      var n := |mail| - 1;
      TotalsAreCountsIff(mail[..n], ends[..n]);
      TotalOffCut(mail[n], Window(0, ends[n]));
      assert NoneOverfull(mail, ends)
        <==> NoneOverfull(mail[..n], ends[..n]) && !OverfullLeaf(mail[n], Window(0, ends[n]));
    }
  }

  /** With no message on a cut, that is the number of messages sent up to each
      folder's turn, if and only if no accepted window was over the ceiling. */
  lemma SuccessIsRightIff(mail: seq<seq<int>>, steps: seq<Step>)
    requires AllHonest(mail, steps)
    requires var s := After(|mail|, steps);
      s.pc == Over && s.status == Success && |s.ends| == |mail| && OffCuts(mail, s.ends)
    ensures var s := After(|mail|, steps);
      s.totalIndexed == CountsOf(mail, s.ends) <==> NoneOverfull(mail, s.ends)
  {
    SuccessCountsAll(mail, steps);
    TotalsAreCountsIff(mail, After(|mail|, steps).ends);
  }
}
