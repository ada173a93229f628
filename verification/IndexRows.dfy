/** What the row of an indexing run shows of it, and what a request to cancel
    can tell from that row. */
module IndexRows {

  import opened Options
  import opened FolderIndexing
  import opened IndexRun

  /** The first n folders are finished and the others are not. */
  ghost predicate Finished(folders: seq<FolderRecord>, n: nat) {
    n <= |folders| && forall k :: 0 <= k < |folders| ==> (Closed(folders[k]) <==> k < n)
  }

  /** The run is not over before its row says so. */
  ghost predicate StatusShown(s: State) {
    match s.pc
    case Begin => s.status == Queued && s.currentJob == None
    case Over => !Unfinished(s.status) && s.currentJob == None
    case Crashed => !Unfinished(s.status) && s.currentJob == None
    case Finish(final) => s.status == Running && !Unfinished(final)
    case _ => s.status == Running
  }

  /** The row names the job that the run waits for. */
  ghost predicate JobShown(s: State) {
    && (s.pc.Waiting? ==> s.pc.job == |s.jobs| - 1 && (s.pc.phase != Announce ==> s.currentJob == Some(s.pc.job)))
    && (s.currentJob.Some? ==> s.currentJob.value < |s.jobs|)
    && (forall j :: j in s.pendingCancels ==> j < |s.jobs|)
  }

  /** The row counts the folders that are finished; it lags behind by one between
      the end of a folder and the update of the row. */
  ghost predicate FoldersShown(s: State) {
    match s.pc
    case Folder(Totals(_), i) => s.processedFolders == i < |s.folders| && Finished(s.folders, i + 1)
    case Crashed => Finished(s.folders, s.processedFolders) || Finished(s.folders, s.processedFolders + 1)
    case _ =>
      && Finished(s.folders, s.processedFolders)
      && Working(s.pc) in {None, Some(s.processedFolders)}
      && (Working(s.pc) != None ==> s.processedFolders < |s.folders|)
      && (s.pc == RunEnd(false) ==> s.processedFolders == |s.folders|)
      && (s.pc == Over && s.status in {Success, Partial} ==> s.processedFolders == |s.folders|)
      && (BeforeFolders(s.pc) ==> s.folders == [])
      && (Indexing(s.pc) ==> s.folders[s.processedFolders].status == Indexando)
  }

  /** The run has started a folder and not ended it. */
  predicate Indexing(pc: Pc) {
    Working(pc).Some? && (pc.Folder? ==> pc.stage == Windows || pc.stage.End?)
  }

  predicate BeforeFolders(pc: Pc) {
    match pc
    case Begin => true
    case Create(why) => why == Discover
    case Waiting(_, why, _) => why == Discover
    case Returned(why, _) => why == Discover
    case Finish(_) => true
    case _ => false
  }

  ghost predicate Shown(s: State) {
    StatusShown(s) && JobShown(s) && FoldersShown(s)
  }

  lemma ShownStart(s: State, now: nat)
    requires Shown(s) && s.pc.Folder? && s.pc.stage == Start
    ensures Shown(AdvanceFolder(s, s.pc.stage, s.pc.folder, now))
  {
    var t := AdvanceFolder(s, s.pc.stage, s.pc.folder, now);
    assert Finished(t.folders, t.processedFolders);
  }

  lemma ShownEnd(s: State, now: nat)
    requires Shown(s) && s.pc.Folder? && s.pc.stage.End?
    ensures Shown(AdvanceFolder(s, s.pc.stage, s.pc.folder, now))
  {
    var t := AdvanceFolder(s, s.pc.stage, s.pc.folder, now);
    assert Finished(t.folders, t.processedFolders + 1);
  }

  lemma ShownTotals(s: State, now: nat)
    requires Shown(s) && s.pc.Folder? && s.pc.stage.Totals?
    ensures Shown(AdvanceFolder(s, s.pc.stage, s.pc.folder, now))
  {
  }

  lemma ShownQuiet(s: State, now: nat)
    requires Shown(s) && s.pc.Folder? && (s.pc.stage == Head || s.pc.stage == Windows)
    ensures Shown(AdvanceFolder(s, s.pc.stage, s.pc.folder, now))
  {
  }

  lemma ShownFolder(s: State, now: nat)
    requires Shown(s) && s.pc.Folder?
    ensures Shown(AdvanceFolder(s, s.pc.stage, s.pc.folder, now))
  {
    match s.pc.stage
    case Start => ShownStart(s, now);
    case End(_) => ShownEnd(s, now);
    case Totals(_) => ShownTotals(s, now);
    case _ => ShownQuiet(s, now);
  }

  lemma ShownStillWaiting(s: State, t: State)
    requires Shown(s) && s.pc.Waiting? && |t.jobs| == |s.jobs|
    requires t == s.(jobs := t.jobs, currentJob := t.currentJob, pc := t.pc)
    requires (t.pc.Waiting? || t.pc.Returned?) && t.pc.why == s.pc.why && t.currentJob == Some(s.pc.job)
    requires t.pc.Waiting? ==> t.pc.job == s.pc.job
    ensures Shown(t)
  {
    assert Working(t.pc) == Working(s.pc) && BeforeFolders(t.pc) == BeforeFolders(s.pc);
  }

  lemma ShownWait(s: State, dispatched: bool)
    requires Shown(s) && s.pc.Waiting?
    ensures Shown(AdvanceWait(s, s.pc.phase, s.pc.why, s.pc.job, dispatched))
  {
    WaitIsLocal(s, dispatched);
    ShownStillWaiting(s, AdvanceWait(s, s.pc.phase, s.pc.why, s.pc.job, dispatched));
  }

  lemma ShownFetched(s: State)
    requires Shown(s) && s.pc.Returned? && s.pc.why.Fetch?
    ensures Shown(AdvanceFetched(s, s.pc.why.folder, s.pc.why.window, s.pc.end))
  {
  }

  lemma ShownDiscovered(s: State, found: nat)
    requires Shown(s) && s.pc.Returned? && s.pc.why.Discover?
    ensures Shown(AdvanceDiscovered(s, found, s.pc.end))
  {
  }

  lemma ShownRun(s: State, found: nat, dispatched: bool, now: nat)
    requires Shown(s)
    ensures Shown(Advance(s, found, dispatched, now))
  {
    match s.pc
    case Folder(_, _) => ShownFolder(s, now);
    case Waiting(_, _, _) => ShownWait(s, dispatched);
    case Returned(Discover, _) => ShownDiscovered(s, found);
    case Returned(Fetch(_, _), _) => ShownFetched(s);
    case _ =>
  }

  lemma ShownOthers(s: State, t: State)
    requires Shown(s) && |t.jobs| == |s.jobs| && forall j :: j in t.pendingCancels ==> j < |s.jobs|
    requires t == s.(jobs := t.jobs, cancelRequested := t.cancelRequested, pendingCancels := t.pendingCancels,
                     pendingDeletes := t.pendingDeletes)
    ensures Shown(t)
  {
  }

  lemma ShownStep(s: State, found: nat, step: Step)
    requires Shown(s)
    ensures Shown(Apply(s, found, step))
  {
    if step.Run? {
      ShownRun(s, found, step.dispatched, step.now);
    } else if step != Restart {
      OthersAreLocal(s, found, step);
      ShownOthers(s, Apply(s, found, step));
    }
  }

  /** In every interleaving the row shows whether the run is over, which job it
      waits for, and how many folders are finished. */
  lemma {:induction false} RowShows(found: nat, steps: seq<Step>)
    ensures Shown(After(found, steps))
  {
    if steps != [] {
      RowShows(found, steps[..|steps| - 1]);
      ShownStep(After(found, steps[..|steps| - 1]), found, steps[|steps| - 1]);
    }
  }

  /** So a request to cancel a run that waits for a job reaches just that job. */
  lemma CancelReachesJob(found: nat, steps: seq<Step>)
    requires After(found, steps).pc.Waiting? && After(found, steps).pc.phase != Announce
    ensures var s := After(found, steps);
      var t := Apply(s, found, RequestCancel);
      && t.cancelRequested && t.pendingCancels == s.pendingCancels + {s.pc.job} && s.pc.job < |s.jobs|
      && Apply(t, found, CancelPending(s.pc.job)).jobs
      == s.jobs[s.pc.job := if Active(s.jobs[s.pc.job]) then JobCancelled else s.jobs[s.pc.job]]
  {
    RowShows(found, steps);
  }

  lemma UnfinishedIff(s: State)
    requires StatusShown(s)
    ensures Unfinished(s.status) <==> s.pc != Over && s.pc != Crashed
  {
  }

  /** And a request is heard exactly if the run is not over; else it changes
      nothing. */
  lemma CancelHeardIff(found: nat, steps: seq<Step>)
    ensures var s := After(found, steps);
      var t := Apply(s, found, RequestCancel);
      if s.pc == Over || s.pc == Crashed then t == s else t.cancelRequested
  {
    RowShows(found, steps);
    UnfinishedIff(After(found, steps));
  }

  /** A job that could not be handed to the engine is marked as failed, unless it
      has moved on; one that was handed over is left alone. */
  lemma DispatchMarks(found: nat, steps: seq<Step>, dispatched: bool, now: nat)
    requires After(found, steps).pc.Waiting? && After(found, steps).pc.phase == Dispatch
    ensures var s := After(found, steps);
      var j := s.pc.job;
      && j < |s.jobs|
      && Apply(s, found, Run(dispatched, now)).jobs
      == if dispatched then s.jobs else s.jobs[j := if s.jobs[j] == JobQueued then JobFailed else s.jobs[j]]
  {
    RowShows(found, steps);
  }

  /** A restart fails a run that was not over, and forgets the job it waited for;
      what its folders have is kept. */
  lemma RestartFails(found: nat, steps: seq<Step>)
    ensures var s := After(found, steps);
      var t := Apply(s, found, Restart);
      && t.folders == s.folders && t.totalIndexed == s.totalIndexed && t.jobs == s.jobs && t.currentJob == None
      && if s.pc == Over then t == s
         else t.pc == Crashed && (s.pc != Crashed ==> t.status == RunFailed)
  {
    RowShows(found, steps);
    UnfinishedIff(After(found, steps));
  }
}
