/** A whole indexing run as a state machine.

    One actor is the background run: it discovers the folders, then walks
    them one at a time and each folder's date windows one at a time, waiting
    for one job after another.  The others are the administrator who asks to
    cancel, the workflow engine that moves jobs along, the deletion of
    finished jobs, and a restart of the process.  A step is one read or write
    of the shared rows, and any actor may take the next one. */
module IndexRun {

  import opened Options
  import opened DateBisection
  import opened FolderIndexing

  const MAX_POLLS: nat := 240  // 1200 seconds, one poll every 5

  datatype RunStatus = Queued | Running | Success | Partial | RunFailed | RunCancelled

  datatype JobStatus = JobQueued | JobRunning | JobSuccess(count: Option<nat>) | JobFailed | JobCancelled | JobDeleted

  /** What a job was created for. */
  datatype Purpose = Discover | Fetch(folder: nat, window: Window)

  /** Where the run is while it waits for a job. */
  datatype Phase = Announce | Dispatch | ReadFlag(poll: nat) | ReadJob(poll: nat) | StopJob

  /** Where the run is inside one folder, between jobs. */
  datatype Stage = Head | Start | Windows | End(stopped: bool) | Totals(stopped: bool)

  /** What the run does next. */
  datatype Pc =
    | Begin
    | Create(why: Purpose)
    | Waiting(phase: Phase, why: Purpose, job: nat)
    | Returned(why: Purpose, end: JobEnd)
    | Folder(stage: Stage, folder: nat)
    | RunEnd(stopped: bool)
    | Finish(final: RunStatus)
    | Over
    | Crashed

  datatype FolderRecord = FolderRecord(status: FolderStatus, indexed: nat)

  datatype State = State(
    pc: Pc,
    // the run's row
    status: RunStatus, cancelRequested: bool, currentJob: Option<nat>,
    processedFolders: nat, totalIndexed: nat,
    // the folders' rows, and the jobs of this run in order of creation
    folders: seq<FolderRecord>, jobs: seq<JobStatus>,
    // jobs that a cancel request has yet to cancel after raising the flag, and
    // jobs that somebody has found finished and is about to delete
    pendingCancels: set<nat>, pendingDeletes: set<nat>,
    // local variables of the run
    windows: seq<Window>, processed: nat, indexed: nat, troubled: bool, total: nat,
    // history: whether discovery succeeded, what each job was for, and up to
    // when each folder's range went
    discovered: bool, purposes: seq<Purpose>, ends: seq<int>)

  datatype Step =
    | Run(dispatched: bool, now: nat)
    | RequestCancel
    | CancelPending(job: nat)
    | EngineRuns(job: nat)
    | EngineSucceeds(job: nat, count: Option<nat>)
    | EngineFails(job: nat)
    | DeleteInactive(job: nat)
    | ReadToDelete(job: nat)
    | DeleteRead(job: nat)
    | Restart

  const INIT: State :=
    State(Begin, Queued, false, None, 0, 0, [], [], {}, {}, [], 0, 0, false, 0, false, [], [])

  predicate Active(j: JobStatus) {
    j == JobQueued || j == JobRunning
  }

  predicate Unfinished(status: RunStatus) {
    status == Queued || status == Running
  }

  function SetJob(jobs: seq<JobStatus>, j: nat, status: JobStatus): (r: seq<JobStatus>)
    ensures |r| == |jobs|
  {
    if j < |jobs| then jobs[j := status] else jobs
  }

  function CancelJob(jobs: seq<JobStatus>, j: nat): (r: seq<JobStatus>)
    ensures |r| == |jobs|
  {
    if j < |jobs| && Active(jobs[j]) then jobs[j := JobCancelled] else jobs
  }

  function SetFolder(folders: seq<FolderRecord>, i: nat, status: FolderStatus, indexed: nat): (r: seq<FolderRecord>)
    ensures |r| == |folders|
  {
    if i < |folders| then folders[i := FolderRecord(status, indexed)] else folders
  }

  predicate AnyIncomplete(folders: seq<FolderRecord>) {
    exists i :: 0 <= i < |folders| && (folders[i].status == Parcial || folders[i].status == Pendiente)
  }

  /** What a poll makes of a job's status; None means ask again. */
  function Verdict(j: JobStatus, poll: nat): Option<JobEnd> {
    match j
    case JobDeleted => Some(Failed("vanished"))
    case JobSuccess(count) => Some(Done(count))
    case JobFailed => Some(Failed("failed"))
    case JobCancelled => Some(Failed("cancelled"))
    case _ => if poll < MAX_POLLS then None else Some(Failed("timeout"))
  }

  // ---- The steps of the run; found is how many folders discovery will list ----

  function Advance(s: State, found: nat, dispatched: bool, now: nat): State {
    match s.pc
    case Begin =>
      s.(status := Running, pc := Create(Discover))
    case Create(why) =>
      s.(jobs := s.jobs + [JobQueued], pc := Waiting(Announce, why, |s.jobs|), purposes := s.purposes + [why])
    case Waiting(phase, why, j) => AdvanceWait(s, phase, why, j, dispatched)
    case Returned(Discover, end) => AdvanceDiscovered(s, found, end)
    case Returned(Fetch(i, w), end) => AdvanceFetched(s, i, w, end)
    case Folder(stage, i) => AdvanceFolder(s, stage, i, now)
    case RunEnd(stopped) =>
      s.(currentJob := None, pc := Over,
         status := if stopped then RunCancelled else if AnyIncomplete(s.folders) then Partial else Success)
    case Finish(final) =>
      s.(currentJob := None, pc := Over, status := final)
    case Over => s
    case Crashed => s
  }

  function AdvanceWait(s: State, phase: Phase, why: Purpose, j: nat, dispatched: bool): State {
    match phase
    case Announce => s.(currentJob := Some(j), pc := Waiting(Dispatch, why, j))
    case Dispatch =>
      s.(jobs := if !dispatched && j < |s.jobs| && s.jobs[j] == JobQueued then s.jobs[j := JobFailed] else s.jobs,
         pc := Waiting(ReadFlag(1), why, j))
    case ReadFlag(poll) =>
      s.(pc := Waiting(if s.cancelRequested then StopJob else ReadJob(poll), why, j))
    case StopJob => s.(jobs := CancelJob(s.jobs, j), pc := Returned(why, Cancelled))
    case ReadJob(poll) =>
      var verdict := Verdict(if j < |s.jobs| then s.jobs[j] else JobDeleted, poll);
      s.(pc := if verdict.Some? then Returned(why, verdict.value) else Waiting(ReadFlag(poll + 1), why, j))
  }

  function AdvanceDiscovered(s: State, found: nat, end: JobEnd): State {
    match end
    case Cancelled => s.(currentJob := None, pc := Finish(RunCancelled))
    case Failed(_) => s.(currentJob := None, pc := Finish(RunFailed))
    case Done(_) =>
      s.(currentJob := None, folders := seq(found, _ => FolderRecord(Pendiente, 0)), discovered := true,
         pc := if found == 0 then Finish(Success) else Folder(Head, 0))
  }

  function AdvanceFetched(s: State, i: nat, w: Window, end: JobEnd): State {
    match end
    case Cancelled => s.(pc := Folder(End(true), i))
    case Failed(_) =>
      s.(processed := s.processed + 1, troubled := true, pc := Folder(Windows, i),
         folders := SetFolder(s.folders, i, Indexando, s.indexed))
    case Done(_) =>
      var full := TooFull(Reported(end), w);
      var indexed := s.indexed + if full then 0 else Reported(end);
      s.(processed := s.processed + 1, indexed := indexed, pc := Folder(Windows, i),
         folders := SetFolder(s.folders, i, Indexando, indexed),
         windows := if full then s.windows + [FirstHalf(w)] + [SecondHalf(w)] else s.windows)
  }

  function AdvanceFolder(s: State, stage: Stage, i: nat, now: nat): State {
    match stage
    case Head =>
      s.(pc := if s.cancelRequested then RunEnd(true) else Folder(Start, i))
    case Start =>
      s.(folders := SetFolder(s.folders, i, Indexando, 0), pc := Folder(Windows, i),
         windows := [Window(0, now)], processed := 0, indexed := 0, troubled := false, ends := s.ends + [now])
    case Windows =>
      if s.windows == [] then s.(pc := Folder(End(false), i))
      else if s.processed >= MAX_WINDOWS then s.(troubled := true, pc := Folder(End(false), i))
      else if s.cancelRequested then s.(pc := Folder(End(true), i))
      else s.(windows := s.windows[1..], pc := Create(Fetch(i, s.windows[0])))
    case End(stopped) =>
      s.(folders := SetFolder(s.folders, i, if stopped || s.troubled then Parcial else Listo, s.indexed),
         total := s.total + s.indexed, pc := Folder(Totals(stopped), i))
    case Totals(stopped) =>
      s.(processedFolders := i + 1, totalIndexed := s.total,
         pc := if stopped then RunEnd(true)
               else if i + 1 < |s.folders| then Folder(Head, i + 1)
               else RunEnd(false))
  }

  function Apply(s: State, found: nat, step: Step): State {
    match step
    case Run(dispatched, now) => Advance(s, found, dispatched, now)
    case RequestCancel =>
      if Unfinished(s.status) then
        s.(cancelRequested := true,
           pendingCancels := s.pendingCancels + if s.currentJob.Some? then {s.currentJob.value} else {})
      else s
    case CancelPending(j) =>
      if j in s.pendingCancels then s.(pendingCancels := s.pendingCancels - {j}, jobs := CancelJob(s.jobs, j)) else s
    case EngineRuns(j) =>
      if j < |s.jobs| && s.jobs[j] != JobDeleted then s.(jobs := SetJob(s.jobs, j, JobRunning)) else s
    case EngineSucceeds(j, count) =>
      if j < |s.jobs| && s.jobs[j] != JobDeleted && s.jobs[j] != JobCancelled
      then s.(jobs := SetJob(s.jobs, j, JobSuccess(count))) else s
    case EngineFails(j) =>
      if j < |s.jobs| && s.jobs[j] != JobDeleted && s.jobs[j] != JobCancelled
      then s.(jobs := SetJob(s.jobs, j, JobFailed)) else s
    case DeleteInactive(j) =>
      if j < |s.jobs| && !Active(s.jobs[j]) then s.(jobs := SetJob(s.jobs, j, JobDeleted)) else s
    case ReadToDelete(j) =>
      if j < |s.jobs| && !Active(s.jobs[j]) then s.(pendingDeletes := s.pendingDeletes + {j}) else s
    case DeleteRead(j) =>
      if j in s.pendingDeletes
      then s.(pendingDeletes := s.pendingDeletes - {j}, jobs := SetJob(s.jobs, j, JobDeleted)) else s
    case Restart =>
      if s.pc == Over then s
      else s.(pc := Crashed, currentJob := None, pendingCancels := {}, pendingDeletes := {},
              status := if Unfinished(s.status) then RunFailed else s.status)
  }

  /** The state after the steps, in order. */
  function After(found: nat, steps: seq<Step>): State {
    if steps == [] then INIT else Apply(After(found, steps[..|steps| - 1]), found, steps[|steps| - 1])
  }

  // ---- What steps leave alone ----

  /** A step of the wait touches nothing else. */
  lemma WaitIsLocal(s: State, dispatched: bool)
    requires s.pc.Waiting?
    ensures var t := AdvanceWait(s, s.pc.phase, s.pc.why, s.pc.job, dispatched);
      && |t.jobs| == |s.jobs| && t == s.(jobs := t.jobs, currentJob := t.currentJob, pc := t.pc)
      && (t.pc.Waiting? || t.pc.Returned?) && t.pc.why == s.pc.why
  {
    var t := AdvanceWait(s, s.pc.phase, s.pc.why, s.pc.job, dispatched);
    match s.pc.phase
    case Announce => assert t == s.(currentJob := t.currentJob, pc := t.pc);
    case Dispatch => assert t == s.(jobs := t.jobs, pc := t.pc);
    case ReadFlag(_) => assert t == s.(pc := t.pc);
    case StopJob => assert t == s.(jobs := t.jobs, pc := t.pc);
    case ReadJob(_) => assert t == s.(pc := t.pc);
  }

  /** What the others do to the state, short of a restart. */
  lemma OthersAreLocal(s: State, found: nat, step: Step)
    requires !step.Run? && step != Restart
    ensures var t := Apply(s, found, step);
      && |t.jobs| == |s.jobs|
      && t == s.(jobs := t.jobs, cancelRequested := t.cancelRequested, pendingCancels := t.pendingCancels,
                 pendingDeletes := t.pendingDeletes)
  {
  }

  lemma WaitMovesJobs(s: State, dispatched: bool)
    requires s.pc.Waiting?
    ensures var jobs := AdvanceWait(s, s.pc.phase, s.pc.why, s.pc.job, dispatched).jobs;
      || jobs == s.jobs
      || (s.pc.job < |s.jobs| && Active(s.jobs[s.pc.job])
          && jobs in {s.jobs[s.pc.job := JobCancelled], s.jobs[s.pc.job := JobFailed]})
  {
  }

  /** The run itself adds a queued job, cancels an active one, or fails a queued
      one. */
  lemma RunMovesJobs(s: State, found: nat, dispatched: bool, now: nat)
    ensures var t := Advance(s, found, dispatched, now);
      && t.pendingDeletes == s.pendingDeletes
      && (t.jobs == s.jobs || t.jobs == s.jobs + [JobQueued]
          || (exists j :: 0 <= j < |s.jobs| && Active(s.jobs[j])
                          && t.jobs in {s.jobs[j := JobCancelled], s.jobs[j := JobFailed]}))
  {
    if s.pc.Waiting? {
      WaitIsLocal(s, dispatched);
      WaitMovesJobs(s, dispatched);
    } else if s.pc.Folder? {
      assert AdvanceFolder(s, s.pc.stage, s.pc.folder, now).jobs == s.jobs;
    }
  }

  /** Whoever moves it: a job that is gone stays gone, and one that was cancelled
      gets no result any more, though it may be started again. */
  lemma JobMoves(s: State, found: nat, step: Step, j: nat)
    requires j < |s.jobs|
    ensures var t := Apply(s, found, step);
      && j < |t.jobs|
      && (s.jobs[j] == JobDeleted ==> t.jobs[j] == JobDeleted)
      && (s.jobs[j] == JobCancelled ==> t.jobs[j] in {JobCancelled, JobRunning, JobDeleted})
  {
    if step.Run? {
      RunMovesJobs(s, found, step.dispatched, step.now);
    }
  }

  // ---- Cancelling ----

  /** The run has seen the flag up. */
  predicate SawFlag(pc: Pc) {
    match pc
    case Waiting(phase, _, _) => phase == StopJob
    case Returned(_, end) => end == Cancelled
    case Folder(stage, _) => (stage.End? || stage.Totals?) && stage.stopped
    case RunEnd(stopped) => stopped
    case Finish(final) => final == RunCancelled
    case _ => false
  }

  /** Only a run whose flag is up behaves as if it were. */
  ghost predicate CancelInv(s: State) {
    SawFlag(s.pc) || s.status == RunCancelled ==> s.cancelRequested
  }

  lemma CancelFolder(s: State, now: nat)
    requires CancelInv(s) && s.pc.Folder?
    ensures CancelInv(AdvanceFolder(s, s.pc.stage, s.pc.folder, now))
  {
  }

  lemma CancelWait(s: State, dispatched: bool)
    requires CancelInv(s) && s.pc.Waiting?
    ensures CancelInv(AdvanceWait(s, s.pc.phase, s.pc.why, s.pc.job, dispatched))
  {
  }

  lemma CancelRun(s: State, found: nat, dispatched: bool, now: nat)
    requires CancelInv(s)
    ensures CancelInv(Advance(s, found, dispatched, now))
  {
    if s.pc.Folder? {
      CancelFolder(s, now);
    } else if s.pc.Waiting? {
      CancelWait(s, dispatched);
    }
  }

  lemma CancelStep(s: State, found: nat, step: Step)
    requires CancelInv(s)
    ensures CancelInv(Apply(s, found, step))
  {
    if step.Run? {
      CancelRun(s, found, step.dispatched, step.now);
    }
  }

  /** The job that a run is about to create without looking at the flag again,
      and the folder that it is about to start. */
  function JobsToCome(pc: Pc): nat {
    if pc == Begin || pc.Create? then 1 else 0
  }

  function FoldersToCome(pc: Pc): nat {
    if pc.Folder? && pc.stage == Start then 1 else 0
  }

  /** The flag is up, and the run gains no job or folder but those. */
  ghost predicate Stopping(s: State, t: State) {
    && t.cancelRequested
    && |t.jobs| + JobsToCome(t.pc) <= |s.jobs| + JobsToCome(s.pc)
    && |t.ends| + FoldersToCome(t.pc) <= |s.ends| + FoldersToCome(s.pc)
  }

  lemma StoppingFolder(s: State, now: nat)
    requires s.cancelRequested && s.pc.Folder?
    ensures Stopping(s, AdvanceFolder(s, s.pc.stage, s.pc.folder, now))
  {
  }

  lemma StoppingRun(s: State, found: nat, dispatched: bool, now: nat)
    requires s.cancelRequested
    ensures Stopping(s, Advance(s, found, dispatched, now))
  {
    if s.pc.Folder? {
      StoppingFolder(s, now);
    } else if s.pc.Waiting? {
      WaitIsLocal(s, dispatched);
    }
  }

  lemma StoppingStep(s: State, found: nat, step: Step)
    requires s.cancelRequested
    ensures Stopping(s, Apply(s, found, step))
  {
    if step.Run? {
      StoppingRun(s, found, step.dispatched, step.now);
    } else if step != Restart {
      OthersAreLocal(s, found, step);
    }
  }

  lemma {:induction false} StaysStopping(found: nat, steps: seq<Step>, k: nat)
    requires k <= |steps| && After(found, steps[..k]).cancelRequested
    ensures Stopping(After(found, steps[..k]), After(found, steps))
  {
    if k == |steps| {
      assert steps[..k] == steps;
    } else {
      var init := steps[..|steps| - 1];
      assert init[..k] == steps[..k];
      StaysStopping(found, init, k);
      StoppingStep(After(found, init), found, steps[|steps| - 1]);
    }
  }

  /** However the actors interleave: once the flag is up it stays up, and from
      then on the run creates no job, but for one that it was about to create
      without looking at the flag again, and starts no folder, but for one that
      it was about to start. */
  lemma AtMostOneJobAfterCancel(found: nat, steps: seq<Step>, k: nat)
    requires k <= |steps| && After(found, steps[..k]).cancelRequested
    ensures var s, t := After(found, steps[..k]), After(found, steps);
      && t.cancelRequested
      && |t.jobs| <= |s.jobs| + (if s.pc == Begin || s.pc.Create? then 1 else 0)
      && |t.ends| <= |s.ends| + (if s.pc.Folder? && s.pc.stage == Start then 1 else 0)
  {
    StaysStopping(found, steps, k);
  }

  /** And only a run whose flag went up can end as cancelled. */
  lemma {:induction false} OnlyFlaggedAreCancelled(found: nat, steps: seq<Step>)
    ensures CancelInv(After(found, steps))
    ensures After(found, steps).status == RunCancelled ==> After(found, steps).cancelRequested
  {
    if steps != [] {
      OnlyFlaggedAreCancelled(found, steps[..|steps| - 1]);
      CancelStep(After(found, steps[..|steps| - 1]), found, steps[|steps| - 1]);
    }
  }

  // ---- Totals, final statuses and the number of jobs ----

  function Sum(folders: seq<FolderRecord>): nat {
    if folders == [] then 0 else Sum(folders[..|folders| - 1]) + folders[|folders| - 1].indexed
  }

  const UNTOUCHED: FolderRecord := FolderRecord(Pendiente, 0)

  predicate Closed(f: FolderRecord) {
    f.status == Listo || f.status == Parcial
  }

  predicate AllListo(folders: seq<FolderRecord>) {
    forall i :: 0 <= i < |folders| ==> folders[i].status == Listo
  }

  /** The folders before i are closed and those after it untouched. */
  predicate Walked(folders: seq<FolderRecord>, i: nat) {
    && i < |folders|
    && (forall k :: 0 <= k < i ==> Closed(folders[k]))
    && (forall k :: i < k < |folders| ==> folders[k] == UNTOUCHED)
  }

  /** The folder that the run is working on, if any. */
  function Working(pc: Pc): Option<nat> {
    match pc
    case Create(Fetch(i, _)) => Some(i)
    case Waiting(_, Fetch(i, _), _) => Some(i)
    case Returned(Fetch(i, _), _) => Some(i)
    case Folder(_, i) => Some(i)
    case _ => None
  }

  ghost predicate BooksInFolder(s: State, i: nat)
  {
    && Walked(s.folders, i)
    && s.totalIndexed == Sum(s.folders[..i])
    && match s.pc
       case Folder(Head, _) =>
         s.folders[i] == UNTOUCHED && s.total == s.totalIndexed && |s.jobs| <= 1 + MAX_WINDOWS * i
       case Folder(Start, _) =>
         s.folders[i] == UNTOUCHED && s.total == s.totalIndexed && |s.jobs| <= 1 + MAX_WINDOWS * i
       case Folder(Totals(stopped), _) =>
         && s.total == s.totalIndexed + s.folders[i].indexed && Closed(s.folders[i])
         && (stopped ==> s.folders[i].status == Parcial) && |s.jobs| <= 1 + MAX_WINDOWS * (i + 1)
       case Folder(End(_), _) =>
         s.folders[i].indexed == s.indexed && s.total == s.totalIndexed && |s.jobs| <= 1 + MAX_WINDOWS * (i + 1)
       case Folder(Windows, _) =>
         && s.folders[i].indexed == s.indexed && s.total == s.totalIndexed
         && s.processed <= MAX_WINDOWS && |s.jobs| <= 1 + MAX_WINDOWS * i + s.processed
       case Create(_) =>
         && s.folders[i].indexed == s.indexed && s.total == s.totalIndexed
         && s.processed < MAX_WINDOWS && |s.jobs| <= 1 + MAX_WINDOWS * i + s.processed
       case _ =>
         && s.folders[i].indexed == s.indexed && s.total == s.totalIndexed
         && s.processed < MAX_WINDOWS && |s.jobs| <= 2 + MAX_WINDOWS * i + s.processed
  }

  /** What the run's row says about the folders' rows. */
  ghost predicate Books(s: State, found: nat) {
    && (s.discovered ==> |s.folders| == found)
    && (!s.discovered ==> s.folders == [] && s.total == 0 && s.totalIndexed == 0)
    && |s.jobs| <= 1 + MAX_WINDOWS * found
    && if Working(s.pc).Some? then s.discovered && BooksInFolder(s, Working(s.pc).value)
       else match s.pc
         case RunEnd(stopped) =>
           && s.discovered && s.total == s.totalIndexed == Sum(s.folders)
           && (stopped ==> !AllListo(s.folders))
           && (!stopped ==> forall k :: 0 <= k < found ==> Closed(s.folders[k]))
         case Finish(final) =>
           && s.totalIndexed == Sum(s.folders)
           && (final == RunCancelled || final == RunFailed || final == Success)
           && (final == Success <==> s.discovered) && (s.discovered ==> found == 0)
         case Over => Settled(s)
         case Crashed => true
         case Begin => !s.discovered && s.jobs == []
         case Create(_) => !s.discovered && s.jobs == []
         case _ => !s.discovered && |s.jobs| == 1
  }

  /** What is true of a run that was not interrupted, once it is over. */
  ghost predicate Settled(s: State) {
    && s.totalIndexed == Sum(s.folders)
    && (s.status == Success <==> s.discovered && AllListo(s.folders))
    && (s.status == Partial ==> s.discovered && !AllListo(s.folders))
    && (s.status == RunFailed ==> !s.discovered)
    && s.status in {Success, Partial, RunFailed, RunCancelled}
  }

  lemma {:induction false} SumRest(folders: seq<FolderRecord>, i: nat)
    requires i <= |folders|
    requires forall k :: i <= k < |folders| ==> folders[k].indexed == 0
    ensures Sum(folders) == Sum(folders[..i])
    decreases |folders|
  {
    if i == |folders| {
      assert folders[..i] == folders;
    } else {
      var init := folders[..|folders| - 1];
      SumRest(init, i);
      assert init[..i] == folders[..i];
    }
  }

  lemma SumNext(folders: seq<FolderRecord>, i: nat)
    requires i < |folders|
    ensures Sum(folders[..i + 1]) == Sum(folders[..i]) + folders[i].indexed
  {
    assert folders[..i + 1][..i] == folders[..i];
  }

  lemma BooksHead(s: State, found: nat, now: nat)
    requires Books(s, found) && s.pc.Folder? && s.pc.stage == Head
    ensures Books(AdvanceFolder(s, Head, s.pc.folder, now), found)
  {
    SumRest(s.folders, s.pc.folder);
  }

  lemma BooksEnterFolder(s: State, found: nat, now: nat)
    requires Books(s, found) && s.pc.Folder? && (s.pc.stage == Start || s.pc.stage == Windows)
    ensures Books(AdvanceFolder(s, s.pc.stage, s.pc.folder, now), found)
  {
    var i := s.pc.folder;
    assert AdvanceFolder(s, s.pc.stage, i, now).folders[..i] == s.folders[..i];
  }

  lemma BooksLeaveFolder(s: State, found: nat, now: nat)
    requires Books(s, found) && s.pc.Folder? && (s.pc.stage.End? || s.pc.stage.Totals?)
    ensures Books(AdvanceFolder(s, s.pc.stage, s.pc.folder, now), found)
  {
    var i := s.pc.folder;
    var next := AdvanceFolder(s, s.pc.stage, i, now);
    assert next.folders[..i] == s.folders[..i];
    if s.pc.stage.Totals? {
      SumNext(s.folders, i);
      SumRest(s.folders, i + 1);
    }
  }

  lemma BooksFetched(s: State, found: nat)
    requires Books(s, found) && s.pc.Returned? && s.pc.why.Fetch?
    ensures Books(AdvanceFetched(s, s.pc.why.folder, s.pc.why.window, s.pc.end), found)
  {
    var i := s.pc.why.folder;
    var next := AdvanceFetched(s, i, s.pc.why.window, s.pc.end);
    assert next.folders[..i] == s.folders[..i];
  }

  lemma BooksDiscovered(s: State, found: nat)
    requires Books(s, found) && s.pc.Returned? && s.pc.why.Discover?
    ensures Books(AdvanceDiscovered(s, found, s.pc.end), found)
  {
  }

  /** The books do not depend on how far the wait for a job has come. */
  lemma BooksStillWaiting(s: State, t: State, found: nat)
    requires Books(s, found) && s.pc.Waiting? && |t.jobs| == |s.jobs|
    requires t == s.(jobs := t.jobs, currentJob := t.currentJob, pc := t.pc)
    requires (t.pc.Waiting? || t.pc.Returned?) && t.pc.why == s.pc.why
    ensures Books(t, found)
  {
    assert Working(t.pc) == Working(s.pc);
  }

  lemma BooksWait(s: State, found: nat, dispatched: bool)
    requires Books(s, found) && s.pc.Waiting?
    ensures Books(AdvanceWait(s, s.pc.phase, s.pc.why, s.pc.job, dispatched), found)
  {
    WaitIsLocal(s, dispatched);
    BooksStillWaiting(s, AdvanceWait(s, s.pc.phase, s.pc.why, s.pc.job, dispatched), found);
  }

  lemma BooksRun(s: State, found: nat, dispatched: bool, now: nat)
    requires Books(s, found)
    ensures Books(Advance(s, found, dispatched, now), found)
  {
    match s.pc
    case Folder(stage, i) =>
      if stage == Head {
        BooksHead(s, found, now);
      } else if stage.End? || stage.Totals? {
        BooksLeaveFolder(s, found, now);
      } else {
        BooksEnterFolder(s, found, now);
      }
    case Waiting(phase, why, j) => BooksWait(s, found, dispatched);
    case Returned(Discover, end) => BooksDiscovered(s, found);
    case Returned(Fetch(i, w), end) => BooksFetched(s, found);
    case _ =>
  }

  /** The books do not depend on the flag, the pending cancels or what state
      the jobs are in. */
  lemma BooksSame(s: State, t: State, found: nat)
    requires Books(s, found) && |t.jobs| == |s.jobs|
    requires t == s.(jobs := t.jobs, cancelRequested := t.cancelRequested, pendingCancels := t.pendingCancels,
                     pendingDeletes := t.pendingDeletes)
    ensures Books(t, found)
  {
  }

  lemma BooksStep(s: State, found: nat, step: Step)
    requires Books(s, found)
    ensures Books(Apply(s, found, step), found)
  {
    if step.Run? {
      BooksRun(s, found, step.dispatched, step.now);
    } else if step != Restart {
      OthersAreLocal(s, found, step);
      BooksSame(s, Apply(s, found, step), found);
    }
  }

  lemma {:induction false} BooksBalance(found: nat, steps: seq<Step>)
    ensures Books(After(found, steps), found)
  {
    if steps != [] {
      BooksBalance(found, steps[..|steps| - 1]);
      BooksStep(After(found, steps[..|steps| - 1]), found, steps[|steps| - 1]);
    }
  }

  /** A run that is over carries the sum of its folders' totals, never created
      more than 64 jobs a folder and one for discovery, and ended as a success
      exactly when discovery succeeded and every folder was completed. */
  lemma RunOutcome(found: nat, steps: seq<Step>)
    ensures |After(found, steps).jobs| <= 1 + MAX_WINDOWS * found
    ensures After(found, steps).pc == Over ==> Settled(After(found, steps))
  {
    BooksBalance(found, steps);
  }

  /** At every folder boundary the run's total is the sum of the folders'. */
  lemma TotalAtBoundary(found: nat, steps: seq<Step>, i: nat)
    requires After(found, steps).pc == Folder(Head, i)
    ensures After(found, steps).totalIndexed == Sum(After(found, steps).folders)
  {
    BooksBalance(found, steps);
    TotalAtHead(After(found, steps), found, i);
  }

  lemma TotalAtHead(s: State, found: nat, i: nat)
    requires Books(s, found) && s.pc == Folder(Head, i)
    ensures s.totalIndexed == Sum(s.folders)
  {
    SumRest(s.folders, i);
  }

  // ---- The run ends ----

  const JOB_STEPS: nat := 484      // 2 * 240 polls, and 4 more
  const FOLDER_STEPS: nat := 31045 // 64 jobs and a look at the queue before each, and 5 more

  /** Steps left from the head of folder i, of n folders. */
  function FromHead(n: nat, i: nat): int {
    (n - i) * FOLDER_STEPS + 1
  }

  function FromWindows(n: nat, i: nat, processed: nat): int {
    FromHead(n, i + 1) + (MAX_WINDOWS - processed) * (JOB_STEPS + 1) + 3
  }

  /** Where a run goes after the job it waits for, at the most. */
  function AfterJob(n: nat, why: Purpose, processed: nat): int {
    match why
    case Discover => FromHead(n, 0)
    case Fetch(i, _) => FromWindows(n, i, processed + 1)
  }

  /** Steps left of the wait for one job. */
  function WaitRank(phase: Phase): int {
    match phase
    case Announce => JOB_STEPS - 1
    case Dispatch => JOB_STEPS - 2
    case ReadFlag(poll) => 2 * (MAX_POLLS - poll) + 3
    case ReadJob(poll) => 2 * (MAX_POLLS - poll) + 2
    case StopJob => 2
  }

  /** An upper bound on the steps that the run still takes. */
  function Rank(s: State, found: nat): int {
    match s.pc
    case Begin => FromHead(found, 0) + JOB_STEPS + 1
    case Create(why) => AfterJob(found, why, s.processed) + JOB_STEPS
    case Waiting(phase, why, _) => AfterJob(found, why, s.processed) + WaitRank(phase)
    case Returned(why, _) => AfterJob(found, why, s.processed) + 1
    case Folder(Head, i) => FromHead(found, i)
    case Folder(Start, i) => FromHead(found, i) - 1
    case Folder(Windows, i) => FromWindows(found, i, s.processed)
    case Folder(End(_), i) => FromHead(found, i + 1) + 2
    case Folder(Totals(_), i) => FromHead(found, i + 1) + 1
    case RunEnd(_) => 1
    case Finish(_) => 1
    case Over => 0
    case Crashed => 0
  }

  /** Polls are numbered from 1 to 240. */
  ghost predicate PollsInRange(s: State) {
    match s.pc
    case Waiting(ReadFlag(poll), _, _) => 1 <= poll <= MAX_POLLS
    case Waiting(ReadJob(poll), _, _) => 1 <= poll <= MAX_POLLS
    case _ => true
  }

  /** The part of the books that bounds the rank. */
  ghost predicate InBounds(s: State, found: nat) {
    && PollsInRange(s)
    && (s.pc.Folder? ==> s.pc.folder < found == |s.folders|)
    && (s.pc.Folder? && s.pc.stage == Windows ==> s.processed <= MAX_WINDOWS)
    && (Working(s.pc).Some? && !s.pc.Folder? ==> Working(s.pc).value < found && s.processed < MAX_WINDOWS)
  }

  lemma BooksInBounds(s: State, found: nat)
    requires Books(s, found) && PollsInRange(s)
    ensures InBounds(s, found)
  {
  }

  lemma RankWindows(s: State, found: nat, now: nat)
    requires InBounds(s, found) && s.pc.Folder? && s.pc.stage == Windows
    ensures 0 <= Rank(AdvanceFolder(s, Windows, s.pc.folder, now), found) < Rank(s, found)
  {
    assert FromHead(found, s.pc.folder + 1) >= 1;
  }

  lemma RankFolder(s: State, found: nat, now: nat)
    requires InBounds(s, found) && s.pc.Folder? && s.pc.stage != Windows
    ensures 0 <= Rank(AdvanceFolder(s, s.pc.stage, s.pc.folder, now), found) < Rank(s, found)
  {
    assert FromHead(found, s.pc.folder) == FromHead(found, s.pc.folder + 1) + FOLDER_STEPS;
    assert FromHead(found, s.pc.folder + 1) >= 1;
  }

  lemma AfterJobIsPositive(found: nat, why: Purpose, processed: nat)
    requires processed < MAX_WINDOWS && (why.Fetch? ==> why.folder < found)
    ensures AfterJob(found, why, processed) >= 1
  {
    if why.Fetch? {
      assert FromHead(found, why.folder + 1) >= 1;
    }
  }

  lemma RankWait(s: State, found: nat, dispatched: bool)
    requires InBounds(s, found) && s.pc.Waiting? && AfterJob(found, s.pc.why, s.processed) >= 1
    ensures 0 <= Rank(AdvanceWait(s, s.pc.phase, s.pc.why, s.pc.job, dispatched), found) < Rank(s, found)
    ensures PollsInRange(AdvanceWait(s, s.pc.phase, s.pc.why, s.pc.job, dispatched))
  {
    WaitIsLocal(s, dispatched);
    WaitShortens(s, dispatched);
  }

  /** Each step of the wait is one step nearer to its end. */
  lemma WaitShortens(s: State, dispatched: bool)
    requires s.pc.Waiting? && PollsInRange(s)
    ensures var t := AdvanceWait(s, s.pc.phase, s.pc.why, s.pc.job, dispatched);
      && PollsInRange(t)
      && 1 <= WaitRank(s.pc.phase) && (t.pc.Returned? ==> 1 < WaitRank(s.pc.phase))
      && (t.pc.Waiting? ==> 0 <= WaitRank(t.pc.phase) < WaitRank(s.pc.phase))
  {
  }

  lemma RankDiscovered(s: State, found: nat)
    requires s.pc.Returned? && s.pc.why.Discover?
    ensures 0 <= Rank(AdvanceDiscovered(s, found, s.pc.end), found) < Rank(s, found)
  {
  }

  lemma RankFetched(s: State, found: nat)
    requires InBounds(s, found) && s.pc.Returned? && s.pc.why.Fetch?
    ensures 0 <= Rank(AdvanceFetched(s, s.pc.why.folder, s.pc.why.window, s.pc.end), found) < Rank(s, found)
  {
    assert FromHead(found, s.pc.why.folder + 1) >= 1;
  }

  lemma RankRest(s: State, found: nat)
    requires s.pc == Begin || s.pc.RunEnd? || s.pc.Finish?
    ensures 0 <= Rank(Advance(s, found, true, 0), found) < Rank(s, found)
    ensures PollsInRange(Advance(s, found, true, 0))
  {
  }

  lemma RankCreate(s: State, found: nat)
    requires InBounds(s, found) && s.pc.Create?
    ensures 0 <= Rank(Advance(s, found, true, 0), found) < Rank(s, found)
    ensures PollsInRange(Advance(s, found, true, 0))
  {
    if s.pc.why.Fetch? {
      AfterJobIsPositive(found, s.pc.why, s.processed);
    }
  }

  lemma RankDrops(s: State, found: nat, dispatched: bool, now: nat)
    requires InBounds(s, found) && s.pc != Over && s.pc != Crashed
    ensures 0 <= Rank(Advance(s, found, dispatched, now), found) < Rank(s, found)
    ensures PollsInRange(Advance(s, found, dispatched, now))
  {
    match s.pc
    case Folder(stage, _) =>
      if stage == Windows {
        RankWindows(s, found, now);
      } else {
        RankFolder(s, found, now);
      }
    case Waiting(_, why, _) =>
      if why.Fetch? {
        AfterJobIsPositive(found, why, s.processed);
      }
      RankWait(s, found, dispatched);
    case Returned(Discover, _) => RankDiscovered(s, found);
    case Returned(Fetch(_, _), _) => RankFetched(s, found);
    case Create(_) => RankCreate(s, found);
    case _ => RankRest(s, found);
  }

  /** How many of the steps were steps of a live run. */
  function RunSteps(found: nat, steps: seq<Step>): nat {
    if steps == [] then 0
    else
      var s := After(found, steps[..|steps| - 1]);
      RunSteps(found, steps[..|steps| - 1])
      + if steps[|steps| - 1].Run? && s.pc != Over && s.pc != Crashed then 1 else 0
  }

  lemma RankStep(s: State, found: nat, step: Step)
    requires InBounds(s, found) && Rank(s, found) >= 0
    ensures var cost := if step.Run? && s.pc != Over && s.pc != Crashed then 1 else 0;
            0 <= Rank(Apply(s, found, step), found) <= Rank(s, found) - cost
    ensures PollsInRange(Apply(s, found, step))
  {
    if step.Run? {
      if s.pc != Over && s.pc != Crashed {
        RankDrops(s, found, step.dispatched, step.now);
      }
    } else {
      if step != Restart {
        OthersAreLocal(s, found, step);
      }
      RankSame(s, Apply(s, found, step), found);
    }
  }

  /** Nobody else moves the run, except by ending it. */
  lemma RankSame(s: State, t: State, found: nat)
    requires PollsInRange(s) && Rank(s, found) >= 0
    requires t.pc == Crashed || (t.pc == s.pc && t.processed == s.processed)
    ensures 0 <= Rank(t, found) <= Rank(s, found) && PollsInRange(t)
  {
  }

  lemma {:induction false} StepsBounded(found: nat, steps: seq<Step>)
    ensures PollsInRange(After(found, steps))
    ensures 0 <= Rank(After(found, steps), found) <= Rank(INIT, found) - RunSteps(found, steps)
  {
    if steps != [] {
      var init := steps[..|steps| - 1];
      StepsBounded(found, init);
      BooksBalance(found, init);
      BooksInBounds(After(found, init), found);
      RankStep(After(found, init), found, steps[|steps| - 1]);
    }
  }

  lemma OverStays(s: State, found: nat, step: Step)
    requires s.pc == Over || s.pc == Crashed
    ensures Apply(s, found, step).pc == Over || Apply(s, found, step).pc == Crashed
  {
    if !step.Run? && step != Restart {
      OthersAreLocal(s, found, step);
    }
  }

  lemma NotOverBefore(found: nat, steps: seq<Step>)
    requires steps != [] && After(found, steps).pc != Over && After(found, steps).pc != Crashed
    ensures var s := After(found, steps[..|steps| - 1]);
      s.pc != Over && s.pc != Crashed
  {
    var s := After(found, steps[..|steps| - 1]);
    if s.pc == Over || s.pc == Crashed {
      OverStays(s, found, steps[|steps| - 1]);
    }
  }

  lemma OwnBefore(steps: seq<Step>, own: set<nat>)
    requires steps != [] && forall k :: k in own ==> k < |steps| && steps[k].Run?
    ensures var n := |steps| - 1;
      && (forall k :: k in own - {n} ==> k < n && steps[..n][k].Run?)
      && |own| <= |own - {n}| + if steps[n].Run? then 1 else 0
  {
    var n := |steps| - 1;
    if n !in own {
      assert own - {n} == own;
    }
  }

  /** While the run is not over, each of its own steps counts. */
  lemma {:induction false} OwnStepsCount(found: nat, steps: seq<Step>, own: set<nat>)
    requires forall k :: k in own ==> k < |steps| && steps[k].Run?
    requires After(found, steps).pc != Over && After(found, steps).pc != Crashed
    ensures |own| <= RunSteps(found, steps)
  {
    if steps == [] {
      assert own == {};
    } else {
      var n := |steps| - 1;
      NotOverBefore(found, steps);
      OwnBefore(steps, own);
      OwnStepsCount(found, steps[..n], own - {n});
    }
  }

  /** No interleaving keeps a run going for ever: when it has taken this many
      steps of its own it is over, whatever the others did. */
  lemma RunEnds(found: nat, steps: seq<Step>, own: set<nat>)
    requires forall k :: k in own ==> k < |steps| && steps[k].Run?
    requires |own| > 31045 * found + 486
    ensures After(found, steps).pc == Over || After(found, steps).pc == Crashed
  {
    StepsBounded(found, steps);
    if After(found, steps).pc != Over && After(found, steps).pc != Crashed {
      OwnStepsCount(found, steps, own);
    }
  }
}
