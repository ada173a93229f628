/** How many jobs of an indexing run can be in flight at once. */
module IndexFlights {

  import opened Options
  import opened DateBisection
  import opened FolderIndexing
  import opened IndexRun
  import opened IndexReach

  // ---- One job at a time ----

  /** Only the job that the run waits for, or waited for when it crashed, can
      be active. */
  ghost predicate Flight(s: State) {
    && (s.pc.Waiting? ==> s.pc.job == |s.jobs| - 1)
    && (forall j :: 0 <= j < |s.jobs| && Active(s.jobs[j]) ==>
          j == |s.jobs| - 1 && (s.pc.Waiting? || s.pc == Crashed))
    && (s.pc.Waiting? && s.pc.phase.ReadJob? ==> s.pc.phase.poll <= MAX_POLLS)
    && (s.pc.Waiting? && s.pc.phase.ReadFlag? ==> s.pc.phase.poll <= MAX_POLLS)
  }

  lemma FlightWait(s: State, dispatched: bool)
    requires Flight(s) && Follows(ORDERLY, s, Run(dispatched, 0)) && s.pc.Waiting?
    ensures Flight(AdvanceWait(s, s.pc.phase, s.pc.why, s.pc.job, dispatched))
  {
  }

  lemma FlightRun(s: State, found: nat, dispatched: bool, now: nat)
    requires Flight(s) && Follows(ORDERLY, s, Run(dispatched, now))
    ensures Flight(Advance(s, found, dispatched, now))
  {
    match s.pc
    case Waiting(_, _, _) => FlightWait(s, dispatched);
    case Folder(stage, i) => FlightFolder(s, now);
    case Returned(_, _) => FlightReturned(s, found);
    case Create(why) => assert forall j :: 0 <= j < |s.jobs| ==> !Active(s.jobs[j]);
    case _ =>
  }

  lemma FlightFolder(s: State, now: nat)
    requires Flight(s) && s.pc.Folder?
    ensures Flight(AdvanceFolder(s, s.pc.stage, s.pc.folder, now))
  {
    assert AdvanceFolder(s, s.pc.stage, s.pc.folder, now).jobs == s.jobs;
  }

  lemma FlightReturned(s: State, found: nat)
    requires Flight(s) && s.pc.Returned?
    ensures Flight(Advance(s, found, true, 0))
  {
    assert Advance(s, found, true, 0).jobs == s.jobs;
  }

  lemma FlightStep(s: State, found: nat, step: Step)
    requires Flight(s) && Follows(ORDERLY, s, step)
    ensures Flight(Apply(s, found, step))
  {
    if step.Run? {
      FlightRun(s, found, step.dispatched, step.now);
    }
  }

  lemma {:induction false} StaysInFlight(found: nat, steps: seq<Step>)
    requires AllFollow(ORDERLY, found, steps)
    ensures Flight(After(found, steps))
  {
    if steps != [] {
      var init := steps[..|steps| - 1];
      forall k | 0 <= k < |init|
        ensures Follows(ORDERLY, After(found, init[..k]), init[k])
      {
        assert init[..k] == steps[..k];
      }
      StaysInFlight(found, init);
      assert steps[..|steps| - 1] == init;
      FlightStep(After(found, init), found, steps[|steps| - 1]);
    }
  }

  predicate AtMostOne(jobs: seq<JobStatus>) {
    forall a, b :: 0 <= a < |jobs| && 0 <= b < |jobs| && Active(jobs[a]) && Active(jobs[b]) ==> a == b
  }

  /** In an orderly run no two jobs are ever in flight at once. */
  lemma OneJobAtATime(found: nat, steps: seq<Step>)
    requires AllFollow(ORDERLY, found, steps)
    ensures AtMostOne(After(found, steps).jobs)
  {
    StaysInFlight(found, steps);
  }

  /** The engine's unguarded start of a job that already finished puts two
      jobs in flight. */
  lemma LateStartPutsTwoInFlight(p: Policy, found: nat) returns (s: State)
    requires found > 0 && !p.startsQueued
    ensures Reachable(p, found, s) && s.jobs == [JobRunning, JobQueued]
  {
    s := FirstFolderReached(p, found);
    s := ReachNext(p, found, s, EngineRuns(0));
    s := FirstWindow(p, found, s, 0, 0);
    s := NextFetch(p, found, s, 0);
  }

  // ---- Giving up after twenty minutes ----

  /** One poll of a job that is still running. */
  lemma OnePoll(p: Policy, found: nat, s: State, poll: nat, why: Purpose, j: nat) returns (t: State)
    requires Reachable(p, found, s) && !p.finishesInTime && s.pc == Waiting(ReadFlag(poll), why, j)
    requires !s.cancelRequested && j < |s.jobs| && s.jobs[j] == JobRunning
    ensures Reachable(p, found, t)
    ensures t == s.(pc := if poll < MAX_POLLS then Waiting(ReadFlag(poll + 1), why, j)
                          else Returned(why, Failed("timeout")))
  {
    PollAgain(s, found, poll, why, j);
    t := ReachRun(p, found, s);
    t := ReachRun(p, found, t);
  }

  lemma PollAgain(s: State, found: nat, poll: nat, why: Purpose, j: nat)
    requires s.pc == Waiting(ReadFlag(poll), why, j)
    requires !s.cancelRequested && j < |s.jobs| && s.jobs[j] == JobRunning
    ensures Advance(Advance(s, found, true, 0), found, true, 0)
         == s.(pc := if poll < MAX_POLLS then Waiting(ReadFlag(poll + 1), why, j)
                     else Returned(why, Failed("timeout")))
  {
    var t := Advance(s, found, true, 0);
    assert t == s.(pc := Waiting(ReadJob(poll), why, j));
    assert Advance(t, found, true, 0) == AdvanceWait(t, ReadJob(poll), why, j, true);
  }

  /** The run polls until its patience ends, and leaves the job as it is. */
  lemma {:induction false} PatienceEnds(p: Policy, found: nat, s: State, poll: nat, why: Purpose, j: nat)
    returns (t: State)
    requires Reachable(p, found, s) && !p.finishesInTime
    requires s.pc == Waiting(ReadFlag(poll), why, j) && 1 <= poll <= MAX_POLLS
    requires !s.cancelRequested && j < |s.jobs| && s.jobs[j] == JobRunning
    ensures Reachable(p, found, t) && t == s.(pc := Returned(why, Failed("timeout")))
    decreases MAX_POLLS - poll
  {
    t := OnePoll(p, found, s, poll, why, j);
    if poll < MAX_POLLS {
      t := PatienceEnds(p, found, t, poll + 1, why, j);
    }
  }

  /** The first fetch of a folder comes back nearly full, so that two windows
      are left. */
  lemma FullFetch(p: Policy, found: nat, s: State) returns (t: State)
    requires Reachable(p, found, s)
    requires s.pc == Folder(Head, 0) && 0 < found == |s.folders| && !s.cancelRequested
    ensures Reachable(p, found, t) && t.pc == Folder(Windows, 0) && t.processed == 1 && !t.cancelRequested
    ensures t.jobs == s.jobs + [JobSuccess(Some(NEAR_CAP))] && |t.windows| == 2
  {
    var w := Window(0, 2 * MICROS_PER_DAY);
    t := FirstWindow(p, found, s, 0, w.to);
    t := NextFetch(p, found, t, 0);
    t := ReachNext(p, found, t, EngineSucceeds(|s.jobs|, Some(NEAR_CAP)));
    assert t.jobs == s.jobs + [JobSuccess(Some(NEAR_CAP))];
    t := ReachRun(p, found, t);
    t := ReachRun(p, found, t);
    assert t.pc == Returned(Fetch(0, w), Done(Some(NEAR_CAP)));
    t := ReachRun(p, found, t);
  }

  /** A fetch that is still running after twenty minutes is abandoned, not
      stopped: the fetch of the next window joins it. */
  lemma TimeoutPutsTwoInFlight(p: Policy, found: nat) returns (s: State)
    requires found > 0 && !p.finishesInTime
    ensures Reachable(p, found, s)
    ensures s.jobs == [JobSuccess(None), JobSuccess(Some(NEAR_CAP)), JobRunning, JobQueued]
  {
    s := FirstFolderReached(p, found);
    s := FullFetch(p, found, s);
    s := NextFetch(p, found, s, 0);
    s := ReachNext(p, found, s, EngineRuns(2));
    s := PatienceEnds(p, found, s, 1, s.pc.why, 2);
    s := ReachRun(p, found, s);
    s := NextFetch(p, found, s, 0);
  }

  /** No run under the policy ever has two jobs in flight. */
  ghost predicate NeverTwo(p: Policy, found: nat) {
    forall steps :: AllFollow(p, found, steps) ==> AtMostOne(After(found, steps).jobs)
  }

  lemma TwoAreReached(p: Policy, found: nat)
    requires found > 0 && p != ORDERLY
    ensures !NeverTwo(p, found)
  {
    var s;
    if p.startsQueued {
      s := TimeoutPutsTwoInFlight(p, found);
      assert Active(s.jobs[2]) && Active(s.jobs[3]);
    } else {
      s := LateStartPutsTwoInFlight(p, found);
      assert Active(s.jobs[0]) && Active(s.jobs[1]);
    }
    var steps, visited :| LeadTo(p, found, steps, visited, s);
    LeadToIs(p, found, steps, visited, s);
    assert !AtMostOne(After(found, steps).jobs);
  }

  /** At most one job is ever in flight exactly if there is nothing to index, or
      the engine starts only queued jobs and finishes each in time. */
  lemma NeverTwoIff(p: Policy, found: nat)
    ensures NeverTwo(p, found) <==> found == 0 || p == ORDERLY
  {
    if found > 0 && p != ORDERLY {
      TwoAreReached(p, found);
    } else {
      forall steps | AllFollow(p, found, steps)
        ensures AtMostOne(After(found, steps).jobs)
      {
        if found == 0 {
          RunOutcome(found, steps);
        } else {
          OneJobAtATime(found, steps);
        }
      }
    }
  }

  // ---- Deleting finished jobs ----

  /** A job that was active is gone. */
  ghost predicate DeletesActive(s: State, t: State) {
    exists j :: 0 <= j < |s.jobs| && j < |t.jobs| && Active(s.jobs[j]) && t.jobs[j] == JobDeleted
  }

  /** Nobody is about to delete an active job. */
  ghost predicate SafeDeletes(s: State) {
    forall j :: j in s.pendingDeletes ==> j < |s.jobs| && !Active(s.jobs[j])
  }

  lemma SafeRun(s: State, found: nat, dispatched: bool, now: nat)
    requires SafeDeletes(s)
    ensures SafeDeletes(Advance(s, found, dispatched, now)) && !DeletesActive(s, Advance(s, found, dispatched, now))
  {
    var t := Advance(s, found, dispatched, now);
    RunMovesJobs(s, found, dispatched, now);
    forall j | 0 <= j < |s.jobs|
      ensures !Active(s.jobs[j]) ==> t.jobs[j] == s.jobs[j]
      ensures Active(s.jobs[j]) ==> t.jobs[j] != JobDeleted
    {
    }
  }

  lemma SafeStep(p: Policy, s: State, found: nat, step: Step)
    requires SafeDeletes(s) && p.startsQueued && Follows(p, s, step)
    ensures SafeDeletes(Apply(s, found, step)) && !DeletesActive(s, Apply(s, found, step))
  {
    if step.Run? {
      SafeRun(s, found, step.dispatched, step.now);
    }
  }

  lemma {:induction false} StaysSafe(p: Policy, found: nat, steps: seq<Step>)
    requires p.startsQueued && AllFollow(p, found, steps)
    ensures SafeDeletes(After(found, steps))
  {
    if steps != [] {
      var init := steps[..|steps| - 1];
      AllFollowBefore(p, found, steps);
      StaysSafe(p, found, init);
      SafeStep(p, After(found, init), found, steps[|steps| - 1]);
    }
  }

  lemma AllFollowBefore(p: Policy, found: nat, steps: seq<Step>)
    requires AllFollow(p, found, steps) && steps != []
    ensures AllFollow(p, found, steps[..|steps| - 1])
    ensures Follows(p, After(found, steps[..|steps| - 1]), steps[|steps| - 1])
  {
    var init := steps[..|steps| - 1];
    forall k | 0 <= k < |init|
      ensures Follows(p, After(found, init[..k]), init[k])
    {
      assert init[..k] == steps[..k];
    }
  }

  /** A finished job that is started once more between being looked at and being
      deleted is deleted while it runs. */
  lemma RunningJobIsDeleted(p: Policy, found: nat) returns (s: State)
    requires !p.startsQueued
    ensures Reachable(p, found, s) && s.jobs == [JobRunning]
    ensures Apply(s, found, DeleteRead(0)).jobs == [JobDeleted]
  {
    s := DiscoveryUnderWay(p, found);
    s := ReachNext(p, found, s, EngineSucceeds(0, None));
    s := ReachNext(p, found, s, ReadToDelete(0));
    s := ReachNext(p, found, s, EngineRuns(0));
  }

  /** Only finished jobs are ever deleted if and only if the engine starts only
      queued ones. */
  lemma OnlyFinishedAreDeletedIff(p: Policy, found: nat)
    ensures (forall steps, step :: AllFollow(p, found, steps) && Follows(p, After(found, steps), step) ==>
               !DeletesActive(After(found, steps), Apply(After(found, steps), found, step)))
       <==> p.startsQueued
  {
    if p.startsQueued {
      forall steps, step | AllFollow(p, found, steps) && Follows(p, After(found, steps), step)
        ensures !DeletesActive(After(found, steps), Apply(After(found, steps), found, step))
      {
        StaysSafe(p, found, steps);
        SafeStep(p, After(found, steps), found, step);
      }
    } else {
      var s := RunningJobIsDeleted(p, found);
      var steps, visited :| LeadTo(p, found, steps, visited, s);
      LeadToIs(p, found, steps, visited, s);
      assert Active(s.jobs[0]) && Apply(s, found, DeleteRead(0)).jobs[0] == JobDeleted;
      assert DeletesActive(After(found, steps), Apply(After(found, steps), found, DeleteRead(0)));
      assert Follows(p, After(found, steps), DeleteRead(0));
    }
  }

  // ---- Cancelled jobs ----

  ghost predicate CancelledAt(found: nat, steps: seq<Step>, k: nat, j: nat) {
    k <= |steps| && j < |After(found, steps[..k]).jobs| && After(found, steps[..k]).jobs[j] == JobCancelled
  }

  /** The job is cancelled, or gone. */
  ghost predicate Stopped(s: State, j: nat) {
    j < |s.jobs| && s.jobs[j] in {JobCancelled, JobDeleted}
  }

  lemma StoppedStep(p: Policy, s: State, found: nat, step: Step, j: nat)
    requires p.startsQueued && Follows(p, s, step) && Stopped(s, j)
    ensures Stopped(Apply(s, found, step), j)
  {
    JobMoves(s, found, step, j);
    if step.Run? {
      RunMovesJobs(s, found, step.dispatched, step.now);
    }
  }

  lemma {:induction false} StaysStopped(p: Policy, found: nat, steps: seq<Step>, k: nat, j: nat)
    requires p.startsQueued && AllFollow(p, found, steps) && CancelledAt(found, steps, k, j)
    ensures Stopped(After(found, steps), j)
  {
    if k == |steps| {
      assert steps[..k] == steps;
    } else {
      var init := steps[..|steps| - 1];
      AllFollowBefore(p, found, steps);
      assert init[..k] == steps[..k];
      StaysStopped(p, found, init, k, j);
      StoppedStep(p, After(found, init), found, steps[|steps| - 1], j);
    }
  }

  lemma QueuedJobCancelled(p: Policy, found: nat) returns (s: State)
    ensures Reachable(p, found, s) && s.jobs == [JobCancelled]
  {
    s := DiscoveryUnderWay(p, found);
    s := ReachNext(p, found, s, RequestCancel);
    s := ReachNext(p, found, s, CancelPending(0));
  }

  /** A job that is cancelled before the engine starts it is started all the same,
      and its result replaces the cancellation. */
  lemma CancelledJobSucceeds(p: Policy, found: nat) returns (steps: seq<Step>, k: nat)
    requires !p.startsQueued
    ensures AllFollow(p, found, steps) && CancelledAt(found, steps, k, 0)
    ensures After(found, steps).jobs == [JobSuccess(None)]
  {
    var s := QueuedJobCancelled(p, found);
    var first, visited :| LeadTo(p, found, first, visited, s);
    LeadToIs(p, found, first, visited, s);
    var t := Apply(s, found, EngineRuns(0));
    var u := Apply(t, found, EngineSucceeds(0, None));
    steps, k := first + [EngineRuns(0), EngineSucceeds(0, None)], |first|;
    assert steps[..k] == first;
    assert LeadTo(p, found, steps, visited + [t, u], u);
    LeadToIs(p, found, steps, visited + [t, u], u);
  }

  /** A cancelled job stays cancelled, until it is deleted, if and only if the
      engine starts only queued jobs. */
  lemma CancelSticksIff(p: Policy, found: nat)
    ensures (forall steps, k, j :: AllFollow(p, found, steps) && CancelledAt(found, steps, k, j) ==>
               Stopped(After(found, steps), j))
       <==> p.startsQueued
  {
    if p.startsQueued {
      forall steps, k, j | AllFollow(p, found, steps) && CancelledAt(found, steps, k, j)
        ensures Stopped(After(found, steps), j)
      {
        StaysStopped(p, found, steps, k, j);
      }
    } else {
      var steps, k := CancelledJobSucceeds(p, found);
      assert !Stopped(After(found, steps), 0);
    }
  }
}
