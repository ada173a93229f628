/** When a request to cancel an indexing run is honoured. */
module IndexCancel {

  import opened Options
  import opened DateBisection
  import opened FolderIndexing
  import opened IndexRun
  import opened IndexReach

  /** Where the steps lead from this state. */
  function From(s: State, found: nat, steps: seq<Step>): State
    decreases |steps|
  {
    if steps == [] then s else From(Apply(s, found, steps[0]), found, steps[1..])
  }

  /** The run looks at the flag again before it is over: at the next folder, or
      at the next window of this one. */
  predicate LooksAgain(s: State, i: nat, processed: nat, queued: bool) {
    i + 1 < |s.folders| || (queued && processed < MAX_WINDOWS)
  }

  /** The cancel cannot be missed any more.  It can be missed while the run
      reads the job after having read the flag, if what then follows is the end
      of the run, and once the run has decided how it ends. */
  predicate Caught(s: State, found: nat) {
    match s.pc
    case Begin => true
    case Create(_) => true
    case Waiting(ReadJob(_), Discover, _) => false
    case Waiting(ReadJob(_), Fetch(i, _), _) => LooksAgain(s, i, s.processed + 1, s.windows != [])
    case Waiting(_, _, _) => true
    case Returned(_, Cancelled) => true
    case Returned(Discover, end) => end.Done? && found > 0
    case Returned(Fetch(i, w), Failed(_)) => LooksAgain(s, i, s.processed + 1, s.windows != [])
    case Returned(Fetch(i, w), end) =>
      LooksAgain(s, i, s.processed + 1, s.windows != [] || TooFull(Reported(end), w))
    case Folder(Windows, i) => LooksAgain(s, i, s.processed, s.windows != [])
    case Folder(End(stopped), i) => stopped || i + 1 < |s.folders|
    case Folder(Totals(stopped), i) => stopped || i + 1 < |s.folders|
    case Folder(_, i) => true
    case RunEnd(stopped) => stopped
    case Finish(final) => final == RunCancelled
    case Over => s.status == RunCancelled
    case Crashed => true
  }

  lemma CaughtWait(s: State, found: nat, dispatched: bool)
    requires s.cancelRequested && s.pc.Waiting? && Caught(s, found)
    ensures Caught(AdvanceWait(s, s.pc.phase, s.pc.why, s.pc.job, dispatched), found)
  {
  }

  lemma CaughtFolder(s: State, found: nat, now: nat)
    requires s.cancelRequested && s.pc.Folder? && Caught(s, found)
    ensures Caught(AdvanceFolder(s, s.pc.stage, s.pc.folder, now), found)
  {
  }

  lemma CaughtReturned(s: State, found: nat)
    requires s.cancelRequested && s.pc.Returned? && Caught(s, found)
    ensures Caught(Advance(s, found, true, 0), found)
  {
  }

  lemma StaysCaught(s: State, found: nat, step: Step)
    requires s.cancelRequested && Caught(s, found)
    ensures Apply(s, found, step).cancelRequested && Caught(Apply(s, found, step), found)
  {
    if step.Run? {
      match s.pc
      case Waiting(_, _, _) => CaughtWait(s, found, step.dispatched);
      case Folder(_, _) => CaughtFolder(s, found, step.now);
      case Returned(_, _) => CaughtReturned(s, found);
      case _ =>
    } else if step != Restart {
      OthersAreLocal(s, found, step);
      CaughtSame(s, Apply(s, found, step), found);
    }
  }

  lemma CaughtSame(s: State, t: State, found: nat)
    requires Caught(s, found)
    requires t == s.(jobs := t.jobs, cancelRequested := t.cancelRequested, pendingCancels := t.pendingCancels,
                     pendingDeletes := t.pendingDeletes)
    ensures Caught(t, found)
  {
  }

  lemma {:induction false} EndsCancelled(s: State, found: nat, steps: seq<Step>)
    requires s.cancelRequested && Caught(s, found)
    ensures From(s, found, steps).pc == Over ==> From(s, found, steps).status == RunCancelled
    decreases |steps|
  {
    if steps != [] {
      StaysCaught(s, found, steps[0]);
      EndsCancelled(Apply(s, found, steps[0]), found, steps[1..]);
    }
  }

  // ---- And otherwise it can be missed ----

  /** How near the end of the run is. */
  function Distance(pc: Pc): nat {
    match pc
    case Waiting(_, _, _) => 6
    case Returned(_, _) => 5
    case Folder(Windows, _) => 4
    case Folder(End(_), _) => 3
    case Folder(Totals(_), _) => 2
    case Over => 0
    case _ => 1
  }

  /** The job fails just before it is read, and the run goes on to its end. */
  function Missing(pc: Pc): seq<Step> {
    if pc.Waiting? then [EngineFails(pc.job), Run(true, 0)] else [Run(true, 0)]
  }

  lemma MissedWait(s: State, found: nat)
    requires s.cancelRequested && s.pc.Waiting? && !Caught(s, found)
    ensures var t := From(s, found, Missing(s.pc));
      t.cancelRequested && !Caught(t, found) && t.pc.Returned?
  {
    var fails, go := EngineFails(s.pc.job), Run(true, 0);
    var failed := Apply(s, found, fails);
    assert [fails, go][1..] == [go] && [go][1..] == [];
    assert From(s, found, [fails, go]) == From(failed, found, [go]) == Apply(failed, found, go);
    assert failed.pc == s.pc && failed.pc.phase.ReadJob?;
    assert s.pc.job < |s.jobs| ==> failed.jobs[s.pc.job] in {JobFailed, JobCancelled, JobDeleted};
  }

  lemma MissedRun(s: State, found: nat)
    requires s.cancelRequested && !s.pc.Waiting? && s.pc != Over && !Caught(s, found)
    ensures var t := Advance(s, found, true, 0);
      t.cancelRequested && !Caught(t, found) && Distance(t.pc) < Distance(s.pc)
  {
  }

  lemma {:induction false} EndsOtherwise(s: State, found: nat) returns (steps: seq<Step>)
    requires s.cancelRequested && !Caught(s, found)
    ensures From(s, found, steps).pc == Over && From(s, found, steps).status != RunCancelled
    decreases Distance(s.pc)
  {
    if s.pc == Over {
      return [];
    }
    var first := Missing(s.pc);
    if s.pc.Waiting? {
      MissedWait(s, found);
    } else {
      MissedRun(s, found);
      assert From(s, found, first) == Advance(s, found, true, 0) by {
        assert first[1..] == [];
      }
    }
    var rest := EndsOtherwise(From(s, found, first), found);
    FromConcat(s, found, first, rest);
    steps := first + rest;
  }

  lemma {:induction false} FromConcat(s: State, found: nat, a: seq<Step>, b: seq<Step>)
    ensures From(s, found, a + b) == From(From(s, found, a), found, b)
    decreases |a|
  {
    if a == [] {
      assert a + b == b;
    } else {
      assert (a + b)[1..] == a[1..] + b;
      FromConcat(Apply(s, found, a[0]), found, a[1..], b);
    }
  }

  /** Once the flag is up, the run is bound to end as cancelled, whatever
      anybody does, exactly when the cancel is caught. */
  lemma CancelHonouredIff(s: State, found: nat)
    requires s.cancelRequested
    ensures (forall steps :: From(s, found, steps).pc == Over ==> From(s, found, steps).status == RunCancelled)
       <==> Caught(s, found)
  {
    if Caught(s, found) {
      forall steps
        ensures From(s, found, steps).pc == Over ==> From(s, found, steps).status == RunCancelled
      {
        EndsCancelled(s, found, steps);
      }
    } else {
      var steps := EndsOtherwise(s, found);
    }
  }

  /** For instance, a cancel that lands between the two reads of one poll makes
      discovery look failed: the run does not end as cancelled, however orderly
      the engine is. */
  lemma CancelledRunEndsFailed(found: nat) returns (s: State)
    ensures Reachable(ORDERLY, found, s) && s.pc == Over && s.cancelRequested && s.status == RunFailed
  {
    s := DiscoveryUnderWay(ORDERLY, found);
    s := ReachNext(ORDERLY, found, s, RequestCancel);
    s := ReachNext(ORDERLY, found, s, CancelPending(0));
    s := ReachRun(ORDERLY, found, s);
    s := ReachRun(ORDERLY, found, s);
    s := ReachRun(ORDERLY, found, s);
  }
}
