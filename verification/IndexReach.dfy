/** The states that indexing runs can reach when the workflow engine keeps to a
    policy. */
module IndexReach {

  import opened Options
  import opened DateBisection
  import opened FolderIndexing
  import opened IndexRun

  /** What may be asked of the engine: that it starts only jobs that are still
      queued, and that the poll that gives up never finds its job active. */
  datatype Policy = Policy(startsQueued: bool, finishesInTime: bool)

  const ORDERLY: Policy := Policy(true, true)

  predicate Follows(p: Policy, s: State, step: Step) {
    match step
    case EngineRuns(j) => p.startsQueued && j < |s.jobs| ==> s.jobs[j] == JobQueued
    case Run(_, _) =>
      p.finishesInTime && s.pc.Waiting? && s.pc.phase == ReadJob(MAX_POLLS) && s.pc.job < |s.jobs| ==>
        !Active(s.jobs[s.pc.job])
    case _ => true
  }

  ghost predicate AllFollow(p: Policy, found: nat, steps: seq<Step>) {
    forall k :: 0 <= k < |steps| ==> Follows(p, After(found, steps[..k]), steps[k])
  }

  /** The steps follow the policy and visit these states, the last of which is
      s. */
  ghost predicate LeadTo(p: Policy, found: nat, steps: seq<Step>, visited: seq<State>, s: State) {
    && |visited| == |steps| + 1 && visited[0] == INIT && visited[|steps|] == s
    && forall k {:trigger steps[k]} :: 0 <= k < |steps| ==>
         Follows(p, visited[k], steps[k]) && visited[k + 1] == Apply(visited[k], found, steps[k])
  }

  lemma {:induction false} VisitedAre(p: Policy, found: nat, steps: seq<Step>, visited: seq<State>, s: State, k: nat)
    requires LeadTo(p, found, steps, visited, s) && k <= |steps|
    ensures After(found, steps[..k]) == visited[k]
  {
    if k > 0 {
      VisitedAre(p, found, steps, visited, s, k - 1);
      assert steps[..k][..k - 1] == steps[..k - 1] && steps[..k][k - 1] == steps[k - 1];
    }
  }

  lemma LeadToIs(p: Policy, found: nat, steps: seq<Step>, visited: seq<State>, s: State)
    requires LeadTo(p, found, steps, visited, s)
    ensures AllFollow(p, found, steps) && After(found, steps) == s
  {
    forall k | 0 <= k <= |steps|
      ensures After(found, steps[..k]) == visited[k]
    {
      VisitedAre(p, found, steps, visited, s, k);
    }
    assert steps[..|steps|] == steps;
  }

  /** Some steps under the policy lead to this state. */
  ghost predicate Reachable(p: Policy, found: nat, s: State) {
    exists steps, visited :: LeadTo(p, found, steps, visited, s)
  }

  lemma ReachNext(p: Policy, found: nat, s: State, step: Step) returns (t: State)
    requires Reachable(p, found, s) && Follows(p, s, step)
    ensures t == Apply(s, found, step) && Reachable(p, found, t)
  {
    var steps, visited :| LeadTo(p, found, steps, visited, s);
    t := Apply(s, found, step);
    assert LeadTo(p, found, steps + [step], visited + [t], t);
  }

  lemma ReachRun(p: Policy, found: nat, s: State) returns (t: State)
    requires Reachable(p, found, s) && Follows(p, s, Run(true, 0))
    ensures t == Advance(s, found, true, 0) && Reachable(p, found, t)
  {
    t := ReachNext(p, found, s, Run(true, 0));
  }

  /** The run's first steps: discovery is created, announced, dispatched, and
      its flag is read. */
  lemma DiscoveryUnderWay(p: Policy, found: nat) returns (s: State)
    ensures Reachable(p, found, s)
    ensures s == INIT.(pc := Waiting(ReadJob(1), Discover, 0), status := Running, jobs := [JobQueued],
                       currentJob := Some(0), purposes := [Discover])
  {
    assert LeadTo(p, found, [], [INIT], INIT);
    s := ReachRun(p, found, INIT);
    s := ReachRun(p, found, s);
    s := ReachRun(p, found, s);
    s := ReachRun(p, found, s);
    s := ReachRun(p, found, s);
  }

  lemma FirstFolderReached(p: Policy, found: nat) returns (s: State)
    requires found > 0
    ensures Reachable(p, found, s)
    ensures s.pc == Folder(Head, 0) && !s.cancelRequested && s.jobs == [JobSuccess(None)]
    ensures s.folders == seq(found, _ => UNTOUCHED) && s.total == 0 && s.discovered
  {
    s := DiscoveryUnderWay(p, found);
    s := ReachNext(p, found, s, EngineSucceeds(0, None));
    s := ReachRun(p, found, s);
    s := ReachRun(p, found, s);
  }

  /** The run is about to fetch the first window of a folder. */
  lemma FirstWindow(p: Policy, found: nat, s: State, i: nat, now: nat) returns (t: State)
    requires Reachable(p, found, s)
    requires s.pc == Folder(Head, i) && i < found == |s.folders| && !s.cancelRequested
    ensures Reachable(p, found, t)
    ensures t == s.(pc := Folder(Windows, i), folders := s.folders[i := FolderRecord(Indexando, 0)],
                    windows := [Window(0, now)], processed := 0, indexed := 0, troubled := false,
                    ends := s.ends + [now])
  {
    t := ReachRun(p, found, s);
    t := ReachNext(p, found, t, Run(true, now));
  }

  /** The run creates and dispatches a job for the window at the head of its
      queue. */
  lemma NextFetch(p: Policy, found: nat, s: State, i: nat) returns (t: State)
    requires Reachable(p, found, s) && s.pc == Folder(Windows, i) && !s.cancelRequested
    requires s.windows != [] && s.processed < MAX_WINDOWS
    ensures Reachable(p, found, t)
    ensures t == s.(pc := Waiting(ReadFlag(1), Fetch(i, s.windows[0]), |s.jobs|), jobs := s.jobs + [JobQueued],
                    currentJob := Some(|s.jobs|), purposes := s.purposes + [Fetch(i, s.windows[0])],
                    windows := s.windows[1..])
  {
    t := ReachRun(p, found, s);
    t := ReachRun(p, found, t);
    t := ReachRun(p, found, t);
    t := ReachRun(p, found, t);
  }

  // ---- Runs that succeed ----

  /** The run reads that its fetch has succeeded. */
  lemma FetchSucceeds(p: Policy, found: nat, s: State, i: nat, w: Window, count: nat) returns (t: State)
    requires Reachable(p, found, s) && s.jobs != [] && s.jobs[|s.jobs| - 1] == JobQueued && !s.cancelRequested
    requires s.pc == Waiting(ReadFlag(1), Fetch(i, w), |s.jobs| - 1)
    ensures Reachable(p, found, t)
    ensures t == s.(pc := Returned(Fetch(i, w), Done(Some(count))),
                    jobs := s.jobs[|s.jobs| - 1 := JobSuccess(Some(count))])
  {
    t := ReachNext(p, found, s, EngineSucceeds(|s.jobs| - 1, Some(count)));
    t := ReachRun(p, found, t);
    t := ReachRun(p, found, t);
  }

  /** A folder whose first fetch is not refused is complete after it. */
  lemma FolderSucceeds(p: Policy, found: nat, s: State, i: nat, count: nat) returns (t: State)
    requires Reachable(p, found, s) && s.pc == Folder(Head, i) && i < found == |s.folders| && !s.cancelRequested
    requires count < 1900 && s.total == Sum(s.folders[..i])
    ensures Reachable(p, found, t) && !t.cancelRequested && t.discovered == s.discovered
    ensures t.pc == if i + 1 < found then Folder(Head, i + 1) else RunEnd(false)
    ensures t.folders == s.folders[i := FolderRecord(Listo, count)]
    ensures t.total == t.totalIndexed == Sum(t.folders[..i + 1]) && t.processedFolders == i + 1
  {
    t := FirstWindow(p, found, s, i, 0);
    t := NextFetch(p, found, t, i);
    t := FetchSucceeds(p, found, t, i, Window(0, 0), count);
    t := ReachRun(p, found, t);
    assert t.pc == Folder(Windows, i) && t.windows == [] && t.indexed == count && !t.troubled;
    t := ReachRun(p, found, t);
    t := ReachRun(p, found, t);
    t := ReachRun(p, found, t);
    assert t.folders == s.folders[i := FolderRecord(Listo, count)];
    SumNext(t.folders, i);
    assert t.folders[..i] == s.folders[..i];
  }

  lemma NothingToIndex(p: Policy) returns (s: State)
    ensures Reachable(p, 0, s) && s.pc == Over && s.status == Success
    ensures s.folders == [] && s.totalIndexed == 0 && s.processedFolders == 0
  {
    s := DiscoveryUnderWay(p, 0);
    s := ReachNext(p, 0, s, EngineSucceeds(0, None));
    s := ReachRun(p, 0, s);
    s := ReachRun(p, 0, s);
    s := ReachRun(p, 0, s);
  }

  /** A run can succeed, whatever its folders report below 1900: it then has every
      folder complete, with what was reported, and the sum as its total. */
  lemma RunSucceeds(p: Policy, counts: seq<nat>) returns (s: State)
    requires forall k :: 0 <= k < |counts| ==> counts[k] < 1900
    ensures Reachable(p, |counts|, s) && s.pc == Over && s.status == Success
    ensures |s.folders| == |counts| == s.processedFolders && s.totalIndexed == Sum(s.folders)
    ensures forall k :: 0 <= k < |counts| ==> s.folders[k] == FolderRecord(Listo, counts[k])
  {
    var found := |counts|;
    if found == 0 {
      s := NothingToIndex(p);
      return;
    }
    s := FirstFolderReached(p, found);
    for i := 0 to found
      invariant Reachable(p, found, s) && !s.cancelRequested && |s.folders| == found
      invariant s.pc == if i < found then Folder(Head, i) else RunEnd(false)
      invariant s.total == Sum(s.folders[..i]) && (i > 0 ==> s.totalIndexed == s.total && s.processedFolders == i)
      invariant forall k :: 0 <= k < i ==> s.folders[k] == FolderRecord(Listo, counts[k])
    {
      s := FolderSucceeds(p, found, s, i, counts[i]);
    }
    assert s.folders[..found] == s.folders;
    s := ReachRun(p, found, s);
  }
}
