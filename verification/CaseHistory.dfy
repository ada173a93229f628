/** Whole runs of the case store: any requests, in any order, from any users,
    while the index keeps growing and things are merged and deleted. */
module CaseHistory {

  import opened Options
  import opened CaseTables
  import opened CaseStore
  import opened CaseMerge
  import opened MailboxDeletion

  datatype Request =
    | Index(m: MessageId, mailbox: Option<MailboxId>)
    | Recover(a: AttachmentId, m: MessageId)
    | Backfill(m: MessageId)
    | Create(existing: Option<CaseId>, seed: Seed, accessible: Option<set<MailboxId>>)
    | Add(c: CaseId, m: MessageId, accessible: Option<set<MailboxId>>)
    | Remove(c: CaseId, m: MessageId)
    | BulkRemove(c: CaseId, ids: seq<MessageId>)
    | Refresh(c: CaseId)
    | RefreshAll(failing: set<CaseId>)
    | Reopen(c: CaseId)
    | SetStatus(c: CaseId, status: Status)
    | Merge(sources: seq<CaseId>)
    | DeleteCases(scope: Scope)
    | DeleteMessages(ms: set<MessageId>)
    | DeleteAttachment(a: AttachmentId)
    | DeleteMailbox(b: MailboxId)

  /** What the searches find, for the index as it is and the user who asks. */
  type Searches = (Messages, User) -> Routes

  ghost predicate AlwaysSound(searches: Searches) {
    forall ms, u :: Sound(searches(ms, u), ms)
  }

  /** The tables at one moment. */
  datatype Tables = Tables(cases: map<CaseId, CaseRow>, links: Links, timeline: seq<Event>, messages: Messages,
                           attachments: Attachments, shares: map<(CaseId, UserId), Permission>,
                           notes: map<nat, CaseId>, evidence: map<nat, CaseId>)

  function Now(store: CaseStore): Tables
    reads store
  {
    Tables(store.cases, store.links, store.timeline, store.messages, store.attachments, store.shares, store.notes,
           store.evidence)
  }

  ghost predicate Steady(t: Tables, c: CaseId) {
    Kept(t.links, t.timeline, t.attachments, c)
  }

  // ---- What a request is for ----

  predicate Reads(t: Tables, c: CaseId, user: User) {
    c in t.cases && (user.isAdmin || t.cases[c].owner == Some(user.id) || (c, user.id) in t.shares)
  }

  predicate Edits(t: Tables, c: CaseId, user: User) {
    c in t.cases && (user.isAdmin || t.cases[c].owner == Some(user.id)
                     || ((c, user.id) in t.shares && t.shares[(c, user.id)] == Edit))
  }

  /** The user may change the case, and it is open. */
  predicate Changes(t: Tables, c: CaseId, user: User) {
    Edits(t, c, user) && t.cases[c].status == Open
  }

  /** The case has its old links and those to its new messages; no other case
      gains or loses any. */
  ghost predicate CatchesUpAlone(before: Tables, after: Tables, c: CaseId, routes: Routes)
    requires c in before.cases
  {
    && Caught(routes, before.messages, before.cases[c], before.links, after.links, c)
    && forall d: CaseId :: d != c ==> SameLinks(before.links, after.links, d)
  }

  /** Requests that link or unlink: done if the user may, else nothing happens. */
  ghost predicate AnsweredLinks(before: Tables, after: Tables, user: User, r: Request, routes: Routes)
    requires r.Refresh? || r.Reopen? || r.Add? || r.Remove? || r.BulkRemove?
  {
    match r
    case Refresh(c) =>
      if Changes(before, c, user) then CatchesUpAlone(before, after, c, routes) else after == before
    case Reopen(c) =>
      if Edits(before, c, user) && before.cases[c].status == Closed
      then CatchesUpAlone(before, after, c, routes) && c in after.cases && after.cases[c].status == Open
      else after == before
    case Add(c, m, accessible) =>
      if Changes(before, c, user) && m in before.messages
         && (accessible == None || before.messages[m] == None || before.messages[m].value in accessible.value)
      then after.links == Upsert(before.links, c, m, Link(Related, 1.0, Manual)) else after == before
    case Remove(c, m) =>
      if Changes(before, c, user) then after.links == before.links - {(c, m)} else after == before
    case BulkRemove(c, ids) =>
      if Changes(before, c, user) then after.links == before.links - set m | m in ids :: (c, m) else after == before
  }

  /** What a search finds is indexed, and so is a case that a search finds.  A
      closed or read-only case that was found is left alone; else the seeds are
      linked to the case that was found, or to a new one if there is none that
      the user can see. */
  ghost predicate AnsweredCreation(before: Tables, after: Tables, user: User, r: Request, routes: Routes)
    requires r.Create?
  {
    var seeds := SeedsOf(routes, before.messages, r.accessible, user.id, r.seed);
    if r.seed.FromConversation? && exists m :: m in r.seed.found && m !in before.messages then after == before
    else if r.existing.Some? && r.existing.value !in before.cases then after == before
    else if r.existing.Some? && Reads(before, r.existing.value, user) && !Changes(before, r.existing.value, user)
    then after == before
    else exists c :: CreatedFor(before, after, user, r, routes, seeds, c)
  }

  ghost predicate CreatedFor(before: Tables, after: Tables, user: User, r: Request, routes: Routes,
                             seeds: seq<MessageId>, c: CaseId)
    requires r.Create?
  {
    && CreatedIn(before, after, user, r, routes, seeds, c)
    && forall d: CaseId :: d != c ==> SameLinks(before.links, after.links, d)
  }

  ghost predicate CreatedIn(before: Tables, after: Tables, user: User, r: Request, routes: Routes,
                            seeds: seq<MessageId>, c: CaseId)
    requires r.Create?
  {
    && c in after.cases && (forall m :: m in seeds ==> (c, m) in after.links)
    && if r.existing.Some? && Reads(before, r.existing.value, user) then c == r.existing.value
       else c !in before.cases && after.cases[c].owner == Some(user.id)
            && FreshLinks(after.links, c, r.seed, seeds, RelatedTo(routes, FirstOf(seeds), c, Some(user.id)))
  }

  /** What the index does, and opening and closing. */
  ghost predicate AnsweredIndex(before: Tables, after: Tables, r: Request)
    requires r.Index? || r.Recover? || r.Backfill? || r.SetStatus?
  {
    match r
    case Index(m, mailbox) => after == before.(messages := before.messages[m := mailbox])
    case Recover(a, m) =>
      after == if a !in before.attachments && m in before.messages
               then before.(attachments := before.attachments[a := m]) else before
    case Backfill(m) =>
      && Filled(before.timeline, after.timeline, before.links, before.attachments, m, {})
      && after == before.(timeline := after.timeline)
    case SetStatus(c, status) =>
      if c in before.cases
      then c in after.cases && after.cases[c].status == status
           && after == before.(cases := before.cases[c := after.cases[c]])
      else after == before
  }

  /** Requests that delete take away just what they name. */
  ghost predicate AnsweredDeletion(before: Tables, after: Tables, user: User, r: Request)
    requires r.DeleteCases? || r.DeleteMessages? || r.DeleteAttachment? || r.DeleteMailbox?
  {
    match r
    case DeleteCases(scope) =>
      && after.messages == before.messages && after.attachments == before.attachments
      && forall c :: c in after.cases <==>
           c in before.cases && !(InScope(before.cases, scope, c) && Reads(before, c, user))
    case DeleteMessages(ms) => after.messages == before.messages - ms && after.cases.Keys == before.cases.Keys
    case DeleteAttachment(a) =>
      after == before.(attachments := before.attachments - {a}, timeline := after.timeline)
    case DeleteMailbox(b) =>
      && (forall m :: m in after.messages <==> m in before.messages && before.messages[m] != Some(b))
      && (forall c :: c in after.cases <==>
            c in before.cases && (Holds(before.links, before.messages, b, c)
                                  ==> HoldsOther(before.links, before.messages, b, c)))
  }

  /** The sources become one new case if there are two or more and the user may
      edit them all. */
  ghost predicate AnsweredMerge(before: Tables, after: Tables, user: User, r: Request)
    requires r.Merge?
  {
    if |AsSet(r.sources)| >= 2 && forall c :: c in r.sources ==> Edits(before, c, user)
    then exists c :: c !in before.cases && after.cases.Keys == before.cases.Keys - AsSet(r.sources) + {c}
                     && MergedLinks(before.links, after.links, AsSet(r.sources), c)
    else after == before
  }

  ghost predicate Answered(before: Tables, after: Tables, user: User, r: Request, routes: Routes) {
    match r
    case Index(_, _) => AnsweredIndex(before, after, r)
    case Recover(_, _) => AnsweredIndex(before, after, r)
    case Backfill(_) => AnsweredIndex(before, after, r)
    case SetStatus(_, _) => AnsweredIndex(before, after, r)
    case Create(_, _, _) => AnsweredCreation(before, after, user, r, routes)
    case RefreshAll(failing) =>
      AllRefreshed(routes, before.messages, before.cases, before.links, after.cases, after.links,
                   Editable(before.cases, before.shares, user) - failing,
                   ClosedIn(before.cases, before.shares, user) - failing)
    case Merge(_) => AnsweredMerge(before, after, user, r)
    case DeleteCases(_) => AnsweredDeletion(before, after, user, r)
    case DeleteMessages(_) => AnsweredDeletion(before, after, user, r)
    case DeleteAttachment(_) => AnsweredDeletion(before, after, user, r)
    case DeleteMailbox(_) => AnsweredDeletion(before, after, user, r)
    case _ => AnsweredLinks(before, after, user, r, routes)
  }

  // ---- What a request may do to closed cases ----

  /** The requests that open a case. */
  predicate Opens(r: Request, c: CaseId) {
    (r.Reopen? && r.c == c) || (r.SetStatus? && r.c == c)
  }

  /** The requests that take a case away. */
  ghost predicate Takes(r: Request, t: Tables, c: CaseId) {
    || (r.Merge? && c in r.sources)
    || (r.DeleteCases? && InScope(t.cases, r.scope, c))
    || (r.DeleteMailbox? && Holds(t.links, t.messages, r.b, c) && !HoldsOther(t.links, t.messages, r.b, c))
  }

  /** A closed case that nobody opens stays closed until it is merged or
      deleted, and loses no link but to messages that are deleted. */
  ghost predicate ClosedKept(before: Tables, after: Tables, r: Request) {
    forall c :: c in before.cases && before.cases[c].status == Closed && !Opens(r, c) && !Takes(r, before, c) ==>
      && c in after.cases && after.cases[c].status == Closed
      && forall m :: (c, m) in after.links <==> (c, m) in before.links && m in after.messages
  }

  // ---- What a request may do to the step of cases ----

  /** Merging these cases gives one that need not be in step. */
  ghost predicate Spreads(t: Tables, doubled: set<CaseId>, ids: set<CaseId>) {
    ids * doubled != {} || ShareMessage(t.links, ids)
  }

  /** The cases that need not be in step after the request: those from before,
      and a new one that was merged from such a case or from two cases that
      shared a message. */
  ghost function DoubledNext(before: Tables, after: Tables, r: Request, doubled: set<CaseId>): set<CaseId> {
    var more := if r.Merge? && Spreads(before, doubled, AsSet(r.sources)) then after.cases.Keys - before.cases.Keys
                else {};
    doubled * after.cases.Keys + more
  }

  ghost predicate SteadyBut(t: Tables, doubled: set<CaseId>) {
    forall c: CaseId :: c !in doubled ==> Steady(t, c)
  }

  /** Cases that were in step stay in step; a case that is gone has no rows. */
  lemma SteadyAfter(before: Tables, after: Tables, r: Request, doubled: set<CaseId>)
    requires SteadyBut(before, doubled)
    requires StillKept(before.links, before.timeline, before.attachments,
                       after.links, after.timeline, after.attachments)
    requires forall c, m :: (c, m) in after.links ==> c in after.cases
    requires forall e :: e in after.timeline ==> e.caseId in after.cases
    ensures SteadyBut(after, DoubledNext(before, after, r, doubled))
  {
    forall c: CaseId | c !in DoubledNext(before, after, r, doubled)
      ensures Steady(after, c)
    {
      if c in doubled {
        NoRowsNoCase(after, c);
      } else {
        assert Steady(before, c);
      }
    }
  }

  lemma NoRowsNoCase(t: Tables, c: CaseId)
    requires c !in t.cases
    requires forall d, m :: (d, m) in t.links ==> d in t.cases
    requires forall e :: e in t.timeline ==> e.caseId in t.cases
    ensures Steady(t, c)
  {
    forall e: Event | e.caseId == c
      ensures Times(t.timeline, e) == 0
    {
      Occurs(t.timeline, e);
    }
  }

  lemma SteadyAfterMerge(before: Tables, after: Tables, r: Request, doubled: set<CaseId>, c: CaseId)
    requires SteadyBut(before, doubled) && r.Merge? && after.cases.Keys == before.cases.Keys - AsSet(r.sources) + {c}
    requires c !in before.cases && after.attachments == before.attachments
    requires StepsMerged(before.links, after.links, before.timeline, after.timeline, before.attachments,
                         AsSet(r.sources), c)
    requires forall c, m :: (c, m) in after.links ==> c in after.cases
    requires forall e :: e in after.timeline ==> e.caseId in after.cases
    ensures SteadyBut(after, DoubledNext(before, after, r, doubled))
  {
    forall d: CaseId | d !in DoubledNext(before, after, r, doubled)
      ensures Steady(after, d)
    {
      if d !in after.cases {
        NoRowsNoCase(after, d);
      } else if d != c {
        assert Steady(before, d);
      } else {
        assert !Spreads(before, doubled, AsSet(r.sources));
        forall e | e in AsSet(r.sources)
          ensures Kept(before.links, before.timeline, before.attachments, e)
        {
          assert e !in doubled;
          assert Steady(before, e);
        }
      }
    }
  }

  // ---- Serving requests ----

  lemma OthersKept(c: CaseId, rows: seq<LinkRow>, links0: Links)
    ensures forall d: CaseId, m :: d != c ==> ((d, m) in UpsertAll(links0, c, rows) <==> (d, m) in links0)
  {
    forall d: CaseId, m | d != c
      ensures (d, m) in UpsertAll(links0, c, rows) <==> (d, m) in links0
    {
      UpsertAllFrame(links0, c, rows, d, m);
    }
  }

  method ServeAdd(store: CaseStore, user: User, r: Request)
    requires store.References() && r.Add?
    modifies store`cases, store`links, store`timeline
    ensures store.References() && store.StepsKept()
    ensures ClosedKept(old(Now(store)), Now(store), r)
    ensures forall routes :: AnsweredLinks(old(Now(store)), Now(store), user, r, routes)
  {
    var row := LinkRow(r.m, Link(Related, 1.0, Manual));
    GuardIff(store.cases, store.shares, r.c, user);
    var outcome := store.Add(r.c, r.m, user, r.accessible);
    OthersKept(r.c, [row], old(store.links));
    UpsertAllAppend(old(store.links), r.c, [], row);
    assert [] + [row] == [row];
  }

  method ServeRefresh(store: CaseStore, user: User, r: Request, routes: Routes)
    requires store.References() && Sound(routes, store.messages) && r.Refresh?
    modifies store`cases, store`links, store`timeline
    ensures store.References() && store.StepsKept()
    ensures ClosedKept(old(Now(store)), Now(store), r)
    ensures AnsweredLinks(old(Now(store)), Now(store), user, r, routes)
  {
    var outcome, found;
    ghost var rows;
    GuardIff(store.cases, store.shares, r.c, user);
    outcome, found, rows := store.Refresh(r.c, user, routes);
    OthersKept(r.c, rows, old(store.links));
    if outcome == Ok {
      CatchesUp(routes, store.messages, old(store.cases)[r.c], old(store.links), old(store.links), r.c, rows);
    }
  }

  method ServeReopen(store: CaseStore, user: User, r: Request, routes: Routes)
    requires store.References() && Sound(routes, store.messages) && r.Reopen?
    modifies store`cases, store`links, store`timeline
    ensures store.References() && store.StepsKept()
    ensures ClosedKept(old(Now(store)), Now(store), r)
    ensures AnsweredLinks(old(Now(store)), Now(store), user, r, routes)
  {
    var outcome, found;
    ghost var rows;
    outcome, found, rows := store.Reopen(r.c, user, routes);
    OthersKept(r.c, rows, old(store.links));
    if outcome == Ok {
      CatchesUp(routes, store.messages, old(store.cases)[r.c], old(store.links), old(store.links), r.c, rows);
    }
  }

  /** Requests that link messages to one case. */
  method ServeLinking(store: CaseStore, user: User, r: Request, searches: Searches)
    requires store.References() && AlwaysSound(searches)
    requires r.Refresh? || r.Add? || r.Reopen?
    modifies store`cases, store`links, store`timeline
    ensures store.References() && store.StepsKept()
    ensures ClosedKept(old(Now(store)), Now(store), r)
    ensures AnsweredLinks(old(Now(store)), Now(store), user, r, searches(old(store.messages), user))
  {
    var routes := searches(store.messages, user);
    match r
    case Refresh(_) => ServeRefresh(store, user, r, routes);
    case Reopen(_) => ServeReopen(store, user, r, routes);
    case Add(_, _, _) => ServeAdd(store, user, r);
  }

  lemma RefreshedKeepsClosed(routes: Routes, before: Tables, after: Tables, r: Request, open: set<CaseId>,
                             closed: set<CaseId>)
    requires AllRefreshed(routes, after.messages, before.cases, before.links, after.cases, after.links, open, closed)
    requires forall c :: c in open && c in before.cases ==> before.cases[c].status == Open
    requires forall c, m :: (c, m) in before.links ==> m in after.messages
    ensures ClosedKept(before, after, r)
  {
    forall c | c in before.cases && before.cases[c].status == Closed
      ensures c in after.cases && after.cases[c].status == Closed && SameLinks(before.links, after.links, c)
    {
    }
  }

  method ServeRefreshAll(store: CaseStore, user: User, r: Request, searches: Searches)
    requires store.References() && AlwaysSound(searches) && r.RefreshAll?
    modifies store`cases, store`links, store`timeline
    ensures store.References() && store.StepsKept()
    ensures ClosedKept(old(Now(store)), Now(store), r)
    ensures Answered(old(Now(store)), Now(store), user, r, searches(old(store.messages), user))
  {
    var routes := searches(store.messages, user);
    var report := store.RefreshAll(user, routes, r.failing);
    RefreshedKeepsClosed(routes, old(Now(store)), Now(store), r,
                         Editable(old(store.cases), store.shares, user) - r.failing,
                         ClosedIn(old(store.cases), store.shares, user) - r.failing);
  }

  /** What a search finds is indexed, and so is a case that a search finds. */
  predicate Creatable(t: Tables, r: Request)
    requires r.Create?
  {
    && (r.seed.FromConversation? ==> forall m :: m in r.seed.found ==> m in t.messages)
    && (r.existing.Some? ==> r.existing.value in t.cases)
  }

  method ServeCreation(store: CaseStore, user: User, r: Request, searches: Searches)
    requires store.References() && AlwaysSound(searches) && r.Create?
    modifies store`cases, store`links, store`timeline
    ensures store.References() && store.StepsKept()
    ensures ClosedKept(old(Now(store)), Now(store), r)
    ensures AnsweredCreation(old(Now(store)), Now(store), user, r, searches(old(store.messages), user))
  {
    if Creatable(Now(store), r) {
      var routes := searches(store.messages, user);
      var c;
      ghost var rows;
      c, rows := CreateFor(store, user, r, routes);
      OthersKept(c, rows, old(store.links));
      ghost var seeds := SeedsOf(routes, store.messages, r.accessible, user.id, r.seed);
      assert store.links == UpsertAll(old(store.links), c, rows)
             && CreatedIn(old(Now(store)), Now(store), user, r, routes, seeds, c) ==>
               CreatedFor(old(Now(store)), Now(store), user, r, routes, seeds, c);
    }
  }

  method CreateFor(store: CaseStore, user: User, r: Request, routes: Routes)
    returns (c: CaseId, ghost rows: seq<LinkRow>)
    requires store.References() && Sound(routes, store.messages) && r.Create? && Creatable(Now(store), r)
    modifies store`cases, store`links, store`timeline
    ensures store.References() && store.StepsKept()
    ensures var seeds := SeedsOf(routes, store.messages, r.accessible, user.id, r.seed);
      if r.existing.Some? && Reads(old(Now(store)), r.existing.value, user)
         && !Changes(old(Now(store)), r.existing.value, user)
      then unchanged(store)
      else store.links == UpsertAll(old(store.links), c, rows)
           && CreatedIn(old(Now(store)), Now(store), user, r, routes, seeds, c)
    ensures forall d :: d in old(store.cases) && old(store.cases)[d].status == Closed ==>
              d in store.cases && store.cases[d] == old(store.cases)[d] && (d != c || unchanged(store))
  {
    if r.existing.Some? {
      GuardIff(store.cases, store.shares, r.existing.value, user);
    }
    var isNew, untouched;
    ghost var refreshed, seeded, added;
    c, isNew, untouched, refreshed, seeded, added := store.Create(user, r.existing, r.seed, r.accessible, routes);
    rows := refreshed + seeded;
  }

  /** Requests that unlink. */
  method ServeUnlinking(store: CaseStore, user: User, r: Request)
    requires store.References() && (r.Remove? || r.BulkRemove?)
    modifies store`cases, store`links, store`timeline
    ensures store.References() && store.StepsKept()
    ensures ClosedKept(old(Now(store)), Now(store), r)
    ensures forall routes :: AnsweredLinks(old(Now(store)), Now(store), user, r, routes)
  {
    GuardIff(store.cases, store.shares, r.c, user);
    match r
    case Remove(c, m) =>
      var outcome := store.Remove(c, m, user);
    case BulkRemove(c, ids) =>
      var outcome, removed := store.BulkRemove(c, ids, user);
      PairsOf(c, ids);
  }

  lemma {:induction false} PairsOf(c: CaseId, ids: seq<MessageId>)
    ensures Pairs(c, ids) == set m | m in ids :: (c, m)
  {
    if ids != [] {
      var n := |ids| - 1;
      PairsOf(c, ids[..n]);
      assert ids == ids[..n] + [ids[n]];
    }
  }

  /** What the index does, and opening and closing. */
  method ServeIndex(store: CaseStore, r: Request)
    requires store.References()
    requires r.Index? || r.Recover? || r.Backfill? || r.SetStatus?
    modifies store`cases, store`timeline, store`messages, store`attachments
    ensures store.References() && store.StepsKept()
    ensures ClosedKept(old(Now(store)), Now(store), r)
    ensures AnsweredIndex(old(Now(store)), Now(store), r)
  {
    match r
    case Index(m, mailbox) =>
      store.IndexMessage(m, mailbox);
    case Recover(a, m) =>
      if a !in store.attachments && m in store.messages {
        store.RecoverAttachment(a, m);
      }
    case Backfill(m) =>
      store.Backfill(m);
    case SetStatus(c, status) =>
      if c in store.cases {
        store.SetStatus(c, status);
      }
  }

  method ServeDeleteCases(store: CaseStore, user: User, r: Request)
    requires store.References() && r.DeleteCases?
    modifies store
    ensures store.References() && store.StepsKept()
    ensures ClosedKept(old(Now(store)), Now(store), r)
    ensures AnsweredDeletion(old(Now(store)), Now(store), user, r)
  {
    var deleted := MailboxDeletion.DeleteCases(store, r.scope, user);
  }

  lemma MailboxAnswered(before: Tables, after: Tables, user: User, r: Request, mixed: set<CaseId>, ms: set<MessageId>)
    requires r.DeleteMailbox? && LinksLeft(before.links, after.links, before.messages, r.b)
    requires CasesLeft(before.cases, after.cases, Owned(before.links, before.messages, r.b), mixed, ms)
    requires forall m :: m in after.messages <==> m in before.messages && before.messages[m] != Some(r.b)
    requires forall c, m :: (c, m) in before.links ==> c in before.cases && m in before.messages
    ensures ClosedKept(before, after, r) && AnsweredDeletion(before, after, user, r)
  {
    forall c: CaseId
      ensures c in Owned(before.links, before.messages, r.b) <==>
                Holds(before.links, before.messages, r.b, c) && !HoldsOther(before.links, before.messages, r.b, c)
    {
      if Holds(before.links, before.messages, r.b, c) {
        var m :| (c, m) in before.links && m in before.messages && before.messages[m] == Some(r.b);
        assert (c, m).0 == c;
      }
    }
  }

  method ServeDeleteMailbox(store: CaseStore, user: User, r: Request)
    requires store.References() && r.DeleteMailbox?
    modifies store
    ensures store.References() && store.StepsKept()
    ensures ClosedKept(old(Now(store)), Now(store), r)
    ensures AnsweredDeletion(old(Now(store)), Now(store), user, r)
  {
    var counts;
    ghost var announced;
    counts, announced := Delete(store, r.b);
    MailboxAnswered(old(Now(store)), Now(store), user, r, Mixed(old(store.links), old(store.messages), r.b),
                    MessagesIn(old(store.messages), r.b));
  }

  method ServeDeleteMessages(store: CaseStore, user: User, r: Request)
    requires store.References() && r.DeleteMessages?
    modifies store
    ensures store.References() && store.StepsKept()
    ensures ClosedKept(old(Now(store)), Now(store), r)
    ensures AnsweredDeletion(old(Now(store)), Now(store), user, r)
  {
    var deleted := DropMessages(store, r.ms * store.messages.Keys);
    assert old(store.messages) - r.ms == old(store.messages) - r.ms * old(store.messages.Keys);
  }

  method ServeDeleteAttachment(store: CaseStore, user: User, r: Request)
    requires store.References() && r.DeleteAttachment?
    modifies store
    ensures store.References() && store.StepsKept()
    ensures ClosedKept(old(Now(store)), Now(store), r)
    ensures AnsweredDeletion(old(Now(store)), Now(store), user, r)
  {
    var deleted := DropAttachment(store, r.a);
  }

  /** Requests that delete. */
  method ServeDeletion(store: CaseStore, user: User, r: Request)
    requires store.References()
    requires r.DeleteCases? || r.DeleteMessages? || r.DeleteAttachment? || r.DeleteMailbox?
    modifies store
    ensures store.References() && store.StepsKept()
    ensures ClosedKept(old(Now(store)), Now(store), r)
    ensures AnsweredDeletion(old(Now(store)), Now(store), user, r)
  {
    match r
    case DeleteCases(scope) =>
      ServeDeleteCases(store, user, r);
    case DeleteMessages(ms) =>
      ServeDeleteMessages(store, user, r);
    case DeleteAttachment(a) =>
      ServeDeleteAttachment(store, user, r);
    case DeleteMailbox(b) =>
      ServeDeleteMailbox(store, user, r);
  }

  method ServeMerge(store: CaseStore, user: User, r: Request, ghost doubled: set<CaseId>)
    requires store.References() && r.Merge? && SteadyBut(Now(store), doubled)
    modifies store
    ensures store.References()
    ensures ClosedKept(old(Now(store)), Now(store), r)
    ensures SteadyBut(Now(store), DoubledNext(old(Now(store)), Now(store), r, doubled))
    ensures AnsweredMerge(old(Now(store)), Now(store), user, r)
  {
    var outcome, c;
    ghost var access;
    outcome, c, access := CaseMerge.Merge(store, r.sources, user);
    if outcome == Merged {
      SteadyAfterMerge(old(Now(store)), Now(store), r, doubled, c);
    } else {
      SteadyAfter(old(Now(store)), Now(store), r, doubled);
    }
  }

  method Serve(store: CaseStore, user: User, r: Request, searches: Searches, ghost doubled: set<CaseId>)
    requires store.References() && AlwaysSound(searches) && SteadyBut(Now(store), doubled)
    modifies store
    ensures store.References()
    ensures ClosedKept(old(Now(store)), Now(store), r)
    ensures SteadyBut(Now(store), DoubledNext(old(Now(store)), Now(store), r, doubled))
    ensures Answered(old(Now(store)), Now(store), user, r, searches(old(store.messages), user))
  {
    if r.Merge? {
      ServeMerge(store, user, r, doubled);
    } else {
      ServeOther(store, user, r, searches);
      SteadyAfter(old(Now(store)), Now(store), r, doubled);
    }
  }

  method ServeOther(store: CaseStore, user: User, r: Request, searches: Searches)
    requires store.References() && AlwaysSound(searches) && !r.Merge?
    modifies store
    ensures store.References() && store.StepsKept()
    ensures ClosedKept(old(Now(store)), Now(store), r)
    ensures Answered(old(Now(store)), Now(store), user, r, searches(old(store.messages), user))
  {
    if r.Refresh? || r.Add? || r.Reopen? {
      ServeLinking(store, user, r, searches);
    } else if r.Create? {
      ServeCreation(store, user, r, searches);
    } else if r.Remove? || r.BulkRemove? {
      ServeUnlinking(store, user, r);
    } else if r.RefreshAll? {
      ServeRefreshAll(store, user, r, searches);
    } else if r.Index? || r.Recover? || r.Backfill? || r.SetStatus? {
      ServeIndex(store, r);
    } else {
      ServeDeletion(store, user, r);
    }
  }

  // ---- Whole runs ----

  /** The cases that need not be in step after the first n requests. */
  ghost function Doubled(moments: seq<Tables>, requests: seq<(User, Request)>, n: nat): set<CaseId>
    requires n < |moments| && n <= |requests|
  {
    if n == 0 then {}
    else DoubledNext(moments[n - 1], moments[n], requests[n - 1].1, Doubled(moments, requests, n - 1))
  }

  /** Only merging can put a case out of step. */
  lemma {:induction false} NoMergeNoDouble(moments: seq<Tables>, requests: seq<(User, Request)>, n: nat)
    requires n < |moments| && n <= |requests|
    requires forall i :: 0 <= i < n && requests[i].1.Merge? ==>
               !Spreads(moments[i], Doubled(moments, requests, i), AsSet(requests[i].1.sources))
    ensures Doubled(moments, requests, n) == {}
  {
    if n > 0 {
      NoMergeNoDouble(moments, requests, n - 1);
    }
  }

  lemma {:induction false} DoubledAppend(moments: seq<Tables>, t: Tables, requests: seq<(User, Request)>, n: nat)
    requires n < |moments| && n <= |requests|
    ensures Doubled(moments + [t], requests, n) == Doubled(moments, requests, n)
  {
    if n > 0 {
      DoubledAppend(moments, t, requests, n - 1);
    }
  }

  /** These are the moments of a run that has served n requests. */
  ghost predicate History(moments: seq<Tables>, requests: seq<(User, Request)>, searches: Searches, n: nat)
    requires n <= |requests|
  {
    && |moments| == n + 1 && moments[0] == Tables(map[], map[], [], map[], map[], map[], map[], map[])
    && (forall i :: 0 <= i <= n ==> SteadyAt(moments, requests, i))
    && (forall i :: 0 <= i < n ==> Followed(moments, requests, searches, i))
  }

  /** At this moment every case is in step, but for the doubled ones. */
  ghost predicate SteadyAt(moments: seq<Tables>, requests: seq<(User, Request)>, i: int)
    requires 0 <= i < |moments| && i <= |requests|
  {
    SteadyBut(moments[i], Doubled(moments, requests, i))
  }

  /** The next request is answered, and respects closed cases. */
  ghost predicate Followed(moments: seq<Tables>, requests: seq<(User, Request)>, searches: Searches, i: int)
    requires 0 <= i < |moments| - 1 && i < |requests|
  {
    var (user, r) := requests[i];
    && Answered(moments[i], moments[i + 1], user, r, searches(moments[i].messages, user))
    && ClosedKept(moments[i], moments[i + 1], r)
  }

  lemma SteadyNext(moments: seq<Tables>, t: Tables, requests: seq<(User, Request)>, searches: Searches, n: nat, i: nat)
    requires n < |requests| && History(moments, requests, searches, n) && i <= n + 1
    requires SteadyBut(t, DoubledNext(moments[n], t, requests[n].1, Doubled(moments, requests, n)))
    ensures SteadyAt(moments + [t], requests, i)
  {
    if i <= n {
      assert SteadyAt(moments, requests, i);
      DoubledAppend(moments, t, requests, i);
    } else {
      DoubledAppend(moments, t, requests, n);
      assert Doubled(moments + [t], requests, i)
          == DoubledNext(moments[n], t, requests[n].1, Doubled(moments, requests, n));
    }
  }

  lemma HistoryNext(moments: seq<Tables>, t: Tables, requests: seq<(User, Request)>, searches: Searches, n: nat)
    requires n < |requests| && History(moments, requests, searches, n)
    requires Answered(moments[n], t, requests[n].0, requests[n].1, searches(moments[n].messages, requests[n].0))
    requires ClosedKept(moments[n], t, requests[n].1)
    requires SteadyBut(t, DoubledNext(moments[n], t, requests[n].1, Doubled(moments, requests, n)))
    ensures History(moments + [t], requests, searches, n + 1)
  {
    var more := moments + [t];
    forall i: nat | i <= n + 1
      ensures SteadyAt(more, requests, i)
    {
      SteadyNext(moments, t, requests, searches, n, i);
    }
    forall i: nat | i <= n
      ensures Followed(more, requests, searches, i)
    {
      assert i < n ==> Followed(moments, requests, searches, i);
    }
  }

  /** At every moment of every run each request has been answered as it should,
      and: a case that no merge of cases sharing a
      message went into has exactly one "email sent" row for each linked
      message and none for any other, and at most one "document shared" row for
      an attachment; and no request changes a closed case except by opening,
      merging or deleting it or its messages. */
  method Run(requests: seq<(User, Request)>, searches: Searches)
    returns (store: CaseStore, ghost moments: seq<Tables>)
    requires AlwaysSound(searches)
    ensures fresh(store) && store.References()
    ensures History(moments, requests, searches, |requests|) && moments[|requests|] == Now(store)
  {
    store := new CaseStore();
    moments := [Now(store)];
    forall c: CaseId
      ensures Steady(Now(store), c)
    {
      assert store.InStep(c);
    }
    assert SteadyAt(moments, requests, 0);
    for n := 0 to |requests|
      invariant fresh(store) && store.References()
      invariant History(moments, requests, searches, n) && moments[n] == Now(store)
    {
      assert SteadyAt(moments, requests, n);
      Serve(store, requests[n].0, requests[n].1, searches, Doubled(moments, requests, n));
      HistoryNext(moments, Now(store), requests, searches, n);
      moments := moments + [Now(store)];
    }
  }
}
