/** Merging several cases into a new one. */
module CaseMerge {

  import opened Options
  import opened CaseTables
  import opened CaseStore

  // ---- Links: the union of the sources, with the highest confidence ----

  /** v is the highest confidence with which a case in ids links m. */
  ghost predicate BestOver(links: Links, ids: set<CaseId>, m: MessageId, v: real) {
    && (exists c :: c in ids && (c, m) in links && links[(c, m)].confidence == v)
    && (forall c :: c in ids && (c, m) in links ==> links[(c, m)].confidence <= v)
  }

  /** Some case in ids links m with just this confidence and source. */
  ghost predicate FromOne(links: Links, ids: set<CaseId>, m: MessageId, l: Link) {
    exists c :: c in ids && (c, m) in links
                && links[(c, m)].confidence == l.confidence && links[(c, m)].source == l.source
  }

  /** Some case in ids links m in this relationship. */
  ghost predicate RelatedIn(links: Links, ids: set<CaseId>, m: MessageId, r: Relationship) {
    exists c :: c in ids && (c, m) in links && links[(c, m)].relationship == r
  }

  ghost predicate LinkedIn(links: Links, ids: set<CaseId>, m: MessageId) {
    exists c :: c in ids && (c, m) in links
  }

  /** The merged case c links exactly what the sources linked, each message
      with its highest confidence and the way it was found with it, and in a
      relationship that it had; the sources have no links left, and no other
      case is touched. */
  ghost predicate MergedLinks(links: Links, merged: Links, ids: set<CaseId>, c: CaseId) {
    && (forall m :: (c, m) in merged <==> LinkedIn(links, ids, m))
    && (forall m :: (c, m) in merged ==>
          && BestOver(links, ids, m, merged[(c, m)].confidence) && FromOne(links, ids, m, merged[(c, m)])
          && RelatedIn(links, ids, m, merged[(c, m)].relationship))
    && (forall d, m :: d in ids && d != c ==> (d, m) !in merged)
    && (forall d, m :: d !in ids && d != c ==> ((d, m) in merged <==> (d, m) in links))
    && (forall d, m :: d !in ids && d != c && (d, m) in links ==> merged[(d, m)] == links[(d, m)])
  }

  /** Merging in two rounds, with other cases joining in the second, links the
      same messages with the same confidences as merging once. */
  lemma NestedMerge(links: Links, once: Links, first: Links, twice: Links,
                    inner: set<CaseId>, outer: set<CaseId>, x: CaseId, c: CaseId, m: MessageId)
    requires inner !! outer && x !in inner + outer && c !in inner + outer && c != x
    requires forall n :: (x, n) !in links
    requires MergedLinks(links, once, inner + outer, c)
    requires MergedLinks(links, first, inner, x)
    requires MergedLinks(first, twice, outer + {x}, c)
    ensures (c, m) in once <==> (c, m) in twice
    ensures (c, m) in once ==> once[(c, m)].confidence == twice[(c, m)].confidence
  {
  }

  // ---- Timeline: every row moves ----

  function Move(tl: seq<Event>, ids: set<CaseId>, c: CaseId): seq<Event> {
    if tl == [] then []
    else
      var e := tl[|tl| - 1];
      Move(tl[..|tl| - 1], ids, c) + [if e.caseId in ids then e.(caseId := c) else e]
  }

  /** How often the row stands in the timelines of the cases listed in ids. */
  function TimesOver(tl: seq<Event>, ids: seq<CaseId>, e: Event): nat {
    if ids == [] then 0 else TimesOver(tl, ids[..|ids| - 1], e) + Times(tl, e.(caseId := ids[|ids| - 1]))
  }

  function AsSet(ids: seq<CaseId>): set<CaseId> {
    set d | d in ids
  }

  predicate AllDistinct(ids: seq<CaseId>) {
    forall i, j :: 0 <= i < j < |ids| ==> ids[i] != ids[j]
  }

  lemma {:induction false} TimesOverAppend(tl: seq<Event>, ids: seq<CaseId>, x: Event, e: Event)
    requires AllDistinct(ids)
    ensures TimesOver(tl + [x], ids, e)
         == TimesOver(tl, ids, e) + if x.caseId in ids && x == e.(caseId := x.caseId) then 1 else 0
  {
    if ids != [] {
      TimesOverAppend(tl, ids[..|ids| - 1], x, e);
      assert ids == ids[..|ids| - 1] + [ids[|ids| - 1]];
    }
  }

  lemma {:induction false} TimesOverNothing(ids: seq<CaseId>, e: Event)
    ensures TimesOver([], ids, e) == 0
  {
    if ids != [] {
      TimesOverNothing(ids[..|ids| - 1], e);
    }
  }

  /** Every row of the sources arrives in the merged case, and no row is lost
      or invented. */
  lemma {:induction false} MoveTimes(tl: seq<Event>, ids: seq<CaseId>, c: CaseId, e: Event)
    requires AllDistinct(ids) && c !in ids
    ensures Times(Move(tl, AsSet(ids), c), e)
         == if e.caseId == c then Times(tl, e) + TimesOver(tl, ids, e)
            else if e.caseId in ids then 0 else Times(tl, e)
  {
    if tl == [] {
      TimesOverNothing(ids, e);
    } else {
      var init, x := tl[..|tl| - 1], tl[|tl| - 1];
      assert tl == init + [x];
      MoveTimes(init, ids, c, e);
      TimesOverAppend(init, ids, x, e);
    }
  }

  /** In how many of the listed cases the message is linked. */
  function LinkCount(links: Links, ids: seq<CaseId>, m: MessageId): nat {
    if ids == [] then 0
    else LinkCount(links, ids[..|ids| - 1], m) + if (ids[|ids| - 1], m) in links then 1 else 0
  }

  predicate SharedMessage(links: Links, ids: seq<CaseId>, i: int, j: int, m: MessageId) {
    0 <= i < j < |ids| && (ids[i], m) in links && (ids[j], m) in links
  }

  lemma {:induction false} LinkCountBounds(links: Links, ids: seq<CaseId>, m: MessageId)
    ensures LinkCount(links, ids, m) > 0 <==> exists i :: 0 <= i < |ids| && (ids[i], m) in links
    ensures LinkCount(links, ids, m) > 1 <==> exists i, j :: SharedMessage(links, ids, i, j, m)
  {
    if ids != [] {
      var init, n := ids[..|ids| - 1], |ids| - 1;
      LinkCountBounds(links, init, m);
      assert forall i :: 0 <= i < n ==> init[i] == ids[i];
      if i, j :| SharedMessage(links, init, i, j, m) {
        assert SharedMessage(links, ids, i, j, m);
      }
      if LinkCount(links, init, m) > 0 && (ids[n], m) in links {
        var i :| 0 <= i < |init| && (init[i], m) in links;
        assert SharedMessage(links, ids, i, n, m);
      }
      if i, j :| SharedMessage(links, ids, i, j, m) {
        if j < n {
          assert SharedMessage(links, init, i, j, m);
        }
      }
      if i :| 0 <= i < |ids| && (ids[i], m) in links {
        if i < n {
          assert init[i] == ids[i];
        }
      }
    }
  }

  /** If every listed case is in step, their rows add up to their links. */
  lemma {:induction false} RowsOver(links: Links, tl: seq<Event>, attachments: Attachments, ids: seq<CaseId>, c: CaseId,
                                    m: MessageId)
    requires forall i :: 0 <= i < |ids| ==> Kept(links, tl, attachments, ids[i])
    ensures TimesOver(tl, ids, Email(c, m)) == LinkCount(links, ids, m)
    ensures forall a :: a in attachments && attachments[a] == m ==>
              TimesOver(tl, ids, Document(c, m, a)) <= LinkCount(links, ids, m)
  {
    if ids != [] {
      RowsOver(links, tl, attachments, ids[..|ids| - 1], c, m);
      assert Kept(links, tl, attachments, ids[|ids| - 1]);
    }
  }

  /** And none of their rows names a message that none of them links. */
  lemma {:induction false} RowsOverLinked(links: Links, tl: seq<Event>, attachments: Attachments, ids: seq<CaseId>,
                                          e: Event)
    requires forall i :: 0 <= i < |ids| ==> Kept(links, tl, attachments, ids[i])
    requires e.message.Some? && TimesOver(tl, ids, e) > 0
    ensures LinkCount(links, ids, e.message.value) > 0
  {
    var n := |ids| - 1;
    if Times(tl, e.(caseId := ids[n])) > 0 {
      assert Kept(links, tl, attachments, ids[n]);
    } else {
      RowsOverLinked(links, tl, attachments, ids[..n], e);
    }
  }

  /** Two of the cases link the same message. */
  ghost predicate ShareMessage(links: Links, ids: set<CaseId>) {
    exists d, e, m :: d in ids && e in ids && d != e && (d, m) in links && (e, m) in links
  }

  lemma SharedInSet(links: Links, ids: seq<CaseId>)
    requires AllDistinct(ids)
    ensures ShareMessage(links, AsSet(ids)) <==> exists i, j, m :: SharedMessage(links, ids, i, j, m)
  {
    if d, e, m :| d in AsSet(ids) && e in AsSet(ids) && d != e && (d, m) in links && (e, m) in links {
      var i, j :| 0 <= i < |ids| && ids[i] == d && 0 <= j < |ids| && ids[j] == e;
      assert SharedMessage(links, ids, if i < j then i else j, if i < j then j else i, m);
    }
    if i, j, m :| SharedMessage(links, ids, i, j, m) {
      assert ids[i] in AsSet(ids) && ids[j] in AsSet(ids) && ids[i] != ids[j];
    }
  }

  /** Merging cases that are in step: the merged case has as many "email sent"
      rows for a message as there were sources that linked it, so it is in step
      exactly when no message was linked in two of them. */
  lemma MergedInStepIff(links: Links, merged: Links, tl: seq<Event>, attachments: Attachments, ids: seq<CaseId>,
                        c: CaseId)
    requires AllDistinct(ids) && c !in ids && forall i :: 0 <= i < |ids| ==> Kept(links, tl, attachments, ids[i])
    requires MergedLinks(links, merged, AsSet(ids), c) && forall e :: e in tl ==> e.caseId != c
    ensures var moved := Move(tl, AsSet(ids), c);
      && (forall m :: Times(moved, Email(c, m)) == LinkCount(links, ids, m))
      && (Kept(merged, moved, attachments, c) <==> !ShareMessage(links, AsSet(ids)))
  {
    var moved := Move(tl, AsSet(ids), c);
    forall m
      ensures Times(moved, Email(c, m)) == LinkCount(links, ids, m)
      ensures LinkCount(links, ids, m) > 0 <==> (c, m) in merged
      ensures LinkCount(links, ids, m) > 1 <==> exists i, j :: SharedMessage(links, ids, i, j, m)
    {
      MergedEmails(links, merged, tl, attachments, ids, c, m);
    }
    SharedInSet(links, ids);
    if i, j, m :| SharedMessage(links, ids, i, j, m) {
      assert Times(moved, Email(c, m)) > 1;
    } else {
      forall m
        ensures LinkCount(links, ids, m) <= 1
      {
        assert !exists i, j :: SharedMessage(links, ids, i, j, m);
      }
      MergedKept(links, merged, tl, attachments, ids, c);
    }
  }

  lemma MergedEmails(links: Links, merged: Links, tl: seq<Event>, attachments: Attachments, ids: seq<CaseId>,
                     c: CaseId, m: MessageId)
    requires AllDistinct(ids) && c !in ids && forall i :: 0 <= i < |ids| ==> Kept(links, tl, attachments, ids[i])
    requires MergedLinks(links, merged, AsSet(ids), c) && forall e :: e in tl ==> e.caseId != c
    ensures Times(Move(tl, AsSet(ids), c), Email(c, m)) == LinkCount(links, ids, m)
    ensures LinkCount(links, ids, m) > 0 <==> (c, m) in merged
    ensures LinkCount(links, ids, m) > 1 <==> exists i, j :: SharedMessage(links, ids, i, j, m)
  {
    MoveTimes(tl, ids, c, Email(c, m));
    RowsOver(links, tl, attachments, ids, c, m);
    LinkCountBounds(links, ids, m);
  }

  lemma MergedKept(links: Links, merged: Links, tl: seq<Event>, attachments: Attachments, ids: seq<CaseId>, c: CaseId)
    requires AllDistinct(ids) && c !in ids && forall i :: 0 <= i < |ids| ==> Kept(links, tl, attachments, ids[i])
    requires MergedLinks(links, merged, AsSet(ids), c) && forall e :: e in tl ==> e.caseId != c
    requires forall m :: LinkCount(links, ids, m) <= 1
    ensures Kept(merged, Move(tl, AsSet(ids), c), attachments, c)
  {
    var moved := Move(tl, AsSet(ids), c);
    forall m
      ensures Times(moved, Email(c, m)) == if (c, m) in merged then 1 else 0
      ensures LinkCount(links, ids, m) > 0 <==> (c, m) in merged
    {
      MergedEmails(links, merged, tl, attachments, ids, c, m);
    }
    forall a | a in attachments
      ensures Times(moved, Document(c, attachments[a], a)) <= 1
    {
      MoveTimes(tl, ids, c, Document(c, attachments[a], a));
      RowsOver(links, tl, attachments, ids, c, attachments[a]);
    }
    forall e | Times(moved, e) > 0 && e.caseId == c && e.message.Some?
      ensures (c, e.message.value) in merged
    {
      MoveTimes(tl, ids, c, e);
      RowsOverLinked(links, tl, attachments, ids, e);
    }
  }

  /** Every other case that was in step stays so; a merged source has neither
      links nor rows left. */
  lemma OthersInStep(links: Links, merged: Links, tl: seq<Event>, attachments: Attachments, ids: seq<CaseId>, c: CaseId,
                     d: CaseId)
    requires AllDistinct(ids) && c !in ids && MergedLinks(links, merged, AsSet(ids), c)
    requires d != c && Kept(links, tl, attachments, d)
    ensures Kept(merged, Move(tl, AsSet(ids), c), attachments, d)
  {
    forall e: Event | e.caseId == d
      ensures Times(Move(tl, AsSet(ids), c), e) == if d in ids then 0 else Times(tl, e)
    {
      MoveTimes(tl, ids, c, e);
    }
  }

  /** The row that announces the merge names no message. */
  lemma AnnouncedInStep(links: Links, tl: seq<Event>, attachments: Attachments, c: CaseId, d: CaseId)
    ensures Kept(links, tl + [Event(c, CaseMerged, None, None)], attachments, d) <==> Kept(links, tl, attachments, d)
  {
    var announced := tl + [Event(c, CaseMerged, None, None)];
    forall e: Event | e.message.Some?
      ensures Times(announced, e) == Times(tl, e)
    {
    }
    assert forall m :: Times(announced, Email(d, m)) == Times(tl, Email(d, m));
    assert forall a :: a in attachments ==>
      Times(announced, Document(d, attachments[a], a)) == Times(tl, Document(d, attachments[a], a));
  }

  /** Cases that were in step stay so, and if all sources were, the merged case
      c is in step exactly when no two of them linked the same message. */
  ghost predicate StepsMerged(links: Links, merged: Links, tl: seq<Event>, after: seq<Event>, attachments: Attachments,
                              ids: set<CaseId>, c: CaseId)
  {
    && (forall d: CaseId :: d != c && Kept(links, tl, attachments, d) ==> Kept(merged, after, attachments, d))
    && ((forall d :: d in ids ==> Kept(links, tl, attachments, d)) ==>
          (Kept(merged, after, attachments, c) <==> !ShareMessage(links, ids)))
  }

  lemma MergedSteps(links: Links, merged: Links, tl: seq<Event>, after: seq<Event>, attachments: Attachments,
                    ids: seq<CaseId>, c: CaseId)
    requires AllDistinct(ids) && c !in ids && MergedLinks(links, merged, AsSet(ids), c)
    requires forall e :: e in tl ==> e.caseId != c
    requires after == Move(tl, AsSet(ids), c) + [Event(c, CaseMerged, None, None)]
    ensures StepsMerged(links, merged, tl, after, attachments, AsSet(ids), c)
  {
    forall d: CaseId
      ensures Kept(merged, after, attachments, d) <==> Kept(merged, Move(tl, AsSet(ids), c), attachments, d)
      ensures d != c && Kept(links, tl, attachments, d) ==> Kept(merged, after, attachments, d)
    {
      AnnouncedInStep(merged, Move(tl, AsSet(ids), c), attachments, c, d);
      if d != c && Kept(links, tl, attachments, d) {
        OthersInStep(links, merged, tl, attachments, ids, c, d);
      }
    }
    if forall d :: d in AsSet(ids) ==> Kept(links, tl, attachments, d) {
      assert forall i :: 0 <= i < |ids| ==> ids[i] in AsSet(ids);
      MergedInStepIff(links, merged, tl, attachments, ids, c);
    }
  }

  // ---- Access: shares of the sources, and their owners ----

  datatype ShareRow = ShareRow(user: UserId, permission: Permission)

  /** Share rows one after another; the last one of a user stays. */
  function Collect(rows: seq<ShareRow>): map<UserId, Permission> {
    if rows == [] then map[]
    else
      var last := rows[|rows| - 1];
      Collect(rows[..|rows| - 1])[last.user := last.permission]
  }

  lemma {:induction false} CollectHas(rows: seq<ShareRow>, u: UserId)
    ensures u in Collect(rows) <==> exists i :: 0 <= i < |rows| && rows[i].user == u
    ensures u in Collect(rows) ==> ShareRow(u, Collect(rows)[u]) in rows
  {
    if rows != [] {
      CollectHas(rows[..|rows| - 1], u);
      assert rows == rows[..|rows| - 1] + [rows[|rows| - 1]];
      if i :| 0 <= i < |rows| && rows[i].user == u {
        assert i < |rows| - 1 ==> rows[..|rows| - 1][i].user == u;
      }
    }
  }

  predicate Reordered(order: seq<ShareRow>, rows: seq<ShareRow>) {
    multiset(order) == multiset(rows)
  }

  /** A user who was shared some sources keeps "edit" whatever the order of the
      rows exactly when none of those shares is only "read". */
  lemma EditSurvivesEveryOrder(rows: seq<ShareRow>, u: UserId)
    requires exists i :: 0 <= i < |rows| && rows[i].user == u
    ensures (forall order :: Reordered(order, rows) ==> u in Collect(order) && Collect(order)[u] == Edit)
       <==> ShareRow(u, Read) !in rows
  {
    if ShareRow(u, Read) in rows {
      var i :| 0 <= i < |rows| && rows[i] == ShareRow(u, Read);
      var order := rows[..i] + rows[i + 1..] + [rows[i]];
      assert rows == rows[..i] + [rows[i]] + rows[i + 1..];
      assert Reordered(order, rows);
      assert Collect(order)[u] == Read;
    } else {
      forall order | Reordered(order, rows)
        ensures u in Collect(order) && Collect(order)[u] == Edit
      {
        EditInOrder(rows, order, u);
      }
    }
  }

  lemma EditInOrder(rows: seq<ShareRow>, order: seq<ShareRow>, u: UserId)
    requires exists i :: 0 <= i < |rows| && rows[i].user == u
    requires Reordered(order, rows) && ShareRow(u, Read) !in rows
    ensures u in Collect(order) && Collect(order)[u] == Edit
  {
    var i :| 0 <= i < |rows| && rows[i].user == u;
    assert rows[i] in multiset(order);
    var j :| 0 <= j < |order| && order[j] == rows[i];
    CollectHas(order, u);
    assert ShareRow(u, Collect(order)[u]) in multiset(rows);
  }

  /** Everybody who owned or was shared a source can at least read the merged
      case, owners can edit it, and nobody else gets in. */
  ghost predicate MergedAccess(cases: map<CaseId, CaseRow>, shares: map<(CaseId, UserId), Permission>, ids: set<CaseId>,
                               owner: UserId, access: map<UserId, Permission>)
  {
    && owner !in access
    && (forall u :: u in access <==> u != owner && (SharedIn(shares, ids, u) || OwnsOne(cases, ids, u)))
    && (forall u :: u in access && OwnsOne(cases, ids, u) ==> access[u] == Edit)
    && (forall u :: u in access && !OwnsOne(cases, ids, u) ==>
          exists c :: c in ids && (c, u) in shares && shares[(c, u)] == access[u])
  }

  ghost predicate SharedIn(shares: map<(CaseId, UserId), Permission>, ids: set<CaseId>, u: UserId) {
    exists c :: c in ids && (c, u) in shares
  }

  ghost predicate OwnsOne(cases: map<CaseId, CaseRow>, ids: set<CaseId>, u: UserId) {
    exists c :: c in ids && c in cases && cases[c].owner == Some(u)
  }

  /** Rows of one table, in whatever order the database returns them. */
  method InSomeOrder<K(==)>(keys: set<K>) returns (rows: seq<K>)
    ensures multiset(rows) == multiset(keys)
    ensures forall i :: 0 <= i < |rows| ==> rows[i] in keys
    ensures forall k :: k in keys ==> k in rows
  {
    rows := [];
    var todo := keys;
    while todo != {}
      invariant todo <= keys && multiset(rows) == multiset(keys - todo)
      decreases todo
    {
      var k :| k in todo;
      assert keys - (todo - {k}) == keys - todo + {k};
      rows, todo := rows + [k], todo - {k};
    }
    assert keys - todo == keys;
    forall i | 0 <= i < |rows|
      ensures rows[i] in keys
    {
      assert rows[i] in multiset(rows);
    }
    forall k | k in keys
      ensures k in rows
    {
      assert k in multiset(rows);
    }
  }

  /** The shares of the sources, one row after another. */
  method CollectShares(shares: map<(CaseId, UserId), Permission>, ids: set<CaseId>)
    returns (access: map<UserId, Permission>)
    ensures forall u :: u in access <==> SharedIn(shares, ids, u)
    ensures forall u :: u in access ==> exists c :: c in ids && (c, u) in shares && shares[(c, u)] == access[u]
  {
    var keys := InSomeOrder(set k | k in shares && k.0 in ids);
    ghost var rows := seq(|keys|, i requires 0 <= i < |keys| && keys[i] in shares =>
                                    ShareRow(keys[i].1, shares[keys[i]]));
    access := map[];
    for i := 0 to |keys|
      invariant access == Collect(rows[..i])
    {
      assert rows[..i + 1][..i] == rows[..i];
      access := access[keys[i].1 := shares[keys[i]]];
    }
    assert rows[..|keys|] == rows;
    forall u: UserId
      ensures u in access <==> SharedIn(shares, ids, u)
      ensures u in access ==> exists c :: c in ids && (c, u) in shares && shares[(c, u)] == access[u]
    {
      CollectHas(rows, u);
      if SharedIn(shares, ids, u) {
        var c :| c in ids && (c, u) in shares;
        assert (c, u) in keys;
        var i :| 0 <= i < |keys| && keys[i] == (c, u);
        assert rows[i].user == u;
      }
      if u in access {
        var i :| 0 <= i < |rows| && rows[i] == ShareRow(u, access[u]);
        assert keys[i] == (keys[i].0, u);
      }
    }
  }

  /** Owners get "edit", whatever they had. */
  method AddOwners(shared: map<UserId, Permission>, owners: set<UserId>) returns (access: map<UserId, Permission>)
    ensures access.Keys == shared.Keys + owners
    ensures forall u :: u in access ==> access[u] == if u in owners then Edit else shared[u]
  {
    access := shared;
    var todo := owners;
    while todo != {}
      invariant todo <= owners
      invariant access.Keys == shared.Keys + (owners - todo)
      invariant forall u :: u in access ==> access[u] == if u in owners - todo then Edit else shared[u]
      decreases todo
    {
      var u :| u in todo;
      access := access[u := Edit];
      todo := todo - {u};
    }
  }

  method MergeAccess(store: CaseStore, ids: set<CaseId>, owner: UserId) returns (access: map<UserId, Permission>)
    requires ids <= store.cases.Keys
    ensures MergedAccess(store.cases, store.shares, ids, owner, access)
  {
    var shared := CollectShares(store.shares, ids);
    var owners := set c | c in ids && store.cases[c].owner.Some? && store.cases[c].owner.value != owner
                          :: store.cases[c].owner.value;
    access := AddOwners(shared, owners);
    access := access - {owner};
    forall u: UserId | u != owner
      ensures u in owners <==> OwnsOne(store.cases, ids, u)
    {
      if OwnsOne(store.cases, ids, u) {
        var c :| c in ids && c in store.cases && store.cases[c].owner == Some(u);
      }
    }
  }

  // ---- The whole operation ----

  datatype MergeOutcome = Merged | NeedsTwoCases | NoAccess

  method Unique(requested: seq<CaseId>) returns (ids: seq<CaseId>)
    ensures AllDistinct(ids) && AsSet(ids) == AsSet(requested)
  {
    ids := [];
    for i := 0 to |requested|
      invariant AllDistinct(ids) && forall d :: d in ids <==> d in requested[..i]
    {
      ghost var before := ids;
      if requested[i] !in ids {
        ids := ids + [requested[i]];
      }
      forall d: CaseId
        ensures d in ids <==> d in before || d == requested[i]
        ensures d in requested[..i + 1] <==> d in requested[..i] || d == requested[i]
      {
      }
    }
    assert requested[..|requested|] == requested;
  }

  /** The link rows of the sources, in whatever order, and what inserting them
      into the new case and deleting the sources leaves. */
  lemma InsertedIsMerged(links: Links, keys: seq<(CaseId, MessageId)>, rows: seq<LinkRow>, ids: set<CaseId>, c: CaseId)
    requires c !in ids && forall m :: (c, m) !in links
    requires forall k :: k in keys <==> k in links && k.0 in ids
    requires |rows| == |keys| && forall i :: 0 <= i < |keys| ==> rows[i] == LinkRow(keys[i].1, links[keys[i]])
    ensures MergedLinks(links, Survivors(UpsertAll(links, c, rows), ids), ids, c)
  {
    var all := UpsertAll(links, c, rows);
    forall m: MessageId
      ensures (c, m) in all <==> LinkedIn(links, ids, m)
      ensures (c, m) in all ==> BestOver(links, ids, m, all[(c, m)].confidence) && FromOne(links, ids, m, all[(c, m)])
      ensures (c, m) in all ==> RelatedIn(links, ids, m, all[(c, m)].relationship)
    {
      UpsertAllWins(links, c, rows, m);
      assert Given(links, c, rows, m) == rows;
      InsertedHas(links, keys, rows, ids, m);
      if (c, m) in all {
        var l := all[(c, m)];
        var i :| FirstMention(rows, m, i) && rows[i].link.relationship == l.relationship;
        var k :| FirstBest(rows, m, k) && rows[k].link.confidence == l.confidence && rows[k].link.source == l.source;
        InsertedBest(links, keys, rows, ids, m, i, k);
      }
    }
    forall d: CaseId, m | d != c
      ensures (d, m) in all <==> (d, m) in links
      ensures (d, m) in links ==> all[(d, m)] == links[(d, m)]
    {
      UpsertAllFrame(links, c, rows, d, m);
    }
  }

  /** Deleting cases takes their rows with it. */
  function Survivors(links: Links, ids: set<CaseId>): Links {
    map k | k in links && k.0 !in ids :: links[k]
  }

  lemma InsertedHas(links: Links, keys: seq<(CaseId, MessageId)>, rows: seq<LinkRow>, ids: set<CaseId>, m: MessageId)
    requires forall k :: k in keys <==> k in links && k.0 in ids
    requires |rows| == |keys| && forall i :: 0 <= i < |keys| ==> rows[i] == LinkRow(keys[i].1, links[keys[i]])
    ensures Mentions(rows, m) <==> LinkedIn(links, ids, m)
  {
  }

  lemma InsertedBest(links: Links, keys: seq<(CaseId, MessageId)>, rows: seq<LinkRow>, ids: set<CaseId>, m: MessageId,
                     i: int, k: int)
    requires forall k :: k in keys <==> k in links && k.0 in ids
    requires |rows| == |keys| && forall i :: 0 <= i < |keys| ==> rows[i] == LinkRow(keys[i].1, links[keys[i]])
    requires FirstMention(rows, m, i) && FirstBest(rows, m, k)
    ensures RelatedIn(links, ids, m, rows[i].link.relationship)
    ensures BestOver(links, ids, m, rows[k].link.confidence) && FromOne(links, ids, m, rows[k].link)
  {
    assert keys[i] == (keys[i].0, m) && keys[k] == (keys[k].0, m);
  }

  method InsertLinks(store: CaseStore, ids: set<CaseId>, c: CaseId)
    requires c !in ids && forall m :: (c, m) !in store.links
    modifies store`links
    ensures MergedLinks(old(store.links), Survivors(store.links, ids), ids, c)
  {
    var keys := InSomeOrder(set k | k in store.links && k.0 in ids);
    ghost var links0 := store.links;
    ghost var rows := seq(|keys|, i requires 0 <= i < |keys| && keys[i] in links0 =>
                                    LinkRow(keys[i].1, links0[keys[i]]));
    for i := 0 to |keys|
      invariant store.links == UpsertAll(links0, c, rows[..i])
    {
      assert rows[..i + 1][..i] == rows[..i];
      assert keys[i].0 != c;
      UpsertAllFrame(links0, c, rows[..i], keys[i].0, keys[i].1);
      store.links := Upsert(store.links, c, keys[i].1, store.links[keys[i]]);
    }
    assert rows[..|keys|] == rows;
    InsertedIsMerged(links0, keys, rows, ids, c);
  }

  method MoveTimeline(store: CaseStore, ids: set<CaseId>, c: CaseId)
    modifies store`timeline
    ensures store.timeline == Move(old(store.timeline), ids, c)
  {
    ghost var before := store.timeline;
    var moved := [];
    for i := 0 to |store.timeline|
      invariant moved == Move(before[..i], ids, c)
    {
      var e := store.timeline[i];
      assert before[..i + 1][..i] == before[..i];
      moved := moved + [if e.caseId in ids then e.(caseId := c) else e];
    }
    assert before[..|before|] == before;
    store.timeline := moved;
  }

  /** A note or an evidence row of a source now hangs on the merged case. */
  ghost predicate Rehung(before: map<nat, CaseId>, after: map<nat, CaseId>, ids: set<CaseId>, c: CaseId) {
    && after.Keys == before.Keys
    && forall n :: n in before ==> after[n] == if before[n] in ids then c else before[n]
  }

  /** The shares of the merged case are the access map; other cases keep
      theirs and the sources have none. */
  ghost predicate Reshared(before: map<(CaseId, UserId), Permission>, after: map<(CaseId, UserId), Permission>,
                           ids: set<CaseId>, c: CaseId, access: map<UserId, Permission>)
  {
    && (forall u :: (c, u) in after <==> u in access)
    && (forall u :: u in access ==> after[(c, u)] == access[u])
    && (forall d, u :: d != c ==> ((d, u) in after <==> d !in ids && (d, u) in before))
    && (forall d, u :: d != c && (d, u) in after ==> after[(d, u)] == before[(d, u)])
  }

  method Reshare(store: CaseStore, ids: set<CaseId>, c: CaseId, access: map<UserId, Permission>)
    requires c !in ids && forall u :: (c, u) !in store.shares
    modifies store`shares
    ensures Reshared(old(store.shares), store.shares, ids, c, access)
  {
    var before := store.shares;
    var todo := access.Keys;
    while todo != {}
      invariant todo <= access.Keys
      invariant forall u :: (c, u) in store.shares <==> u in access && u !in todo
      invariant forall u :: u in access && u !in todo ==> store.shares[(c, u)] == access[u]
      invariant forall d, u :: d != c ==> ((d, u) in store.shares <==> (d, u) in before)
      invariant forall d, u :: d != c && (d, u) in before ==> store.shares[(d, u)] == before[(d, u)]
      decreases todo
    {
      var u :| u in todo;
      store.shares := store.shares[(c, u) := access[u]];
      todo := todo - {u};
    }
    store.shares := map k | k in store.shares && k.0 !in ids :: store.shares[k];
  }

  /** Merges the listed cases into a new open case of the user, or refuses.
      Whether a source is closed does not matter.  Rows are moved as they are:
      from sources that are in step comes a case that is in step exactly when
      no two of them linked the same message. */
  method Merge(store: CaseStore, requested: seq<CaseId>, user: User)
    returns (outcome: MergeOutcome, c: CaseId, ghost access: map<UserId, Permission>)
    requires store.References()
    modifies store`cases, store`links, store`timeline, store`shares, store`notes, store`evidence
    ensures store.References()
    ensures outcome == if |AsSet(requested)| < 2 then NeedsTwoCases
                       else if forall d :: d in requested ==> old(store.CanEdit(d, user)) then Merged else NoAccess
    ensures outcome != Merged ==> unchanged(store)
    ensures outcome == Merged ==>
              StepsMerged(old(store.links), store.links, old(store.timeline), store.timeline, store.attachments,
                          AsSet(requested), c)
    ensures outcome == Merged ==>
              && c !in old(store.cases)
              && store.cases == (old(store.cases) - AsSet(requested))
                                [c := CaseRow(Open, None, None, Some(user.id), true, 0)]
              && MergedLinks(old(store.links), store.links, AsSet(requested), c)
              && store.timeline == Move(old(store.timeline), AsSet(requested), c) + [Event(c, CaseMerged, None, None)]
              && Rehung(old(store.notes), store.notes, AsSet(requested), c)
              && Rehung(old(store.evidence), store.evidence, AsSet(requested), c)
              && MergedAccess(old(store.cases), old(store.shares), AsSet(requested), user.id, access)
              && Reshared(old(store.shares), store.shares, AsSet(requested), c, access)
  {
    access := map[];
    var unique := Unique(requested);
    UniqueSize(unique);
    if |unique| < 2 {
      return NeedsTwoCases, 0, map[];
    }
    for i := 0 to |unique|
      invariant forall j :: 0 <= j < i ==> store.CanEdit(unique[j], user)
    {
      if !store.CanEdit(unique[i], user) {
        assert unique[i] in AsSet(requested);
        return NoAccess, 0, map[];
      }
    }
    forall d | d in requested
      ensures store.CanEdit(d, user)
    {
      assert d in AsSet(unique);
    }
    c, access := MergeRows(store, unique, user);
    outcome := Merged;
  }

  lemma {:induction false} UniqueSize(ids: seq<CaseId>)
    requires AllDistinct(ids)
    ensures |AsSet(ids)| == |ids|
  {
    if ids != [] {
      var n := |ids| - 1;
      UniqueSize(ids[..n]);
      assert AsSet(ids) == AsSet(ids[..n]) + {ids[n]};
    }
  }

  /** The transaction: everything moves to a new case, then the sources go. */
  method MergeRows(store: CaseStore, unique: seq<CaseId>, user: User)
    returns (c: CaseId, access: map<UserId, Permission>)
    requires store.References() && AllDistinct(unique) && forall d :: d in unique ==> d in store.cases
    modifies store`cases, store`links, store`timeline, store`shares, store`notes, store`evidence
    ensures store.References()
    ensures c !in old(store.cases)
    ensures store.cases == (old(store.cases) - AsSet(unique))[c := CaseRow(Open, None, None, Some(user.id), true, 0)]
    ensures MergedLinks(old(store.links), store.links, AsSet(unique), c)
    ensures StepsMerged(old(store.links), store.links, old(store.timeline), store.timeline, store.attachments,
                        AsSet(unique), c)
    ensures store.timeline == Move(old(store.timeline), AsSet(unique), c) + [Event(c, CaseMerged, None, None)]
    ensures Rehung(old(store.notes), store.notes, AsSet(unique), c)
    ensures Rehung(old(store.evidence), store.evidence, AsSet(unique), c)
    ensures MergedAccess(old(store.cases), old(store.shares), AsSet(unique), user.id, access)
    ensures Reshared(old(store.shares), store.shares, AsSet(unique), c, access)
  {
    c := store.FreshCase();
    access := MergeAccess(store, AsSet(unique), user.id);
    MoveRows(store, unique, user, c, access);
  }

  method MoveRows(store: CaseStore, unique: seq<CaseId>, user: User, c: CaseId, access: map<UserId, Permission>)
    requires store.References() && c !in store.cases
    requires AllDistinct(unique) && forall d :: d in unique ==> d in store.cases
    modifies store`cases, store`links, store`timeline, store`shares, store`notes, store`evidence
    ensures store.References()
    ensures store.cases == (old(store.cases) - AsSet(unique))[c := CaseRow(Open, None, None, Some(user.id), true, 0)]
    ensures MergedLinks(old(store.links), store.links, AsSet(unique), c)
    ensures store.timeline == Move(old(store.timeline), AsSet(unique), c) + [Event(c, CaseMerged, None, None)]
    ensures StepsMerged(old(store.links), store.links, old(store.timeline), store.timeline, store.attachments,
                        AsSet(unique), c)
    ensures Rehung(old(store.notes), store.notes, AsSet(unique), c)
    ensures Rehung(old(store.evidence), store.evidence, AsSet(unique), c)
    ensures Reshared(old(store.shares), store.shares, AsSet(unique), c, access)
  {
    MoveLinked(store, unique, c);
    MoveHanging(store, AsSet(unique), c, access);
    ReplaceSources(store, AsSet(unique), c, user);
  }

  /** The sources go, and the new case takes their place. */
  method ReplaceSources(store: CaseStore, ids: set<CaseId>, c: CaseId, user: User)
    requires var cases := store.cases.Keys - ids + {c};
      && (forall d, m :: (d, m) in store.links ==> d in cases && m in store.messages)
      && (forall a :: a in store.attachments ==> store.attachments[a] in store.messages)
      && (forall e :: e in store.timeline ==> e.caseId in cases)
      && (forall d, u :: (d, u) in store.shares ==> d in cases)
      && (forall n :: n in store.notes ==> store.notes[n] in cases)
      && (forall n :: n in store.evidence ==> store.evidence[n] in cases)
      && Shaped(store.timeline, store.attachments)
    modifies store`cases
    ensures store.References()
    ensures store.cases == (old(store.cases) - ids)[c := CaseRow(Open, None, None, Some(user.id), true, 0)]
  {
    store.cases := (store.cases - ids)[c := CaseRow(Open, None, None, Some(user.id), true, 0)];
    assert store.cases.Keys == old(store.cases.Keys) - ids + {c};
  }

  /** The links and the timeline of the sources. */
  method MoveLinked(store: CaseStore, unique: seq<CaseId>, c: CaseId)
    requires store.References() && c !in store.cases
    requires AllDistinct(unique) && forall d :: d in unique ==> d in store.cases
    modifies store`links, store`timeline
    ensures MergedLinks(old(store.links), store.links, AsSet(unique), c)
    ensures store.timeline == Move(old(store.timeline), AsSet(unique), c) + [Event(c, CaseMerged, None, None)]
    ensures StepsMerged(old(store.links), store.links, old(store.timeline), store.timeline, store.attachments,
                        AsSet(unique), c)
    ensures var cases := store.cases.Keys - AsSet(unique) + {c};
      && (forall d, m :: (d, m) in store.links ==> d in cases && m in store.messages)
      && Shaped(store.timeline, store.attachments) && forall e :: e in store.timeline ==> e.caseId in cases
  {
    var ids := AsSet(unique);
    InsertLinks(store, ids, c);
    MoveTimeline(store, ids, c);
    store.links := Survivors(store.links, ids);
    store.timeline := store.timeline + [Event(c, CaseMerged, None, None)];
    MergedSteps(old(store.links), store.links, old(store.timeline), store.timeline, store.attachments, unique, c);
    MergedReferences(store.cases.Keys, old(store.links), store.links, store.messages.Keys, ids, c);
    MovedReferences(old(store.timeline), store.attachments, store.cases.Keys, ids, c);
  }

  /** Their notes, evidence and shares. */
  method MoveHanging(store: CaseStore, ids: set<CaseId>, c: CaseId, access: map<UserId, Permission>)
    requires c !in store.cases && ids <= store.cases.Keys
    requires forall d, u :: (d, u) in store.shares ==> d in store.cases
    requires forall n :: n in store.notes ==> store.notes[n] in store.cases
    requires forall n :: n in store.evidence ==> store.evidence[n] in store.cases
    modifies store`shares, store`notes, store`evidence
    ensures Rehung(old(store.notes), store.notes, ids, c) && Rehung(old(store.evidence), store.evidence, ids, c)
    ensures Reshared(old(store.shares), store.shares, ids, c, access)
    ensures var cases := store.cases.Keys - ids + {c};
      && (forall d, u :: (d, u) in store.shares ==> d in cases)
      && (forall n :: n in store.notes ==> store.notes[n] in cases)
      && (forall n :: n in store.evidence ==> store.evidence[n] in cases)
  {
    store.notes := Rehang(store.notes, ids, c);
    store.evidence := Rehang(store.evidence, ids, c);
    Reshare(store, ids, c, access);
    HangingReferences(store.cases.Keys, old(store.notes), store.notes, ids, c);
    HangingReferences(store.cases.Keys, old(store.evidence), store.evidence, ids, c);
    SharesReferences(store.cases.Keys, old(store.shares), store.shares, ids, c, access);
  }

  method Rehang(rows: map<nat, CaseId>, ids: set<CaseId>, c: CaseId) returns (after: map<nat, CaseId>)
    ensures Rehung(rows, after, ids, c)
  {
    after := map n | n in rows :: if rows[n] in ids then c else rows[n];
  }

  lemma MergedReferences(cases: set<CaseId>, links: Links, merged: Links, messages: set<MessageId>, ids: set<CaseId>,
                         c: CaseId)
    requires MergedLinks(links, merged, ids, c) && c !in ids
    requires forall d, m :: (d, m) in links ==> d in cases && m in messages
    ensures forall d, m :: (d, m) in merged ==> d in cases - ids + {c} && m in messages
  {
  }

  lemma MovedReferences(tl: seq<Event>, attachments: Attachments, cases: set<CaseId>, ids: set<CaseId>, c: CaseId)
    requires Shaped(tl, attachments) && c !in ids && forall e :: e in tl ==> e.caseId in cases
    ensures var moved := Move(tl, ids, c) + [Event(c, CaseMerged, None, None)];
      Shaped(moved, attachments) && forall e :: e in moved ==> e.caseId in cases - ids + {c}
  {
  }

  lemma HangingReferences(cases: set<CaseId>, before: map<nat, CaseId>, after: map<nat, CaseId>, ids: set<CaseId>,
                          c: CaseId)
    requires Rehung(before, after, ids, c) && forall n :: n in before ==> before[n] in cases
    ensures forall n :: n in after ==> after[n] in cases - ids + {c}
  {
  }

  lemma SharesReferences(cases: set<CaseId>, before: map<(CaseId, UserId), Permission>,
                         after: map<(CaseId, UserId), Permission>, ids: set<CaseId>, c: CaseId,
                         access: map<UserId, Permission>)
    requires Reshared(before, after, ids, c, access) && forall d, u :: (d, u) in before ==> d in cases
    ensures forall d, u :: (d, u) in after ==> d in cases - ids + {c}
  {
  }
}
