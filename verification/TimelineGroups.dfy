/** Grouping a timeline by message: shared documents under the message they
    came with, as the case view and the printed report do it. */
module TimelineGroups {

  import opened Options
  import opened CaseTables

  /** A timeline row with its key. */
  datatype Row = Row(id: nat, event: Event)

  datatype Group = Group(row: Row, children: seq<Row>)

  predicate Named(e: Event) {
    e.message.Some? && e.message.value != ""
  }

  /** A document that can be shown under a message. */
  predicate Attached(r: Row) {
    r.event.action == DocumentShared && Named(r.event)
  }

  predicate MailOf(r: Row, m: MessageId) {
    r.event.action == EmailSent && r.event.message == Some(m)
  }

  ghost predicate UniqueKeys(rows: seq<Row>) {
    forall i, j :: 0 <= i < j < |rows| ==> rows[i].id != rows[j].id
  }

  /** The documents of a message, in the order of the timeline. */
  function Children(rows: seq<Row>, m: MessageId): seq<Row> {
    if rows == [] then []
    else
      var r := rows[|rows| - 1];
      Children(rows[..|rows| - 1], m) + if Attached(r) && r.event.message.value == m then [r] else []
  }

  function ChildrenUnder(rows: seq<Row>, r: Row): seq<Row> {
    if r.event.action == EmailSent && Named(r.event) then Children(rows, r.event.message.value) else []
  }

  /** The case view: every row that is not attached, with its documents. */
  function ViewOf(part: seq<Row>, rows: seq<Row>): seq<Group> {
    if part == [] then []
    else
      var r := part[|part| - 1];
      ViewOf(part[..|part| - 1], rows) + if Attached(r) then [] else [Group(r, ChildrenUnder(rows, r))]
  }

  /** The report: every message, with its documents. */
  function ReportOf(part: seq<Row>, rows: seq<Row>): seq<Group> {
    if part == [] then []
    else
      var r := part[|part| - 1];
      ReportOf(part[..|part| - 1], rows)
      + if r.event.action == EmailSent then [Group(r, ChildrenUnder(rows, r))] else []
  }

  function Mails(groups: seq<Group>): seq<Group> {
    if groups == [] then []
    else
      var g := groups[|groups| - 1];
      Mails(groups[..|groups| - 1]) + if g.row.event.action == EmailSent then [g] else []
  }

  /** The report shows the messages of the view, with the same documents. */
  lemma {:induction false} ReportIsView(part: seq<Row>, rows: seq<Row>)
    ensures ReportOf(part, rows) == Mails(ViewOf(part, rows))
  {
    if part != [] {
      var init, r := part[..|part| - 1], part[|part| - 1];
      ReportIsView(init, rows);
      MailsAppend(ViewOf(init, rows), Group(r, ChildrenUnder(rows, r)));
      assert Attached(r) ==> ViewOf(part, rows) == ViewOf(init, rows);
    }
  }

  lemma MailsAppend(groups: seq<Group>, g: Group)
    ensures Mails(groups + [g]) == if g.row.event.action == EmailSent then Mails(groups) + [g] else Mails(groups)
  {
    assert (groups + [g])[..|groups|] == groups;
  }

  // ---- Both groupings as they are computed ----

  function Lookup(byMessage: map<MessageId, seq<Row>>, m: MessageId): seq<Row> {
    if m in byMessage then byMessage[m] else []
  }

  ghost predicate Collected(rows: seq<Row>, byMessage: map<MessageId, seq<Row>>) {
    forall m: MessageId :: Lookup(byMessage, m) == Children(rows, m)
  }

  lemma ChildrenAppend(rows: seq<Row>, r: Row, m: MessageId)
    ensures Children(rows + [r], m)
         == if Attached(r) && r.event.message.value == m then Children(rows, m) + [r] else Children(rows, m)
  {
    assert (rows + [r])[..|rows|] == rows;
  }

  /** One pass collects the documents of every message. */
  method CollectChildren(rows: seq<Row>) returns (byMessage: map<MessageId, seq<Row>>)
    ensures Collected(rows, byMessage)
  {
    byMessage := map[];
    for i := 0 to |rows|
      invariant Collected(rows[..i], byMessage)
    {
      var r := rows[i];
      CollectedNext(rows[..i], r, byMessage);
      assert rows[..i + 1] == rows[..i] + [r];
      if Attached(r) {
        byMessage := byMessage[r.event.message.value := Lookup(byMessage, r.event.message.value) + [r]];
      }
    }
    assert rows[..|rows|] == rows;
  }

  lemma CollectedNext(rows: seq<Row>, r: Row, byMessage: map<MessageId, seq<Row>>)
    requires Collected(rows, byMessage)
    ensures Collected(rows + [r],
              if Attached(r) then byMessage[r.event.message.value := Lookup(byMessage, r.event.message.value) + [r]]
              else byMessage)
  {
    forall m: MessageId
      ensures Children(rows + [r], m)
           == Lookup(byMessage, m) + if Attached(r) && r.event.message.value == m then [r] else []
    {
      assert Lookup(byMessage, m) == Children(rows, m);
      ChildrenAppend(rows, r, m);
    }
  }

  lemma {:induction false} ChildrenAre(rows: seq<Row>, m: MessageId, r: Row)
    ensures multiset(Children(rows, m))[r] == if Attached(r) && r.event.message.value == m then multiset(rows)[r] else 0
  {
    if rows != [] {
      var init, x := rows[..|rows| - 1], rows[|rows| - 1];
      assert rows == init + [x];
      ChildrenAre(init, m, r);
      ChildrenAppend(init, x, m);
    }
  }

  lemma InChildren(rows: seq<Row>, m: MessageId, r: Row)
    ensures r in Children(rows, m) <==> r in rows && Attached(r) && r.event.message.value == m
  {
    ChildrenAre(rows, m, r);
    assert r in Children(rows, m) <==> multiset(Children(rows, m))[r] > 0;
    assert r in rows <==> multiset(rows)[r] > 0;
  }

  lemma CollectedUnder(rows: seq<Row>, byMessage: map<MessageId, seq<Row>>, r: Row)
    requires Collected(rows, byMessage)
    ensures ChildrenUnder(rows, r) == if r.event.action == EmailSent && Named(r.event)
                                      then Lookup(byMessage, r.event.message.value) else []
  {
    assert Named(r.event) ==> Lookup(byMessage, r.event.message.value) == Children(rows, r.event.message.value);
  }

  lemma ViewAppend(part: seq<Row>, r: Row, rows: seq<Row>)
    ensures ViewOf(part + [r], rows)
         == ViewOf(part, rows) + if Attached(r) then [] else [Group(r, ChildrenUnder(rows, r))]
  {
    assert (part + [r])[..|part|] == part;
  }

  method GroupForView(rows: seq<Row>) returns (groups: seq<Group>)
    requires UniqueKeys(rows)
    ensures groups == ViewOf(rows, rows)
  {
    var byMessage := CollectChildren(rows);
    var attached := AttachedKeys(byMessage);
    groups := [];
    for i := 0 to |rows|
      invariant groups == ViewOf(rows[..i], rows)
    {
      var r := rows[i];
      assert rows[..i + 1] == rows[..i] + [r];
      KeysOfAttached(rows, byMessage, i);
      CollectedUnder(rows, byMessage, r);
      ViewAppend(rows[..i], r, rows);
      if r.id !in attached {
        groups := groups + [Group(r, if r.event.action == EmailSent && Named(r.event)
                                     then Lookup(byMessage, r.event.message.value) else [])];
      }
    }
    assert rows[..|rows|] == rows;
  }

  function AttachedKeys(byMessage: map<MessageId, seq<Row>>): set<nat> {
    set m: MessageId, d: Row | m in byMessage && d in byMessage[m] :: d.id
  }

  /** With unique keys, the keys that were collected are those of the attached
      rows. */
  lemma KeysOfAttached(rows: seq<Row>, byMessage: map<MessageId, seq<Row>>, i: nat)
    requires UniqueKeys(rows) && Collected(rows, byMessage) && i < |rows|
    ensures rows[i].id in AttachedKeys(byMessage) <==> Attached(rows[i])
  {
    var r := rows[i];
    if Attached(r) {
      var m := r.event.message.value;
      InChildren(rows, m, r);
      assert Lookup(byMessage, m) == Children(rows, m);
    }
    if r.id in AttachedKeys(byMessage) {
      var m: MessageId, d: Row :| m in byMessage && d in byMessage[m] && d.id == r.id;
      assert Lookup(byMessage, m) == Children(rows, m);
      InChildren(rows, m, d);
      var j :| 0 <= j < |rows| && rows[j] == d;
      assert i == j;
    }
  }

  method GroupForReport(rows: seq<Row>) returns (groups: seq<Group>)
    ensures groups == ReportOf(rows, rows)
  {
    var byMessage := CollectChildren(rows);
    groups := [];
    for i := 0 to |rows|
      invariant groups == ReportOf(rows[..i], rows)
    {
      assert rows[..i + 1][..i] == rows[..i];
      var r := rows[i];
      if r.event.action == EmailSent {
        CollectedUnder(rows, byMessage, r);
        groups := groups + [Group(r, if Named(r.event) then Lookup(byMessage, r.event.message.value) else [])];
      }
    }
    assert rows[..|rows|] == rows;
  }

  lemma {:induction false} ViewHas(part: seq<Row>, rows: seq<Row>, r: Row)
    requires r in part && !Attached(r)
    ensures Group(r, ChildrenUnder(rows, r)) in ViewOf(part, rows)
  {
    var n := |part| - 1;
    assert part == part[..n] + [part[n]];
    if part[n] != r {
      ViewHas(part[..n], rows, r);
    }
  }

  /** A row without a message, or with an empty one, is shown by itself. */
  lemma NamelessAlone(rows: seq<Row>, r: Row)
    requires r in rows && r.event.message in {None, Some("")}
    ensures Group(r, []) in ViewOf(rows, rows)
  {
    ViewHas(rows, rows, r);
  }

  // ---- Nothing is lost and nothing is shown twice ----

  /** Every row as it is shown, parents before their children. */
  function Shown(groups: seq<Group>): seq<Row> {
    if groups == [] then []
    else
      var g := groups[|groups| - 1];
      Shown(groups[..|groups| - 1]) + [g.row] + g.children
  }

  /** How many "email sent" rows the message has. */
  function MailCount(rows: seq<Row>, m: MessageId): nat {
    if rows == [] then 0
    else MailCount(rows[..|rows| - 1], m) + if MailOf(rows[|rows| - 1], m) then 1 else 0
  }

  /** A row that is not attached is shown as often as it stands; a document is
      shown once under each "email sent" row of its message. */
  lemma {:induction false} ShownTimes(part: seq<Row>, rows: seq<Row>, r: Row)
    requires multiset(rows)[r] <= 1
    ensures multiset(Shown(ViewOf(part, rows)))[r]
         == if !Attached(r) then multiset(part)[r]
            else if r in rows then MailCount(part, r.event.message.value) else 0
  {
    if part != [] {
      var init, x := part[..|part| - 1], part[|part| - 1];
      assert part == init + [x];
      ShownTimes(init, rows, r);
      ShownNext(init, x, rows, r);
    }
  }

  /** How much one more row adds to what is shown. */
  lemma ShownNext(init: seq<Row>, x: Row, rows: seq<Row>, r: Row)
    requires multiset(rows)[r] <= 1
    ensures multiset(Shown(ViewOf(init + [x], rows)))[r]
         == multiset(Shown(ViewOf(init, rows)))[r]
            + if !Attached(r) then if x == r then 1 else 0
              else if r in rows && MailOf(x, r.event.message.value) then 1 else 0
  {
    var v := ViewOf(init, rows);
    assert (init + [x])[..|init|] == init;
    if Attached(x) {
      assert ViewOf(init + [x], rows) == v;
    } else {
      ShownAppend(v, Group(x, ChildrenUnder(rows, x)), r);
      if x.event.action == EmailSent && Named(x.event) {
        ChildrenAre(rows, x.event.message.value, r);
      }
    }
  }

  lemma ShownAppend(groups: seq<Group>, g: Group, r: Row)
    ensures multiset(Shown(groups + [g]))[r]
         == multiset(Shown(groups))[r] + (if r == g.row then 1 else 0) + multiset(g.children)[r]
  {
    assert (groups + [g])[..|groups|] == groups;
  }

  /** The view shows every row exactly once if and only if the message of every
      attached document has exactly one "email sent" row. */
  lemma PermutationIff(rows: seq<Row>)
    requires UniqueKeys(rows)
    ensures multiset(Shown(ViewOf(rows, rows))) == multiset(rows)
       <==> forall i :: 0 <= i < |rows| && Attached(rows[i]) ==> MailCount(rows, rows[i].event.message.value) == 1
  {
    var shown := multiset(Shown(ViewOf(rows, rows)));
    forall r: Row
      ensures shown[r] == if Attached(r) && r in rows then MailCount(rows, r.event.message.value) else multiset(rows)[r]
      ensures r in rows ==> multiset(rows)[r] == 1
    {
      KeysOnce(rows, r);
      ShownTimes(rows, rows, r);
    }
    if shown == multiset(rows) {
      forall i | 0 <= i < |rows| && Attached(rows[i])
        ensures MailCount(rows, rows[i].event.message.value) == 1
      {
        assert shown[rows[i]] == multiset(rows)[rows[i]];
      }
    } else if r :| shown[r] != multiset(rows)[r] {
      var i :| 0 <= i < |rows| && rows[i] == r;
    }
  }

  lemma {:induction false} KeysOnce(rows: seq<Row>, r: Row)
    requires UniqueKeys(rows)
    ensures multiset(rows)[r] == if r in rows then 1 else 0
  {
    if rows != [] {
      var init, x := rows[..|rows| - 1], rows[|rows| - 1];
      assert rows == init + [x];
      KeysOnce(init, r);
      assert x !in init;
    }
  }

  // ---- Timelines that are in step with the links ----

  /** The timeline of one case; the place in the table is the key. */
  function RowsOf(tl: seq<Event>, c: CaseId): seq<Row> {
    if tl == [] then []
    else
      var e := tl[|tl| - 1];
      RowsOf(tl[..|tl| - 1], c) + if e.caseId == c then [Row(|tl| - 1, e)] else []
  }

  predicate Placed(tl: seq<Event>, c: CaseId, r: Row) {
    r.id < |tl| && r.event == tl[r.id] && r.event.caseId == c
  }

  lemma {:induction false} RowsOfAre(tl: seq<Event>, c: CaseId)
    ensures UniqueKeys(RowsOf(tl, c))
    ensures forall i :: 0 <= i < |RowsOf(tl, c)| ==> Placed(tl, c, RowsOf(tl, c)[i])
  {
    if tl != [] {
      var init, rows := tl[..|tl| - 1], RowsOf(tl, c);
      RowsOfAre(init, c);
      forall i | 0 <= i < |rows|
        ensures Placed(tl, c, rows[i]) && (i < |RowsOf(init, c)| ==> rows[i].id < |tl| - 1)
      {
        if i < |RowsOf(init, c)| {
          assert rows[i] == RowsOf(init, c)[i] && Placed(init, c, rows[i]);
        }
      }
    }
  }

  lemma {:induction false} MailCountIsTimes(tl: seq<Event>, c: CaseId, m: MessageId)
    requires forall i :: 0 <= i < |tl| && tl[i].action == EmailSent ==> tl[i].attachment == None
    ensures MailCount(RowsOf(tl, c), m) == Times(tl, Email(c, m))
  {
    if tl != [] {
      var init, e := tl[..|tl| - 1], tl[|tl| - 1];
      assert tl == init + [e];
      MailCountIsTimes(init, c, m);
      TimesAppend(init, e, Email(c, m));
      if e.caseId == c {
        assert MailOf(Row(|tl| - 1, e), m) <==> e == Email(c, m);
        MailCountAppend(RowsOf(init, c), Row(|tl| - 1, e), m);
      } else {
        assert RowsOf(tl, c) == RowsOf(init, c);
      }
    }
  }

  lemma MailCountAppend(rows: seq<Row>, r: Row, m: MessageId)
    ensures MailCount(rows + [r], m) == MailCount(rows, m) + if MailOf(r, m) then 1 else 0
  {
    assert (rows + [r])[..|rows|] == rows;
  }

  lemma {:induction false} RowsOfHas(tl: seq<Event>, c: CaseId, e: Event) returns (r: Row)
    requires e in tl && e.caseId == c
    ensures r in RowsOf(tl, c) && r.event == e
  {
    var n := |tl| - 1;
    if tl[n] == e {
      r := Row(n, e);
    } else {
      assert tl == tl[..n] + [tl[n]];
      r := RowsOfHas(tl[..n], c, e);
    }
  }

  /** The group shows a document of the message under its "email sent" row. */
  ghost predicate ShowsDocument(g: Group, c: CaseId, m: MessageId, a: AttachmentId) {
    && g.row.event == Event(c, EmailSent, Some(m), None)
    && exists d :: d in g.children && d.event == Event(c, DocumentShared, Some(m), Some(a))
  }

  /** In a case whose timeline is in step with its links, every document that was
      shared is shown under the message that it came with. */
  lemma DocumentUnderItsMessage(links: Links, tl: seq<Event>, attachments: Attachments, c: CaseId, m: MessageId,
                                a: AttachmentId)
    requires Kept(links, tl, attachments, c) && Document(c, m, a) in tl && m != ""
    ensures exists g :: g in ViewOf(RowsOf(tl, c), RowsOf(tl, c)) && ShowsDocument(g, c, m, a)
  {
    var rows := RowsOf(tl, c);
    var d := RowsOfHas(tl, c, Document(c, m, a));
    assert Document(c, m, a) in multiset(tl) && (c, m) in links;
    assert Times(tl, Email(c, m)) == 1;
    assert Email(c, m) in multiset(tl);
    var r := RowsOfHas(tl, c, Email(c, m));
    InChildren(rows, m, d);
    ViewHas(rows, rows, r);
    assert ShowsDocument(Group(r, ChildrenUnder(rows, r)), c, m, a);
  }

  /** A case whose timeline is in step with its links is shown whole, each row
      exactly once. */
  lemma CaseInStepIsShownWhole(links: Links, tl: seq<Event>, attachments: Attachments, c: CaseId)
    requires Kept(links, tl, attachments, c) && Shaped(tl, attachments)
    ensures multiset(Shown(ViewOf(RowsOf(tl, c), RowsOf(tl, c)))) == multiset(RowsOf(tl, c))
  {
    var rows := RowsOf(tl, c);
    RowsOfAre(tl, c);
    forall i | 0 <= i < |rows| && Attached(rows[i])
      ensures MailCount(rows, rows[i].event.message.value) == 1
    {
      var e := rows[i].event;
      assert Placed(tl, c, rows[i]);
      assert e in multiset(tl) && (c, e.message.value) in links;
      assert forall j :: 0 <= j < |tl| ==> tl[j] in tl;
      MailCountIsTimes(tl, c, e.message.value);
    }
    PermutationIff(rows);
  }
}
