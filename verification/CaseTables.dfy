/** The rows behind a case file: links between cases and messages, and the
    timeline.  Every function here is about values; the store that holds the
    tables is in CaseStore. */
module CaseTables {

  import opened Options

  type CaseId = nat
  type UserId = nat
  type MailboxId = nat
  type MessageId = string
  type AttachmentId = nat

  datatype Source = Conversation | CrKeyword | Heuristic | Manual

  datatype Relationship = Primary | Related

  datatype Link = Link(relationship: Relationship, confidence: real, source: Source)

  type Links = map<(CaseId, MessageId), Link>

  datatype Action = EmailSent | DocumentShared | CaseMerged | MailboxMessageRemoved | OtherAction

  /** A timeline row.  Texts, times and actors do not matter here. */
  datatype Event = Event(caseId: CaseId, action: Action, message: Option<MessageId>, attachment: Option<AttachmentId>)

  type Attachments = map<AttachmentId, MessageId>

  function Email(c: CaseId, m: MessageId): Event {
    Event(c, EmailSent, Some(m), None)
  }

  function Document(c: CaseId, m: MessageId, a: AttachmentId): Event {
    Event(c, DocumentShared, Some(m), Some(a))
  }

  // ---- Linking: insert, or keep the better of two correlations ----

  /** Inserting a link that is already there keeps the relationship, takes the
      higher confidence, and takes the new source only with a strictly higher
      confidence. */
  function Better(o: Link, l: Link): Link {
    Link(o.relationship,
         if o.confidence < l.confidence then l.confidence else o.confidence,
         if l.confidence > o.confidence then l.source else o.source)
  }

  function Upsert(links: Links, c: CaseId, m: MessageId, l: Link): Links {
    links[(c, m) := if (c, m) in links then Better(links[(c, m)], l) else l]
  }

  datatype LinkRow = LinkRow(message: MessageId, link: Link)

  function UpsertAll(links: Links, c: CaseId, rows: seq<LinkRow>): Links {
    if rows == [] then links
    else
      var last := rows[|rows| - 1];
      Upsert(UpsertAll(links, c, rows[..|rows| - 1]), c, last.message, last.link)
  }

  predicate Mentions(rows: seq<LinkRow>, m: MessageId) {
    exists i :: 0 <= i < |rows| && rows[i].message == m
  }

  predicate FirstMention(rows: seq<LinkRow>, m: MessageId, i: int) {
    0 <= i < |rows| && rows[i].message == m && forall j :: 0 <= j < i ==> rows[j].message != m
  }

  /** No row gives m more confidence than row i, and no earlier one as much. */
  predicate FirstBest(rows: seq<LinkRow>, m: MessageId, i: int) {
    && 0 <= i < |rows| && rows[i].message == m
    && (forall j :: 0 <= j < |rows| && rows[j].message == m ==> rows[j].link.confidence <= rows[i].link.confidence)
    && (forall j :: 0 <= j < i && rows[j].message == m ==> rows[j].link.confidence < rows[i].link.confidence)
  }

  /** l has the relationship of the first row that mentions m, and the confidence
      and the source of the first row that gives m the most confidence. */
  ghost predicate Wins(rows: seq<LinkRow>, m: MessageId, l: Link) {
    && (exists i :: FirstMention(rows, m, i) && rows[i].link.relationship == l.relationship)
    && (exists i :: FirstBest(rows, m, i)
                    && rows[i].link.confidence == l.confidence && rows[i].link.source == l.source)
  }

  /** All that m is given: the link that is there, if any, and then the rows. */
  function Given(links: Links, c: CaseId, rows: seq<LinkRow>, m: MessageId): seq<LinkRow> {
    (if (c, m) in links then [LinkRow(m, links[(c, m)])] else []) + rows
  }

  /** A link that is there and rows in any order decide together: the highest
      confidence wins, with its source, the earlier one on a tie; the
      relationship stays what it was first. */
  lemma {:induction false} UpsertAllWins(links: Links, c: CaseId, rows: seq<LinkRow>, m: MessageId)
    ensures (c, m) in UpsertAll(links, c, rows) <==> Mentions(Given(links, c, rows, m), m)
    ensures (c, m) in UpsertAll(links, c, rows) ==>
              Wins(Given(links, c, rows, m), m, UpsertAll(links, c, rows)[(c, m)])
  {
    var given := Given(links, c, rows, m);
    if rows == [] {
      if (c, m) in links {
        assert FirstMention(given, m, 0) && FirstBest(given, m, 0);
      }
    } else {
      var init, last := rows[..|rows| - 1], rows[|rows| - 1];
      var before := Given(links, c, init, m);
      UpsertAllWins(links, c, init, m);
      assert given == before + [last];
      if last.message != m {
        MentionsOther(before, last, m);
      } else if (c, m) in UpsertAll(links, c, init) {
        MentionedNow(before, last, m);
        var o := UpsertAll(links, c, init)[(c, m)];
        var i :| FirstMention(before, m, i) && before[i].link.relationship == o.relationship;
        var k :| FirstBest(before, m, k)
                 && before[k].link.confidence == o.confidence && before[k].link.source == o.source;
        WinsNext(before, last, m, o, i, k);
      } else {
        MentionedNow(before, last, m);
      }
    }
  }

  lemma MentionedNow(rows: seq<LinkRow>, r: LinkRow, m: MessageId)
    requires r.message == m
    ensures Mentions(rows + [r], m)
    ensures !Mentions(rows, m) ==> Wins(rows + [r], m, r.link)
  {
    var more := rows + [r];
    assert forall j :: 0 <= j < |rows| ==> more[j] == rows[j];
    assert more[|rows|].message == m;
    if !Mentions(rows, m) {
      assert FirstMention(more, m, |rows|) && FirstBest(more, m, |rows|);
    }
  }

  lemma MentionsOther(rows: seq<LinkRow>, r: LinkRow, m: MessageId)
    requires r.message != m
    ensures Mentions(rows + [r], m) <==> Mentions(rows, m)
    ensures forall l :: Wins(rows, m, l) ==> Wins(rows + [r], m, l)
  {
    var more := rows + [r];
    assert forall j :: 0 <= j < |rows| ==> more[j] == rows[j];
    if i :| 0 <= i < |rows| && rows[i].message == m {
      assert more[i].message == m;
    }
    forall l | Wins(rows, m, l)
      ensures Wins(more, m, l)
    {
      var i :| FirstMention(rows, m, i) && rows[i].link.relationship == l.relationship;
      var k :| FirstBest(rows, m, k) && rows[k].link.confidence == l.confidence && rows[k].link.source == l.source;
      assert FirstMention(more, m, i) && FirstBest(more, m, k);
    }
  }

  /** One more row for m: it wins only with strictly more confidence. */
  lemma WinsNext(rows: seq<LinkRow>, r: LinkRow, m: MessageId, o: Link, i: int, k: int)
    requires FirstMention(rows, m, i) && rows[i].link.relationship == o.relationship
    requires FirstBest(rows, m, k) && rows[k].link.confidence == o.confidence && rows[k].link.source == o.source
    requires r.message == m
    ensures Wins(rows + [r], m, Better(o, r.link))
  {
    var more := rows + [r];
    assert forall j :: 0 <= j < |rows| ==> more[j] == rows[j];
    assert FirstMention(more, m, i);
    assert FirstBest(more, m, if r.link.confidence > o.confidence then |rows| else k);
  }

  /** Linking to one case leaves the others alone, and never unlinks. */
  lemma {:induction false} UpsertAllFrame(links: Links, c: CaseId, rows: seq<LinkRow>, d: CaseId, m: MessageId)
    ensures d != c ==> ((d, m) in UpsertAll(links, c, rows) <==> (d, m) in links)
    ensures d != c && (d, m) in links ==> UpsertAll(links, c, rows)[(d, m)] == links[(d, m)]
    ensures (d, m) in links ==> (d, m) in UpsertAll(links, c, rows)
    ensures (c, m) in UpsertAll(links, c, rows) <==> (c, m) in links || Mentions(rows, m)
  {
    if rows != [] {
      var init := rows[..|rows| - 1];
      UpsertAllFrame(links, c, init, d, m);
      assert forall i :: 0 <= i < |init| ==> rows[i] == init[i];
      if Mentions(init, m) {
        var i :| 0 <= i < |init| && init[i].message == m;
        assert rows[i].message == m;
      }
    }
  }

  // ---- Counting timeline rows ----

  /** How often exactly this row stands in the timeline. */
  function Times(tl: seq<Event>, e: Event): nat {
    multiset(tl)[e]
  }

  /** Unlinking deletes every row of the case that came from the message. */
  function Without(tl: seq<Event>, c: CaseId, m: MessageId): seq<Event> {
    if tl == [] then []
    else
      var rest := Without(tl[..|tl| - 1], c, m);
      var e := tl[|tl| - 1];
      if e.caseId == c && e.message == Some(m) then rest else rest + [e]
  }

  lemma {:induction false} WithoutTimes(tl: seq<Event>, c: CaseId, m: MessageId, e: Event)
    ensures Times(Without(tl, c, m), e) == if e.caseId == c && e.message == Some(m) then 0 else Times(tl, e)
  {
    if tl != [] {
      assert tl == tl[..|tl| - 1] + [tl[|tl| - 1]];
      WithoutTimes(tl[..|tl| - 1], c, m, e);
    }
  }

  lemma TimesAppend(tl: seq<Event>, e: Event, f: Event)
    ensures Times(tl + [e], f) == Times(tl, f) + if e == f then 1 else 0
  {
  }

  /** A row that names an attachment is the "document shared" row of that
      attachment and of the message it came with. */
  ghost predicate Shaped(tl: seq<Event>, attachments: Attachments) {
    forall e :: e in tl && e.attachment.Some? ==>
      e.attachment.value in attachments
      && e == Document(e.caseId, attachments[e.attachment.value], e.attachment.value)
  }

  /** The timeline of the case tells its links: one "email sent" row for every
      linked message and none for any other, at most one "document shared" row
      for an attachment, and no row that names a message which is not linked. */
  ghost predicate Kept(links: Links, tl: seq<Event>, attachments: Attachments, c: CaseId) {
    && (forall m :: Times(tl, Email(c, m)) == if (c, m) in links then 1 else 0)
    && (forall a :: a in attachments ==> Times(tl, Document(c, attachments[a], a)) <= 1)
    && (forall e :: Times(tl, e) > 0 && e.caseId == c && e.message.Some? ==> (c, e.message.value) in links)
  }

  /** Every case that was in step before still is. */
  ghost predicate StillKept(links0: Links, tl0: seq<Event>, attachments0: Attachments,
                            links: Links, tl: seq<Event>, attachments: Attachments)
  {
    forall c: CaseId :: Kept(links0, tl0, attachments0, c) ==> Kept(links, tl, attachments, c)
  }

  /** After says what before said, and one "email sent" row for each of the
      messages and one "document shared" row for each of their attachments. */
  ghost predicate Told(before: seq<Event>, after: seq<Event>, attachments: Attachments, c: CaseId, ms: set<MessageId>) {
    forall e :: Times(after, e) == Times(before, e) + EmailRow(e, c, ms) + DocumentRow(e, attachments, c, ms)
  }

  function EmailRow(e: Event, c: CaseId, ms: set<MessageId>): nat {
    if e.message.Some? && e.message.value in ms && e == Email(c, e.message.value) then 1 else 0
  }

  function DocumentRow(e: Event, attachments: Attachments, c: CaseId, ms: set<MessageId>): nat {
    if e.attachment.Some? && e.attachment.value in attachments && attachments[e.attachment.value] in ms
       && e == Document(c, attachments[e.attachment.value], e.attachment.value) then 1 else 0
  }

  /** Linking messages that were not linked, and telling the timeline, keeps
      every case in step that was. */
  lemma KeptAfterLinking(links: Links, before: seq<Event>, attachments: Attachments, c: CaseId, rows: seq<LinkRow>,
                         added: set<MessageId>, after: seq<Event>, d: CaseId)
    requires Kept(links, before, attachments, d)
    requires forall m :: m in added <==> Mentions(rows, m) && (c, m) !in links
    requires Told(before, after, attachments, c, added)
    ensures Kept(UpsertAll(links, c, rows), after, attachments, d)
  {
    var linked := UpsertAll(links, c, rows);
    forall m
      ensures (d, m) in linked <==> (d, m) in links || (d == c && m in added)
    {
      UpsertAllFrame(links, c, rows, d, m);
    }
  }

  lemma {:induction false} UpsertAllConcat(links: Links, c: CaseId, a: seq<LinkRow>, b: seq<LinkRow>)
    ensures UpsertAll(links, c, a + b) == UpsertAll(UpsertAll(links, c, a), c, b)
  {
    if b == [] {
      assert a + b == a;
    } else {
      assert (a + b)[..|a + b| - 1] == a + b[..|b| - 1];
      UpsertAllConcat(links, c, a, b[..|b| - 1]);
    }
  }

  /** Unlinking a message and deleting the rows that came from it keeps every
      case in step that was. */
  lemma KeptAfterUnlinking(links: Links, tl: seq<Event>, attachments: Attachments, c: CaseId, m: MessageId, d: CaseId)
    requires Kept(links, tl, attachments, d)
    ensures Kept(links - {(c, m)}, Without(tl, c, m), attachments, d)
  {
    forall e
      ensures Times(Without(tl, c, m), e) == if e.caseId == c && e.message == Some(m) then 0 else Times(tl, e)
    {
      WithoutTimes(tl, c, m, e);
    }
  }

  lemma WithoutShape(tl: seq<Event>, attachments: Attachments, c: CaseId, m: MessageId)
    requires Shaped(tl, attachments)
    ensures Shaped(Without(tl, c, m), attachments)
    ensures forall e :: e in Without(tl, c, m) ==> e in tl
  {
  }

  lemma ToldTwice(t0: seq<Event>, t1: seq<Event>, t2: seq<Event>, attachments: Attachments, c: CaseId,
                  first: set<MessageId>, second: set<MessageId>)
    requires Told(t0, t1, attachments, c, first) && Told(t1, t2, attachments, c, second) && first !! second
    ensures Told(t0, t2, attachments, c, first + second)
  {
  }

  /** One more "document shared" row, for an attachment that had none. */
  lemma KeptAfterDocument(links: Links, tl: seq<Event>, attachments: Attachments, c: CaseId, m: MessageId,
                          a: AttachmentId, d: CaseId)
    requires Kept(links, tl, attachments, d)
    requires (c, m) in links && a in attachments && attachments[a] == m && Times(tl, Document(c, m, a)) == 0
    ensures Kept(links, tl + [Document(c, m, a)], attachments, d)
  {
  }
}
