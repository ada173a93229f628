/** Deleting: cases, messages, single attachments, and a mailbox with everything
    that was indexed from it, with the preview of that deletion. */
module MailboxDeletion {

  import opened Options
  import opened CaseTables
  import opened CaseStore
  import opened CaseMerge

  // ---- What a mailbox touches ----

  function MessagesIn(messages: Messages, b: MailboxId): set<MessageId> {
    set m | m in messages && messages[m] == Some(b)
  }

  ghost predicate Holds(links: Links, messages: Messages, b: MailboxId, c: CaseId) {
    exists m :: (c, m) in links && m in messages && messages[m] == Some(b)
  }

  /** The case has a message of another mailbox, or of no known one. */
  ghost predicate HoldsOther(links: Links, messages: Messages, b: MailboxId, c: CaseId) {
    exists m :: (c, m) in links && m in messages && messages[m] != Some(b)
  }

  function Touched(links: Links, messages: Messages, b: MailboxId): set<CaseId> {
    set k | k in links && k.1 in messages && messages[k.1] == Some(b) :: k.0
  }

  function Others(links: Links, messages: Messages, b: MailboxId): set<CaseId> {
    set k | k in links && k.1 in messages && messages[k.1] != Some(b) :: k.0
  }

  /** The cases that hold messages of the mailbox and nothing else. */
  ghost function Owned(links: Links, messages: Messages, b: MailboxId): set<CaseId> {
    set k | k in links && Holds(links, messages, b, k.0) && !HoldsOther(links, messages, b, k.0) :: k.0
  }

  /** The cases that hold messages of the mailbox and others. */
  ghost function Mixed(links: Links, messages: Messages, b: MailboxId): set<CaseId> {
    set k | k in links && Holds(links, messages, b, k.0) && HoldsOther(links, messages, b, k.0) :: k.0
  }

  lemma TouchedAre(links: Links, messages: Messages, b: MailboxId)
    ensures Touched(links, messages, b) - Others(links, messages, b) == Owned(links, messages, b)
    ensures Touched(links, messages, b) * Others(links, messages, b) == Mixed(links, messages, b)
  {
    forall c: CaseId
      ensures c in Touched(links, messages, b) <==> Holds(links, messages, b, c)
      ensures c in Others(links, messages, b) <==> HoldsOther(links, messages, b, c)
    {
      if m :| (c, m) in links && m in messages && messages[m] == Some(b) {
        assert (c, m) in links;
      }
      if m :| (c, m) in links && m in messages && messages[m] != Some(b) {
        assert (c, m) in links;
      }
    }
  }

  datatype Counts = Counts(messages: nat, casesDeleted: nat, casesAffected: nat)

  /** What the deletion would do, without doing it: how many messages the
      mailbox has, how many cases hold nothing else, and how many hold some of
      them besides others. */
  method Preview(store: CaseStore, b: MailboxId) returns (counts: Counts)
    ensures counts.messages == |MessagesIn(store.messages, b)|
    ensures counts.casesDeleted == |Owned(store.links, store.messages, b)|
    ensures counts.casesAffected == |Mixed(store.links, store.messages, b)|
  {
    var touched, others := Touched(store.links, store.messages, b), Others(store.links, store.messages, b);
    TouchedAre(store.links, store.messages, b);
    counts := Counts(|MessagesIn(store.messages, b)|, |touched - others|, |touched * others|);
  }

  // ---- What deleting does to the timeline ----

  /** Deleting cases deletes their rows. */
  function RowsWithout(tl: seq<Event>, ids: set<CaseId>): seq<Event> {
    if tl == [] then []
    else
      var e := tl[|tl| - 1];
      RowsWithout(tl[..|tl| - 1], ids) + if e.caseId in ids then [] else [e]
  }

  /** Deleting messages, and with them their attachments, leaves the rows that
      came from them, without their origin. */
  function Forget(tl: seq<Event>, ms: set<MessageId>, gone: set<AttachmentId>): seq<Event> {
    seq(|tl|, i requires 0 <= i < |tl| => Forgotten(tl[i], ms, gone))
  }

  function Forgotten(e: Event, ms: set<MessageId>, gone: set<AttachmentId>): Event {
    e.(message := if e.message.Some? && e.message.value in ms then None else e.message,
       attachment := if e.attachment.Some? && e.attachment.value in gone then None else e.attachment)
  }

  function Removed(c: CaseId): Event {
    Event(c, MailboxMessageRemoved, None, None)
  }

  /** Nothing but its origin changes about a row. */
  lemma ForgetIs(tl: seq<Event>, ms: set<MessageId>, gone: set<AttachmentId>, i: nat)
    requires i < |tl|
    ensures |Forget(tl, ms, gone)| == |tl|
    ensures var e, f := tl[i], Forget(tl, ms, gone)[i];
      && f.caseId == e.caseId && f.action == e.action
      && (f.message == e.message || f.message == None) && (f.attachment == e.attachment || f.attachment == None)
      && (f.message.Some? <==> e.message.Some? && e.message.value !in ms)
      && (f.attachment.Some? <==> e.attachment.Some? && e.attachment.value !in gone)
  {
  }

  lemma {:induction false} RowsWithoutTimes(tl: seq<Event>, ids: set<CaseId>, e: Event)
    ensures Times(RowsWithout(tl, ids), e) == if e.caseId in ids then 0 else Times(tl, e)
  {
    if tl != [] {
      var init, x := tl[..|tl| - 1], tl[|tl| - 1];
      RowsWithoutTimes(init, ids, e);
      assert tl == init + [x];
      TimesAppend(init, x, e);
      TimesAppend(RowsWithout(init, ids), x, e);
      assert x.caseId in ids ==> RowsWithout(tl, ids) == RowsWithout(init, ids);
    }
  }

  /** A row that still names whatever it once came from. */
  predicate Whole(e: Event) {
    e.message.Some? && (e.action == DocumentShared ==> e.attachment.Some?)
  }

  /** A row that names a deleted message is nowhere to be found, and neither is
      one that names a deleted attachment; any other keeps its count. */
  lemma {:induction false} ForgetTimes(tl: seq<Event>, attachments: Attachments, ms: set<MessageId>,
                                       gone: set<AttachmentId>, e: Event)
    requires Whole(e) && Shaped(tl, attachments)
    ensures Times(Forget(tl, ms, gone), e)
         == if e.message.value in ms || (e.attachment.Some? && e.attachment.value in gone) then 0 else Times(tl, e)
  {
    if tl != [] {
      var init, x := tl[..|tl| - 1], tl[|tl| - 1];
      assert tl == init + [x];
      assert forall y :: y in init ==> y in tl;
      ForgetTimes(init, attachments, ms, gone, e);
      assert Forget(tl, ms, gone) == Forget(init, ms, gone) + [Forgotten(x, ms, gone)];
      assert x in tl;
    }
  }

  // ---- One event for every link that is lost ----

  function LinksOf(keys: set<(CaseId, MessageId)>, c: CaseId): set<(CaseId, MessageId)> {
    set k | k in keys && k.0 == c
  }

  predicate Removals(rows: seq<Event>) {
    forall i :: 0 <= i < |rows| ==> rows[i] == Removed(rows[i].caseId)
  }

  /** The rows announce each of these links once, to the case that loses it. */
  ghost predicate Announces(rows: seq<Event>, lost: set<(CaseId, MessageId)>) {
    && Removals(rows)
    && (forall e :: e in rows ==> exists k :: k in lost && e == Removed(k.0))
    && (forall c :: Times(rows, Event(c, MailboxMessageRemoved, None, None)) == |LinksOf(lost, c)|)
  }

  lemma AnnouncesNext(rows: seq<Event>, lost: set<(CaseId, MessageId)>, k: (CaseId, MessageId))
    requires Announces(rows, lost) && k !in lost
    ensures Announces(rows + [Removed(k.0)], lost + {k})
  {
    forall e | e in rows + [Removed(k.0)]
      ensures exists j :: j in lost + {k} && e == Removed(j.0)
    {
      if e in rows {
        var j :| j in lost && e == Removed(j.0);
        assert j in lost + {k};
      } else {
        assert k in lost + {k};
      }
    }
    forall c: CaseId
      ensures Times(rows + [Removed(k.0)], Removed(c)) == |LinksOf(lost + {k}, c)|
    {
      if c == k.0 {
        assert LinksOf(lost + {k}, c) == LinksOf(lost, c) + {k};
      } else {
        assert LinksOf(lost + {k}, c) == LinksOf(lost, c);
      }
    }
  }

  method Announce(lost: set<(CaseId, MessageId)>) returns (rows: seq<Event>)
    ensures Announces(rows, lost)
  {
    rows := [];
    var todo := lost;
    while todo != {}
      invariant todo <= lost && Announces(rows, lost - todo)
      decreases todo
    {
      var k :| k in todo;
      AnnouncesNext(rows, lost - todo, k);
      assert lost - (todo - {k}) == lost - todo + {k};
      rows, todo := rows + [Removed(k.0)], todo - {k};
    }
    assert lost - todo == lost;
  }

  // ---- The deletion ----

  /** What is left of the links: those of other mailboxes' messages in the
      cases that survive. */
  ghost predicate LinksLeft(before: Links, after: Links, messages: Messages, b: MailboxId) {
    && (forall c, m :: (c, m) in after <==>
          (c, m) in before && m in messages && messages[m] != Some(b))
    && (forall k :: k in after && k in before ==> after[k] == before[k])
  }

  /** Cases that held only messages of the mailbox are gone; cases that held
      others too are marked stale; the rest is as it was, except that a deleted
      message is nobody's primary message. */
  ghost predicate CasesLeft(before: map<CaseId, CaseRow>, after: map<CaseId, CaseRow>, owned: set<CaseId>,
                            mixed: set<CaseId>, ms: set<MessageId>)
  {
    && after.Keys == before.Keys - owned
    && forall c :: c in after ==>
         after[c] == before[c].(aiStale := before[c].aiStale || c in mixed,
                                primary := if before[c].primary.Some? && before[c].primary.value in ms then None
                                           else before[c].primary)
  }

  function AttachmentsOf(attachments: Attachments, ms: set<MessageId>): set<AttachmentId> {
    set a | a in attachments && attachments[a] in ms
  }

  lemma RowsWithoutShape(tl: seq<Event>, attachments: Attachments, ids: set<CaseId>)
    requires Shaped(tl, attachments)
    ensures Shaped(RowsWithout(tl, ids), attachments)
    ensures forall e :: e in RowsWithout(tl, ids) ==> e in tl && e.caseId !in ids
  {
    forall e | e in RowsWithout(tl, ids)
      ensures e in tl && e.caseId !in ids
    {
      RowsWithoutTimes(tl, ids, e);
      assert e in multiset(RowsWithout(tl, ids));
    }
  }

  lemma KeptAfterDropping(links: Links, tl: seq<Event>, attachments: Attachments, ids: set<CaseId>, d: CaseId)
    requires Kept(links, tl, attachments, d)
    ensures Kept(Survivors(links, ids), RowsWithout(tl, ids), attachments, d)
  {
    forall e: Event | e.caseId == d
      ensures Times(RowsWithout(tl, ids), e) == if d in ids then 0 else Times(tl, e)
    {
      RowsWithoutTimes(tl, ids, e);
    }
  }

  function SharesWithout(shares: map<(CaseId, UserId), Permission>, ids: set<CaseId>)
    : map<(CaseId, UserId), Permission>
  {
    map k | k in shares && k.0 !in ids :: shares[k]
  }

  function HangingWithout(rows: map<nat, CaseId>, ids: set<CaseId>): map<nat, CaseId> {
    map n | n in rows && rows[n] !in ids :: rows[n]
  }

  /** What hangs on the cases that are left is as it was; nothing else is left. */
  ghost predicate HangingLeft(before: map<nat, CaseId>, after: map<nat, CaseId>, left: set<CaseId>) {
    && (forall n :: n in after <==> n in before && before[n] in left)
    && (forall n :: n in after && n in before ==> after[n] == before[n])
  }

  ghost predicate SharesLeft(before: map<(CaseId, UserId), Permission>, after: map<(CaseId, UserId), Permission>,
                             left: set<CaseId>)
  {
    && (forall c, u :: (c, u) in after <==> (c, u) in before && c in left)
    && (forall k :: k in after && k in before ==> after[k] == before[k])
  }

  lemma WithoutIsLeft(shares: map<(CaseId, UserId), Permission>, notes: map<nat, CaseId>, evidence: map<nat, CaseId>,
                      cases: set<CaseId>, ids: set<CaseId>)
    requires forall c, u :: (c, u) in shares ==> c in cases
    requires forall n :: n in notes ==> notes[n] in cases
    requires forall n :: n in evidence ==> evidence[n] in cases
    ensures SharesLeft(shares, SharesWithout(shares, ids), cases - ids)
    ensures HangingLeft(notes, HangingWithout(notes, ids), cases - ids)
    ensures HangingLeft(evidence, HangingWithout(evidence, ids), cases - ids)
  {
  }

  /** Deleting cases takes everything that hangs on them. */
  method DropCases(store: CaseStore, ids: set<CaseId>)
    requires store.References()
    modifies store`cases, store`links, store`timeline, store`shares, store`notes, store`evidence
    ensures store.References() && store.StepsKept()
    ensures store.cases == old(store.cases) - ids
    ensures store.links == Survivors(old(store.links), ids)
    ensures store.timeline == RowsWithout(old(store.timeline), ids)
    ensures SharesLeft(old(store.shares), store.shares, store.cases.Keys)
    ensures HangingLeft(old(store.notes), store.notes, store.cases.Keys)
    ensures HangingLeft(old(store.evidence), store.evidence, store.cases.Keys)
  {
    WithoutIsLeft(store.shares, store.notes, store.evidence, store.cases.Keys, ids);
    assert (store.cases - ids).Keys == store.cases.Keys - ids;
    DropLinked(store, ids);
    DropHanging(store, ids);
    store.cases := store.cases - ids;
  }

  method DropHanging(store: CaseStore, ids: set<CaseId>)
    requires store.References()
    modifies store`shares, store`notes, store`evidence
    ensures store.References()
    ensures store.shares == SharesWithout(old(store.shares), ids)
    ensures store.notes == HangingWithout(old(store.notes), ids)
    ensures store.evidence == HangingWithout(old(store.evidence), ids)
  {
    store.shares := SharesWithout(store.shares, ids);
    store.notes := HangingWithout(store.notes, ids);
    store.evidence := HangingWithout(store.evidence, ids);
  }

  datatype Scope = OneCase(c: CaseId) | AllCases | WithStatus(status: Status)

  predicate InScope(cases: map<CaseId, CaseRow>, scope: Scope, c: CaseId) {
    c in cases && match scope
                  case OneCase(d) => c == d
                  case AllCases => true
                  case WithStatus(status) => cases[c].status == status
  }

  /** Deletes the cases in the scope that the user can see: a given one, all,
      or those with a status. */
  method DeleteCases(store: CaseStore, scope: Scope, user: User) returns (deleted: nat)
    requires store.References()
    modifies store`cases, store`links, store`timeline, store`shares, store`notes, store`evidence
    ensures store.References() && store.StepsKept()
    ensures deleted == |old(store.cases)| - |store.cases|
    ensures forall c :: c in store.cases <==>
              c in old(store.cases) && !(InScope(old(store.cases), scope, c) && old(store.CanRead(c, user)))
    ensures forall c :: c in store.cases ==> store.cases[c] == old(store.cases)[c]
    ensures scope.OneCase? ==> forall c :: c in old(store.cases) ==>
              (c in store.cases <==> c != scope.c || !old(store.CanRead(c, user)))
    ensures scope.AllCases? ==> forall c :: c in old(store.cases) ==>
              (c in store.cases <==> !old(store.CanRead(c, user)))
    ensures scope.WithStatus? ==> forall c :: c in old(store.cases) ==>
              (c in store.cases <==> old(store.cases)[c].status != scope.status || !old(store.CanRead(c, user)))
    ensures forall c, m :: (c, m) in store.links <==> (c, m) in old(store.links) && c in store.cases
    ensures forall k :: k in store.links && k in old(store.links) ==> store.links[k] == old(store.links)[k]
    ensures store.timeline == RowsWithout(old(store.timeline), old(store.cases.Keys) - store.cases.Keys)
    ensures SharesLeft(old(store.shares), store.shares, store.cases.Keys)
    ensures HangingLeft(old(store.notes), store.notes, store.cases.Keys)
    ensures HangingLeft(old(store.evidence), store.evidence, store.cases.Keys)
  {
    var ids := set c | c in store.cases && InScope(store.cases, scope, c) && store.CanRead(c, user);
    deleted := |ids|;
    FewerKeys(store.cases, store.cases - ids, ids);
    DropCases(store, ids);
    assert old(store.cases.Keys) - store.cases.Keys == ids;
  }

  method DropLinked(store: CaseStore, ids: set<CaseId>)
    requires store.References()
    modifies store`links, store`timeline
    ensures store.References() && store.StepsKept()
    ensures store.links == Survivors(old(store.links), ids)
    ensures store.timeline == RowsWithout(old(store.timeline), ids)
    ensures forall e :: e in store.timeline ==> e.caseId !in ids
  {
    RowsWithoutShape(store.timeline, store.attachments, ids);
    forall d: CaseId | store.InStep(d)
      ensures Kept(Survivors(store.links, ids), RowsWithout(store.timeline, ids), store.attachments, d)
    {
      KeptAfterDropping(store.links, store.timeline, store.attachments, ids, d);
    }
    store.links := Survivors(store.links, ids);
    store.timeline := RowsWithout(store.timeline, ids);
  }

  function LinksWithout(links: Links, ms: set<MessageId>): Links {
    map k | k in links && k.1 !in ms :: links[k]
  }

  lemma ShapedAfterForgetting(tl: seq<Event>, attachments: Attachments, ms: set<MessageId>, gone: set<AttachmentId>)
    requires Shaped(tl, attachments) && AttachmentsOf(attachments, ms) <= gone
    ensures Shaped(Forget(tl, ms, gone), attachments - gone)
    ensures forall e :: e in Forget(tl, ms, gone) ==> exists x :: x in tl && e == Forgotten(x, ms, gone)
  {
  }

  /** Deleting messages with their attachments and links, or attachments alone,
      keeps every case in step that was. */
  lemma KeptAfterForgetting(links: Links, tl: seq<Event>, attachments: Attachments, ms: set<MessageId>,
                            gone: set<AttachmentId>, d: CaseId)
    requires Kept(links, tl, attachments, d) && Shaped(tl, attachments) && AttachmentsOf(attachments, ms) <= gone
    ensures Kept(LinksWithout(links, ms), Forget(tl, ms, gone), attachments - gone, d)
  {
    var rest, told, kept := LinksWithout(links, ms), Forget(tl, ms, gone), attachments - gone;
    forall m
      ensures Times(told, Email(d, m)) == if (d, m) in rest then 1 else 0
    {
      ForgetTimes(tl, attachments, ms, gone, Email(d, m));
    }
    forall a | a in kept
      ensures Times(told, Document(d, kept[a], a)) <= 1
    {
      ForgetTimes(tl, attachments, ms, gone, Document(d, kept[a], a));
    }
    ShapedAfterForgetting(tl, attachments, ms, gone);
    forall e | Times(told, e) > 0 && e.caseId == d && e.message.Some?
      ensures (d, e.message.value) in rest
    {
      Occurs(told, e);
      var x :| x in tl && e == Forgotten(x, ms, gone);
      Occurs(tl, x);
    }
  }

  /** Deleting messages deletes their attachments and links, and leaves the rows
      that named them nameless. */
  method DropMessages(store: CaseStore, ms: set<MessageId>) returns (count: nat)
    requires store.References() && ms <= store.messages.Keys
    modifies store`messages, store`attachments, store`links, store`timeline, store`cases
    ensures store.References() && store.StepsKept()
    ensures count == |old(store.messages)| - |store.messages|
    ensures store.messages == old(store.messages) - ms
    ensures store.attachments == old(store.attachments) - AttachmentsOf(old(store.attachments), ms)
    ensures forall a :: a in store.attachments <==> a in old(store.attachments) && old(store.attachments)[a] !in ms
    ensures store.links == LinksWithout(old(store.links), ms)
    ensures forall c, m :: (c, m) in store.links <==> (c, m) in old(store.links) && m !in ms
    ensures forall k :: k in store.links && k in old(store.links) ==> store.links[k] == old(store.links)[k]
    ensures store.timeline == Forget(old(store.timeline), ms, AttachmentsOf(old(store.attachments), ms))
    ensures CasesLeft(old(store.cases), store.cases, {}, {}, ms)
  {
    count := |ms|;
    FewerKeys(store.messages, store.messages - ms, ms);
    ForgetRows(store, ms, AttachmentsOf(store.attachments, ms));
    store.messages := store.messages - ms;
    store.links := LinksWithout(store.links, ms);
    store.cases := map c | c in store.cases ::
      if store.cases[c].primary.Some? && store.cases[c].primary.value in ms
      then store.cases[c].(primary := None) else store.cases[c];
  }

  /** Deletes attachments; the rows that named them, or messages that are about
      to go, no longer do. */
  method ForgetRows(store: CaseStore, ms: set<MessageId>, gone: set<AttachmentId>)
    requires store.References() && AttachmentsOf(store.attachments, ms) <= gone
    modifies store`attachments, store`timeline
    ensures store.References()
    ensures forall a :: a in store.attachments ==> store.attachments[a] !in ms
    ensures forall d: CaseId :: old(store.InStep(d)) ==>
              Kept(LinksWithout(store.links, ms), store.timeline, store.attachments, d)
    ensures store.attachments == old(store.attachments) - gone
    ensures store.timeline == Forget(old(store.timeline), ms, gone)
  {
    ShapedAfterForgetting(store.timeline, store.attachments, ms, gone);
    forall d: CaseId | store.InStep(d)
      ensures Kept(LinksWithout(store.links, ms), Forget(store.timeline, ms, gone), store.attachments - gone, d)
    {
      KeptAfterForgetting(store.links, store.timeline, store.attachments, ms, gone, d);
    }
    store.attachments := store.attachments - gone;
    store.timeline := Forget(store.timeline, ms, gone);
  }

  /** Deletes the trace of one attachment; its message and its links stay, and
      so do its "document shared" rows, without their origin. */
  method DropAttachment(store: CaseStore, a: AttachmentId) returns (deleted: bool)
    requires store.References()
    modifies store`attachments, store`timeline
    ensures store.References() && store.StepsKept()
    ensures deleted == (a in old(store.attachments))
    ensures store.attachments == old(store.attachments) - {a}
    ensures store.timeline == Forget(old(store.timeline), {}, {a})
  {
    deleted := a in store.attachments;
    ForgetRows(store, {}, {a});
    assert LinksWithout(store.links, {}) == store.links;
  }

  /** Announcements made before the messages go outlive them. */
  lemma ForgetBeforeRemovals(tl: seq<Event>, rows: seq<Event>, ms: set<MessageId>, gone: set<AttachmentId>)
    requires Removals(rows)
    ensures Forget(tl + rows, ms, gone) == Forget(tl, ms, gone) + rows
  {
  }

  /** Removal events change nothing about links and their rows. */
  lemma KeptWithRemovals(links: Links, tl: seq<Event>, attachments: Attachments, rows: seq<Event>, d: CaseId)
    requires Kept(links, tl, attachments, d) && Removals(rows)
    ensures Kept(links, tl + rows, attachments, d)
  {
    forall e: Event | e.message.Some?
      ensures Times(tl + rows, e) == Times(tl, e)
    {
      Occurs(rows, e);
    }
  }

  method AnnounceLosses(store: CaseStore, b: MailboxId, mixed: set<CaseId>) returns (told: seq<Event>)
    requires store.References() && mixed <= store.cases.Keys
    modifies store`timeline, store`cases
    ensures store.References() && store.StepsKept()
    ensures Announces(told, LostLinks(store.links, store.messages, b, mixed))
    ensures store.timeline == old(store.timeline) + told
    ensures CasesLeft(old(store.cases), store.cases, {}, mixed, {})
  {
    told := Announce(LostLinks(store.links, store.messages, b, mixed));
    forall d: CaseId | store.InStep(d)
      ensures Kept(store.links, store.timeline + told, store.attachments, d)
    {
      KeptWithRemovals(store.links, store.timeline, store.attachments, told, d);
    }
    store.timeline := store.timeline + told;
    store.cases := map c | c in store.cases ::
      if c in mixed then store.cases[c].(aiStale := true) else store.cases[c];
  }

  /** The links of the case that are there before and not after. */
  ghost function LinksLost(before: Links, after: Links, c: CaseId): set<(CaseId, MessageId)> {
    set k | k in before && k !in after && k.0 == c
  }

  /** Each case that is left is told of every link that it loses. */
  lemma AnnouncedAre(before: Links, after: Links, messages: Messages, b: MailboxId, owned: set<CaseId>,
                     mixed: set<CaseId>, left: set<CaseId>, rows: seq<Event>)
    requires LinksLeft(before, after, messages, b) && Announces(rows, LostLinks(before, messages, b, mixed))
    requires owned == Owned(before, messages, b) && mixed == Mixed(before, messages, b)
    requires forall c, m :: (c, m) in before ==> m in messages && (c in left <==> c !in owned)
    requires owned !! left
    ensures forall c :: Times(rows, Event(c, MailboxMessageRemoved, None, None))
                     == if c in left then |LinksLost(before, after, c)| else 0
  {
    forall c: CaseId
      ensures LinksOf(LostLinks(before, messages, b, mixed), c) == if c in left then LinksLost(before, after, c) else {}
    {
    }
  }

  /** Deletes everything that was indexed from a mailbox: the cases that held
      nothing else go whole, the others are told what they lose. */
  method Delete(store: CaseStore, b: MailboxId) returns (counts: Counts, ghost announced: seq<Event>)
    requires store.References()
    modifies store
    ensures store.References() && store.StepsKept()
    ensures var ms := MessagesIn(old(store.messages), b);
      && counts.messages == |ms|
      && store.messages == old(store.messages) - ms
      && store.attachments == old(store.attachments) - AttachmentsOf(old(store.attachments), ms)
    ensures forall m :: m in store.messages <==> m in old(store.messages) && old(store.messages)[m] != Some(b)
    ensures forall a :: a in store.attachments <==>
              a in old(store.attachments) && old(store.attachments)[a] in store.messages
    ensures LinksLeft(old(store.links), store.links, old(store.messages), b)
    ensures var owned := Owned(old(store.links), old(store.messages), b);
      counts.casesDeleted == |owned|
    ensures SharesLeft(old(store.shares), store.shares, store.cases.Keys)
    ensures HangingLeft(old(store.notes), store.notes, store.cases.Keys)
    ensures HangingLeft(old(store.evidence), store.evidence, store.cases.Keys)
    ensures var ms, owned := MessagesIn(old(store.messages), b), Owned(old(store.links), old(store.messages), b);
      var mixed := Mixed(old(store.links), old(store.messages), b);
      && counts.casesAffected == |mixed|
      && CasesLeft(old(store.cases), store.cases, owned, mixed, ms)
      && Announces(announced, LostLinks(old(store.links), old(store.messages), b, mixed))
      && store.timeline == Forget(RowsWithout(old(store.timeline), owned), ms,
                                  AttachmentsOf(old(store.attachments), ms)) + announced
    ensures forall c :: Times(announced, Event(c, MailboxMessageRemoved, None, None))
                     == if c in store.cases then |LinksLost(old(store.links), store.links, c)| else 0
  {
    var touched, others := Touched(store.links, store.messages, b), Others(store.links, store.messages, b);
    var owned, mixed := touched - others, touched * others;
    TouchedAre(store.links, store.messages, b);
    SameLosses(store.links, store.messages, b, owned, mixed);
    var n, told := DeleteRows(store, b, owned, mixed);
    announced := told;
    counts := Counts(n, |owned|, |mixed|);
    LeftOver(old(store.links), store.links, old(store.messages), b);
    AnnouncedAre(old(store.links), store.links, old(store.messages), b, owned, mixed, store.cases.Keys, announced);
  }

  method DeleteRows(store: CaseStore, b: MailboxId, owned: set<CaseId>, mixed: set<CaseId>)
    returns (count: nat, told: seq<Event>)
    requires store.References() && owned !! mixed && owned + mixed <= store.cases.Keys
    modifies store
    ensures store.References() && store.StepsKept()
    ensures var ms := MessagesIn(old(store.messages), b);
      && count == |ms|
      && store.messages == old(store.messages) - ms
      && store.attachments == old(store.attachments) - AttachmentsOf(old(store.attachments), ms)
      && store.links == LinksWithout(Survivors(old(store.links), owned), ms)
      && store.timeline == Forget(RowsWithout(old(store.timeline), owned), ms,
                                  AttachmentsOf(old(store.attachments), ms)) + told
      && CasesLeft(old(store.cases), store.cases, owned, mixed, ms)
    ensures SharesLeft(old(store.shares), store.shares, store.cases.Keys)
    ensures HangingLeft(old(store.notes), store.notes, store.cases.Keys)
    ensures HangingLeft(old(store.evidence), store.evidence, store.cases.Keys)
    ensures Announces(told, LostLinks(Survivors(old(store.links), owned), old(store.messages), b, mixed))
  {
    DropCases(store, owned);
    ghost var between := store.cases;
    count, told := DeleteAnnounced(store, b, mixed);
    CasesLeftTwice(old(store.cases), between, store.cases, owned, mixed, MessagesIn(old(store.messages), b));
  }

  method DeleteAnnounced(store: CaseStore, b: MailboxId, mixed: set<CaseId>) returns (count: nat, told: seq<Event>)
    requires store.References() && mixed <= store.cases.Keys
    modifies store`messages, store`attachments, store`links, store`timeline, store`cases
    ensures store.References() && store.StepsKept()
    ensures var ms := MessagesIn(old(store.messages), b);
      && count == |ms|
      && store.messages == old(store.messages) - ms
      && store.attachments == old(store.attachments) - AttachmentsOf(old(store.attachments), ms)
      && store.links == LinksWithout(old(store.links), ms)
      && store.timeline == Forget(old(store.timeline), ms, AttachmentsOf(old(store.attachments), ms)) + told
      && CasesLeft(old(store.cases), store.cases, {}, mixed, ms)
    ensures Announces(told, LostLinks(old(store.links), old(store.messages), b, mixed))
  {
    told := AnnounceLosses(store, b, mixed);
    ghost var ms := MessagesIn(old(store.messages), b);
    count := DropMessages(store, MessagesIn(store.messages, b));
    FewerKeys(old(store.messages), store.messages, ms);
    ForgetBeforeRemovals(old(store.timeline), told, ms, AttachmentsOf(old(store.attachments), ms));
  }

  lemma CasesLeftTwice(before: map<CaseId, CaseRow>, between: map<CaseId, CaseRow>, after: map<CaseId, CaseRow>,
                       owned: set<CaseId>, mixed: set<CaseId>, ms: set<MessageId>)
    requires between == before - owned && CasesLeft(between, after, {}, mixed, ms)
    ensures CasesLeft(before, after, owned, mixed, ms)
  {
  }

  lemma SameLosses(links: Links, messages: Messages, b: MailboxId, owned: set<CaseId>, mixed: set<CaseId>)
    requires owned !! mixed && forall c, m :: (c, m) in links ==> m in messages
    ensures LostLinks(Survivors(links, owned), messages, b, mixed) == LostLinks(links, messages, b, mixed)
  {
  }

  function LostLinks(links: Links, messages: Messages, b: MailboxId, ids: set<CaseId>): set<(CaseId, MessageId)> {
    set k | k in links && k.0 in ids && k.1 in messages && messages[k.1] == Some(b)
  }

  lemma LeftOver(before: Links, after: Links, messages: Messages, b: MailboxId)
    requires forall c, m :: (c, m) in before ==> m in messages
    requires after == LinksWithout(Survivors(before, Owned(before, messages, b)), MessagesIn(messages, b))
    ensures LinksLeft(before, after, messages, b)
  {
  }

  lemma FewerKeys<K, V>(before: map<K, V>, after: map<K, V>, gone: set<K>)
    requires gone <= before.Keys && after.Keys == before.Keys - gone
    ensures |after| == |before| - |gone|
  {
    assert before.Keys == after.Keys + gone;
  }

  /** The preview announces what the deletion on the same state then does: how
      many messages and cases disappear, and how many surviving cases lose a
      link. */
  method PreviewThenDelete(store: CaseStore, b: MailboxId)
    returns (preview: Counts, counts: Counts, ghost losers: set<CaseId>)
    requires store.References()
    modifies store
    ensures store.References() && store.StepsKept()
    ensures preview == counts
    ensures preview.messages == |old(store.messages)| - |store.messages|
    ensures preview.casesDeleted == |old(store.cases)| - |store.cases|
    ensures preview.casesAffected == |losers|
    ensures forall c :: c in losers <==>
              c in store.cases && exists m :: (c, m) in old(store.links) && (c, m) !in store.links
  {
    ghost var announced;
    preview := Preview(store, b);
    counts, announced := Delete(store, b);
    FewerKeys(old(store.messages), store.messages, MessagesIn(old(store.messages), b));
    FewerKeys(old(store.cases), store.cases, Owned(old(store.links), old(store.messages), b));
    losers := Mixed(old(store.links), old(store.messages), b);
    LosersLoseLinks(old(store.links), store.links, old(store.messages), b, old(store.cases.Keys), store.cases.Keys);
  }

  lemma LosersLoseLinks(before: Links, after: Links, messages: Messages, b: MailboxId, cases: set<CaseId>,
                        left: set<CaseId>)
    requires forall c, m :: (c, m) in before ==> c in cases && m in messages
    requires left == cases - Owned(before, messages, b) && LinksLeft(before, after, messages, b)
    ensures forall c :: c in Mixed(before, messages, b) <==>
                          c in left && exists m :: (c, m) in before && (c, m) !in after
  {
  }
}
