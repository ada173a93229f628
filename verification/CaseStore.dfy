/** The tables of the case files, and the operations that link messages to
    cases and keep the timeline in step. */
module CaseStore {

  import opened Options
  import opened CaseTables

  const CONFIDENCE_CONVERSATION: real := 1.0
  const CONFIDENCE_CR_KEYWORD: real := 0.7
  const CONFIDENCE_HEURISTIC: real := 0.4

  datatype Status = Open | Closed

  datatype Permission = Read | Edit

  datatype User = User(id: UserId, isAdmin: bool)

  datatype CaseRow = CaseRow(status: Status, primary: Option<MessageId>, externalCode: Option<string>,
                             owner: Option<UserId>, aiStale: bool, pendingReopen: nat)

  datatype Outcome = Ok | NotFound | CaseIsClosed | CaseNotClosed | Denied | MessageNotFound

  /** An exclusion rule is local to a case, or global for the cases of an
      owner. */
  datatype Rule = Rule(enabled: bool, caseId: Option<CaseId>, owner: Option<UserId>, matches: MessageId -> bool)

  /** What the searches return on a fixed index, for one user's mailboxes, and
      the exclusion rules. */
  datatype Routes = Routes(
    conversation: MessageId -> seq<MessageId>,
    keyword: string -> seq<MessageId>,
    heuristic: MessageId -> seq<MessageId>,
    rules: seq<Rule>)

  /** The rule is local to the case, if there is one, or global to its owner. */
  predicate Applies(r: Rule, c: Option<CaseId>, owner: Option<UserId>) {
    r.enabled && if r.caseId.Some? then r.caseId == c else owner.Some? && r.owner == owner
  }

  /** Some rule for the case, or for all cases of its owner, takes the message
      out. */
  predicate Excluded(routes: Routes, c: CaseId, owner: Option<UserId>, m: MessageId) {
    RuledOut(routes, Some(c), owner, m)
  }

  predicate RuledOut(routes: Routes, c: Option<CaseId>, owner: Option<UserId>, m: MessageId) {
    exists i :: 0 <= i < |routes.rules| && Applies(routes.rules[i], c, owner) && routes.rules[i].matches(m)
  }

  /** A rule takes a message out for a case if it is enabled, matches, and is
      local to the case, or to none and belongs to the owner of the case. */
  lemma RuledOutIff(routes: Routes, c: Option<CaseId>, owner: Option<UserId>, m: MessageId)
    ensures RuledOut(routes, c, owner, m) <==>
              exists i :: 0 <= i < |routes.rules|
                          && routes.rules[i].enabled && routes.rules[i].matches(m)
                          && ((c.Some? && routes.rules[i].caseId == c)
                              || (owner.Some? && routes.rules[i].caseId == None && routes.rules[i].owner == owner))
  {
    if RuledOut(routes, c, owner, m) {
      var i :| 0 <= i < |routes.rules| && Applies(routes.rules[i], c, owner) && routes.rules[i].matches(m);
      assert routes.rules[i].enabled;
    }
    if i :| 0 <= i < |routes.rules| && routes.rules[i].enabled && routes.rules[i].matches(m)
            && ((c.Some? && routes.rules[i].caseId == c)
                || (owner.Some? && routes.rules[i].caseId == None && routes.rules[i].owner == owner)) {
      assert Applies(routes.rules[i], c, owner);
    }
  }

  /** When a case is created or added to, the rules are only asked for a case
      that has an owner. */
  function Allowed(routes: Routes, c: Option<CaseId>, owner: Option<UserId>, ids: seq<MessageId>): seq<MessageId> {
    if ids == [] then []
    else
      var m := ids[|ids| - 1];
      Allowed(routes, c, owner, ids[..|ids| - 1])
      + if owner.Some? && RuledOut(routes, c, owner, m) then [] else [m]
  }

  lemma {:induction false} AllowedAre(routes: Routes, c: Option<CaseId>, owner: Option<UserId>, ids: seq<MessageId>,
                                      m: MessageId)
    ensures m in Allowed(routes, c, owner, ids) <==>
              m in ids && !(owner.Some? && RuledOut(routes, c, owner, m))
  {
    if ids != [] {
      AllowedAre(routes, c, owner, ids[..|ids| - 1], m);
      assert ids == ids[..|ids| - 1] + [ids[|ids| - 1]];
    }
  }

  /** The first that is kept is the first of the list that no rule takes out. */
  lemma {:induction false} AllowedFirst(routes: Routes, c: Option<CaseId>, owner: Option<UserId>, ids: seq<MessageId>,
                                        i: nat)
    requires i < |ids| && !(owner.Some? && RuledOut(routes, c, owner, ids[i]))
    requires owner.Some? || i == 0
    requires forall j :: 0 <= j < i ==> RuledOut(routes, c, owner, ids[j])
    ensures Allowed(routes, c, owner, ids) != [] && Allowed(routes, c, owner, ids)[0] == ids[i]
  {
    var n := |ids| - 1;
    forall j | 0 <= j < i
      ensures RuledOut(routes, c, owner, ids[..n][j])
    {
      assert ids[..n][j] == ids[j];
    }
    if i < n {
      AllowedFirst(routes, c, owner, ids[..n], i);
    } else {
      NoneAllowed(routes, c, owner, ids[..n]);
    }
  }

  lemma {:induction false} NoneAllowed(routes: Routes, c: Option<CaseId>, owner: Option<UserId>, ids: seq<MessageId>)
    requires owner.Some? || ids == []
    requires forall j :: 0 <= j < |ids| ==> RuledOut(routes, c, owner, ids[j])
    ensures Allowed(routes, c, owner, ids) == []
  {
    if ids != [] {
      var n := |ids| - 1;
      forall j | 0 <= j < n
        ensures RuledOut(routes, c, owner, ids[..n][j])
      {
        assert ids[..n][j] == ids[j];
      }
      NoneAllowed(routes, c, owner, ids[..n]);
    }
  }

  // ---- Where a new case comes from ----

  /** A case is created from a conversation, whose messages the search found,
      from a code, or from one message. */
  datatype Seed = FromConversation(found: seq<MessageId>) | FromCode(code: string) | FromMessage(message: MessageId)

  predicate Visible(mailbox: Option<MailboxId>, accessible: Option<set<MailboxId>>) {
    accessible == None || mailbox == None || mailbox.value in accessible.value
  }

  /** The messages that the case starts with.  Rules of the creator apply to
      what a search found, but not to a message that was named. */
  function SeedsOf(routes: Routes, messages: Messages, accessible: Option<set<MailboxId>>, user: UserId, seed: Seed)
    : seq<MessageId>
  {
    match seed
    case FromConversation(found) => Allowed(routes, None, Some(user), found)
    case FromCode(code) => Allowed(routes, None, Some(user), routes.keyword(code))
    case FromMessage(m) => if m in messages && Visible(messages[m], accessible) then [m] else []
  }

  function SourceOf(seed: Seed): Source {
    match seed
    case FromConversation(_) => Conversation
    case FromCode(_) => CrKeyword
    case FromMessage(_) => Manual
  }

  function CodeOf(seed: Seed): Option<string> {
    if seed.FromCode? then Some(seed.code) else None
  }

  function FirstOf(ids: seq<MessageId>): Option<MessageId> {
    if ids == [] then None else Some(ids[0])
  }

  /** What the heuristic search adds, minus what the rules of the case and of
      its owner take out. */
  function RelatedTo(routes: Routes, primary: Option<MessageId>, c: CaseId, owner: Option<UserId>): seq<MessageId> {
    if primary.Some? then Allowed(routes, Some(c), owner, routes.heuristic(primary.value)) else []
  }

  /** What a search found and no rule of the creator takes out, or the message
      that was named, if it is indexed and in a mailbox that the user can see. */
  lemma SeedsAre(routes: Routes, messages: Messages, accessible: Option<set<MailboxId>>, user: UserId, seed: Seed,
                 m: MessageId)
    ensures var seeds := SeedsOf(routes, messages, accessible, user, seed);
      && (seed.FromConversation? ==> (m in seeds <==> m in seed.found && !RuledOut(routes, None, Some(user), m)))
      && (seed.FromCode? ==> (m in seeds <==> m in routes.keyword(seed.code) && !RuledOut(routes, None, Some(user), m)))
      && (seed.FromMessage? ==>
            (m in seeds <==>
               && m == seed.message && m in messages
               && (accessible.Some? && messages[m].Some? ==> messages[m].value in accessible.value)))
  {
    match seed
    case FromConversation(found) => AllowedAre(routes, None, Some(user), found, m);
    case FromCode(code) => AllowedAre(routes, None, Some(user), routes.keyword(code), m);
    case FromMessage(_) =>
  }

  lemma SeedsAreIndexed(routes: Routes, messages: Messages, accessible: Option<set<MailboxId>>, user: UserId,
                        seed: Seed, m: MessageId)
    requires Sound(routes, messages)
    requires seed.FromConversation? ==> forall n :: n in seed.found ==> n in messages
    requires m in SeedsOf(routes, messages, accessible, user, seed)
    ensures m in messages && (!seed.FromMessage? ==> !RuledOut(routes, None, Some(user), m))
  {
    match seed
    case FromConversation(found) => AllowedAre(routes, None, Some(user), found, m);
    case FromCode(code) => AllowedAre(routes, None, Some(user), routes.keyword(code), m);
    case FromMessage(_) =>
  }

  /** All that the search finds for the primary message, but for what a rule of
      the case or of its owner takes out. */
  lemma RelatedAre(routes: Routes, primary: Option<MessageId>, c: CaseId, owner: Option<UserId>, m: MessageId)
    ensures m in RelatedTo(routes, primary, c, owner) <==>
              && primary.Some? && m in routes.heuristic(primary.value)
              && !(owner.Some? && RuledOut(routes, Some(c), owner, m))
  {
    if primary.Some? {
      AllowedAre(routes, Some(c), owner, routes.heuristic(primary.value), m);
    }
  }

  lemma RelatedAreIndexed(routes: Routes, messages: Messages, primary: Option<MessageId>, c: CaseId,
                          owner: Option<UserId>, m: MessageId)
    requires Sound(routes, messages) && m in RelatedTo(routes, primary, c, owner)
    ensures m in messages && !(owner.Some? && Excluded(routes, c, owner, m))
  {
    RelatedAre(routes, primary, c, owner, m);
  }

  type Messages = map<MessageId, Option<MailboxId>>

  /** The searches only find messages that are indexed. */
  ghost predicate Sound(routes: Routes, messages: Messages) {
    && (forall p, m :: m in routes.conversation(p) ==> m in messages)
    && (forall k, m :: m in routes.keyword(k) ==> m in messages)
    && (forall p, m :: m in routes.heuristic(p) ==> m in messages)
  }

  lemma SearchedAreIndexed(routes: Routes, messages: Messages, accessible: Option<set<MailboxId>>, user: UserId,
                           seed: Seed, c: CaseId, owner: Option<UserId>)
    requires Sound(routes, messages)
    requires seed.FromConversation? ==> forall n :: n in seed.found ==> n in messages
    ensures var seeds := SeedsOf(routes, messages, accessible, user, seed);
      && (forall m :: m in seeds || m in RelatedTo(routes, FirstOf(seeds), c, owner) ==> m in messages)
      && (owner == Some(user) && !seed.FromMessage? ==>
            forall m :: m in seeds || m in RelatedTo(routes, FirstOf(seeds), c, owner) ==>
              !RuledOut(routes, None, Some(user), m))
  {
    var seeds := SeedsOf(routes, messages, accessible, user, seed);
    forall m | m in seeds
      ensures m in messages && (!seed.FromMessage? ==> !RuledOut(routes, None, Some(user), m))
    {
      SeedsAreIndexed(routes, messages, accessible, user, seed, m);
    }
    forall m | m in RelatedTo(routes, FirstOf(seeds), c, owner)
      ensures m in messages && (owner == Some(user) ==> !RuledOut(routes, None, Some(user), m))
    {
      RelatedAreIndexed(routes, messages, FirstOf(seeds), c, owner, m);
      if owner == Some(user) && RuledOut(routes, None, Some(user), m) {
        var i :| 0 <= i < |routes.rules| && Applies(routes.rules[i], None, Some(user)) && routes.rules[i].matches(m);
        assert Applies(routes.rules[i], Some(c), owner);
      }
    }
  }

  // ---- Which messages belong to a case ----

  /** Whether the route finds the message for the case. */
  predicate Finds(routes: Routes, row: CaseRow, messages: Messages, source: Source, m: MessageId) {
    match source
    case Conversation =>
      row.primary.Some? && row.primary.value in messages && m in routes.conversation(row.primary.value)
    case CrKeyword =>
      row.externalCode.Some? && row.externalCode.value != "" && m in routes.keyword(row.externalCode.value)
    case Heuristic =>
      row.primary.Some? && row.primary.value in messages && m in routes.heuristic(row.primary.value)
    case Manual => false
  }

  function Confidence(source: Source): real {
    match source
    case Conversation => CONFIDENCE_CONVERSATION
    case CrKeyword => CONFIDENCE_CR_KEYWORD
    case Heuristic => CONFIDENCE_HEURISTIC
    case Manual => 1.0
  }

  predicate Distinct(rows: seq<LinkRow>) {
    forall i, j :: 0 <= i < j < |rows| ==> rows[i].message != rows[j].message
  }

  /** A new message for the case: some route finds it, it is not linked, and no
      rule that is local to the case or global to its owner excludes it. */
  ghost predicate IsNew(routes: Routes, row: CaseRow, messages: Messages, links: Links, c: CaseId, m: MessageId) {
    && (exists source :: Finds(routes, row, messages, source, m))
    && (c, m) !in links
    && !Excluded(routes, c, row.owner, m)
  }

  /** The rows are exactly the new messages, each once, and each attributed to
      a route that finds it and that no better route beats. */
  ghost predicate NewMatches(routes: Routes, row: CaseRow, messages: Messages, links: Links, c: CaseId,
                             rows: seq<LinkRow>)
  {
    && Distinct(rows)
    && (forall m :: Mentions(rows, m) <==> IsNew(routes, row, messages, links, c, m))
    && (forall i :: 0 <= i < |rows| ==>
          var l := rows[i].link;
          && l.relationship == Related && l.confidence == Confidence(l.source)
          && Finds(routes, row, messages, l.source, rows[i].message)
          && (forall s :: Finds(routes, row, messages, s, rows[i].message) ==> Confidence(s) <= l.confidence))
  }

  /** A message is new exactly if the conversation of the primary message, the
      code or the heuristic search finds it, it is not linked, and no rule takes
      it out. */
  lemma IsNewIff(routes: Routes, row: CaseRow, messages: Messages, links: Links, c: CaseId, m: MessageId)
    ensures IsNew(routes, row, messages, links, c, m) <==>
              && (c, m) !in links && !RuledOut(routes, Some(c), row.owner, m)
              && ((row.primary.Some? && row.primary.value in messages
                   && (m in routes.conversation(row.primary.value) || m in routes.heuristic(row.primary.value)))
                  || (row.externalCode.Some? && row.externalCode.value != ""
                      && m in routes.keyword(row.externalCode.value)))
  {
    var found := Finds(routes, row, messages, Conversation, m) || Finds(routes, row, messages, CrKeyword, m)
                 || Finds(routes, row, messages, Heuristic, m);
    assert found <==> exists s :: Finds(routes, row, messages, s, m);
  }

  /** It is linked with confidence 1.0 if the conversation has it, else with 0.7
      if the code finds it, else with 0.4. */
  lemma NewLinkIs(routes: Routes, row: CaseRow, messages: Messages, links: Links, c: CaseId, rows: seq<LinkRow>, i: nat)
    requires NewMatches(routes, row, messages, links, c, rows) && i < |rows|
    ensures rows[i].link
         == if row.primary.Some? && row.primary.value in messages
               && rows[i].message in routes.conversation(row.primary.value) then Link(Related, 1.0, Conversation)
            else if row.externalCode.Some? && row.externalCode.value != ""
                    && rows[i].message in routes.keyword(row.externalCode.value) then Link(Related, 0.7, CrKeyword)
            else Link(Related, 0.4, Heuristic)
  {
    var m := rows[i].message;
    assert Finds(routes, row, messages, Conversation, m) ==> Confidence(Conversation) <= rows[i].link.confidence;
    assert Finds(routes, row, messages, CrKeyword, m) ==> Confidence(CrKeyword) <= rows[i].link.confidence;
  }

  function MessagesOf(rows: seq<LinkRow>): set<MessageId> {
    if rows == [] then {} else MessagesOf(rows[..|rows| - 1]) + {rows[|rows| - 1].message}
  }

  lemma {:induction false} MessagesMentioned(rows: seq<LinkRow>, m: MessageId)
    ensures m in MessagesOf(rows) <==> Mentions(rows, m)
  {
    if rows != [] {
      var init := rows[..|rows| - 1];
      MessagesMentioned(init, m);
      if Mentions(init, m) {
        var i :| 0 <= i < |init| && init[i].message == m;
        assert rows[i].message == m;
      }
    }
  }

  lemma {:induction false} DistinctCount(rows: seq<LinkRow>)
    requires Distinct(rows)
    ensures |MessagesOf(rows)| == |rows|
  {
    if rows != [] {
      DistinctCount(rows[..|rows| - 1]);
      MessagesMentioned(rows[..|rows| - 1], rows[|rows| - 1].message);
    }
  }

  /** Two lists of the new matches have the same length. */
  lemma SameNewMatches(routes: Routes, row: CaseRow, messages: Messages, links: Links, c: CaseId,
                       rows: seq<LinkRow>, others: seq<LinkRow>)
    requires NewMatches(routes, row, messages, links, c, rows)
    requires NewMatches(routes, row, messages, links, c, others)
    ensures |rows| == |others|
  {
    DistinctCount(rows);
    DistinctCount(others);
    forall m: MessageId
      ensures m in MessagesOf(rows) <==> m in MessagesOf(others)
    {
      MessagesMentioned(rows, m);
      MessagesMentioned(others, m);
    }
    assert MessagesOf(rows) == MessagesOf(others);
  }

  /** Refreshing leaves nothing new to find on the same index. */
  lemma RefreshLeavesNothing(routes: Routes, row: CaseRow, messages: Messages, links: Links, c: CaseId,
                             rows: seq<LinkRow>, again: seq<LinkRow>)
    requires NewMatches(routes, row, messages, links, c, rows)
    requires NewMatches(routes, row, messages, UpsertAll(links, c, rows), c, again)
    ensures again == []
  {
    forall m: MessageId
      ensures !Mentions(again, m)
    {
      UpsertAllFrame(links, c, rows, c, m);
      assert Mentions(rows, m) <==> IsNew(routes, row, messages, links, c, m);
    }
    assert |again| > 0 ==> Mentions(again, again[0].message);
  }

  /** The rows are the unlinked messages that the routes in done find, each
      attributed to the best of those routes. */
  ghost predicate SoFar(routes: Routes, row: CaseRow, messages: Messages, links: Links, c: CaseId,
                        done: set<Source>, rows: seq<LinkRow>)
  {
    && Distinct(rows)
    && (forall m :: Mentions(rows, m) <==>
          (c, m) !in links && exists s :: s in done && Finds(routes, row, messages, s, m))
    && (forall i :: 0 <= i < |rows| ==> Attributed(routes, row, messages, done, rows[i]))
  }

  ghost predicate Attributed(routes: Routes, row: CaseRow, messages: Messages, done: set<Source>, r: LinkRow) {
    && r.link.relationship == Related && r.link.confidence == Confidence(r.link.source)
    && r.link.source in done && Finds(routes, row, messages, r.link.source, r.message)
    && (forall s :: s in done && Finds(routes, row, messages, s, r.message) ==> Confidence(s) <= r.link.confidence)
  }

  lemma SoFarNext(routes: Routes, row: CaseRow, messages: Messages, links: Links, c: CaseId, done: set<Source>,
                  before: seq<LinkRow>, rows: seq<LinkRow>, ids: seq<MessageId>, source: Source)
    requires SoFar(routes, row, messages, links, c, done, before)
    requires source !in done && forall s :: s in done ==> Confidence(s) > Confidence(source)
    requires forall m :: m in ids <==> Finds(routes, row, messages, source, m)
    requires Distinct(rows) && before <= rows
    requires forall m :: Mentions(rows, m) <==> Mentions(before, m) || (m in ids && (c, m) !in links)
    requires forall i :: |before| <= i < |rows| ==> NewRow(rows[i], before, ids, source)
    ensures SoFar(routes, row, messages, links, c, done + {source}, rows)
  {
  }

  predicate NewRow(r: LinkRow, before: seq<LinkRow>, ids: seq<MessageId>, source: Source) {
    r.message in ids && r.link == Link(Related, Confidence(source), source) && !Mentions(before, r.message)
  }

  lemma AllRoutes(routes: Routes, row: CaseRow, messages: Messages, links: Links, c: CaseId,
                  all: seq<LinkRow>, rows: seq<LinkRow>)
    requires SoFar(routes, row, messages, links, c, {Conversation, CrKeyword, Heuristic}, all)
    requires Distinct(rows)
    requires forall r :: r in rows <==> r in all && !Excluded(routes, c, row.owner, r.message)
    ensures NewMatches(routes, row, messages, links, c, rows)
  {
  }

  lemma {:induction false} MessagesNext(rows: seq<LinkRow>, i: nat)
    requires i < |rows|
    ensures MessagesOf(rows[..i + 1]) == MessagesOf(rows[..i]) + {rows[i].message}
  {
    assert rows[..i + 1][..i] == rows[..i];
  }

  /** The new matches of a case depend on the links of that case only. */
  lemma NewMatchesLocal(routes: Routes, row: CaseRow, other: CaseRow, messages: Messages, links: Links, others: Links,
                        c: CaseId, rows: seq<LinkRow>)
    requires NewMatches(routes, row, messages, links, c, rows)
    requires row.primary == other.primary && row.externalCode == other.externalCode && row.owner == other.owner
    requires forall m :: (c, m) in links <==> (c, m) in others
    ensures NewMatches(routes, other, messages, others, c, rows)
  {
    forall s, m
      ensures Finds(routes, row, messages, s, m) == Finds(routes, other, messages, s, m)
    {
    }
    forall m
      ensures IsNew(routes, row, messages, links, c, m) <==> IsNew(routes, other, messages, others, c, m)
    {
      if s :| Finds(routes, row, messages, s, m) {
        assert Finds(routes, other, messages, s, m);
      }
      if s :| Finds(routes, other, messages, s, m) {
        assert Finds(routes, row, messages, s, m);
      }
    }
  }

  /** pending is how many new messages the case has. */
  ghost predicate Counts(routes: Routes, row: CaseRow, messages: Messages, links: Links, c: CaseId, pending: nat) {
    exists rows :: NewMatches(routes, row, messages, links, c, rows) && |rows| == pending
  }

  function Stale(cases: map<CaseId, CaseRow>, c: CaseId): map<CaseId, CaseRow>
    requires c in cases
  {
    cases[c := cases[c].(aiStale := true)]
  }

  /** Owners and administrators may do anything. */
  predicate Owns(row: CaseRow, user: User) {
    user.isAdmin || row.owner == Some(user.id)
  }

  /** Whether a user with this share may change the case. */
  function GuardOf(row: CaseRow, share: Option<Permission>, user: User): Outcome {
    if !Owns(row, user) && share == None then NotFound
    else if row.status == Closed then CaseIsClosed
    else if !Owns(row, user) && share == Some(Read) then Denied
    else Ok
  }

  function GuardIn(cases: map<CaseId, CaseRow>, shares: map<(CaseId, UserId), Permission>, c: CaseId,
                   user: User): Outcome
  {
    if c in cases then GuardOf(cases[c], if (c, user.id) in shares then Some(shares[(c, user.id)]) else None, user)
    else NotFound
  }

  /** What the guard answers, told from the tables: administrators and owners
      may do anything, a share lets its user read, and one with "edit" lets them
      change an open case. */
  lemma GuardIff(cases: map<CaseId, CaseRow>, shares: map<(CaseId, UserId), Permission>, c: CaseId, user: User)
    ensures GuardIn(cases, shares, c, user) == NotFound <==>
              !(c in cases && (user.isAdmin || cases[c].owner == Some(user.id) || (c, user.id) in shares))
    ensures GuardIn(cases, shares, c, user) == CaseIsClosed <==>
              c in cases && cases[c].status == Closed
              && (user.isAdmin || cases[c].owner == Some(user.id) || (c, user.id) in shares)
    ensures GuardIn(cases, shares, c, user) == Denied <==>
              c in cases && cases[c].status == Open && !user.isAdmin && cases[c].owner != Some(user.id)
              && (c, user.id) in shares && shares[(c, user.id)] == Read
    ensures GuardIn(cases, shares, c, user) == Ok <==>
              c in cases && cases[c].status == Open
              && (user.isAdmin || cases[c].owner == Some(user.id)
                  || ((c, user.id) in shares && shares[(c, user.id)] == Edit))
  {
  }

  /** The open cases that the user may change. */
  function Editable(cases: map<CaseId, CaseRow>, shares: map<(CaseId, UserId), Permission>, user: User): set<CaseId> {
    set c | c in cases && GuardIn(cases, shares, c, user) == Ok
  }

  // ---- Catching up with the index ----

  /** The case has its old links and those to its new messages. */
  ghost predicate Caught(routes: Routes, messages: Messages, row: CaseRow, links0: Links, links: Links, c: CaseId) {
    forall m :: (c, m) in links <==> (c, m) in links0 || IsNew(routes, row, messages, links0, c, m)
  }

  ghost predicate SameLinks(links0: Links, links: Links, c: CaseId) {
    forall m :: (c, m) in links <==> (c, m) in links0
  }

  /** The cases in done have caught up with the index; every other case is as
      it was. */
  ghost predicate CaughtUp(routes: Routes, messages: Messages, cases0: map<CaseId, CaseRow>, links0: Links,
                           cases: map<CaseId, CaseRow>, links: Links, done: set<CaseId>)
  {
    && cases.Keys == cases0.Keys
    && (forall c :: c in cases && c in done ==>
          Caught(routes, messages, cases0[c], links0, links, c)
          && (cases[c] == cases0[c] || cases[c] == cases0[c].(aiStale := true)))
    && (forall c :: c in cases && c !in done ==> cases[c] == cases0[c] && SameLinks(links0, links, c))
  }

  /** The cases that have a link they did not have before. */
  function Gained(links0: Links, links: Links): set<CaseId> {
    set k | k in links && k !in links0 :: k.0
  }

  lemma NothingCaught(routes: Routes, messages: Messages, cases: map<CaseId, CaseRow>, links: Links)
    ensures CaughtUp(routes, messages, cases, links, cases, links, {})
  {
  }

  /** What one refresh adds to that. */
  lemma CaughtUpNext(routes: Routes, messages: Messages, cases0: map<CaseId, CaseRow>, links0: Links,
                     cases1: map<CaseId, CaseRow>, links1: Links, done: set<CaseId>, c: CaseId, rows: seq<LinkRow>,
                     cases2: map<CaseId, CaseRow>)
    requires CaughtUp(routes, messages, cases0, links0, cases1, links1, done) && c in cases1 && c !in done
    requires NewMatches(routes, cases1[c], messages, links1, c, rows)
    requires cases2 == cases1 || cases2 == Stale(cases1, c)
    ensures CaughtUp(routes, messages, cases0, links0, cases2, UpsertAll(links1, c, rows), done + {c})
  {
    forall d: CaseId | d in cases2 && d != c
      ensures SameLinks(links1, UpsertAll(links1, c, rows), d)
    {
      forall m
        ensures (d, m) in UpsertAll(links1, c, rows) <==> (d, m) in links1
      {
        UpsertAllFrame(links1, c, rows, d, m);
      }
    }
    assert SameLinks(links0, links1, c);
    CatchesUp(routes, messages, cases0[c], links0, links1, c, rows);
  }

  lemma CatchesUp(routes: Routes, messages: Messages, row: CaseRow, links0: Links, links1: Links, c: CaseId,
                  rows: seq<LinkRow>)
    requires SameLinks(links0, links1, c) && NewMatches(routes, row, messages, links1, c, rows)
    ensures Caught(routes, messages, row, links0, UpsertAll(links1, c, rows), c)
  {
    forall m
      ensures (c, m) in UpsertAll(links1, c, rows)
         <==> (c, m) in links0 || IsNew(routes, row, messages, links0, c, m)
    {
      UpsertAllFrame(links1, c, rows, c, m);
      assert IsNew(routes, row, messages, links0, c, m) <==> IsNew(routes, row, messages, links1, c, m);
    }
  }

  lemma {:induction false} UpsertAllCount(links: Links, c: CaseId, rows: seq<LinkRow>)
    requires Distinct(rows) && forall i :: 0 <= i < |rows| ==> (c, rows[i].message) !in links
    ensures |UpsertAll(links, c, rows)| == |links| + |rows|
  {
    if rows != [] {
      var init, last := rows[..|rows| - 1], rows[|rows| - 1];
      UpsertAllCount(links, c, init);
      UpsertAllFrame(links, c, init, c, last.message);
      AddedCount(UpsertAll(links, c, init), (c, last.message), last.link);
    }
  }

  lemma AddedCount(links: Links, k: (CaseId, MessageId), l: Link)
    requires k !in links
    ensures |links[k := l]| == |links| + 1
  {
    assert links[k := l].Keys == links.Keys + {k};
  }

  /** Linking the new matches of one case, which had gained nothing before. */
  lemma NewLinksCount(routes: Routes, row: CaseRow, messages: Messages, links0: Links, links1: Links, c: CaseId,
                      rows: seq<LinkRow>)
    requires NewMatches(routes, row, messages, links1, c, rows) && SameLinks(links0, links1, c)
    ensures |UpsertAll(links1, c, rows)| == |links1| + |rows|
    ensures |Gained(links0, UpsertAll(links1, c, rows))|
         == |Gained(links0, links1)| + if |rows| > 0 then 1 else 0
  {
    forall i | 0 <= i < |rows|
      ensures (c, rows[i].message) !in links1
    {
      assert Mentions(rows, rows[i].message);
    }
    UpsertAllCount(links1, c, rows);
    GainedNext(links0, links1, c, rows);
  }

  lemma GainedNext(links0: Links, links1: Links, c: CaseId, rows: seq<LinkRow>)
    requires SameLinks(links0, links1, c) && forall i :: 0 <= i < |rows| ==> (c, rows[i].message) !in links1
    ensures c !in Gained(links0, links1)
    ensures Gained(links0, UpsertAll(links1, c, rows)) == Gained(links0, links1) + if |rows| > 0 then {c} else {}
  {
    var links2 := UpsertAll(links1, c, rows);
    forall d: CaseId, m
      ensures (d, m) in links2 <==> (d, m) in links1 || (d == c && Mentions(rows, m))
    {
      UpsertAllFrame(links1, c, rows, d, m);
    }
    if |rows| > 0 {
      assert Mentions(rows, rows[0].message) && (c, rows[0].message) in links2;
    }
    forall d: CaseId
      ensures d in Gained(links0, links2) <==> d in Gained(links0, links1) || (d == c && |rows| > 0)
    {
      if d in Gained(links0, links2) {
        var k :| k in links2 && k !in links0 && k.0 == d;
        assert k == (d, k.1);
      }
      if d in Gained(links0, links1) {
        var k :| k in links1 && k !in links0 && k.0 == d;
        assert k == (d, k.1) && k in links2;
      }
    }
  }

  lemma CountsSame(routes: Routes, row: CaseRow, other: CaseRow, messages: Messages, links: Links, c: CaseId, n: nat)
    requires Counts(routes, row, messages, links, c, n)
    requires row.primary == other.primary && row.externalCode == other.externalCode && row.owner == other.owner
    ensures Counts(routes, other, messages, links, c, n)
  {
    var rows :| NewMatches(routes, row, messages, links, c, rows) && |rows| == n;
    NewMatchesLocal(routes, row, other, messages, links, links, c, rows);
  }

  /** The open cases that the user can see. */
  function OpenIn(cases: map<CaseId, CaseRow>, shares: map<(CaseId, UserId), Permission>, user: User): set<CaseId> {
    set c | c in cases && cases[c].status == Open && (Owns(cases[c], user) || (c, user.id) in shares)
  }

  lemma OpenInIs(cases: map<CaseId, CaseRow>, shares: map<(CaseId, UserId), Permission>, user: User)
    ensures OpenIn(cases, shares, user)
         == set c | c in cases && cases[c].status == Open
                    && (user.isAdmin || cases[c].owner == Some(user.id) || (c, user.id) in shares)
    ensures Editable(cases, shares, user) <= OpenIn(cases, shares, user) <= cases.Keys
  {
  }

  /** The closed cases that the user can see. */
  function ClosedIn(cases: map<CaseId, CaseRow>, shares: map<(CaseId, UserId), Permission>, user: User): set<CaseId> {
    set c | c in cases && cases[c].status == Closed && (Owns(cases[c], user) || (c, user.id) in shares)
  }

  /** Refreshing open cases leaves the same cases closed. */
  lemma SameClosed(routes: Routes, messages: Messages, cases0: map<CaseId, CaseRow>, links0: Links,
                   cases: map<CaseId, CaseRow>, links: Links, failing: set<CaseId>,
                   shares: map<(CaseId, UserId), Permission>, user: User)
    requires CaughtUp(routes, messages, cases0, links0, cases, links, Editable(cases0, shares, user) - failing)
    ensures ClosedIn(cases, shares, user) == ClosedIn(cases0, shares, user)
    ensures Editable(cases0, shares, user) !! ClosedIn(cases0, shares, user)
  {
    forall c | c in cases
      ensures cases[c].status == cases0[c].status && cases[c].owner == cases0[c].owner
    {
      if c in Editable(cases0, shares, user) - failing {
        assert cases[c] == cases0[c] || cases[c] == cases0[c].(aiStale := true);
      }
    }
  }

  /** A loop that takes one element after another, and leaves bad ones out. */
  lemma TakenNone<T>(all: set<T>, todo: set<T>, bad: set<T>)
    requires all <= todo
    ensures all - bad - todo == {} && |(all - todo) * bad| == 0
  {
    assert (all - todo) * bad == {};
  }

  lemma TakenNext<T>(all: set<T>, todo: set<T>, bad: set<T>, x: T)
    requires x in todo
    ensures all - bad - (todo - {x}) == if x in all && x !in bad then all - bad - todo + {x} else all - bad - todo
    ensures |(all - (todo - {x})) * bad| == |(all - todo) * bad| + if x in all && x in bad then 1 else 0
  {
    assert (all - (todo - {x})) * bad == (all - todo) * bad + if x in all && x in bad then {x} else {};
  }

  lemma TakenAll<T>(all: set<T>, todo: set<T>, bad: set<T>)
    requires todo == {}
    ensures all - bad - todo == all - bad && (all - todo) * bad == all * bad
  {
  }

  /** What has been counted when these cases have been asked for. */
  ghost predicate Ledger(links0: Links, links: Links, asked: set<CaseId>, failing: set<CaseId>,
                         errors: nat, withNew: nat, found: nat)
  {
    errors == |asked * failing| && |links| == |links0| + found && withNew == |Gained(links0, links)|
  }

  lemma LedgerStarts(links: Links, editable: set<CaseId>, open: set<CaseId>, failing: set<CaseId>)
    requires editable <= open
    ensures editable - failing - open == {} && Ledger(links, links, editable - open, failing, 0, 0, 0)
  {
    TakenNone(editable, open, failing);
    assert Gained(links, links) == {};
  }

  lemma LedgerNext(links0: Links, links1: Links, links2: Links, editable: set<CaseId>, open: set<CaseId>,
                   failing: set<CaseId>, errors: nat, withNew: nat, found: nat, c: CaseId, more: nat)
    requires Ledger(links0, links1, editable - open, failing, errors, withNew, found) && c in open
    requires |links2| == |links1| + more
    requires |Gained(links0, links2)| == |Gained(links0, links1)| + if more > 0 then 1 else 0
    ensures Ledger(links0, links2, editable - (open - {c}), failing,
                   errors + if c in editable && c in failing then 1 else 0,
                   withNew + if more > 0 then 1 else 0, found + more)
    ensures editable - failing - (open - {c})
         == if c in editable && c !in failing then editable - failing - open + {c} else editable - failing - open
  {
    TakenNext(editable, open, failing, c);
  }

  /** Those of the cases that carry a number. */
  function Flagged(cases: map<CaseId, CaseRow>, ids: set<CaseId>): set<CaseId> {
    set c | c in ids && c in cases && cases[c].pendingReopen > 0
  }

  lemma FlaggedNext(cases: map<CaseId, CaseRow>, ids: set<CaseId>, c: CaseId, row: CaseRow)
    requires c !in ids
    ensures |Flagged(cases[c := row], ids + {c})| == |Flagged(cases, ids)| + if row.pendingReopen > 0 then 1 else 0
  {
    assert Flagged(cases[c := row], ids + {c})
        == Flagged(cases, ids) + if row.pendingReopen > 0 then {c} else {};
  }

  /** What scanning has done: the closed cases in done carry the number of
      their new messages, and nothing else has changed. */
  ghost predicate ScannedTo(routes: Routes, messages: Messages, links: Links, cases0: map<CaseId, CaseRow>,
                            cases: map<CaseId, CaseRow>, done: set<CaseId>)
  {
    && cases.Keys == cases0.Keys
    && (forall c :: c in cases0 ==> cases[c] == cases0[c].(pendingReopen := cases[c].pendingReopen))
    && (forall c :: c in cases0 && c !in done ==> cases[c] == cases0[c])
    && (forall c :: c in cases0 && c in done ==>
          Counts(routes, cases0[c], messages, links, c, cases[c].pendingReopen))
  }

  /** The open cases in open have caught up with the index, and the closed ones
      in closed carry the number of their new messages; every other case is as
      it was. */
  ghost predicate AllRefreshed(routes: Routes, messages: Messages, cases0: map<CaseId, CaseRow>, links0: Links,
                               cases: map<CaseId, CaseRow>, links: Links, open: set<CaseId>, closed: set<CaseId>)
  {
    && cases.Keys == cases0.Keys
    && (forall c :: c in cases && c in open ==>
          && Caught(routes, messages, cases0[c], links0, links, c)
          && (cases[c] == cases0[c] || cases[c] == cases0[c].(aiStale := true)))
    && (forall c :: c in cases && c !in open ==> SameLinks(links0, links, c))
    && (forall c :: c in cases && c in closed ==>
          && cases[c] == cases0[c].(pendingReopen := cases[c].pendingReopen)
          && Counts(routes, cases[c], messages, links, c, cases[c].pendingReopen))
    && (forall c :: c in cases && c !in open && c !in closed ==> cases[c] == cases0[c])
  }

  lemma RefreshedThenScanned(routes: Routes, messages: Messages, cases0: map<CaseId, CaseRow>, links0: Links,
                             cases1: map<CaseId, CaseRow>, links: Links, cases: map<CaseId, CaseRow>,
                             open: set<CaseId>, closed: set<CaseId>)
    requires CaughtUp(routes, messages, cases0, links0, cases1, links, open) && open !! closed
    requires ScannedTo(routes, messages, links, cases1, cases, closed)
    ensures AllRefreshed(routes, messages, cases0, links0, cases, links, open, closed)
  {
    forall c | c in cases && c in closed
      ensures Counts(routes, cases[c], messages, links, c, cases[c].pendingReopen)
    {
      CountsSame(routes, cases1[c], cases[c], messages, links, c, cases[c].pendingReopen);
    }
  }

  lemma AboutClosed(routes: Routes, messages: Messages, cases0: map<CaseId, CaseRow>, links0: Links,
                    cases: map<CaseId, CaseRow>, links: Links, open: set<CaseId>, closed: set<CaseId>, c: CaseId)
    requires AllRefreshed(routes, messages, cases0, links0, cases, links, open, closed)
    requires c in cases && c in closed && c !in open
    ensures c in cases0 && cases[c] == cases0[c].(pendingReopen := cases[c].pendingReopen)
    ensures SameLinks(links0, links, c) && Counts(routes, cases[c], messages, links, c, cases[c].pendingReopen)
  {
  }

  /** What is linked later is what was counted before. */
  lemma StoredIsLinked(routes: Routes, row: CaseRow, row0: CaseRow, messages: Messages, links0: Links, links1: Links,
                       c: CaseId, counted: seq<LinkRow>, rows: seq<LinkRow>)
    requires NewMatches(routes, row, messages, links1, c, counted) && NewMatches(routes, row, messages, links1, c, rows)
    requires row.primary == row0.primary && row.externalCode == row0.externalCode && row.owner == row0.owner
    requires SameLinks(links0, links1, c)
    ensures |rows| == |counted| && NewMatches(routes, row0, messages, links0, c, rows)
    ensures forall m :: (c, m) in UpsertAll(links1, c, rows) <==> (c, m) in links0 || Mentions(rows, m)
  {
    SameNewMatches(routes, row, messages, links1, c, counted, rows);
    NewMatchesLocal(routes, row, row0, messages, links1, links0, c, rows);
    forall m: MessageId
      ensures (c, m) in UpsertAll(links1, c, rows) <==> (c, m) in links0 || Mentions(rows, m)
    {
      UpsertAllFrame(links1, c, rows, c, m);
    }
  }

  /** What refreshing everything reports. */
  datatype Report = Report(checked: nat, withNew: nat, found: nat, errors: nat, flagged: nat)

  // ---- What the loops over messages and attachments do ----

  /** A "document shared" row of an attachment of m, in a case linked to m. */
  ghost predicate Fills(e: Event, links: Links, attachments: Attachments, m: MessageId) {
    && e.attachment.Some? && e.attachment.value in attachments && attachments[e.attachment.value] == m
    && (e.caseId, m) in links && e == Document(e.caseId, m, e.attachment.value)
  }

  /** The document rows of m that were missing are there once, but for those
      in todo, and no other count has changed. */
  ghost predicate Filled(before: seq<Event>, after: seq<Event>, links: Links, attachments: Attachments, m: MessageId,
                         todo: set<(CaseId, AttachmentId)>)
  {
    forall e :: Times(after, e)
             == if Fills(e, links, attachments, m) && (e.caseId, e.attachment.value) !in todo && Times(before, e) == 0
                then 1 else Times(before, e)
  }

  lemma FilledNext(first: seq<Event>, before: seq<Event>, after: seq<Event>, links: Links, attachments: Attachments,
                   m: MessageId, todo: set<(CaseId, AttachmentId)>, k: (CaseId, AttachmentId))
    requires Filled(first, before, links, attachments, m, todo) && k in todo
    requires (k.0, m) in links && k.1 in attachments && attachments[k.1] == m
    requires forall e :: Times(after, e) == if e == Document(k.0, m, k.1) && Times(before, e) == 0 then 1
                                            else Times(before, e)
    ensures Filled(first, after, links, attachments, m, todo - {k})
  {
  }

  function SeedRow(primary: Option<MessageId>, m: MessageId, source: Source): LinkRow {
    LinkRow(m, Link(if primary == Some(m) then Primary else Related, Confidence(source), source))
  }

  function SeedRows(primary: Option<MessageId>, seeds: seq<MessageId>, source: Source): seq<LinkRow> {
    if seeds == [] then []
    else SeedRows(primary, seeds[..|seeds| - 1], source) + [SeedRow(primary, seeds[|seeds| - 1], source)]
  }

  predicate RelatedRow(r: LinkRow, seeds: set<MessageId>, related: seq<MessageId>) {
    r.message in related && r.message !in seeds && r.link == Link(Related, CONFIDENCE_HEURISTIC, Heuristic)
  }

  predicate Extends(rows0: seq<LinkRow>, rows: seq<LinkRow>, seeds: set<MessageId>, related: seq<MessageId>) {
    rows0 <= rows && forall i :: |rows0| <= i < |rows| ==> RelatedRow(rows[i], seeds, related)
  }

  /** The rows that were linked are rows0 and what the heuristic search adds,
      and matched is the set of their messages. */
  ghost predicate WithRelated(links0: Links, links: Links, c: CaseId, rows0: seq<LinkRow>, rows: seq<LinkRow>,
                              seeds: set<MessageId>, related: seq<MessageId>, matched: set<MessageId>)
  {
    && links == UpsertAll(links0, c, rows) && Extends(rows0, rows, seeds, related)
    && forall m :: Mentions(rows, m) <==> m in matched
  }

  lemma WithRelatedNext(links0: Links, links: Links, c: CaseId, rows0: seq<LinkRow>, rows: seq<LinkRow>,
                        seeds: set<MessageId>, related: seq<MessageId>, matched: set<MessageId>, r: LinkRow)
    requires WithRelated(links0, links, c, rows0, rows, seeds, related, matched) && RelatedRow(r, seeds, related)
    ensures WithRelated(links0, Upsert(links, c, r.message, r.link), c, rows0, rows + [r], seeds, related,
                        matched + {r.message})
  {
    MentionsAppend(rows, r);
    UpsertAllAppend(links0, c, rows, r);
  }

  /** The rows of the seeds, then those of the heuristic search that are not
      seeds as well. */
  predicate SeededBy(rows: seq<LinkRow>, primary: Option<MessageId>, seeds: seq<MessageId>, source: Source,
                     related: seq<MessageId>)
  {
    Extends(SeedRows(primary, seeds, source), rows, (set m | m in seeds), related)
  }

  /** The seeds are linked, and matched is the set of them. */
  ghost predicate Seeded(links0: Links, links: Links, c: CaseId, primary: Option<MessageId>, seeds: seq<MessageId>,
                         source: Source, matched: set<MessageId>)
  {
    links == UpsertAll(links0, c, SeedRows(primary, seeds, source)) && matched == set m | m in seeds
  }

  lemma SeededNext(links0: Links, links: Links, c: CaseId, primary: Option<MessageId>, seeds: seq<MessageId>,
                   source: Source, matched: set<MessageId>, m: MessageId)
    requires Seeded(links0, links, c, primary, seeds, source, matched)
    ensures var r := SeedRow(primary, m, source);
      Seeded(links0, Upsert(links, c, r.message, r.link), c, primary, seeds + [m], source, matched + {m})
  {
    assert (seeds + [m])[..|seeds|] == seeds;
    UpsertAllAppend(links0, c, SeedRows(primary, seeds, source), SeedRow(primary, m, source));
  }

  lemma {:induction false} SeedRowsMention(primary: Option<MessageId>, seeds: seq<MessageId>, source: Source)
    ensures forall m :: Mentions(SeedRows(primary, seeds, source), m) <==> m in seeds
  {
    if seeds != [] {
      SeedRowsMention(primary, seeds[..|seeds| - 1], source);
      MentionsAppend(SeedRows(primary, seeds[..|seeds| - 1], source), SeedRow(primary, seeds[|seeds| - 1], source));
    }
  }

  /** The links of a new case: the seeds with the confidence of their route, the
      first of them as the primary message, and what the heuristic search adds
      with 0.4. */
  ghost predicate FreshLinks(links: Links, c: CaseId, seed: Seed, seeds: seq<MessageId>, related: seq<MessageId>) {
    && (forall m :: (c, m) in links <==> m in seeds || m in related)
    && (forall m :: m in seeds ==>
          links[(c, m)] == Link(if m == seeds[0] then Primary else Related,
                                if seed.FromCode? then 0.7 else 1.0,
                                if seed.FromConversation? then Conversation
                                else if seed.FromCode? then CrKeyword else Manual))
    && (forall m :: m in related && m !in seeds ==> links[(c, m)] == Link(Related, 0.4, Heuristic))
  }

  lemma {:induction false} SeedRowsAt(primary: Option<MessageId>, seeds: seq<MessageId>, source: Source, i: nat)
    requires i < |seeds|
    ensures |SeedRows(primary, seeds, source)| == |seeds|
    ensures SeedRows(primary, seeds, source)[i] == SeedRow(primary, seeds[i], source)
    decreases |seeds|
  {
    var n := |seeds| - 1;
    if i < n {
      SeedRowsAt(primary, seeds[..n], source, i);
    } else if n > 0 {
      SeedRowsAt(primary, seeds[..n], source, n - 1);
    }
  }

  /** A row that the linking of a new case can have for m. */
  lemma SeededRow(rows: seq<LinkRow>, seeds: seq<MessageId>, source: Source, related: seq<MessageId>, i: nat)
    requires SeededBy(rows, FirstOf(seeds), seeds, source, related) && i < |rows|
    ensures rows[i].message in seeds ==>
              rows[i].link == Link(if rows[i].message == seeds[0] then Primary else Related, Confidence(source), source)
    ensures rows[i].message !in seeds ==> rows[i].link == Link(Related, 0.4, Heuristic)
  {
    if seeds != [] {
      SeedRowsAt(FirstOf(seeds), seeds, source, if i < |seeds| then i else 0);
    }
    var first := SeedRows(FirstOf(seeds), seeds, source);
    if i < |first| {
      assert rows[i] == first[i] == SeedRow(FirstOf(seeds), seeds[i], source);
    }
  }

  lemma NewCaseLink(links0: Links, c: CaseId, rows: seq<LinkRow>, seeds: seq<MessageId>, source: Source,
                    related: seq<MessageId>, m: MessageId)
    requires SeededBy(rows, FirstOf(seeds), seeds, source, related)
    requires (c, m) !in links0 && (c, m) in UpsertAll(links0, c, rows)
    ensures UpsertAll(links0, c, rows)[(c, m)]
         == if m in seeds then Link(if m == seeds[0] then Primary else Related, Confidence(source), source)
            else Link(Related, 0.4, Heuristic)
  {
    var l := UpsertAll(links0, c, rows)[(c, m)];
    UpsertAllWins(links0, c, rows, m);
    assert Given(links0, c, rows, m) == rows;
    var i :| FirstMention(rows, m, i) && rows[i].link.relationship == l.relationship;
    var k :| FirstBest(rows, m, k) && rows[k].link.confidence == l.confidence && rows[k].link.source == l.source;
    SeededRow(rows, seeds, source, related, i);
    SeededRow(rows, seeds, source, related, k);
  }

  lemma NewCaseLinks(links0: Links, c: CaseId, rows: seq<LinkRow>, seed: Seed, seeds: seq<MessageId>,
                     related: seq<MessageId>)
    requires SeededBy(rows, FirstOf(seeds), seeds, SourceOf(seed), related)
    requires forall m :: (c, m) !in links0
    requires forall m :: (c, m) in UpsertAll(links0, c, rows) <==> m in seeds || m in related
    ensures FreshLinks(UpsertAll(links0, c, rows), c, seed, seeds, related)
  {
    forall m | m in seeds || m in related
      ensures UpsertAll(links0, c, rows)[(c, m)]
           == if m in seeds then Link(if m == seeds[0] then Primary else Related, Confidence(SourceOf(seed)),
                                      SourceOf(seed))
              else Link(Related, 0.4, Heuristic)
    {
      NewCaseLink(links0, c, rows, seeds, SourceOf(seed), related, m);
    }
  }

  lemma MentionsAppend(rows: seq<LinkRow>, r: LinkRow)
    ensures forall m :: Mentions(rows + [r], m) <==> Mentions(rows, m) || m == r.message
  {
    assert (rows + [r])[|rows|] == r;
    forall m | Mentions(rows, m)
      ensures Mentions(rows + [r], m)
    {
      var i :| 0 <= i < |rows| && rows[i].message == m;
      assert (rows + [r])[i].message == m;
    }
  }

  lemma RowsLinked(links: Links, c: CaseId, rows: seq<LinkRow>, ms: set<MessageId>, messages: set<MessageId>)
    requires forall m :: Mentions(rows, m) <==> m in ms
    requires ms <= messages
    ensures forall i :: 0 <= i < |rows| ==> rows[i].message in messages
    ensures forall m :: (c, m) in UpsertAll(links, c, rows) <==> (c, m) in links || m in ms
  {
    forall i | 0 <= i < |rows|
      ensures rows[i].message in ms
    {
      assert Mentions(rows, rows[i].message);
    }
    forall m: MessageId
      ensures (c, m) in UpsertAll(links, c, rows) <==> (c, m) in links || m in ms
    {
      UpsertAllFrame(links, c, rows, c, m);
    }
  }

  lemma UpsertAllAppend(links: Links, c: CaseId, rows: seq<LinkRow>, r: LinkRow)
    ensures UpsertAll(links, c, rows + [r]) == Upsert(UpsertAll(links, c, rows), c, r.message, r.link)
  {
    assert (rows + [r])[..|rows|] == rows;
  }

  /** Two rounds of linking tell disjoint sets of messages, which together are
      the newly linked ones. */
  lemma Composed(links0: Links, links1: Links, c: CaseId, first: seq<LinkRow>, second: seq<LinkRow>,
                 added: set<MessageId>, told: set<MessageId>)
    requires links1 == UpsertAll(links0, c, first)
    requires forall m :: m in added <==> Mentions(first, m) && (c, m) !in links0
    requires forall m :: m in told <==> Mentions(second, m) && (c, m) !in links1
    ensures added !! told
    ensures forall m :: m in added + told <==> Mentions(first + second, m) && (c, m) !in links0
  {
    forall m: MessageId
      ensures !(m in added && m in told)
      ensures m in added + told <==> Mentions(first + second, m) && (c, m) !in links0
    {
      UpsertAllFrame(links0, c, first, c, m);
      MentionsConcat(first, second, m);
    }
  }

  lemma MentionsConcat(a: seq<LinkRow>, b: seq<LinkRow>, m: MessageId)
    ensures Mentions(a + b, m) <==> Mentions(a, m) || Mentions(b, m)
  {
    if Mentions(a, m) {
      var i :| 0 <= i < |a| && a[i].message == m;
      assert (a + b)[i].message == m;
    }
    if Mentions(b, m) {
      var i :| 0 <= i < |b| && b[i].message == m;
      assert (a + b)[|a| + i].message == m;
    }
  }

  /** The pairs that unlinking these messages from the case takes away. */
  function Pairs(c: CaseId, ids: seq<MessageId>): set<(CaseId, MessageId)> {
    if ids == [] then {} else Pairs(c, ids[..|ids| - 1]) + {(c, ids[|ids| - 1])}
  }

  lemma PairsNext(c: CaseId, ids: seq<MessageId>, i: nat)
    requires i < |ids|
    ensures Pairs(c, ids[..i + 1]) == Pairs(c, ids[..i]) + {(c, ids[i])}
  {
    assert ids[..i + 1][..i] == ids[..i];
  }

  lemma MinusNone(links: Links)
    ensures links - {} == links
  {
  }

  lemma MinusNext(links: Links, gone: set<(CaseId, MessageId)>, k: (CaseId, MessageId))
    ensures links - gone - {k} == links - (gone + {k})
    ensures |(gone + {k}) * links.Keys| == |gone * links.Keys| + if k in links - gone then 1 else 0
  {
    if k in links - gone {
      assert (gone + {k}) * links.Keys == gone * links.Keys + {k};
    } else {
      assert (gone + {k}) * links.Keys == gone * links.Keys;
    }
  }

  /** The rows of these links are gone, and every other row is still there. */
  ghost predicate Erased(before: seq<Event>, after: seq<Event>, gone: set<(CaseId, MessageId)>) {
    forall e :: Times(after, e)
             == if e.message.Some? && (e.caseId, e.message.value) in gone then 0 else Times(before, e)
  }

  lemma ErasedNext(tl0: seq<Event>, before: seq<Event>, after: seq<Event>, links: Links, gone: set<(CaseId, MessageId)>,
                   c: CaseId, m: MessageId)
    requires Erased(tl0, before, gone * links.Keys)
    requires after == if (c, m) in links - gone then Without(before, c, m) else before
    ensures Erased(tl0, after, (gone + {(c, m)}) * links.Keys)
  {
    forall e
      ensures Times(after, e)
           == if e.message.Some? && (e.caseId, e.message.value) in (gone + {(c, m)}) * links.Keys then 0
              else Times(tl0, e)
    {
      WithoutTimes(before, c, m, e);
    }
  }

  lemma Occurs(tl: seq<Event>, e: Event)
    ensures Times(tl, e) > 0 <==> e in tl
  {
  }

  // ---- The store ----

  class CaseStore {
    var cases: map<CaseId, CaseRow>
    var links: Links
    var timeline: seq<Event>
    var messages: Messages
    var attachments: Attachments
    var shares: map<(CaseId, UserId), Permission>
    var notes: map<nat, CaseId>
    var evidence: map<nat, CaseId>

    constructor ()
      ensures References() && forall c: CaseId :: InStep(c)
      ensures cases == map[] && links == map[] && timeline == [] && messages == map[] && attachments == map[]
      ensures shares == map[] && notes == map[] && evidence == map[]
    {
      cases, links, timeline, messages, attachments := map[], map[], [], map[], map[];
      shares, notes, evidence := map[], map[], map[];
    }

    /** Rows point at rows that exist. */
    ghost predicate References()
      reads this
    {
      && (forall c, m :: (c, m) in links ==> c in cases && m in messages)
      && (forall a :: a in attachments ==> attachments[a] in messages)
      && (forall e :: e in timeline ==> e.caseId in cases)
      && (forall c, u :: (c, u) in shares ==> c in cases)
      && (forall n :: n in notes ==> notes[n] in cases)
      && (forall n :: n in evidence ==> evidence[n] in cases)
      && Shaped(timeline, attachments)
    }

    /** The timeline of the case is in step with its links. */
    ghost predicate InStep(c: CaseId)
      reads this
    {
      Kept(links, timeline, attachments, c)
    }

    /** Every case that was in step still is. */
    twostate predicate StepsKept()
      reads this
    {
      StillKept(old(links), old(timeline), old(attachments), links, timeline, attachments)
    }

    predicate CanRead(c: CaseId, user: User)
      reads this
    {
      c in cases && (Owns(cases[c], user) || (c, user.id) in shares)
    }

    predicate CanEdit(c: CaseId, user: User)
      reads this
    {
      c in cases && (Owns(cases[c], user) || ((c, user.id) in shares && shares[(c, user.id)] == Edit))
    }

    /** The same from the tables. */
    lemma AccessIff(c: CaseId, user: User)
      ensures CanRead(c, user) <==>
                c in cases && (user.isAdmin || cases[c].owner == Some(user.id) || (c, user.id) in shares)
      ensures CanEdit(c, user) <==>
                c in cases && (user.isAdmin || cases[c].owner == Some(user.id)
                               || ((c, user.id) in shares && shares[(c, user.id)] != Read))
    {
    }

    /** What every operation that changes an open case checks first. */
    function Guard(c: CaseId, user: User): Outcome
      reads this
    {
      GuardIn(cases, shares, c, user)
    }

    method MarkStale(c: CaseId)
      requires c in cases
      modifies this`cases
      ensures cases == Stale(old(cases), c)
    {
      cases := Stale(cases, c);
    }

    /** Adds the "document shared" rows of the attachments that came with the
        given messages. */
    method ShareDocuments(c: CaseId, ms: set<MessageId>)
      requires c in cases && Shaped(timeline, attachments)
      modifies this`timeline
      ensures Shaped(timeline, attachments)
      ensures forall e :: e in timeline ==> e in old(timeline) || e.caseId == c
      ensures forall e :: Times(timeline, e) == Times(old(timeline), e) + DocumentRow(e, attachments, c, ms)
    {
      var todo := set a | a in attachments && attachments[a] in ms;
      ghost var done: set<AttachmentId> := {};
      while todo != {}
        invariant todo !! done && forall a :: a in todo + done <==> a in attachments && attachments[a] in ms
        invariant Shaped(timeline, attachments)
        invariant forall e :: e in timeline ==> e in old(timeline) || e.caseId == c
        invariant forall e :: Times(timeline, e) == Times(old(timeline), e) +
                    if e.attachment.Some? && e.attachment.value in done
                       && e == Document(c, attachments[e.attachment.value], e.attachment.value) then 1 else 0
        decreases todo
      {
        var a :| a in todo;
        timeline := timeline + [Document(c, attachments[a], a)];
        todo, done := todo - {a}, done + {a};
      }
    }

    /** Extends the new matches by one route's findings. */
    method AddRoute(c: CaseId, found: seq<LinkRow>, ids: seq<MessageId>, source: Source,
                    ghost routes: Routes, ghost done: set<Source>)
      returns (rows: seq<LinkRow>)
      requires c in cases && SoFar(routes, cases[c], messages, links, c, done, found)
      requires source !in done && forall s :: s in done ==> Confidence(s) > Confidence(source)
      requires forall m :: m in ids <==> Finds(routes, cases[c], messages, source, m)
      ensures SoFar(routes, cases[c], messages, links, c, done + {source}, rows)
    {
      rows := found;
      for i := 0 to |ids|
        invariant Distinct(rows) && found <= rows
        invariant forall m :: Mentions(rows, m) <==> Mentions(found, m) || (m in ids[..i] && (c, m) !in links)
        invariant forall i :: |found| <= i < |rows| ==> NewRow(rows[i], found, ids, source)
      {
        ghost var before := rows;
        if (c, ids[i]) !in links && !Mentions(rows, ids[i]) {
          rows := rows + [LinkRow(ids[i], Link(Related, Confidence(source), source))];
          assert rows[|before|].message == ids[i];
        }
        forall m
          ensures Mentions(rows, m) <==> Mentions(before, m) || (m == ids[i] && (c, m) !in links)
        {
          if Mentions(before, m) {
            var k :| 0 <= k < |before| && before[k].message == m;
            assert rows[k].message == m;
          }
        }
      }
      SoFarNext(routes, cases[c], messages, links, c, done, found, rows, ids, source);
    }

    /** The new messages of a case: the conversation of its primary message,
        then its external code, then the heuristic search, minus what the
        exclusion rules take out. */
    method FindNewMatches(c: CaseId, routes: Routes) returns (rows: seq<LinkRow>)
      requires c in cases
      ensures NewMatches(routes, cases[c], messages, links, c, rows)
    {
      var row := cases[c];
      var primaryFound := row.primary.Some? && row.primary.value in messages;
      var all := AddRoute(c, [], if primaryFound then routes.conversation(row.primary.value) else [],
                          Conversation, routes, {});
      assert {} + {Conversation} == {Conversation};
      var coded := row.externalCode.Some? && row.externalCode.value != "";
      all := AddRoute(c, all, if coded then routes.keyword(row.externalCode.value) else [],
                      CrKeyword, routes, {Conversation});
      assert {Conversation} + {CrKeyword} == {Conversation, CrKeyword};
      all := AddRoute(c, all, if primaryFound then routes.heuristic(row.primary.value) else [],
                      Heuristic, routes, {Conversation, CrKeyword});
      assert {Conversation, CrKeyword} + {Heuristic} == {Conversation, CrKeyword, Heuristic};
      rows := Drop(all, routes, c, row.owner);
      AllRoutes(routes, row, messages, links, c, all, rows);
    }

    static method Drop(all: seq<LinkRow>, routes: Routes, c: CaseId, owner: Option<UserId>) returns (rows: seq<LinkRow>)
      requires Distinct(all)
      ensures Distinct(rows)
      ensures forall r :: r in rows <==> r in all && !Excluded(routes, c, owner, r.message)
    {
      rows := [];
      for i := 0 to |all|
        invariant Distinct(rows)
        invariant forall r :: r in rows <==> r in all[..i] && !Excluded(routes, c, owner, r.message)
      {
        if !Excluded(routes, c, owner, all[i].message) {
          rows := rows + [all[i]];
        }
      }
    }

    /** Links found messages to a case and tells the timeline: the common part
        of every operation that adds. */
    ghost predicate Linked(c: CaseId, rows: seq<LinkRow>, links0: Links, timeline0: seq<Event>, added: set<MessageId>)
      reads this
    {
      && links == UpsertAll(links0, c, rows)
      && (forall m :: m in added <==> Mentions(rows, m) && (c, m) !in links0)
      && Told(timeline0, timeline, attachments, c, added)
    }

    lemma ReferencesAfterLinking(c: CaseId, rows: seq<LinkRow>, links0: Links)
      requires c in cases && links == UpsertAll(links0, c, rows)
      requires forall d, m :: (d, m) in links0 ==> d in cases && m in messages
      requires forall i :: 0 <= i < |rows| ==> rows[i].message in messages
      ensures forall d: CaseId, m :: (d, m) in links ==> d in cases && m in messages
    {
      forall d: CaseId, m | (d, m) in links
        ensures d in cases && m in messages
      {
        UpsertAllFrame(links0, c, rows, d, m);
      }
    }

    lemma InStepAfterLinking(c: CaseId, rows: seq<LinkRow>, links0: Links, timeline0: seq<Event>, added: set<MessageId>)
      requires Linked(c, rows, links0, timeline0, added)
      ensures forall d: CaseId :: Kept(links0, timeline0, attachments, d) ==> InStep(d)
    {
      forall d: CaseId | Kept(links0, timeline0, attachments, d)
        ensures InStep(d)
      {
        KeptAfterLinking(links0, timeline0, attachments, c, rows, added, timeline, d);
      }
    }

    /** Links the messages one by one, each with its "email sent" row. */
    method LinkEach(c: CaseId, rows: seq<LinkRow>) returns (ms: set<MessageId>)
      requires Distinct(rows) && Shaped(timeline, attachments)
      modifies this`links, this`timeline
      ensures links == UpsertAll(old(links), c, rows) && ms == MessagesOf(rows)
      ensures Shaped(timeline, attachments)
      ensures forall e :: e in timeline ==> e in old(timeline) || e.caseId == c
      ensures forall e :: Times(timeline, e) == Times(old(timeline), e) + EmailRow(e, c, ms)
    {
      ms := {};
      for i := 0 to |rows|
        invariant links == UpsertAll(old(links), c, rows[..i]) && ms == MessagesOf(rows[..i])
        invariant Shaped(timeline, attachments)
        invariant forall e :: e in timeline ==> e in old(timeline) || e.caseId == c
        invariant forall e :: Times(timeline, e) == Times(old(timeline), e) + EmailRow(e, c, ms)
      {
        var r := rows[i];
        assert rows[..i + 1][..i] == rows[..i];
        MessagesNext(rows, i);
        MessagesMentioned(rows[..i], r.message);
        links := Upsert(links, c, r.message, r.link);
        timeline := timeline + [Email(c, r.message)];
        ms := ms + {r.message};
      }
      assert rows[..|rows|] == rows;
    }

    /** Links messages that are not linked yet, and tells the timeline. */
    method LinkAndTell(c: CaseId, rows: seq<LinkRow>)
      requires References() && c in cases && Distinct(rows)
      requires forall i :: 0 <= i < |rows| ==> rows[i].message in messages && (c, rows[i].message) !in links
      modifies this`links, this`timeline
      ensures References() && StepsKept()
      ensures Linked(c, rows, old(links), old(timeline), MessagesOf(rows))
    {
      var ms := LinkEach(c, rows);
      ShareDocuments(c, ms);
      forall m: MessageId
        ensures m in ms <==> Mentions(rows, m) && (c, m) !in old(links)
      {
        MessagesMentioned(rows, m);
      }
      ReferencesAfterLinking(c, rows, old(links));
      InStepAfterLinking(c, rows, old(links), old(timeline), ms);
    }

    /** Looks for messages that belong to an open case and links them. */
    method Refresh(c: CaseId, user: User, routes: Routes)
      returns (outcome: Outcome, found: nat, ghost rows: seq<LinkRow>)
      requires References() && Sound(routes, messages)
      modifies this`cases, this`links, this`timeline
      ensures References() && StepsKept() && cases.Keys == old(cases.Keys)
      ensures outcome == old(Guard(c, user)) && found == |rows|
      ensures outcome != Ok ==> unchanged(this) && rows == []
      ensures outcome == Ok ==>
                && NewMatches(routes, old(cases)[c], messages, old(links), c, rows)
                && Linked(c, rows, old(links), old(timeline), MessagesOf(rows))
                && cases == if found > 0 then Stale(old(cases), c) else old(cases)
    {
      outcome, found, rows := Guard(c, user), 0, [];
      if outcome != Ok {
        return;
      }
      var matches := FindNewMatches(c, routes);
      rows, found := matches, |matches|;
      forall i | 0 <= i < |matches|
        ensures matches[i].message in messages && (c, matches[i].message) !in links
      {
        assert Mentions(matches, matches[i].message);
      }
      LinkAndTell(c, matches);
      if found > 0 {
        MarkStale(c);
      }
    }

    /** Links a message by hand.  accessible is the set of mailboxes the user
        can see, None for an administrator; a message with no mailbox is
        visible to everybody. */
    method Add(c: CaseId, m: MessageId, user: User, accessible: Option<set<MailboxId>>) returns (outcome: Outcome)
      requires References()
      modifies this`cases, this`links, this`timeline
      ensures References() && StepsKept() && cases.Keys == old(cases.Keys)
      ensures outcome == if old(Guard(c, user)) != Ok then old(Guard(c, user))
                         else if m in messages
                                 && (accessible == None || messages[m] == None
                                     || messages[m].value in accessible.value) then Ok
                         else MessageNotFound
      ensures outcome != Ok ==> unchanged(this)
      ensures outcome == Ok ==> Linked(c, [LinkRow(m, Link(Related, 1.0, Manual))], old(links), old(timeline),
                                       if (c, m) in old(links) then {} else {m})
      ensures outcome == Ok ==> cases == if (c, m) in old(links) then old(cases) else Stale(old(cases), c)
    {
      outcome := Guard(c, user);
      if outcome != Ok {
        return;
      }
      if m !in messages || !Visible(messages[m], accessible) {
        return MessageNotFound;
      }
      var row := LinkRow(m, Link(Related, 1.0, Manual));
      assert MessagesOf([row]) == {m} by {
        assert [row][..0] == [];
      }
      if (c, m) in links {
        links := Upsert(links, c, m, row.link);
        assert UpsertAll(old(links), c, [row]) == links by {
          assert [row][..0] == [];
        }
        ReferencesAfterLinking(c, [row], old(links));
        InStepAfterLinking(c, [row], old(links), old(timeline), {});
      } else {
        LinkAndTell(c, [row]);
        MarkStale(c);
      }
    }

    /** Removes a link together with every timeline row of the case that came
        from the message. */
    method Unlink(c: CaseId, m: MessageId) returns (removed: bool)
      requires References()
      modifies this`links, this`timeline
      ensures References() && StepsKept()
      ensures removed == ((c, m) in old(links))
      ensures links == old(links) - {(c, m)}
      ensures timeline == if removed then Without(old(timeline), c, m) else old(timeline)
    {
      removed := (c, m) in links;
      if removed {
        forall d: CaseId | InStep(d)
          ensures Kept(links - {(c, m)}, Without(timeline, c, m), attachments, d)
        {
          KeptAfterUnlinking(links, timeline, attachments, c, m, d);
        }
        WithoutShape(timeline, attachments, c, m);
        links := links - {(c, m)};
        timeline := Without(timeline, c, m);
      }
    }

    method Remove(c: CaseId, m: MessageId, user: User) returns (outcome: Outcome)
      requires References()
      modifies this`cases, this`links, this`timeline
      ensures References() && StepsKept() && cases.Keys == old(cases.Keys)
      ensures outcome == old(Guard(c, user))
      ensures outcome != Ok ==> unchanged(this)
      ensures outcome == Ok ==> links == old(links) - {(c, m)}
      ensures outcome == Ok && (c, m) in old(links) ==>
                timeline == Without(old(timeline), c, m) && cases == Stale(old(cases), c)
      ensures outcome == Ok && (c, m) !in old(links) ==> timeline == old(timeline) && cases == old(cases)
    {
      outcome := Guard(c, user);
      if outcome == Ok {
        var removed := Unlink(c, m);
        if removed {
          MarkStale(c);
        }
      }
    }

    method UnlinkAll(c: CaseId, ids: seq<MessageId>) returns (removed: nat)
      requires References()
      modifies this`links, this`timeline
      ensures References() && StepsKept()
      ensures links == old(links) - Pairs(c, ids) && removed == |Pairs(c, ids) * old(links.Keys)|
      ensures Erased(old(timeline), timeline, Pairs(c, ids) * old(links.Keys))
    {
      removed := 0;
      ghost var links0, gone := links, Pairs(c, ids[..0]);
      MinusNone(links0);
      for i := 0 to |ids|
        invariant References() && StepsKept()
        invariant gone == Pairs(c, ids[..i]) && links == links0 - gone && removed == |gone * links0.Keys|
        invariant Erased(old(timeline), timeline, gone * links0.Keys)
      {
        PairsNext(c, ids, i);
        MinusNext(links0, gone, (c, ids[i]));
        ghost var before := timeline;
        var one := Unlink(c, ids[i]);
        ErasedNext(old(timeline), before, timeline, links0, gone, c, ids[i]);
        removed := removed + if one then 1 else 0;
        gone := gone + {(c, ids[i])};
      }
      assert ids[..|ids|] == ids;
    }

    /** Unlinks several messages; naming one twice counts it once. */
    method BulkRemove(c: CaseId, ids: seq<MessageId>, user: User) returns (outcome: Outcome, removed: nat)
      requires References()
      modifies this`cases, this`links, this`timeline
      ensures References() && StepsKept() && cases.Keys == old(cases.Keys)
      ensures outcome == old(Guard(c, user))
      ensures outcome != Ok ==> unchanged(this) && removed == 0
      ensures outcome == Ok ==>
                && links == old(links) - Pairs(c, ids) && removed == |Pairs(c, ids) * old(links.Keys)|
                && Erased(old(timeline), timeline, Pairs(c, ids) * old(links.Keys))
                && cases == if removed > 0 then Stale(old(cases), c) else old(cases)
    {
      outcome, removed := Guard(c, user), 0;
      if outcome == Ok {
        removed := UnlinkAll(c, ids);
        if removed > 0 {
          MarkStale(c);
        }
      }
    }

    /** An indexing run brings in a message, or sees one again. */
    method IndexMessage(m: MessageId, mailbox: Option<MailboxId>)
      requires References()
      modifies this`messages
      ensures References() && StepsKept()
      ensures messages == old(messages)[m := mailbox]
    {
      messages := messages[m := mailbox];
    }

    /** Opens or closes a case; closing forgets the count of new messages. */
    method SetStatus(c: CaseId, status: Status)
      requires References() && c in cases
      modifies this`cases
      ensures References() && StepsKept()
      ensures var row := old(cases)[c];
        var pending := if status == Closed && row.status == Open then 0 else row.pendingReopen;
        cases == old(cases)[c := row.(status := status, pendingReopen := pending)]
    {
      var row := cases[c];
      var pending := if status == Closed && row.status == Open then 0 else row.pendingReopen;
      cases := cases[c := row.(status := status, pendingReopen := pending)];
    }

    /** A retrace brings in an attachment that was not indexed before. */
    method RecoverAttachment(a: AttachmentId, m: MessageId)
      requires References() && a !in attachments && m in messages
      modifies this`attachments
      ensures References() && StepsKept()
      ensures attachments == old(attachments)[a := m]
    {
      attachments := attachments[a := m];
      forall c: CaseId | old(InStep(c))
        ensures InStep(c)
      {
        Occurs(timeline, Document(c, m, a));
      }
    }

    /** The cases linked to m, paired with the attachments of m. */
    function CasesAndAttachments(m: MessageId): (r: set<(CaseId, AttachmentId)>)
      reads this
      ensures forall c, a :: (c, a) in r <==> (c, m) in links && a in attachments && attachments[a] == m
    {
      set k, a | k in links && k.1 == m && a in attachments && attachments[a] == m :: (k.0, a)
    }

    /** Adds one "document shared" row unless the case has a row for the
        attachment already. */
    method BackfillOne(c: CaseId, m: MessageId, a: AttachmentId)
      requires References() && (c, m) in links && a in attachments && attachments[a] == m
      modifies this`timeline
      ensures References() && StepsKept()
      ensures forall e :: Times(timeline, e) == if e == Document(c, m, a) && Times(old(timeline), e) == 0 then 1
                                                else Times(old(timeline), e)
    {
      if exists e :: e in timeline && e.caseId == c && e.attachment == Some(a) {
        var e :| e in timeline && e.caseId == c && e.attachment == Some(a);
        assert e == Document(c, m, a);
        Occurs(timeline, e);
      } else {
        Occurs(timeline, Document(c, m, a));
        forall d: CaseId | InStep(d)
          ensures Kept(links, timeline + [Document(c, m, a)], attachments, d)
        {
          KeptAfterDocument(links, timeline, attachments, c, m, a, d);
        }
        timeline := timeline + [Document(c, m, a)];
      }
    }

    /** Adds the missing "document shared" rows of a message to every case it
        is linked to, and nothing else. */
    method Backfill(m: MessageId)
      requires References()
      modifies this`timeline
      ensures References() && StepsKept()
      ensures Filled(old(timeline), timeline, links, attachments, m, {})
    {
      var todo := CasesAndAttachments(m);
      while todo != {}
        invariant References() && StepsKept() && todo <= CasesAndAttachments(m)
        invariant Filled(old(timeline), timeline, links, attachments, m, todo)
        decreases todo
      {
        var k :| k in todo;
        ghost var before := timeline;
        BackfillOne(k.0, m, k.1);
        FilledNext(old(timeline), before, timeline, links, attachments, m, todo, k);
        todo := todo - {k};
      }
    }

    /** Adds the "email sent" rows of messages that have none. */
    method TellEmails(c: CaseId, ms: set<MessageId>)
      requires Shaped(timeline, attachments)
      modifies this`timeline
      ensures Shaped(timeline, attachments)
      ensures forall e :: e in timeline ==> e in old(timeline) || e.caseId == c
      ensures forall e :: Times(timeline, e) == Times(old(timeline), e) + EmailRow(e, c, ms)
    {
      var todo := ms;
      while todo != {}
        invariant todo <= ms && Shaped(timeline, attachments)
        invariant forall e :: e in timeline ==> e in old(timeline) || e.caseId == c
        invariant forall e :: Times(timeline, e) == Times(old(timeline), e) + EmailRow(e, c, ms - todo)
        decreases todo
      {
        var m :| m in todo;
        timeline := timeline + [Email(c, m)];
        todo := todo - {m};
      }
    }

    /** Links the messages of a search: the seeds, then what the heuristic
        search adds to them.  Only messages that were not linked before get
        timeline rows. */
    method LinkSeeds(c: CaseId, primary: Option<MessageId>, seeds: seq<MessageId>, source: Source,
                     related: seq<MessageId>)
      returns (ghost rows: seq<LinkRow>, ghost told: set<MessageId>)
      requires References() && c in cases
      requires forall m :: m in seeds || m in related ==> m in messages
      modifies this`links, this`timeline
      ensures References() && StepsKept() && Linked(c, rows, old(links), old(timeline), told)
      ensures SeededBy(rows, primary, seeds, source, related)
      ensures forall m :: (c, m) in links <==> (c, m) in old(links) || m in seeds || m in related
    {
      var preexisting := set k | k in links && k.0 == c :: k.1;
      var matched;
      matched, rows := LinkFound(c, primary, seeds, source, related);
      told := matched - preexisting;
      TellEmails(c, matched - preexisting);
      ShareDocuments(c, matched - preexisting);
      RowsLinked(old(links), c, rows, matched, messages.Keys);
      ReferencesAfterLinking(c, rows, old(links));
      InStepAfterLinking(c, rows, old(links), old(timeline), told);
    }

    method LinkFound(c: CaseId, primary: Option<MessageId>, seeds: seq<MessageId>, source: Source,
                     related: seq<MessageId>)
      returns (matched: set<MessageId>, ghost rows: seq<LinkRow>)
      modifies this`links
      ensures links == UpsertAll(old(links), c, rows) && SeededBy(rows, primary, seeds, source, related)
      ensures forall m :: m in matched <==> m in seeds || m in related
      ensures forall m :: Mentions(rows, m) <==> m in matched
    {
      matched := UpsertSeeds(c, primary, seeds, source);
      SeedRowsMention(primary, seeds, source);
      matched, rows := UpsertRelated(c, matched, related, old(links), SeedRows(primary, seeds, source));
    }

    method UpsertSeeds(c: CaseId, primary: Option<MessageId>, seeds: seq<MessageId>, source: Source)
      returns (matched: set<MessageId>)
      modifies this`links
      ensures Seeded(old(links), links, c, primary, seeds, source, matched)
    {
      matched := {};
      for i := 0 to |seeds|
        invariant Seeded(old(links), links, c, primary, seeds[..i], source, matched)
      {
        SeededNext(old(links), links, c, primary, seeds[..i], source, matched, seeds[i]);
        assert seeds[..i + 1] == seeds[..i] + [seeds[i]];
        var r := SeedRow(primary, seeds[i], source);
        links := Upsert(links, c, r.message, r.link);
        matched := matched + {seeds[i]};
      }
      assert seeds[..|seeds|] == seeds;
    }

    method UpsertRelated(c: CaseId, seeds: set<MessageId>, related: seq<MessageId>,
                         ghost links0: Links, ghost rows0: seq<LinkRow>)
      returns (matched: set<MessageId>, ghost rows: seq<LinkRow>)
      requires links == UpsertAll(links0, c, rows0)
      requires forall m :: Mentions(rows0, m) <==> m in seeds
      modifies this`links
      ensures WithRelated(links0, links, c, rows0, rows, seeds, related, matched)
      ensures matched == seeds + set m | m in related
    {
      matched, rows := seeds, rows0;
      for i := 0 to |related|
        invariant WithRelated(links0, links, c, rows0, rows, seeds, related, matched)
        invariant matched == seeds + set m | m in related[..i]
      {
        if related[i] !in matched {
          var r := LinkRow(related[i], Link(Related, CONFIDENCE_HEURISTIC, Heuristic));
          WithRelatedNext(links0, links, c, rows0, rows, seeds, related, matched, r);
          links := Upsert(links, c, r.message, r.link);
          rows := rows + [r];
          matched := matched + {r.message};
        }
      }
    }

    method FreshCase() returns (c: CaseId)
      ensures c !in cases
    {
      c := 0;
      var seen := cases.Keys;
      while c in seen
        invariant cases.Keys == seen + (set d | d in cases && d < c)
        invariant forall d :: d < c ==> d !in seen
        decreases |seen|
      {
        seen := seen - {c};
        c := c + 1;
      }
    }

    /** Refreshes the case that was found, if the user can see one, else makes a
        new one. */
    method FindOrMake(user: User, existing: Option<CaseId>, seed: Seed, primary: Option<MessageId>, routes: Routes)
      returns (c: CaseId, isNew: bool, untouched: bool, ghost refreshed: seq<LinkRow>, ghost added: set<MessageId>)
      requires References() && Sound(routes, messages)
      requires existing.Some? ==> existing.value in cases
      modifies this`cases, this`links, this`timeline
      ensures References() && StepsKept() && c in cases
      ensures isNew <==> existing == None || old(Guard(existing.value, user)) == NotFound
      ensures untouched <==> existing.Some? && old(Guard(existing.value, user)) in {CaseIsClosed, Denied}
      ensures untouched ==> unchanged(this) && refreshed == []
      ensures isNew ==> c !in old(cases) && refreshed == []
                        && cases == old(cases)[c := CaseRow(Open, primary, CodeOf(seed), Some(user.id), false, 0)]
      ensures !isNew ==> c == existing.value && cases == if refreshed == [] then old(cases) else Stale(old(cases), c)
      ensures !isNew && !untouched ==> NewMatches(routes, old(cases)[c], messages, old(links), c, refreshed)
      ensures !untouched ==> Linked(c, refreshed, old(links), old(timeline), added)
    {
      isNew, untouched, refreshed, added := true, false, [], {};
      if existing.Some? {
        var outcome, found, rows := Refresh(existing.value, user, routes);
        if outcome == CaseIsClosed || outcome == Denied {
          return existing.value, false, true, [], {};
        }
        if outcome == Ok {
          return existing.value, false, false, rows, MessagesOf(rows);
        }
      }
      c := FreshCase();
      cases := cases[c := CaseRow(Open, primary, CodeOf(seed), Some(user.id), false, 0)];
    }

    /** Creates a case around the messages of a seed, or adds them to an open
        case that the user may edit and that was found under the same code or
        title; and adds what the heuristic search finds for the first of them. */
    method Create(user: User, existing: Option<CaseId>, seed: Seed, accessible: Option<set<MailboxId>>, routes: Routes)
      returns (c: CaseId, isNew: bool, untouched: bool,
               ghost refreshed: seq<LinkRow>, ghost seeded: seq<LinkRow>, ghost added: set<MessageId>)
      requires References() && Sound(routes, messages)
      requires existing.Some? ==> existing.value in cases
      requires seed.FromConversation? ==> forall m :: m in seed.found ==> m in messages
      modifies this`cases, this`links, this`timeline
      ensures References() && StepsKept() && c in cases
      ensures isNew <==> existing == None || old(Guard(existing.value, user)) == NotFound
      ensures untouched <==> existing.Some? && old(Guard(existing.value, user)) in {CaseIsClosed, Denied}
      ensures untouched ==> unchanged(this)
      ensures var seeds := SeedsOf(routes, messages, accessible, user.id, seed);
        isNew ==> c !in old(cases) && refreshed == []
                  && cases == old(cases)[c := CaseRow(Open, if seeds == [] then None else Some(seeds[0]),
                                                      if seed.FromCode? then Some(seed.code) else None,
                                                      Some(user.id), false, 0)]
      ensures !isNew ==> c == existing.value && cases == if refreshed == [] then old(cases) else Stale(old(cases), c)
      ensures !isNew && !untouched ==> NewMatches(routes, old(cases)[c], messages, old(links), c, refreshed)
      ensures !untouched ==> Linked(c, refreshed + seeded, old(links), old(timeline), added)
      ensures var seeds := SeedsOf(routes, messages, accessible, user.id, seed);
        var related := RelatedTo(routes, FirstOf(seeds), c, cases[c].owner);
        && (!untouched ==> SeededBy(seeded, FirstOf(seeds), seeds, SourceOf(seed), related))
        && (!untouched ==> forall m :: m in seeds || m in related ==> (c, m) in links)
        && (isNew ==> FreshLinks(links, c, seed, seeds, related))
      ensures isNew && !seed.FromMessage? ==>
                forall m :: (c, m) in links ==> !RuledOut(routes, None, Some(user.id), m)
    {
      var seeds := SeedsOf(routes, messages, accessible, user.id, seed);
      seeded := [];
      c, isNew, untouched, refreshed, added := FindOrMake(user, existing, seed, FirstOf(seeds), routes);
      if untouched {
        return;
      }
      ghost var links1, timeline1, told := links, timeline, {};
      var related := RelatedTo(routes, FirstOf(seeds), c, cases[c].owner);
      SearchedAreIndexed(routes, messages, accessible, user.id, seed, c, cases[c].owner);
      seeded, told := LinkSeeds(c, FirstOf(seeds), seeds, SourceOf(seed), related);
      if isNew {
        NewCaseLinks(links1, c, seeded, seed, seeds, related);
      }
      UpsertAllConcat(old(links), c, refreshed, seeded);
      Composed(old(links), links1, c, refreshed, seeded, added, told);
      ToldTwice(old(timeline), timeline1, timeline, attachments, c, added, told);
      added := added + told;
    }

    /** Refreshing twice on the same index does what refreshing once does: the
        second time finds nothing. */
    method RefreshTwice(c: CaseId, user: User, routes: Routes)
      returns (outcome: Outcome, first: nat, second: nat, ghost rows: seq<LinkRow>)
      requires References() && Sound(routes, messages)
      modifies this`cases, this`links, this`timeline
      ensures References() && StepsKept() && second == 0
      ensures outcome == old(Guard(c, user)) && first == |rows|
      ensures outcome != Ok ==> unchanged(this) && rows == []
      ensures outcome == Ok ==>
                && NewMatches(routes, old(cases)[c], messages, old(links), c, rows)
                && Linked(c, rows, old(links), old(timeline), MessagesOf(rows))
                && cases == if first > 0 then Stale(old(cases), c) else old(cases)
    {
      outcome, first, rows := Refresh(c, user, routes);
      ghost var row, links1, timeline1 := if c in cases then Some(cases[c]) else None, links, timeline;
      var outcome2;
      ghost var again;
      outcome2, second, again := Refresh(c, user, routes);
      if outcome2 == Ok {
        NewMatchesLocal(routes, row.value, old(cases)[c], messages, links1, links1, c, again);
        RefreshLeavesNothing(routes, old(cases)[c], messages, old(links), c, rows, again);
        ToldTwice(old(timeline), timeline1, timeline, attachments, c, MessagesOf(rows), {});
        assert MessagesOf(rows) + {} == MessagesOf(rows);
      }
    }

    /** Reopens a closed case and links what is new. */
    method Reopen(c: CaseId, user: User, routes: Routes)
      returns (outcome: Outcome, found: nat, ghost rows: seq<LinkRow>)
      requires References() && Sound(routes, messages)
      modifies this`cases, this`links, this`timeline
      ensures References() && StepsKept() && cases.Keys == old(cases.Keys)
      ensures outcome == if !old(CanRead(c, user)) then NotFound
                         else if !old(CanEdit(c, user)) then Denied
                         else if old(cases)[c].status != Closed then CaseNotClosed else Ok
      ensures outcome != Ok ==> unchanged(this)
      ensures outcome == Ok ==>
                && cases == old(cases)[c := old(cases)[c].(status := Open, pendingReopen := 0,
                                                           aiStale := old(cases)[c].aiStale || found > 0)]
                && NewMatches(routes, old(cases)[c], messages, old(links), c, rows) && found == |rows|
                && Linked(c, rows, old(links), old(timeline), MessagesOf(rows))
    {
      found, rows := 0, [];
      if !CanRead(c, user) {
        return NotFound, 0, [];
      }
      if !CanEdit(c, user) {
        return Denied, 0, [];
      }
      if cases[c].status != Closed {
        return CaseNotClosed, 0, [];
      }
      cases := cases[c := cases[c].(status := Open, pendingReopen := 0)];
      outcome, found, rows := Refresh(c, user, routes);
      NewMatchesLocal(routes, old(cases)[c].(status := Open, pendingReopen := 0), old(cases)[c],
                      messages, old(links), old(links), c, rows);
    }

    /** Leaves a closed case alone but for the count of its new messages. */
    method Scan(c: CaseId, routes: Routes)
      requires References() && c in cases
      modifies this`cases
      ensures References() && StepsKept()
      ensures exists n: nat :: Counts(routes, old(cases)[c], messages, links, c, n)
                               && cases == old(cases)[c := old(cases)[c].(pendingReopen := n)]
    {
      var rows := FindNewMatches(c, routes);
      assert Counts(routes, cases[c], messages, links, c, |rows|);
      cases := cases[c := cases[c].(pendingReopen := |rows|)];
    }

    ghost predicate Refreshed(routes: Routes, cases0: map<CaseId, CaseRow>, links0: Links, done: set<CaseId>)
      reads this
    {
      CaughtUp(routes, messages, cases0, links0, cases, links, done)
    }

    /** Refreshes every open case that the user can see; a case that the user
        may only read stays as it is, and so does one whose searches fail. */
    method RefreshOpen(user: User, routes: Routes, failing: set<CaseId>)
      returns (checked: nat, errors: nat, withNew: nat, found: nat)
      requires References() && Sound(routes, messages)
      modifies this`cases, this`links, this`timeline
      ensures References() && StepsKept()
      ensures Refreshed(routes, old(cases), old(links), Editable(old(cases), shares, user) - failing)
      ensures checked == |OpenIn(old(cases), shares, user)|
      ensures errors == |Editable(old(cases), shares, user) * failing|
      ensures found == |links| - |old(links)| && withNew == |Gained(old(links), links)|
    {
      var open := OpenIn(cases, shares, user);
      OpenInIs(cases, shares, user);
      checked := |open|;
      ghost var editable := Editable(cases, shares, user);
      NothingCaught(routes, messages, cases, links);
      LedgerStarts(links, editable, open, failing);
      errors, withNew, found := RefreshEach(user, routes, failing, open, cases, links, editable);
      TakenAll(editable, {}, failing);
    }

    /** The loop over the open cases. */
    method RefreshEach(user: User, routes: Routes, failing: set<CaseId>, open: set<CaseId>,
                       ghost cases0: map<CaseId, CaseRow>, ghost links0: Links, ghost editable: set<CaseId>)
      returns (errors: nat, withNew: nat, found: nat)
      requires References() && Sound(routes, messages)
      requires forall c :: c in editable <==> GuardIn(cases0, shares, c, user) == Ok
      requires Turned(routes, cases0, links0, editable, open, failing, 0, 0, 0)
      modifies this`cases, this`links, this`timeline
      ensures References() && StepsKept()
      ensures Turned(routes, cases0, links0, editable, {}, failing, errors, withNew, found)
    {
      errors, withNew, found := 0, 0, 0;
      var todo := open;
      while todo != {}
        invariant References() && StepsKept()
        invariant Turned(routes, cases0, links0, editable, todo, failing, errors, withNew, found)
        decreases todo
      {
        var c :| c in todo;
        errors, withNew, found :=
          RefreshTurn(c, user, routes, failing, cases0, links0, editable, todo, errors, withNew, found);
        todo := todo - {c};
      }
    }

    /** What holds at the head of the loop, with the cases in open still to
        come. */
    ghost predicate Turned(routes: Routes, cases0: map<CaseId, CaseRow>, links0: Links, editable: set<CaseId>,
                           open: set<CaseId>, failing: set<CaseId>, errors: nat, withNew: nat, found: nat)
      reads this
    {
      && open <= cases.Keys && Refreshed(routes, cases0, links0, editable - failing - open)
      && Ledger(links0, links, editable - open, failing, errors, withNew, found)
    }

    /** One turn of the loop. */
    method RefreshTurn(c: CaseId, user: User, routes: Routes, failing: set<CaseId>,
                       ghost cases0: map<CaseId, CaseRow>, ghost links0: Links, ghost editable: set<CaseId>,
                       ghost open: set<CaseId>, errors0: nat, withNew0: nat, found0: nat)
      returns (errors: nat, withNew: nat, found: nat)
      requires References() && Sound(routes, messages) && c in open
      requires c in editable <==> GuardIn(cases0, shares, c, user) == Ok
      requires Turned(routes, cases0, links0, editable, open, failing, errors0, withNew0, found0)
      modifies this`cases, this`links, this`timeline
      ensures References() && StepsKept()
      ensures Turned(routes, cases0, links0, editable, open - {c}, failing, errors, withNew, found)
    {
      ghost var done, links1 := editable - failing - open, links;
      var failed, more := RefreshOne(c, user, routes, failing, cases0, links0, editable, done);
      LedgerNext(links0, links1, links, editable, open, failing, errors0, withNew0, found0, c, more);
      errors := errors0 + if failed then 1 else 0;
      withNew, found := withNew0 + if more > 0 then 1 else 0, found0 + more;
    }

    /** One case of the loop. */
    method RefreshOne(c: CaseId, user: User, routes: Routes, failing: set<CaseId>,
                      ghost cases0: map<CaseId, CaseRow>, ghost links0: Links,
                      ghost editable: set<CaseId>, ghost done: set<CaseId>)
      returns (failed: bool, found: nat)
      requires References() && Sound(routes, messages) && c in cases && c !in done
      requires (c in editable <==> GuardIn(cases0, shares, c, user) == Ok) && Refreshed(routes, cases0, links0, done)
      modifies this`cases, this`links, this`timeline
      ensures References() && StepsKept() && cases.Keys == old(cases.Keys)
      ensures Refreshed(routes, cases0, links0, if c in editable && c !in failing then done + {c} else done)
      ensures failed <==> c in editable && c in failing
      ensures |links| == |old(links)| + found
      ensures |Gained(links0, links)| == |old(Gained(links0, links))| + if found > 0 then 1 else 0
    {
      ghost var cases1, links1 := cases, links;
      failed, found := Guard(c, user) == Ok && c in failing, 0;
      if failed {
        return;
      }
      var outcome;
      ghost var rows;
      outcome, found, rows := Refresh(c, user, routes);
      if outcome == Ok {
        CaughtUpNext(routes, messages, cases0, links0, cases1, links1, done, c, rows, cases);
        NewLinksCount(routes, cases1[c], messages, links0, links1, c, rows);
      }
    }

    ghost predicate Scanned(routes: Routes, cases0: map<CaseId, CaseRow>, done: set<CaseId>)
      reads this
    {
      ScannedTo(routes, messages, links, cases0, cases, done)
    }

    method ScanClosed(user: User, routes: Routes, failing: set<CaseId>) returns (errors: nat, flagged: nat)
      requires References()
      modifies this`cases
      ensures References() && StepsKept()
      ensures Scanned(routes, old(cases), ClosedIn(old(cases), shares, user) - failing)
      ensures errors == |ClosedIn(old(cases), shares, user) * failing|
      ensures flagged == |Flagged(cases, ClosedIn(old(cases), shares, user) - failing)|
    {
      errors, flagged := ScanEach(ClosedIn(cases, shares, user), routes, failing);
    }

    /** The loop over the closed cases. */
    method ScanEach(closed: set<CaseId>, routes: Routes, failing: set<CaseId>) returns (errors: nat, flagged: nat)
      requires References() && closed <= cases.Keys
      modifies this`cases
      ensures References() && StepsKept()
      ensures Scanned(routes, old(cases), closed - failing)
      ensures errors == |closed * failing| && flagged == |Flagged(cases, closed - failing)|
    {
      errors, flagged := 0, 0;
      var todo := closed;
      TakenNone(closed, todo, failing);
      while todo != {}
        invariant References() && StepsKept() && todo <= closed
        invariant ScannedBut(routes, old(cases), closed, todo, failing, errors, flagged)
        decreases todo
      {
        var c :| c in todo;
        errors, flagged := ScanTurn(c, routes, failing, old(cases), closed, todo, errors, flagged);
        todo := todo - {c};
      }
      TakenAll(closed, todo, failing);
    }

    /** What holds at the head of the loop, with the cases in todo still to
        come. */
    ghost predicate ScannedBut(routes: Routes, cases0: map<CaseId, CaseRow>, closed: set<CaseId>, todo: set<CaseId>,
                               failing: set<CaseId>, errors: nat, flagged: nat)
      reads this
    {
      && closed <= cases.Keys && Scanned(routes, cases0, closed - failing - todo)
      && errors == |(closed - todo) * failing| && flagged == |Flagged(cases, closed - failing - todo)|
    }

    /** One turn of the loop. */
    method ScanTurn(c: CaseId, routes: Routes, failing: set<CaseId>, ghost cases0: map<CaseId, CaseRow>,
                    ghost closed: set<CaseId>, ghost todo: set<CaseId>, errors0: nat, flagged0: nat)
      returns (errors: nat, flagged: nat)
      requires References() && c in todo && todo <= closed
      requires ScannedBut(routes, cases0, closed, todo, failing, errors0, flagged0)
      modifies this`cases
      ensures References() && StepsKept()
      ensures ScannedBut(routes, cases0, closed, todo - {c}, failing, errors, flagged)
    {
      TakenNext(closed, todo, failing, c);
      if c in failing {
        errors, flagged := errors0 + 1, flagged0;
      } else {
        var one := ScanOne(c, routes, cases0, closed - failing - todo);
        errors, flagged := errors0, flagged0 + if one then 1 else 0;
      }
    }

    /** One case of the loop. */
    method ScanOne(c: CaseId, routes: Routes, ghost cases0: map<CaseId, CaseRow>, ghost done: set<CaseId>)
      returns (flagged: bool)
      requires References() && c in cases && c !in done && Scanned(routes, cases0, done)
      modifies this`cases
      ensures References() && StepsKept() && cases.Keys == old(cases.Keys)
      ensures Scanned(routes, cases0, done + {c})
      ensures |Flagged(cases, done + {c})| == |old(Flagged(cases, done))| + if flagged then 1 else 0
    {
      Scan(c, routes);
      flagged := cases[c].pendingReopen > 0;
      FlaggedNext(old(cases), done, c, cases[c]);
      assert cases == old(cases)[c := cases[c]];
    }

    /** Refreshes every open case the user can see, then counts the new
        messages of every closed one; a case whose searches fail is skipped. */
    method RefreshAll(user: User, routes: Routes, failing: set<CaseId>) returns (report: Report)
      requires References() && Sound(routes, messages)
      modifies this`cases, this`links, this`timeline
      ensures References() && StepsKept()
      ensures AllRefreshed(routes, messages, old(cases), old(links), cases, links,
                           Editable(old(cases), shares, user) - failing, ClosedIn(old(cases), shares, user) - failing)
      ensures report.checked
           == |set c | c in old(cases) && old(cases)[c].status == Open
                       && (user.isAdmin || old(cases)[c].owner == Some(user.id) || (c, user.id) in shares)|
      ensures report.found == |links| - |old(links)| && report.withNew == |Gained(old(links), links)|
      ensures report.errors
           == |Editable(old(cases), shares, user) * failing| + |ClosedIn(old(cases), shares, user) * failing|
      ensures forall c :: c in cases && !old(CanRead(c, user)) ==>
                cases[c] == old(cases)[c] && SameLinks(old(links), links, c)
      ensures report.flagged == |Flagged(cases, ClosedIn(old(cases), shares, user) - failing)|
    {
      var checked, errors, withNew, found := RefreshOpen(user, routes, failing);
      SameClosed(routes, messages, old(cases), old(links), cases, links, failing, shares, user);
      ghost var cases1 := cases;
      var scanErrors, flagged := ScanClosed(user, routes, failing);
      RefreshedThenScanned(routes, messages, old(cases), old(links), cases1, links, cases,
                           Editable(old(cases), shares, user) - failing, ClosedIn(old(cases), shares, user) - failing);
      OpenInIs(old(cases), shares, user);
      report := Report(checked, withNew, found, errors + scanErrors, flagged);
    }

    /** The number stored for a closed case is the number that reopening it as
        the same user, on the same index, then links: the number of its new
        messages. */
    method RefreshAllThenReopen(c: CaseId, user: User, routes: Routes, failing: set<CaseId>)
      returns (stored: nat, linked: nat, ghost rows: seq<LinkRow>)
      requires References() && Sound(routes, messages)
      requires CanEdit(c, user) && cases[c].status == Closed && c !in failing
      modifies this`cases, this`links, this`timeline
      ensures References() && StepsKept() && cases.Keys == old(cases.Keys)
      ensures cases[c] == old(cases)[c].(status := Open, pendingReopen := 0,
                                         aiStale := old(cases)[c].aiStale || linked > 0)
      ensures linked == stored == |rows|
      ensures NewMatches(routes, old(cases)[c], messages, old(links), c, rows)
      ensures forall m :: (c, m) in links <==> (c, m) in old(links) || Mentions(rows, m)
    {
      var report := RefreshAll(user, routes, failing);
      AboutClosed(routes, messages, old(cases), old(links), cases, links, Editable(old(cases), shares, user) - failing,
                  ClosedIn(old(cases), shares, user) - failing, c);
      stored := cases[c].pendingReopen;
      ghost var counted :| NewMatches(routes, cases[c], messages, links, c, counted) && |counted| == stored;
      ghost var row, links1 := cases[c], links;
      var outcome;
      outcome, linked, rows := Reopen(c, user, routes);
      StoredIsLinked(routes, row, old(cases)[c], messages, old(links), links1, c, counted, rows);
    }
  }
}
