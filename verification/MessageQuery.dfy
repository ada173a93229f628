/** Building the condition list of a message search, and reading the result
    page by page. */
module MessageQuery {

  import opened Options

  datatype Message = Message(id: string, folder: Option<string>, sent: Option<int>, from: Option<string>,
                             subject: Option<string>, body: Option<string>, conversation: Option<string>,
                             isSent: bool, hasAttachments: bool, mailbox: Option<int>)

  datatype Filters = Filters(accessible: Option<seq<int>>, folder: Option<string>, dateFrom: Option<int>,
                             dateTo: Option<int>, from: Option<string>, subject: Option<string>,
                             search: Option<string>, text: Option<string>, conversation: Option<string>,
                             isSent: Option<bool>, hasAttachments: Option<bool>, attachment: Option<string>,
                             mailbox: Option<int>)

  /** The matching operators of the database. */
  datatype Engine = Engine(like: (string, string) -> bool, search: (Message, string) -> bool,
                           attachment: (Message, string) -> bool)

  // ---- What a search means ----

  predicate InMailboxes(f: Filters, m: Message) {
    && (f.accessible.Some? ==> m.mailbox.Some? && m.mailbox.value in f.accessible.value)
    && (f.mailbox.Some? ==> m.mailbox == f.mailbox)
  }

  predicate InPlace(f: Filters, m: Message) {
    && (f.folder.Some? ==> m.folder == f.folder)
    && (f.dateFrom.Some? ==> m.sent.Some? && m.sent.value >= f.dateFrom.value)
    && (f.dateTo.Some? ==> m.sent.Some? && m.sent.value <= f.dateTo.value)
  }

  predicate Says(e: Engine, f: Filters, m: Message) {
    && (f.from.Some? ==> m.from.Some? && e.like(m.from.value, "%" + f.from.value + "%"))
    && (f.subject.Some? ==> m.subject.Some? && e.like(m.subject.value, "%" + f.subject.value + "%"))
    && (f.search.Some? ==> e.search(m, f.search.value))
    && (f.text.Some? ==>
          (m.subject.Some? && e.like(m.subject.value, "%" + f.text.value + "%"))
          || (m.body.Some? && e.like(m.body.value, "%" + f.text.value + "%")))
  }

  predicate IsKind(e: Engine, f: Filters, m: Message) {
    && (f.conversation.Some? ==> m.conversation == f.conversation)
    && (f.isSent.Some? ==> m.isSent == f.isSent.value)
    && (f.hasAttachments.Some? ==> m.hasAttachments == f.hasAttachments.value)
    && (f.attachment.Some? ==> e.attachment(m, f.attachment.value))
  }

  predicate Keeps(e: Engine, f: Filters, m: Message) {
    InMailboxes(f, m) && InPlace(f, m) && Says(e, f, m) && IsKind(e, f, m)
  }

  // ---- Conditions with numbered placeholders ----

  datatype Param = Text(s: string) | Time(t: int) | Flag(b: bool) | Number(n: int) | Numbers(ns: seq<int>)

  datatype Template =
    | MailboxAny | FolderIs | SentFrom | SentTo | FromLike | SubjectLike | SearchText | TextLike
    | ConversationIs | IsSentIs | HasAttachmentsIs | AttachmentLike | MailboxIs

  /** A condition names its parameter by number, from one on.  TextLike names
      the same one twice. */
  datatype Condition = Condition(template: Template, number: nat)

  predicate Like(e: Engine, v: Option<string>, pattern: string) {
    v.Some? && e.like(v.value, pattern)
  }

  predicate Holds(e: Engine, t: Template, p: Param, m: Message) {
    match (t, p)
    case (MailboxAny, Numbers(ns)) => m.mailbox.Some? && m.mailbox.value in ns
    case (FolderIs, Text(s)) => m.folder == Some(s)
    case (SentFrom, Time(t)) => m.sent.Some? && m.sent.value >= t
    case (SentTo, Time(t)) => m.sent.Some? && m.sent.value <= t
    case (FromLike, Text(s)) => Like(e, m.from, s)
    case (SubjectLike, Text(s)) => Like(e, m.subject, s)
    case (SearchText, Text(s)) => e.search(m, s)
    case (TextLike, Text(s)) => Like(e, m.subject, s) || Like(e, m.body, s)
    case (ConversationIs, Text(s)) => m.conversation == Some(s)
    case (IsSentIs, Flag(b)) => m.isSent == b
    case (HasAttachmentsIs, Flag(b)) => m.hasAttachments == b
    case (AttachmentLike, Text(s)) => e.attachment(m, s)
    case (MailboxIs, Number(n)) => m.mailbox == Some(n)
    case _ => false
  }

  predicate Eval(e: Engine, c: Condition, params: seq<Param>, m: Message) {
    0 < c.number <= |params| && Holds(e, c.template, params[c.number - 1], m)
  }

  predicate EvalAll(e: Engine, conditions: seq<Condition>, params: seq<Param>, m: Message) {
    forall i :: 0 <= i < |conditions| ==> Eval(e, conditions[i], params, m)
  }

  /** The k-th condition names the k-th parameter, and every parameter is
      named. */
  predicate Numbered(conditions: seq<Condition>, params: seq<Param>) {
    |conditions| == |params| && forall i :: 0 <= i < |conditions| ==> conditions[i].number == i + 1
  }

  /** Parameters appended later, such as limit and offset, change nothing. */
  lemma AppendedParams(e: Engine, conditions: seq<Condition>, params: seq<Param>, more: seq<Param>, m: Message)
    requires Numbered(conditions, params)
    ensures EvalAll(e, conditions, params + more, m) == EvalAll(e, conditions, params, m)
  {
  }

  lemma AddedCondition(e: Engine, conditions: seq<Condition>, params: seq<Param>, t: Template, p: Param, m: Message)
    requires Numbered(conditions, params)
    ensures EvalAll(e, conditions + [Condition(t, |params| + 1)], params + [p], m)
        <==> EvalAll(e, conditions, params, m) && Holds(e, t, p, m)
  {
    var all, last := conditions + [Condition(t, |params| + 1)], |conditions|;
    AppendedParams(e, conditions, params, [p], m);
    assert all[last] == Condition(t, |params| + 1) && (params + [p])[last] == p;
    if EvalAll(e, all, params + [p], m) {
      assert Eval(e, all[last], params + [p], m);
      forall i | 0 <= i < last
        ensures Eval(e, conditions[i], params + [p], m)
      {
        assert Eval(e, all[i], params + [p], m);
      }
    }
  }

  // ---- Building ----

  function TextOf(v: Option<string>): Option<Param> {
    if v.Some? then Some(Text(v.value)) else None
  }

  function Around(text: string): string {
    ['%'] + text + ['%']
  }

  function AroundOf(v: Option<string>): Option<Param> {
    if v.Some? then Some(Text(Around(v.value))) else None
  }

  function TimeOf(v: Option<int>): Option<Param> {
    if v.Some? then Some(Time(v.value)) else None
  }

  function FlagOf(v: Option<bool>): Option<Param> {
    if v.Some? then Some(Flag(v.value)) else None
  }

  function NumberOf(v: Option<int>): Option<Param> {
    if v.Some? then Some(Number(v.value)) else None
  }

  function NumbersOf(v: Option<seq<int>>): Option<Param> {
    if v.Some? then Some(Numbers(v.value)) else None
  }

  /** The lists while they are being filled. */
  class Builder {
    var conditions: seq<Condition>
    var params: seq<Param>

    ghost predicate Valid()
      reads this
    {
      Numbered(conditions, params)
    }

    constructor ()
      ensures Valid() && conditions == [] && params == []
    {
      conditions, params := [], [];
    }

    /** A filter that is given adds one condition on its own value; one that is
        not adds nothing. */
    method Add(t: Template, p: Option<Param>)
      requires Valid()
      modifies this
      ensures Valid()
      ensures params == old(params) + if p.Some? then [p.value] else []
      ensures forall e, m :: EvalAll(e, conditions, params, m)
                        <==> EvalAll(e, old(conditions), old(params), m) && (p.Some? ==> Holds(e, t, p.value, m))
    {
      if p.Some? {
        forall e, m
          ensures EvalAll(e, conditions + [Condition(t, |params| + 1)], params + [p.value], m)
             <==> EvalAll(e, conditions, params, m) && Holds(e, t, p.value, m)
        {
          AddedCondition(e, conditions, params, t, p.value, m);
        }
        params := params + [p.value];
        conditions := conditions + [Condition(t, |params|)];
      }
    }
  }

  /** Builds the conditions and their parameters.  Under the parameters, and
      under any that are appended, they select exactly the messages that the
      filters ask for. */
  method Build(f: Filters) returns (conditions: seq<Condition>, params: seq<Param>, searchNumber: Option<nat>)
    ensures Numbered(conditions, params)
    ensures forall e, m, more :: EvalAll(e, conditions, params + more, m) <==> Keeps(e, f, m)
    ensures searchNumber.Some? <==> f.search.Some?
    ensures searchNumber.Some? ==>
              0 < searchNumber.value <= |params| && params[searchNumber.value - 1] == Text(f.search.value)
  {
    var b := new Builder();
    b.Add(MailboxAny, NumbersOf(f.accessible));
    AddPlace(b, f);
    searchNumber := AddWords(b, f);
    AddKind(b, f);
    b.Add(MailboxIs, NumberOf(f.mailbox));
    conditions, params := b.conditions, b.params;
    forall e, m, more
      ensures EvalAll(e, conditions, params + more, m) <==> Keeps(e, f, m)
    {
      AppendedParams(e, conditions, params, more, m);
    }
  }

  method AddPlace(b: Builder, f: Filters)
    requires b.Valid()
    modifies b
    ensures b.Valid() && old(b.params) <= b.params
    ensures forall e, m :: EvalAll(e, b.conditions, b.params, m)
                      <==> EvalAll(e, old(b.conditions), old(b.params), m) && InPlace(f, m)
  {
    b.Add(FolderIs, TextOf(f.folder));
    b.Add(SentFrom, TimeOf(f.dateFrom));
    b.Add(SentTo, TimeOf(f.dateTo));
  }

  method AddWords(b: Builder, f: Filters) returns (searchNumber: Option<nat>)
    requires b.Valid()
    modifies b
    ensures b.Valid() && old(b.params) <= b.params
    ensures forall e, m :: EvalAll(e, b.conditions, b.params, m)
                      <==> EvalAll(e, old(b.conditions), old(b.params), m) && Says(e, f, m)
    ensures searchNumber.Some? <==> f.search.Some?
    ensures searchNumber.Some? ==>
              0 < searchNumber.value <= |b.params| && b.params[searchNumber.value - 1] == Text(f.search.value)
  {
    b.Add(FromLike, AroundOf(f.from));
    b.Add(SubjectLike, AroundOf(f.subject));
    b.Add(SearchText, TextOf(f.search));
    searchNumber := if f.search.Some? then Some(|b.params|) else None;
    b.Add(TextLike, AroundOf(f.text));
  }

  method AddKind(b: Builder, f: Filters)
    requires b.Valid()
    modifies b
    ensures b.Valid() && old(b.params) <= b.params
    ensures forall e, m :: EvalAll(e, b.conditions, b.params, m)
                      <==> EvalAll(e, old(b.conditions), old(b.params), m) && IsKind(e, f, m)
  {
    b.Add(ConversationIs, TextOf(f.conversation));
    b.Add(IsSentIs, FlagOf(f.isSent));
    b.Add(HasAttachmentsIs, FlagOf(f.hasAttachments));
    b.Add(AttachmentLike, TextOf(f.attachment));
  }

  // ---- Pages ----

  /** The rows that pass, in the order of the table. */
  function Selected(e: Engine, conditions: seq<Condition>, params: seq<Param>, table: seq<Message>): seq<Message> {
    if table == [] then []
    else
      var m := table[|table| - 1];
      Selected(e, conditions, params, table[..|table| - 1]) + if EvalAll(e, conditions, params, m) then [m] else []
  }

  /** What the filters ask for. */
  function Kept(e: Engine, f: Filters, table: seq<Message>): seq<Message> {
    if table == [] then []
    else
      var m := table[|table| - 1];
      Kept(e, f, table[..|table| - 1]) + if Keeps(e, f, m) then [m] else []
  }

  lemma {:induction false} SelectedIsKept(e: Engine, f: Filters, conditions: seq<Condition>, params: seq<Param>,
                                          table: seq<Message>)
    requires forall m :: EvalAll(e, conditions, params, m) <==> Keeps(e, f, m)
    ensures Selected(e, conditions, params, table) == Kept(e, f, table)
  {
    if table != [] {
      SelectedIsKept(e, f, conditions, params, table[..|table| - 1]);
    }
  }

  /** An answer of the database: all rows in the asked order, rows of equal
      rank in any order. */
  ghost predicate Listing(rows: seq<Message>, all: seq<Message>, rank: Message -> int) {
    multiset(rows) == multiset(all) && |rows| == |all| && InOrder(rows, rank)
  }

  predicate InOrder(rows: seq<Message>, rank: Message -> int) {
    forall i, j :: 0 <= i < j < |rows| ==> rank(rows[i]) <= rank(rows[j])
  }

  function Page(rows: seq<Message>, limit: nat, offset: nat): seq<Message> {
    rows[LeastOf(offset, |rows|)..LeastOf(offset + limit, |rows|)]
  }

  function LeastOf(a: nat, b: nat): nat {
    if a <= b then a else b
  }

  /** A page query: the conditions, then limit and offset under the next two
      numbers.  Every placeholder still points at its own value. */
  method PageQuery(f: Filters, limit: nat, offset: nat)
    returns (conditions: seq<Condition>, params: seq<Param>, limitNumber: nat, offsetNumber: nat)
    ensures forall e, m :: EvalAll(e, conditions, params, m) <==> Keeps(e, f, m)
    ensures 0 < limitNumber <= |params| && params[limitNumber - 1] == Number(limit)
    ensures 0 < offsetNumber <= |params| && params[offsetNumber - 1] == Number(offset)
    ensures forall i :: 0 <= i < |conditions| ==> conditions[i].number == i + 1 < limitNumber < offsetNumber
  {
    var built, searchNumber;
    conditions, built, searchNumber := Build(f);
    params := built + [Number(limit)];
    limitNumber := |params|;
    params := params + [Number(offset)];
    offsetNumber := |params|;
    assert params == built + [Number(limit), Number(offset)];
  }

  /** The count query counts what the filters ask for, whatever order and page
      the listing uses. */
  method Count(e: Engine, f: Filters, table: seq<Message>) returns (count: nat)
    ensures count == |Kept(e, f, table)|
  {
    var conditions, params, searchNumber := Build(f);
    assert params + [] == params;
    count := |Selected(e, conditions, params, table)|;
    SelectedIsKept(e, f, conditions, params, table);
  }

  /** Where the rows that rank before k end. */
  lemma CutAt(rows: seq<Message>, all: seq<Message>, rank: Message -> int, k: int) returns (j: nat)
    requires Listing(rows, all, rank)
    ensures j <= |rows|
    ensures forall i :: 0 <= i < |rows| ==> (rank(rows[i]) < k <==> i < j)
    ensures forall m :: multiset(rows[..j])[m] == if rank(m) < k then multiset(all)[m] else 0
  {
    j := 0;
    while j < |rows| && rank(rows[j]) < k
      invariant j <= |rows| && forall i :: 0 <= i < j ==> rank(rows[i]) < k
    {
      j := j + 1;
    }
    forall m: Message
      ensures multiset(rows[..j])[m] == if rank(m) < k then multiset(all)[m] else 0
    {
      BeforeCut(rows, rank, k, j, m);
    }
  }

  lemma BeforeCut(rows: seq<Message>, rank: Message -> int, k: int, j: nat, m: Message)
    requires j <= |rows| && forall i :: 0 <= i < |rows| ==> (rank(rows[i]) < k <==> i < j)
    ensures multiset(rows[..j])[m] == if rank(m) < k then multiset(rows)[m] else 0
  {
    assert rows == rows[..j] + rows[j..];
    if m in multiset(rows[..j]) {
      assert m in rows[..j];
    }
    if m in multiset(rows[j..]) {
      assert m in rows[j..];
    }
  }

  /** Between pages that end at b, two listings agree on what came before if
      the rank changes there. */
  predicate Clean(rows: seq<Message>, rank: Message -> int, b: nat) {
    0 < b < |rows| ==> rank(rows[b - 1]) < rank(rows[b])
  }

  lemma SamePrefix(all: seq<Message>, rank: Message -> int, rows: seq<Message>, other: seq<Message>, b: nat)
    requires Listing(rows, all, rank) && Listing(other, all, rank) && b <= |all| && Clean(rows, rank, b)
    ensures multiset(rows[..b]) == multiset(other[..b])
  {
    if b == |all| {
      assert rows[..b] == rows && other[..b] == other;
    } else if b > 0 {
      var k := rank(rows[b]);
      var i := CutAt(rows, all, rank, k);
      var j := CutAt(other, all, rank, k);
      assert i == b;
      assert multiset(rows[..i]) == multiset(other[..j]);
      assert |multiset(rows[..i])| == i && |multiset(other[..j])| == j;
    }
  }

  /** Reading on from another listing of the same rows, as the next page query
      may do, completes every beginning exactly when rows of one rank are not
      split between the two pages. */
  lemma NextPageIff(all: seq<Message>, rank: Message -> int, rows: seq<Message>, b: nat)
    requires Listing(rows, all, rank) && 0 < b < |rows|
    requires forall m :: multiset(all)[m] <= 1
    ensures (forall other :: Listing(other, all, rank) ==> multiset(rows[..b] + other[b..]) == multiset(all))
       <==> Clean(rows, rank, b)
  {
    if Clean(rows, rank, b) {
      forall other | Listing(other, all, rank)
        ensures multiset(rows[..b] + other[b..]) == multiset(all)
      {
        SamePrefix(all, rank, rows, other, b);
        assert other == other[..b] + other[b..];
      }
    } else {
      NextPageRepeats(all, rank, rows, b);
    }
  }

  /** The row before the cut comes again if the next listing swaps it with the
      one after the cut. */
  lemma NextPageRepeats(all: seq<Message>, rank: Message -> int, rows: seq<Message>, b: nat)
    requires Listing(rows, all, rank) && 0 < b < |rows| && !Clean(rows, rank, b)
    requires forall m :: multiset(all)[m] <= 1
    ensures exists other :: Listing(other, all, rank) && multiset(rows[..b] + other[b..]) != multiset(all)
  {
    assert rank(rows[b]) == rank(rows[b - 1]);
    var other := rows[b - 1 := rows[b]][b := rows[b - 1]];
    Swapped(rows, b);
    SwappedInOrder(rows, rank, b);
    assert Listing(other, all, rank);
    TwiceAcross(rows[..b], other[b..], rows[b - 1]);
  }

  lemma TwiceAcross(a: seq<Message>, b: seq<Message>, m: Message)
    requires a != [] && b != [] && a[|a| - 1] == m && b[0] == m
    ensures multiset(a + b)[m] >= 2
  {
    assert m in a && m in b;
    assert m in multiset(a) && m in multiset(b);
  }

  lemma SwappedInOrder(rows: seq<Message>, rank: Message -> int, b: nat)
    requires InOrder(rows, rank) && 0 < b < |rows| && rank(rows[b]) == rank(rows[b - 1])
    ensures InOrder(rows[b - 1 := rows[b]][b := rows[b - 1]], rank)
  {
    var other := rows[b - 1 := rows[b]][b := rows[b - 1]];
    assert forall i :: 0 <= i < |rows| ==> rank(other[i]) == rank(rows[i]);
  }

  lemma Swapped(rows: seq<Message>, b: nat)
    requires 0 < b < |rows|
    ensures multiset(rows[b - 1 := rows[b]][b := rows[b - 1]]) == multiset(rows)
  {
    var once := rows[b - 1 := rows[b]];
    assert multiset(once) == multiset(rows) - multiset{rows[b - 1]} + multiset{rows[b]};
    assert multiset(once[b := rows[b - 1]]) == multiset(once) - multiset{rows[b]} + multiset{rows[b - 1]};
  }

  /** Where the n-th page starts. */
  function Offset(n: nat, limit: nat): nat {
    if n == 0 then 0 else Offset(n - 1, limit) + limit
  }

  lemma {:induction false} OffsetIs(n: nat, limit: nat)
    ensures Offset(n, limit) == n * limit
  {
    if n > 0 {
      OffsetIs(n - 1, limit);
    }
  }

  /** The first pages, each cut from a listing of its own. */
  function Pages(listings: seq<seq<Message>>, limit: nat): seq<Message> {
    if listings == [] then []
    else
      var n := |listings| - 1;
      Pages(listings[..n], limit) + Page(listings[n], limit, Offset(n, limit))
  }

  ghost predicate Listings(listings: seq<seq<Message>>, all: seq<Message>, rank: Message -> int) {
    forall i :: 0 <= i < |listings| ==> Listing(listings[i], all, rank)
  }

  ghost predicate CleanPages(rows: seq<Message>, rank: Message -> int, limit: nat, n: nat) {
    forall i :: 0 <= i <= n ==> Clean(rows, rank, Offset(i, limit))
  }

  lemma {:induction false} PagesArePrefix(all: seq<Message>, rank: Message -> int, rows: seq<Message>,
                                          listings: seq<seq<Message>>, limit: nat)
    requires Listing(rows, all, rank) && Listings(listings, all, rank)
    requires CleanPages(rows, rank, limit, |listings|)
    ensures multiset(Pages(listings, limit)) == multiset(rows[..LeastOf(Offset(|listings|, limit), |all|)])
  {
    if listings != [] {
      var n := |listings| - 1;
      assert Listing(listings[n], all, rank);
      PagesArePrefix(all, rank, rows, listings[..n], limit);
      assert Clean(rows, rank, Offset(n, limit)) && Clean(rows, rank, Offset(n + 1, limit));
      PageNext(all, rank, rows, listings[n], limit, Offset(n, limit));
    }
  }

  lemma PageNext(all: seq<Message>, rank: Message -> int, rows: seq<Message>, last: seq<Message>, limit: nat,
                 offset: nat)
    requires Listing(rows, all, rank) && Listing(last, all, rank)
    requires Clean(rows, rank, offset) && Clean(rows, rank, offset + limit)
    ensures multiset(rows[..LeastOf(offset + limit, |all|)])
         == multiset(rows[..LeastOf(offset, |all|)]) + multiset(Page(last, limit, offset))
  {
    var a, b := LeastOf(offset, |all|), LeastOf(offset + limit, |all|);
    SamePrefix(all, rank, rows, last, a);
    SamePrefix(all, rank, rows, last, b);
    SplitCount(last, a, b);
  }

  lemma SplitCount(rows: seq<Message>, a: nat, b: nat)
    requires a <= b <= |rows|
    ensures multiset(rows[..b]) == multiset(rows[..a]) + multiset(rows[a..b])
  {
    assert rows[..b] == rows[..a] + rows[a..b];
  }

  /** Two listings of the same rows have the same ranks at the same places. */
  lemma SameRanks(all: seq<Message>, rank: Message -> int, rows: seq<Message>, other: seq<Message>, i: nat)
    requires Listing(rows, all, rank) && Listing(other, all, rank) && i < |all|
    ensures rank(rows[i]) == rank(other[i])
  {
    var k := if rank(rows[i]) < rank(other[i]) then rank(other[i]) else rank(rows[i]);
    var a := CutAt(rows, all, rank, k);
    var b := CutAt(other, all, rank, k);
    assert multiset(rows[..a]) == multiset(other[..b]);
    assert |multiset(rows[..a])| == a && |multiset(other[..b])| == b;
  }

  lemma {:induction false} PagesLength(n: nat, listings: seq<seq<Message>>, limit: nat)
    requires forall i :: 0 <= i < |listings| ==> |listings[i]| == n
    ensures |Pages(listings, limit)| == LeastOf(Offset(|listings|, limit), n)
  {
    if listings != [] {
      PagesLength(n, listings[..|listings| - 1], limit);
    }
  }

  /** What the pages show at a place is what some listing has there. */
  lemma {:induction false} PagesAt(n: nat, listings: seq<seq<Message>>, limit: nat, i: nat) returns (k: nat)
    requires forall i :: 0 <= i < |listings| ==> |listings[i]| == n
    requires i < |Pages(listings, limit)|
    ensures k < |listings| && i < n && Pages(listings, limit)[i] == listings[k][i]
  {
    var last := |listings| - 1;
    var before := Pages(listings[..last], limit);
    PagesLength(n, listings[..last], limit);
    PagesLength(n, listings, limit);
    if i < |before| {
      k := PagesAt(n, listings[..last], limit, i);
    } else {
      k := last;
    }
  }

  /** Consecutive pages come in the asked order, wherever they are cut. */
  lemma PagesInOrder(all: seq<Message>, rank: Message -> int, listings: seq<seq<Message>>, limit: nat)
    requires Listings(listings, all, rank)
    ensures InOrder(Pages(listings, limit), rank)
  {
    var pages := Pages(listings, limit);
    forall i, j | 0 <= i < j < |pages|
      ensures rank(pages[i]) <= rank(pages[j])
    {
      var k := PagesAt(|all|, listings, limit, i);
      var l := PagesAt(|all|, listings, limit, j);
      SameRanks(all, rank, listings[k], listings[l], i);
    }
  }

  /** If rows of one rank are never split between pages, consecutive pages are a
      listing of what the filters ask for: every row exactly once, in the asked
      order. */
  lemma PagesShowEverything(e: Engine, f: Filters, table: seq<Message>, rank: Message -> int, rows: seq<Message>,
                            listings: seq<seq<Message>>, limit: nat)
    requires Listing(rows, Kept(e, f, table), rank)
    requires Listings(listings, Kept(e, f, table), rank)
    requires CleanPages(rows, rank, limit, |listings|)
    requires |listings| * limit >= |Kept(e, f, table)|
    ensures Listing(Pages(listings, limit), Kept(e, f, table), rank)
  {
    var all, pages := Kept(e, f, table), Pages(listings, limit);
    PagesArePrefix(all, rank, rows, listings, limit);
    OffsetIs(|listings|, limit);
    assert rows[..|all|] == rows;
    assert |multiset(pages)| == |pages| && |multiset(all)| == |all|;
    PagesInOrder(all, rank, listings, limit);
  }

  /** Pages up to k are cut from one listing, the later ones from another. */
  function Switching(rows: seq<Message>, other: seq<Message>, k: nat, n: nat): seq<seq<Message>> {
    seq(n, i => if i < k then rows else other)
  }

  /** Where n pages of some rows end. */
  function EndOf(n: nat, limit: nat, rows: seq<Message>): (b: nat)
    ensures b <= |rows|
  {
    LeastOf(Offset(n, limit), |rows|)
  }

  lemma NextPage(rows: seq<Message>, other: seq<Message>, k: nat, n: nat, limit: nat)
    requires |rows| == |other| && n > 0
    ensures EndOf(n - 1, limit, rows) <= EndOf(n, limit, rows)
    ensures Pages(Switching(rows, other, k, n), limit)
         == Pages(Switching(rows, other, k, n - 1), limit)
            + (if n - 1 < k then rows else other)[EndOf(n - 1, limit, rows)..EndOf(n, limit, rows)]
  {
    assert Switching(rows, other, k, n)[..n - 1] == Switching(rows, other, k, n - 1);
  }

  lemma {:induction false} PagesOfOne(rows: seq<Message>, other: seq<Message>, k: nat, n: nat, limit: nat)
    requires |rows| == |other| && n <= k
    ensures Pages(Switching(rows, other, k, n), limit) == rows[..EndOf(n, limit, rows)]
  {
    if n > 0 {
      NextPage(rows, other, k, n, limit);
      PagesOfOne(rows, other, k, n - 1, limit);
      FrontGrows(rows, EndOf(n - 1, limit, rows), EndOf(n, limit, rows));
    }
  }

  lemma FrontGrows(xs: seq<Message>, a: nat, b: nat)
    requires a <= b <= |xs|
    ensures xs[..a] + xs[a..b] == xs[..b]
  {
  }

  lemma NoneMore(front: seq<Message>, xs: seq<Message>, a: nat)
    requires a <= |xs|
    ensures front + xs[a..a] == front
  {
  }

  lemma OneMore(front: seq<Message>, xs: seq<Message>, a: nat, b: nat, c: nat)
    requires a <= b <= c <= |xs|
    ensures front + xs[a..b] + xs[b..c] == front + xs[a..c]
  {
  }

  /** What is shown is the beginning of the one and the end of the other. */
  lemma {:induction false} PagesOfTwo(rows: seq<Message>, other: seq<Message>, k: nat, n: nat, limit: nat)
    requires |rows| == |other| && k <= n
    ensures EndOf(k, limit, rows) <= EndOf(n, limit, rows)
    ensures Pages(Switching(rows, other, k, n), limit)
         == rows[..EndOf(k, limit, rows)] + other[EndOf(k, limit, rows)..EndOf(n, limit, rows)]
  {
    var a := EndOf(k, limit, rows);
    if n == k {
      PagesOfOne(rows, other, k, n, limit);
      NoneMore(rows[..a], other, a);
    } else {
      PagesOfTwo(rows, other, k, n - 1, limit);
      NextPage(rows, other, k, n, limit);
      OneMore(rows[..a], other, a, EndOf(n - 1, limit, rows), EndOf(n, limit, rows));
    }
  }

  /** Whatever the database answers, n pages together are a listing. */
  ghost predicate AlwaysComplete(all: seq<Message>, rank: Message -> int, limit: nat, n: nat) {
    forall listings :: |listings| == n && Listings(listings, all, rank) ==> Listing(Pages(listings, limit), all, rank)
  }

  /** A cut that splits rows of one rank makes some answers incomplete. */
  lemma DirtyCutRepeats(all: seq<Message>, rank: Message -> int, rows: seq<Message>, limit: nat, n: nat, k: nat)
    requires Listing(rows, all, rank) && (forall m :: multiset(all)[m] <= 1)
    requires k <= n && Offset(n, limit) >= |all| && !Clean(rows, rank, Offset(k, limit))
    ensures !AlwaysComplete(all, rank, limit, n)
  {
    var b := Offset(k, limit);
    NextPageRepeats(all, rank, rows, b);
    var other :| Listing(other, all, rank) && multiset(rows[..b] + other[b..]) != multiset(all);
    SwitchedPages(all, rank, rows, other, limit, n, k);
  }

  lemma SwitchedPages(all: seq<Message>, rank: Message -> int, rows: seq<Message>, other: seq<Message>, limit: nat,
                      n: nat, k: nat)
    requires Listing(rows, all, rank) && Listing(other, all, rank)
    requires k <= n && Offset(n, limit) >= |all| && Offset(k, limit) < |all|
    requires multiset(rows[..Offset(k, limit)] + other[Offset(k, limit)..]) != multiset(all)
    ensures !AlwaysComplete(all, rank, limit, n)
  {
    var b, listings := Offset(k, limit), Switching(rows, other, k, n);
    PagesOfTwo(rows, other, k, n, limit);
    assert other[b..|rows|] == other[b..];
    assert |listings| == n && Listings(listings, all, rank);
    assert Pages(listings, limit) == rows[..b] + other[b..];
  }

  /** Pages that reach to the end are complete, whatever listings they are cut
      from, if and only if no cut between them splits rows of one rank. */
  lemma PagesCompleteIff(e: Engine, f: Filters, table: seq<Message>, rank: Message -> int, rows: seq<Message>,
                         limit: nat, n: nat)
    requires Listing(rows, Kept(e, f, table), rank) && (forall m :: multiset(Kept(e, f, table))[m] <= 1)
    requires n * limit >= |Kept(e, f, table)|
    ensures AlwaysComplete(Kept(e, f, table), rank, limit, n) <==> CleanPages(rows, rank, limit, n)
  {
    var all := Kept(e, f, table);
    OffsetIs(n, limit);
    if CleanPages(rows, rank, limit, n) {
      forall listings | |listings| == n && Listings(listings, all, rank)
        ensures Listing(Pages(listings, limit), all, rank)
      {
        PagesShowEverything(e, f, table, rank, rows, listings, limit);
      }
    } else {
      var k :| 0 <= k <= n && !Clean(rows, rank, Offset(k, limit));
      DirtyCutRepeats(all, rank, rows, limit, n, k);
    }
  }

  ghost predicate TotalOrder(all: seq<Message>, rank: Message -> int) {
    forall m, n :: m in all && n in all && rank(m) == rank(n) ==> m == n
  }

  /** Under a total order there is one listing, and consecutive pages are that
      listing cut to pieces. */
  lemma PagesAreTheListing(all: seq<Message>, rank: Message -> int, rows: seq<Message>, listings: seq<seq<Message>>,
                           limit: nat)
    requires Listing(rows, all, rank) && Listings(listings, all, rank) && TotalOrder(all, rank)
    ensures Pages(listings, limit) == rows[..LeastOf(|listings| * limit, |all|)]
  {
    var pages := Pages(listings, limit);
    PagesLength(|all|, listings, limit);
    OffsetIs(|listings|, limit);
    forall i | 0 <= i < |pages|
      ensures pages[i] == rows[i]
    {
      var k := PagesAt(|all|, listings, limit, i);
      SameRanks(all, rank, listings[k], rows, i);
      assert listings[k][i] in multiset(all) && rows[i] in multiset(all);
    }
  }
}
