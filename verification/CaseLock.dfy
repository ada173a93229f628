/** Editing one case while others edit it: every edit reads the row, validates
    against what it read, writes under an optimistic lock and then writes its
    audit entries, and the steps of several requests interleave in any way. */
module CaseLock {

  import opened Options
  import opened Texts

  /** The columns an edit may set, in the order a request lists them; all of
      them are audited. */
  datatype Field = Outcome | Status | PendingAction | NextReview | Glosa | Alert

  const FIELDS: seq<Field> := [Outcome, Status, PendingAction, NextReview, Glosa, Alert]

  type Value = Option<string>

  /** What an edit sets. */
  type Patch = map<Field, Value>

  /** The values of a row. */
  type Values = v: map<Field, Value> | forall f: Field :: f in v
    witness map f: Field | true :: None

  const OPEN: Value := Some("open")
  const CLOSED: Value := Some("closed")
  const NO_FINDINGS: Value := Some("sin_hallazgos")

  /** stamp is the time of the last update of the row. */
  datatype Row = Row(values: Values, pendingReopen: nat, stamp: nat)

  // ---- Validation ----

  predicate Blank(v: Value) {
    v == None || Strip(v.value) == []
  }

  /** A note is blank if it is missing, or nothing but white space. */
  lemma BlankIff(v: Value)
    ensures Blank(v) <==> v == None || AllSpace(v.value)
  {
    if v.Some? && AllSpace(v.value) {
      StripIs(v.value, [], []);
      assert v.value + [] + [] == v.value;
    }
    if v.Some? && !AllSpace(v.value) {
      var i :| 0 <= i < |v.value| && !IsSpace(v.value[i]);
      var rest := v.value[SkipSpace(v.value, 0)..];
      SkippedIs(v.value, 0);
      TrimmedIs(rest);
      assert rest[i - SkipSpace(v.value, 0)] == v.value[i];
    }
  }

  /** What closing a case has to leave behind. */
  predicate Justified(values: Values) {
    values[Status] == CLOSED ==> !Blank(values[Glosa]) && values[Outcome] != NO_FINDINGS
  }

  datatype Verdict = Accept | CaseIsClosed | NotEligible | GlosaRequired

  function Next(values: Values, patch: Patch, f: Field): Value
  {
    if f in patch then patch[f] else values[f]
  }

  function Validate(values: Values, patch: Patch): Verdict
  {
    if values[Status] == CLOSED && Next(values, patch, Status) != OPEN && patch.Keys - {Status} != {} then CaseIsClosed
    else if Next(values, patch, Status) == CLOSED && Next(values, patch, Outcome) == NO_FINDINGS then NotEligible
    else if Next(values, patch, Status) == CLOSED && values[Status] != CLOSED && Blank(Next(values, patch, Glosa))
    then GlosaRequired
    else Accept
  }

  /** On a case that is not closed, an edit passes exactly when it leaves the
      case justified; on a closed one, exactly when it reopens it or touches
      nothing but the status. */
  lemma ValidateIff(values: Values, patch: Patch)
    requires Justified(values)
    ensures values[Status] != CLOSED ==> (Validate(values, patch) == Accept <==> Justified(values + patch))
    ensures values[Status] == CLOSED ==>
              (Validate(values, patch) == Accept <==> Next(values, patch, Status) == OPEN || patch.Keys <= {Status})
    ensures Validate(values, patch) == Accept ==> Justified(values + patch)
  {
    assert patch.Keys - {Status} == {} <==> patch.Keys <= {Status};
    assert values[Status] == CLOSED && Next(values, patch, Status) == CLOSED && patch.Keys <= {Status} ==>
             values + patch == values;
  }

  /** Which error an edit gets, told by the row it would leave: it may not set
      more than the status of a case that stays closed, not leave a closed case
      without findings, and not close one without a note. */
  lemma RefusedWith(values: Values, patch: Patch)
    ensures var next := values + patch;
      var locked := values[Status] == CLOSED && next[Status] != OPEN && exists f :: f in patch && f != Status;
      var unfounded := next[Status] == CLOSED && next[Outcome] == NO_FINDINGS;
      var mute := next[Status] == CLOSED && values[Status] != CLOSED && Blank(next[Glosa]);
      && (Validate(values, patch) == CaseIsClosed <==> locked)
      && (Validate(values, patch) == NotEligible <==> !locked && unfounded)
      && (Validate(values, patch) == GlosaRequired <==> !locked && !unfounded && mute)
      && (Validate(values, patch) == Accept <==> !locked && !unfounded && !mute)
  {
    if f :| f in patch && f != Status {
      assert f in patch.Keys - {Status};
    } else {
      assert patch.Keys - {Status} == {};
    }
  }

  // ---- Audit entries ----

  datatype Entry = Entry(field: Field, before: Value, after: Value)

  /** One entry for each of the listed fields that the edit sets to something
      else than was read. */
  function Entries(values: Values, patch: Patch, fields: seq<Field>): seq<Entry>
  {
    if fields == [] then []
    else
      var f := fields[|fields| - 1];
      Entries(values, patch, fields[..|fields| - 1])
      + if f in patch && values[f] != patch[f] then [Entry(f, values[f], patch[f])] else []
  }

  predicate Changes(values: Values, patch: Patch, e: Entry)
  {
    e.field in patch && values[e.field] != patch[e.field] && e.before == values[e.field] && e.after == patch[e.field]
  }

  predicate DistinctFields(fields: seq<Field>) {
    forall i, j :: 0 <= i < j < |fields| ==> fields[i] != fields[j]
  }

  /** Each change of a listed field has one entry, and nothing else has any. */
  lemma {:induction false} EntriesAre(values: Values, patch: Patch, fields: seq<Field>, e: Entry)
    requires DistinctFields(fields)
    ensures multiset(Entries(values, patch, fields))[e]
         == if e.field in fields && Changes(values, patch, e) then 1 else 0
  {
    if fields != [] {
      var init, last := fields[..|fields| - 1], fields[|fields| - 1];
      EntriesAre(values, patch, init, e);
      assert fields == init + [last];
      assert last !in init;
    }
  }

  function Replay(values: Values, log: seq<Entry>): Values {
    if log == [] then values
    else Replay(values, log[..|log| - 1])[log[|log| - 1].field := log[|log| - 1].after]
  }

  lemma {:induction false} ReplayConcat(values: Values, a: seq<Entry>, b: seq<Entry>)
    ensures Replay(values, a + b) == Replay(Replay(values, a), b)
  {
    if b == [] {
      assert a + b == a;
    } else {
      assert (a + b)[..|a + b| - 1] == a + b[..|b| - 1];
      ReplayConcat(values, a, b[..|b| - 1]);
    }
  }

  lemma {:induction false} ReplayEntries(values: Values, patch: Patch, fields: seq<Field>, f: Field)
    ensures f in Replay(values, Entries(values, patch, fields))
    ensures Replay(values, Entries(values, patch, fields))[f]
         == if f in fields then Next(values, patch, f) else values[f]
  {
    if fields != [] {
      var init, last := fields[..|fields| - 1], fields[|fields| - 1];
      ReplayEntries(values, patch, init, f);
      assert fields == init + [last];
      var some := if last in patch && values[last] != patch[last] then [Entry(last, values[last], patch[last])] else [];
      ReplayConcat(values, Entries(values, patch, init), some);
      assert some != [] ==> some[..0] == [];
    }
  }

  lemma FieldListed(f: Field)
    ensures f in FIELDS
  {
  }

  lemma EditEntries(values: Values, patch: Patch, e: Entry)
    ensures multiset(Entries(values, patch, FIELDS))[e] == if Changes(values, patch, e) then 1 else 0
  {
    FieldListed(e.field);
    EntriesAre(values, patch, FIELDS, e);
  }

  /** The entries of an edit say what the edit does. */
  lemma ReplayEdit(values: Values, patch: Patch)
    ensures Replay(values, Entries(values, patch, FIELDS)) == values + patch
  {
    var replayed := Replay(values, Entries(values, patch, FIELDS));
    forall f: Field
      ensures f in replayed && replayed[f] == (values + patch)[f]
    {
      FieldListed(f);
      ReplayEntries(values, patch, FIELDS, f);
    }
  }

  // ---- Interleavings ----

  datatype Kind = Edit | Reopen

  /** A request between its read and its last audit entry. */
  datatype Flight = Flight(kind: Kind, seen: Row, patch: Patch, expected: Option<nat>, written: bool, toLog: seq<Entry>)

  /** A write that went through: what it had read and what it replaced. */
  datatype Accepted = Accepted(kind: Kind, seen: Row, replaced: Row, patch: Patch, expected: Option<nat>)

  datatype World = World(row: Row, flights: map<nat, Flight>, writes: seq<Accepted>, log: seq<Entry>)

  /** expected is the stamp of the version the client was looking at, if it
      sends one.  Every update of the row gets a later stamp.  Touch stands for
      the updates of columns that are neither validated nor audited. */
  datatype Step =
    | Read(id: nat, patch: Patch, expected: Option<nat>)
    | ReadToReopen(id: nat)
    | Write(id: nat, stamp: nat)
    | Log(id: nat)
    | Touch(pendingReopen: nat, stamp: nat)

  predicate Enabled(w: World, s: Step) {
    match s
    case Read(id, _, expected) => id !in w.flights && (expected.Some? ==> expected.value <= w.row.stamp)
    case ReadToReopen(id) => id !in w.flights
    case Write(id, stamp) => id in w.flights && !w.flights[id].written && stamp > w.row.stamp
    case Log(id) => id in w.flights && w.flights[id].written
    case Touch(_, stamp) => stamp > w.row.stamp
  }

  function Apply(w: World, s: Step): World
    requires Enabled(w, s)
  {
    match s
    case Read(id, patch, expected) =>
      if Validate(w.row.values, patch) == Accept && patch != map[]
      then w.(flights := w.flights[id := Flight(Edit, w.row, patch, expected, false, [])])
      else w
    case ReadToReopen(id) =>
      if w.row.values[Status] == CLOSED
      then w.(flights := w.flights[id := Flight(Reopen, w.row, map[Status := OPEN], None, false, [])])
      else w
    case Write(id, stamp) => ApplyWrite(w, id, w.flights[id], stamp)
    case Log(id) =>
      var f := w.flights[id];
      if f.toLog == [] then w.(flights := w.flights - {id})
      else w.(flights := w.flights[id := f.(toLog := f.toLog[1..])], log := w.log + [f.toLog[0]])
    case Touch(pendingReopen, stamp) => w.(row := w.row.(pendingReopen := pendingReopen, stamp := stamp))
  }

  /** The write fails if the row is not the expected version, or if it would
      leave the case without a status, which the table does not take. */
  function ApplyWrite(w: World, id: nat, f: Flight, stamp: nat): World {
    if (f.expected.Some? && f.expected.value != w.row.stamp) || (Status in f.patch && f.patch[Status] == None)
    then w.(flights := w.flights - {id})
    else World(Row(w.row.values + f.patch, if Resets(f) then 0 else w.row.pendingReopen, stamp),
               w.flights[id := f.(written := true, toLog := Entries(f.seen.values, f.patch, FIELDS))],
               w.writes + [Accepted(f.kind, f.seen, w.row, f.patch, f.expected)],
               w.log)
  }

  /** Closing a case and reopening it for new messages forget the count of new
      messages. */
  predicate Resets(f: Flight) {
    f.kind == Reopen
    || (Next(f.seen.values, f.patch, Status) == CLOSED && f.seen.values[Status] != CLOSED)
  }

  /** Steps that cannot be taken when their turn comes are left out. */
  function After(w0: World, steps: seq<Step>): World {
    if steps == [] then w0
    else
      var w, s := After(w0, steps[..|steps| - 1]), steps[|steps| - 1];
      if Enabled(w, s) then Apply(w, s) else w
  }

  predicate Initial(w: World) {
    w.flights == map[] && w.writes == [] && w.log == []
  }

  // ---- What was validated is what is replaced ----

  predicate Sane(kind: Kind, seen: Row, patch: Patch, expected: Option<nat>) {
    match kind
    case Edit => Validate(seen.values, patch) == Accept && patch != map[]
    case Reopen => patch == map[Status := OPEN] && expected == None && seen.values[Status] == CLOSED
  }

  /** Before its write: as long as the row carries the stamp that was read, it
      is the row that was read. */
  predicate Airborne(row: Row, f: Flight) {
    && Sane(f.kind, f.seen, f.patch, f.expected)
    && (f.expected.Some? ==> f.expected.value <= f.seen.stamp)
    && f.seen.stamp <= row.stamp
    && (f.seen.stamp == row.stamp ==> f.seen == row)
  }

  predicate Landed(h: Accepted) {
    && Sane(h.kind, h.seen, h.patch, h.expected)
    && (h.expected.Some? ==> h.seen == h.replaced)
  }

  ghost predicate Locked(w: World) {
    && (forall id :: id in w.flights && !w.flights[id].written ==> Airborne(w.row, w.flights[id]))
    && (forall i :: 0 <= i < |w.writes| ==> Landed(w.writes[i]))
  }

  lemma LockedNext(w: World, s: Step)
    requires Locked(w) && Enabled(w, s)
    ensures Locked(Apply(w, s))
  {
  }

  /** Whatever the interleaving, a write that carried a stamp was validated
      against exactly the row it replaced. */
  lemma {:induction false} ValidatedAgainstReplaced(w0: World, steps: seq<Step>)
    requires Initial(w0)
    ensures Locked(After(w0, steps))
    ensures forall i :: 0 <= i < |After(w0, steps).writes| && After(w0, steps).writes[i].expected.Some? ==>
              var h := After(w0, steps).writes[i];
              h.seen == h.replaced && Validate(h.replaced.values, h.patch) == Accept
  {
    if steps != [] {
      ValidatedAgainstReplaced(w0, steps[..|steps| - 1]);
      var w, s := After(w0, steps[..|steps| - 1]), steps[|steps| - 1];
      if Enabled(w, s) {
        LockedNext(w, s);
      }
    }
    forall i | 0 <= i < |After(w0, steps).writes|
      ensures Landed(After(w0, steps).writes[i])
    {
    }
  }

  /** Edits that went through without a stamp set only these fields. */
  ghost predicate LooseOnly(w: World, fields: set<Field>) {
    forall i :: 0 <= i < |w.writes| && w.writes[i].kind == Edit && w.writes[i].expected == None ==>
      w.writes[i].patch.Keys <= fields
  }

  /** The fields that decide whether a case is justified. */
  const DECISIVE: set<Field> := {Status, Outcome, Glosa}

  /** If edits without a stamp leave those alone, a closed case always has a
      closing note and is never one without findings. */
  lemma {:induction false} LooseEditsAreHarmless(w0: World, steps: seq<Step>, fields: set<Field>)
    requires Initial(w0) && Justified(w0.row.values)
    requires LooseOnly(After(w0, steps), fields) && fields !! DECISIVE
    ensures Justified(After(w0, steps).row.values)
  {
    if steps != [] {
      var w, s := After(w0, steps[..|steps| - 1]), steps[|steps| - 1];
      ValidatedAgainstReplaced(w0, steps[..|steps| - 1]);
      if Enabled(w, s) {
        LooseOnlyBefore(w, s, fields);
        LooseEditsAreHarmless(w0, steps[..|steps| - 1], fields);
        JustifiedNext(w, s, fields);
      } else {
        LooseEditsAreHarmless(w0, steps[..|steps| - 1], fields);
      }
    }
  }

  lemma LooseOnlyBefore(w: World, s: Step, fields: set<Field>)
    requires Enabled(w, s) && LooseOnly(Apply(w, s), fields)
    ensures LooseOnly(w, fields)
  {
    forall i | 0 <= i < |w.writes|
      ensures w.writes[i] == Apply(w, s).writes[i]
    {
    }
  }

  lemma JustifiedNext(w: World, s: Step, fields: set<Field>)
    requires Locked(w) && Enabled(w, s) && Justified(w.row.values)
    requires LooseOnly(Apply(w, s), fields) && fields !! DECISIVE
    ensures Justified(Apply(w, s).row.values)
  {
    if s.Write? {
      var f, after := w.flights[s.id], Apply(w, s);
      if |after.writes| > |w.writes| {
        assert after.writes[|w.writes|] == Accepted(f.kind, f.seen, w.row, f.patch, f.expected);
        if f.kind == Edit && f.expected.Some? {
          ValidateIff(w.row.values, f.patch);
        } else if f.kind == Edit {
          SameWhereItMatters(w.row.values, f.patch);
        }
      }
    }
  }

  lemma SameWhereItMatters(values: Values, patch: Patch)
    requires patch.Keys !! DECISIVE
    ensures Justified(values + patch) <==> Justified(values)
  {
    assert Status !in patch && Outcome !in patch && Glosa !in patch;
  }

  ghost predicate AllGuarded(w: World) {
    forall i :: 0 <= i < |w.writes| && w.writes[i].kind == Edit ==> w.writes[i].expected.Some?
  }

  /** In particular if every edit that went through carried a stamp. */
  lemma ClosedIsJustified(w0: World, steps: seq<Step>)
    requires Initial(w0) && Justified(w0.row.values)
    requires AllGuarded(After(w0, steps))
    ensures Justified(After(w0, steps).row.values)
  {
    LooseEditsAreHarmless(w0, steps, {});
  }

  /** Two edits that both read the first row: the one that read last writes
      first. */
  function Overtaking(late: Patch, early: Patch, expected: Option<nat>): seq<Step> {
    [Read(0, late, None), Read(1, early, expected), Write(1, 1), Write(0, 2)]
  }

  /** An edit that can be made: it passes, changes something and leaves the case
      a status. */
  predicate Makeable(values: Values, patch: Patch) {
    Validate(values, patch) == Accept && patch != map[] && (Status in patch ==> patch[Status] != None)
  }

  /** Both edits have read the row. */
  function BothRead(values: Values, late: Patch, early: Patch, expected: Option<nat>): World {
    var row := Row(values, 0, 0);
    World(row, map[0 := Flight(Edit, row, late, None, false, []), 1 := Flight(Edit, row, early, expected, false, [])],
          [], [])
  }

  lemma ReadPasses(w: World, id: nat, patch: Patch, expected: Option<nat>)
    requires id !in w.flights && Makeable(w.row.values, patch)
    requires expected.Some? ==> expected.value <= w.row.stamp
    ensures Enabled(w, Read(id, patch, expected))
    ensures Apply(w, Read(id, patch, expected))
         == w.(flights := w.flights[id := Flight(Edit, w.row, patch, expected, false, [])])
  {
  }

  lemma TwoReads(values: Values, late: Patch, early: Patch, expected: Option<nat>)
    requires Makeable(values, late) && Makeable(values, early) && expected in {None, Some(0)}
    ensures var w0, a, b := World(Row(values, 0, 0), map[], [], []), Read(0, late, None), Read(1, early, expected);
      && Enabled(w0, a) && Enabled(Apply(w0, a), b)
      && Apply(Apply(w0, a), b) == BothRead(values, late, early, expected)
  {
    var w0 := World(Row(values, 0, 0), map[], [], []);
    ReadPasses(w0, 0, late, None);
    ReadPasses(Apply(w0, Read(0, late, None)), 1, early, expected);
  }

  lemma TwoWrites(values: Values, late: Patch, early: Patch, expected: Option<nat>) returns (w: World)
    requires Makeable(values, late) && Makeable(values, early) && expected in {None, Some(0)}
    ensures var both := BothRead(values, late, early, expected);
      && Enabled(both, Write(1, 1)) && Enabled(Apply(both, Write(1, 1)), Write(0, 2))
      && w == Apply(Apply(both, Write(1, 1)), Write(0, 2))
    ensures w.row.values == values + early + late
    ensures var row := Row(values, 0, 0);
      w.writes == [Accepted(Edit, row, row, early, expected),
                   Accepted(Edit, row, Apply(BothRead(values, late, early, expected), Write(1, 1)).row, late, None)]
  {
    w := Apply(Apply(BothRead(values, late, early, expected), Write(1, 1)), Write(0, 2));
  }

  lemma Overtaken(values: Values, late: Patch, early: Patch, expected: Option<nat>) returns (w: World)
    requires Makeable(values, late) && Makeable(values, early) && expected in {None, Some(0)}
    ensures w == After(World(Row(values, 0, 0), map[], [], []), Overtaking(late, early, expected))
    ensures w.row.values == values + early + late
    ensures forall i :: 0 <= i < |w.writes| ==>
              w.writes[i].kind == Edit
              && ((w.writes[i].patch == early && w.writes[i].expected == expected)
                  || (w.writes[i].patch == late && w.writes[i].expected == None))
  {
    var w0 := World(Row(values, 0, 0), map[], [], []);
    TwoReads(values, late, early, expected);
    w := TwoWrites(values, late, early, expected);
    AfterFour(w0, Read(0, late, None), Read(1, early, expected), Write(1, 1), Write(0, 2));
  }

  predicate FourEnabled(w: World, a: Step, b: Step, c: Step, d: Step) {
    && Enabled(w, a) && Enabled(Apply(w, a), b) && Enabled(Apply(Apply(w, a), b), c)
    && Enabled(Apply(Apply(Apply(w, a), b), c), d)
  }

  lemma AfterFour(w: World, a: Step, b: Step, c: Step, d: Step)
    requires FourEnabled(w, a, b, c, d)
    ensures After(w, [a, b, c, d]) == Apply(Apply(Apply(Apply(w, a), b), c), d)
  {
    var none: seq<Step> := [];
    AfterNext(w, none, a);
    AfterNext(w, [a], b);
    AfterNext(w, [a, b], c);
    AfterNext(w, [a, b, c], d);
    assert none + [a] == [a] && [a] + [b] == [a, b] && [a, b] + [c] == [a, b, c];
    assert [a, b, c] + [d] == [a, b, c, d];
  }

  /** A case that can be closed as it is. */
  predicate Closable(values: Values) {
    values[Status] == OPEN && values[Outcome] == None && values[Glosa] == Some("done")
  }

  lemma ClosableCase() returns (values: Values)
    ensures Closable(values)
  {
    var some: Values :| true;
    values := some[Status := OPEN][Outcome := None][Glosa := Some("done")];
  }

  lemma NotBlank(values: Values)
    requires Closable(values)
    ensures !Blank(values[Glosa])
  {
    BlankIff(values[Glosa]);
    assert !IsSpace("done"[0]);
  }

  /** Two edits without stamps: one takes away the note with which the other
      closes the case. */
  lemma UnguardedEditsCloseWithoutNote(values: Values)
    requires Closable(values)
    ensures var w0 := World(Row(values, 0, 0), map[], [], []);
      var steps := Overtaking(map[Glosa := None], map[Status := CLOSED], None);
      Initial(w0) && Justified(values) && !Justified(After(w0, steps).row.values)
  {
    NotBlank(values);
    var late: Patch, early: Patch := map[Glosa := None], map[Status := CLOSED];
    assert Glosa in late && Status in early;
    var w := Overtaken(values, late, early, None);
  }

  /** One edit without a stamp is enough, whichever of the decisive fields it
      sets. */
  lemma OneLooseEdit(values: Values, f: Field) returns (late: Patch, early: Patch)
    requires Closable(values) && f in DECISIVE
    ensures late.Keys == {f} && Makeable(values, late) && Makeable(values, early)
    ensures Justified(values) && !Justified(values + early + late)
  {
    NotBlank(values);
    var closing: Patch, noNote: Patch, noFindings: Patch :=
      map[Status := CLOSED], map[Glosa := None], map[Outcome := NO_FINDINGS];
    assert Status in closing && Glosa in noNote && Outcome in noFindings;
    assert Makeable(values, closing) && Makeable(values, noNote) && Makeable(values, noFindings);
    match f
    case Status => late, early := closing, noNote;
    case Outcome => late, early := noFindings, closing;
    case Glosa => late, early := noNote, closing;
  }

  /** No run ever leaves a closed case unjustified. */
  ghost predicate AlwaysJustified(fields: set<Field>) {
    forall w0, steps :: Initial(w0) && Justified(w0.row.values) && LooseOnly(After(w0, steps), fields) ==>
      Justified(After(w0, steps).row.values)
  }

  /** Edits without a stamp are harmless exactly if they leave the status, the
      outcome and the closing note alone. */
  lemma HarmlessIff(fields: set<Field>)
    ensures AlwaysJustified(fields) <==> fields !! DECISIVE
  {
    if fields !! DECISIVE {
      forall w0, steps | Initial(w0) && Justified(w0.row.values) && LooseOnly(After(w0, steps), fields)
        ensures Justified(After(w0, steps).row.values)
      {
        LooseEditsAreHarmless(w0, steps, fields);
      }
    } else {
      var f :| f in fields && f in DECISIVE;
      LooseEditsHarm(fields, f);
    }
  }

  lemma LooseEditsHarm(fields: set<Field>, f: Field)
    requires f in fields && f in DECISIVE
    ensures !AlwaysJustified(fields)
  {
    var values := ClosableCase();
    var late, early := OneLooseEdit(values, f);
    var w := Overtaken(values, late, early, Some(0));
    assert LooseOnly(w, fields);
  }

  lemma AfterNext(w0: World, steps: seq<Step>, s: Step)
    ensures After(w0, steps + [s])
         == if Enabled(After(w0, steps), s) then Apply(After(w0, steps), s) else After(w0, steps)
  {
    assert (steps + [s])[..|steps|] == steps;
  }

  // ---- What else a write leaves ----

  /** A case never loses its status. */
  lemma {:induction false} StatusStays(w0: World, steps: seq<Step>)
    requires w0.row.values[Status] != None
    ensures After(w0, steps).row.values[Status] != None
  {
    if steps != [] {
      StatusStays(w0, steps[..|steps| - 1]);
    }
  }

  /** A write that goes through leaves the row as the edit says and the rest of
      its values alone; the count of new messages is forgotten by reopening for
      them and by closing, and by nothing else: reopening with an edit keeps
      it. */
  lemma WriteLeaves(w: World, id: nat, stamp: nat)
    requires Locked(w) && Enabled(w, Write(id, stamp)) && Apply(w, Write(id, stamp)).writes != w.writes
    requires w.flights[id].kind == Reopen || w.flights[id].expected.Some?
    ensures var f, v := w.flights[id], Apply(w, Write(id, stamp));
      && (forall x: Field :: v.row.values[x] == if x in f.patch then f.patch[x] else w.row.values[x])
      && v.row.stamp == stamp
      && v.row.pendingReopen == if f.kind == Reopen || (v.row.values[Status] == CLOSED
                                                        && w.row.values[Status] != CLOSED)
                                then 0 else w.row.pendingReopen
  {
  }

  /** And it goes through exactly if the row still has the expected stamp, or
      none was sent, and the edit leaves the case a status. */
  lemma WriteGoesThroughIff(w: World, id: nat, stamp: nat)
    requires Enabled(w, Write(id, stamp))
    ensures var f, v := w.flights[id], Apply(w, Write(id, stamp));
      if f.expected in {None, Some(w.row.stamp)} && (Status in f.patch ==> f.patch[Status] != None)
      then v.writes == w.writes + [Accepted(f.kind, f.seen, w.row, f.patch, f.expected)] && v.flights[id].written
      else v == w.(flights := w.flights - {id})
  {
  }

  // ---- The audit log ----

  /** How many writes changed what they had read in just this way. */
  function ChangedTimes(writes: seq<Accepted>, e: Entry): nat {
    if writes == [] then 0
    else
      var h := writes[|writes| - 1];
      ChangedTimes(writes[..|writes| - 1], e) + if Changes(h.seen.values, h.patch, e) then 1 else 0
  }

  /** How often a request still has to write this entry. */
  function OwedOne(flights: map<nat, Flight>, id: nat, e: Entry): nat {
    if id in flights && flights[id].written then multiset(flights[id].toLog)[e] else 0
  }

  /** The same for all requests with a number below n. */
  function OwedTimes(flights: map<nat, Flight>, n: nat, e: Entry): nat {
    if n == 0 then 0 else OwedTimes(flights, n - 1, e) + OwedOne(flights, n - 1, e)
  }

  predicate Numbered(flights: map<nat, Flight>, n: nat) {
    forall id :: id in flights ==> id < n
  }

  lemma {:induction false} OwedBeyond(flights: map<nat, Flight>, n: nat, m: nat, e: Entry)
    requires Numbered(flights, n) && n <= m
    ensures OwedTimes(flights, m, e) == OwedTimes(flights, n, e)
  {
    if n < m {
      OwedBeyond(flights, n, m - 1, e);
    }
  }

  /** If two states of the requests differ in one of them, so do the sums. */
  lemma {:induction false} OwedElsewhere(before: map<nat, Flight>, after: map<nat, Flight>, id: nat, n: nat, e: Entry)
    requires forall k :: k != id ==> OwedOne(before, k, e) == OwedOne(after, k, e)
    ensures OwedTimes(after, n, e) + (if id < n then OwedOne(before, id, e) else 0)
         == OwedTimes(before, n, e) + if id < n then OwedOne(after, id, e) else 0
  {
    if n > 0 {
      OwedElsewhere(before, after, id, n - 1, e);
    }
  }

  /** Every change that was made has its entry in the log or about to be written
      there, as many times as it was made, and no other entry has. */
  ghost predicate Audited(w: World) {
    forall e, n :: Numbered(w.flights, n) ==>
      multiset(w.log)[e] + OwedTimes(w.flights, n, e) == ChangedTimes(w.writes, e)
  }

  /** What one request writes or makes up for. */
  lemma AuditedNext(w: World, v: World, id: nat, n: nat, e: Entry)
    requires Audited(w) && Numbered(v.flights, n)
    requires forall k :: k != id ==> (k in w.flights <==> k in v.flights)
    requires forall k :: k != id && k in w.flights ==> w.flights[k] == v.flights[k]
    requires multiset(v.log)[e] + OwedOne(v.flights, id, e) + ChangedTimes(w.writes, e)
          == multiset(w.log)[e] + OwedOne(w.flights, id, e) + ChangedTimes(v.writes, e)
    ensures multiset(v.log)[e] + OwedTimes(v.flights, n, e) == ChangedTimes(v.writes, e)
  {
    var m := if n <= id then id + 1 else n;
    assert Numbered(w.flights, m);
    OwedBeyond(v.flights, n, m, e);
    OwedElsewhere(w.flights, v.flights, id, m, e);
  }

  lemma WriteOwes(w: World, id: nat, stamp: nat, e: Entry)
    requires Enabled(w, Write(id, stamp))
    ensures var v := Apply(w, Write(id, stamp));
      OwedOne(v.flights, id, e) + ChangedTimes(w.writes, e) == OwedOne(w.flights, id, e) + ChangedTimes(v.writes, e)
  {
    var f, v := w.flights[id], Apply(w, Write(id, stamp));
    if v.writes != w.writes {
      assert v.writes[..|w.writes|] == w.writes;
      EditEntries(f.seen.values, f.patch, e);
    }
  }

  lemma LogPays(w: World, id: nat, e: Entry)
    requires Enabled(w, Log(id))
    ensures var v := Apply(w, Log(id));
      multiset(v.log)[e] + OwedOne(v.flights, id, e) == multiset(w.log)[e] + OwedOne(w.flights, id, e)
  {
    var f := w.flights[id];
    if f.toLog != [] {
      assert f.toLog == [f.toLog[0]] + f.toLog[1..];
    }
  }

  /** Whatever the interleaving, the log and the entries still to be written
      are exactly the changes that were made, each as often as it was made. */
  lemma {:induction false} LogIsComplete(w0: World, steps: seq<Step>)
    requires Initial(w0)
    ensures Audited(After(w0, steps))
  {
    if steps == [] {
      NothingOwed(w0);
    } else {
      LogIsComplete(w0, steps[..|steps| - 1]);
      var w, s := After(w0, steps[..|steps| - 1]), steps[|steps| - 1];
      if Enabled(w, s) {
        AuditedStep(w, s);
      }
    }
  }

  lemma NothingOwed(w: World)
    requires Initial(w)
    ensures Audited(w)
  {
    forall e, n: nat
      ensures OwedTimes(w.flights, n, e) == 0
    {
      OwedBeyond(w.flights, 0, n, e);
    }
  }

  lemma AuditedStep(w: World, s: Step)
    requires Audited(w) && Enabled(w, s)
    ensures Audited(Apply(w, s))
  {
    var v := Apply(w, s);
    forall e, n: nat | Numbered(v.flights, n)
      ensures multiset(v.log)[e] + OwedTimes(v.flights, n, e) == ChangedTimes(v.writes, e)
    {
      match s
      case Write(id, stamp) =>
        WriteOwes(w, id, stamp, e);
        AuditedNext(w, v, id, n, e);
      case Log(id) =>
        LogPays(w, id, e);
        AuditedNext(w, v, id, n, e);
      case Read(id, _, _) => AuditedNext(w, v, id, n, e);
      case ReadToReopen(id) => AuditedNext(w, v, id, n, e);
      case Touch(_, _) =>
    }
  }

  /** When nothing is under way and every edit carried a stamp, the log has an
      entry for each time that some write really changed a field, with the value
      it overwrote.  Only a reopening may name a value that it did not
      overwrite, because it reads first and sends no stamp. */
  lemma LogTellsOverwrittenValues(w0: World, steps: seq<Step>, e: Entry)
    requires Initial(w0) && After(w0, steps).flights == map[] && AllGuarded(After(w0, steps))
    ensures multiset(After(w0, steps).log)[e] == MadeTimes(After(w0, steps).writes, e)
  {
    var w := After(w0, steps);
    LogIsComplete(w0, steps);
    ValidatedAgainstReplaced(w0, steps);
    assert Numbered(w.flights, 0) && OwedTimes(w.flights, 0, e) == 0;
    ChangedIsMade(w.writes, e);
  }

  predicate Made(h: Accepted, e: Entry) {
    if h.kind == Edit then Changes(h.replaced.values, h.patch, e) else Changes(h.seen.values, h.patch, e)
  }

  function MadeTimes(writes: seq<Accepted>, e: Entry): nat {
    if writes == [] then 0
    else MadeTimes(writes[..|writes| - 1], e) + if Made(writes[|writes| - 1], e) then 1 else 0
  }

  lemma {:induction false} ChangedIsMade(writes: seq<Accepted>, e: Entry)
    requires forall i :: 0 <= i < |writes| ==> Landed(writes[i])
    requires forall i :: 0 <= i < |writes| && writes[i].kind == Edit ==> writes[i].expected.Some?
    ensures ChangedTimes(writes, e) == MadeTimes(writes, e)
  {
    if writes != [] {
      var init, h := writes[..|writes| - 1], writes[|writes| - 1];
      assert forall i :: 0 <= i < |init| ==> init[i] == writes[i];
      ChangedIsMade(init, e);
      assert Landed(h);
    }
  }

  /** How often a write set a field to this value when it had that one. */
  function OverwrittenTimes(writes: seq<Accepted>, e: Entry): nat {
    if writes == [] then 0
    else
      var h := writes[|writes| - 1];
      OverwrittenTimes(writes[..|writes| - 1], e) + if Changes(h.replaced.values, h.patch, e) then 1 else 0
  }

  /** Every reopening replaced a closed row. */
  ghost predicate ReopenedClosed(writes: seq<Accepted>) {
    forall i :: 0 <= i < |writes| && writes[i].kind == Reopen ==> writes[i].replaced.values[Status] == CLOSED
  }

  const REOPENED: Entry := Entry(Status, CLOSED, OPEN)

  /** What a reopening logs is what it overwrote exactly if the case was still
      closed. */
  lemma ReopeningTells(h: Accepted, e: Entry)
    requires Landed(h) && h.kind == Reopen
    ensures Changes(h.seen.values, h.patch, e) <==> e == REOPENED
    ensures h.replaced.values[Status] == CLOSED ==>
              (Changes(h.replaced.values, h.patch, e) <==> Changes(h.seen.values, h.patch, e))
    ensures h.replaced.values[Status] != CLOSED ==> !Changes(h.replaced.values, h.patch, REOPENED)
  {
  }

  lemma {:induction false} ChangedIsOverwritten(writes: seq<Accepted>, e: Entry)
    requires forall i :: 0 <= i < |writes| ==> Landed(writes[i])
    requires forall i :: 0 <= i < |writes| && writes[i].kind == Edit ==> writes[i].expected.Some?
    ensures ReopenedClosed(writes) ==> ChangedTimes(writes, e) == OverwrittenTimes(writes, e)
    ensures ChangedTimes(writes, REOPENED) >= OverwrittenTimes(writes, REOPENED)
    ensures !ReopenedClosed(writes) ==> ChangedTimes(writes, REOPENED) > OverwrittenTimes(writes, REOPENED)
  {
    if writes != [] {
      var init, h := writes[..|writes| - 1], writes[|writes| - 1];
      assert forall i :: 0 <= i < |init| ==> init[i] == writes[i];
      ChangedIsOverwritten(init, e);
      assert Landed(h);
      if h.kind == Reopen {
        ReopeningTells(h, e);
        ReopeningTells(h, REOPENED);
      }
      assert ReopenedClosed(writes) <==>
        ReopenedClosed(init) && (h.kind == Reopen ==> h.replaced.values[Status] == CLOSED);
    }
  }

  /** When nothing is under way and every edit carried a stamp, the log tells
      just what was overwritten if and only if no reopening came too late. */
  lemma LogIsTrueIff(w0: World, steps: seq<Step>)
    requires Initial(w0) && After(w0, steps).flights == map[] && AllGuarded(After(w0, steps))
    ensures (forall e :: multiset(After(w0, steps).log)[e] == OverwrittenTimes(After(w0, steps).writes, e))
       <==> ReopenedClosed(After(w0, steps).writes)
  {
    var w := After(w0, steps);
    ValidatedAgainstReplaced(w0, steps);
    forall e
      ensures multiset(w.log)[e] == ChangedTimes(w.writes, e)
      ensures ReopenedClosed(w.writes) ==> ChangedTimes(w.writes, e) == OverwrittenTimes(w.writes, e)
      ensures !ReopenedClosed(w.writes) ==> ChangedTimes(w.writes, REOPENED) > OverwrittenTimes(w.writes, REOPENED)
    {
      LogIsComplete(w0, steps);
      assert Numbered(w.flights, 0) && OwedTimes(w.flights, 0, e) == 0;
      ChangedIsOverwritten(w.writes, e);
    }
  }

  /** Two reopenings of one closed case: the second replaces an open row, and
      will log that it was closed. */
  lemma ReopenedTwice(values: Values) returns (w: World)
    requires values[Status] == CLOSED
    ensures w == After(World(Row(values, 0, 0), map[], [], []),
                       [ReadToReopen(0), ReadToReopen(1), Write(0, 1), Write(1, 2)])
    ensures !ReopenedClosed(w.writes) && 1 in w.flights && REOPENED in w.flights[1].toLog
  {
    var w0 := World(Row(values, 0, 0), map[], [], []);
    var a, b, c, d := ReadToReopen(0), ReadToReopen(1), Write(0, 1), Write(1, 2);
    AfterFour(w0, a, b, c, d);
    w := Apply(Apply(Apply(Apply(w0, a), b), c), d);
    EditEntries(values, map[Status := OPEN], REOPENED);
    assert w.writes[1].replaced.values[Status] == OPEN;
  }

  // ---- One request after another ----

  /** No request reads while another is under way. */
  ghost predicate Serial(w0: World, steps: seq<Step>) {
    steps != [] ==>
      var init, s := steps[..|steps| - 1], steps[|steps| - 1];
      Serial(w0, init) && (s.Read? || s.ReadToReopen? ==> After(w0, init).flights == map[])
  }

  /** At most one request is under way; the log, with what that request still
      has to log, leads from the first row to the present one. */
  ghost predicate Replayable(values: Values, w: World) {
    if w.flights == map[] then Replay(values, w.log) == w.row.values
    else exists id :: Alone(values, w, id)
  }

  predicate Alone(values: Values, w: World, id: nat) {
    && w.flights.Keys == {id}
    && var f := w.flights[id];
       if f.written then Replay(values, w.log + f.toLog) == w.row.values
       else f.seen.values == w.row.values && Replay(values, w.log) == w.row.values
  }

  lemma ReplayableWrite(values: Values, w: World, id: nat, stamp: nat)
    requires Replayable(values, w) && Enabled(w, Write(id, stamp))
    ensures Replayable(values, Apply(w, Write(id, stamp)))
  {
    var k :| Alone(values, w, k);
    assert k == id;
    var f, v := w.flights[id], Apply(w, Write(id, stamp));
    if v.writes == w.writes {
      assert v.flights.Keys == {};
    } else {
      ReplayEdit(w.row.values, f.patch);
      ReplayConcat(values, w.log, Entries(f.seen.values, f.patch, FIELDS));
      assert Alone(values, v, id);
    }
  }

  lemma ReplayableLog(values: Values, w: World, id: nat)
    requires Replayable(values, w) && Enabled(w, Log(id))
    ensures Replayable(values, Apply(w, Log(id)))
  {
    var k :| Alone(values, w, k);
    assert k == id;
    var f, v := w.flights[id], Apply(w, Log(id));
    if f.toLog == [] {
      assert w.log + f.toLog == w.log;
      assert v.flights.Keys == {};
    } else {
      assert w.log + [f.toLog[0]] + f.toLog[1..] == w.log + f.toLog;
      assert Alone(values, v, id);
    }
  }

  lemma ReplayableRead(values: Values, w: World, s: Step)
    requires Replayable(values, w) && Enabled(w, s)
    requires s.Touch? || ((s.Read? || s.ReadToReopen?) && w.flights == map[])
    ensures Replayable(values, Apply(w, s))
  {
    var v := Apply(w, s);
    if s.Touch? {
      if id :| Alone(values, w, id) {
        assert Alone(values, v, id);
      }
    } else if v != w {
      assert Alone(values, v, s.id);
    }
  }

  lemma {:induction false} SerialReplayable(w0: World, steps: seq<Step>)
    requires Initial(w0) && Serial(w0, steps)
    ensures Replayable(w0.row.values, After(w0, steps))
  {
    if steps != [] {
      SerialReplayable(w0, steps[..|steps| - 1]);
      var w, s := After(w0, steps[..|steps| - 1]), steps[|steps| - 1];
      if Enabled(w, s) {
        match s
        case Write(id, stamp) => ReplayableWrite(w0.row.values, w, id, stamp);
        case Log(id) => ReplayableLog(w0.row.values, w, id);
        case _ => ReplayableRead(w0.row.values, w, s);
      }
    }
  }

  /** Requests that do not overlap can be replayed from the audit log. */
  lemma SerialRunsReplay(w0: World, steps: seq<Step>)
    requires Initial(w0) && Serial(w0, steps) && After(w0, steps).flights == map[]
    ensures Replay(w0.row.values, After(w0, steps).log) == After(w0, steps).row.values
  {
    SerialReplayable(w0, steps);
  }
}
