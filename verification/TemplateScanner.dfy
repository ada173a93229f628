/** Filling in report templates: variables in square brackets are replaced in
    one pass from left to right. */
module TemplateScanner {

  predicate NameChar(c: char) {
    'A' <= c <= 'Z' || '0' <= c <= '9' || c == '_'
  }

  /** Between i and j stand only capital letters, digits and underscores. */
  predicate AllNames(s: string, i: int, j: int)
    requires 0 <= i && j <= |s|
  {
    forall k :: i <= k < j ==> 'A' <= s[k] <= 'Z' || '0' <= s[k] <= '9' || s[k] == '_'
  }

  /** A variable stands between the brackets at i and j. */
  predicate Match(s: string, i: int, j: int) {
    0 <= i && i + 1 < j < |s| && s[i] == '[' && s[j] == ']' && AllNames(s, i + 1, j)
  }

  /** Variables neither nest nor overlap, whatever the brackets around them. */
  lemma MatchesAreApart(s: string, i: int, j: int, i1: int, j1: int)
    requires Match(s, i, j) && Match(s, i1, j1) && i <= i1
    ensures (i == i1 && j == j1) || j < i1
  {
    assert s[j] == ']' && s[j1] == ']' && s[i1] == '[';
  }

  // ---- Parsing and printing ----

  datatype Segment = Plain(c: char) | Var(name: string)

  /** The end of the run of name characters that starts at i. */
  function RunEnd(s: string, i: nat): (r: nat)
    requires i <= |s|
    ensures i <= r <= |s|
    decreases |s| - i
  {
    if i < |s| && NameChar(s[i]) then RunEnd(s, i + 1) else i
  }

  lemma {:induction false} RunEndIs(s: string, i: nat, r: nat)
    requires i <= r <= |s| && AllNames(s, i, r) && (r < |s| ==> !NameChar(s[r]))
    ensures RunEnd(s, i) == r
    decreases r - i
  {
    if i < r {
      RunEndIs(s, i + 1, r);
    }
  }

  lemma {:induction false} RunEndNames(s: string, i: nat)
    requires i <= |s|
    ensures AllNames(s, i, RunEnd(s, i))
    decreases |s| - i
  {
    if i < |s| && NameChar(s[i]) {
      RunEndNames(s, i + 1);
    }
  }

  /** Where the variable at i ends, or i if there is none. */
  function MatchEnd(s: string, i: nat): (r: nat)
    requires i < |s|
    ensures i <= r < |s|
  {
    var e := RunEnd(s, i + 1);
    if s[i] == '[' && e > i + 1 && e < |s| && s[e] == ']' then e else i
  }

  lemma MatchEndIs(s: string, i: nat, j: nat)
    requires i < |s|
    ensures MatchEnd(s, i) > i ==> Match(s, i, MatchEnd(s, i))
    ensures Match(s, i, j) ==> MatchEnd(s, i) == j
  {
    RunEndNames(s, i + 1);
    if Match(s, i, j) {
      RunEndIs(s, i + 1, j);
    }
  }

  /** The segments of the text from i on. */
  function Parse(s: string, i: nat): seq<Segment>
    requires i <= |s|
    decreases |s| - i
  {
    if i == |s| then [] else [Head(s, i)] + Parse(s, Tail(s, i))
  }

  function Head(s: string, i: nat): Segment
    requires i < |s|
  {
    if MatchEnd(s, i) > i then Var(s[i + 1..MatchEnd(s, i)]) else Plain(s[i])
  }

  function Tail(s: string, i: nat): (r: nat)
    requires i < |s|
    ensures i < r <= |s|
  {
    MatchEnd(s, i) + 1
  }

  function PrintOne(x: Segment): string {
    match x
    case Plain(c) => [c]
    case Var(name) => ['['] + name + [']']
  }

  lemma PrintHead(s: string, i: nat)
    requires i < |s|
    ensures PrintOne(Head(s, i)) == s[i..Tail(s, i)]
  {
    var e := MatchEnd(s, i);
    MatchEndIs(s, i, i);
    if e > i {
      assert s[i..e + 1] == [s[i]] + s[i + 1..e] + [s[e]];
    }
  }

  function Print(xs: seq<Segment>): string {
    if xs == [] then [] else PrintOne(xs[0]) + Print(xs[1..])
  }

  /** A segment that prints as far as t, in front of what prints the rest. */
  lemma PrintStep(s: string, i: nat, t: nat, x: Segment, xs: seq<Segment>)
    requires i <= t <= |s| && PrintOne(x) == s[i..t] && Print(xs) == s[t..]
    ensures Print([x] + xs) == s[i..]
  {
    PrintCons(x, xs);
    Slices(s, i, t);
  }

  lemma PrintCons(x: Segment, xs: seq<Segment>)
    ensures Print([x] + xs) == PrintOne(x) + Print(xs)
  {
    assert ([x] + xs)[1..] == xs;
  }

  lemma Slices(s: string, i: nat, t: nat)
    requires i <= t <= |s|
    ensures s[i..t] + s[t..] == s[i..]
  {
  }

  /** Printing the segments gives back the text, brackets that close nothing
      included. */
  lemma {:induction false} PrintParse(s: string, i: nat)
    requires i <= |s|
    ensures Print(Parse(s, i)) == s[i..]
    decreases |s| - i
  {
    if i < |s| {
      PrintHead(s, i);
      PrintParse(s, Tail(s, i));
      PrintStep(s, i, Tail(s, i), Head(s, i), Parse(s, Tail(s, i)));
    }
  }

  /** Where in the text the k-th segment starts. */
  function Place(s: string, i: nat, k: nat): (r: nat)
    requires i <= |s| && k < |Parse(s, i)|
    ensures r < |s|
    decreases k
  {
    if k == 0 then i else Place(s, Tail(s, i), k - 1)
  }

  /** The variables of the parse are exactly the matches of the text: each
      segment stands at its place, ... */
  lemma {:induction false} VarsAreMatches(s: string, i: nat, k: nat)
    requires i <= |s| && k < |Parse(s, i)|
    ensures Parse(s, i)[k] == Head(s, Place(s, i, k))
    ensures Parse(s, i)[k].Var? ==> Match(s, Place(s, i, k), MatchEnd(s, Place(s, i, k)))
    decreases k
  {
    if k == 0 {
      MatchEndIs(s, i, i);
    } else {
      VarsAreMatches(s, Tail(s, i), k - 1);
    }
  }

  /** ... and every match has its segment. */
  lemma {:induction false} MatchesAreVars(s: string, i: nat, a: nat, b: nat) returns (k: nat)
    requires i <= a && Match(s, a, b)
    ensures k < |Parse(s, i)| && Place(s, i, k) == a && Parse(s, i)[k] == Var(s[a + 1..b])
    decreases |s| - i
  {
    if i == a {
      MatchEndIs(s, a, b);
      k := 0;
    } else {
      MatchEndIs(s, i, i);
      if MatchEnd(s, i) > i {
        MatchesAreApart(s, i, MatchEnd(s, i), a, b);
      }
      var n := MatchesAreVars(s, Tail(s, i), a, b);
      k := n + 1;
    }
  }

  // ---- Substitution ----

  /** The value of a variable: the case's own, else the one typed in, else
      nothing. */
  function Value(name: string, auto: map<string, string>, manual: map<string, string>): string {
    if name in auto then auto[name] else if name in manual then manual[name] else []
  }

  function Fill(x: Segment, auto: map<string, string>, manual: map<string, string>): string {
    match x
    case Plain(c) => [c]
    case Var(name) => Value(name, auto, manual)
  }

  function FillAll(xs: seq<Segment>, auto: map<string, string>, manual: map<string, string>): string {
    if xs == [] then [] else Fill(xs[0], auto, manual) + FillAll(xs[1..], auto, manual)
  }

  lemma FillStep(s: string, i: nat, auto: map<string, string>, manual: map<string, string>, done: string)
    requires i < |s|
    ensures done + FillAll(Parse(s, i), auto, manual)
         == done + Fill(Head(s, i), auto, manual) + FillAll(Parse(s, Tail(s, i)), auto, manual)
  {
    assert Parse(s, i)[1..] == Parse(s, Tail(s, i));
  }

  /** A template that is one variable becomes the case's own value if there is
      one, else the value typed in, else nothing. */
  lemma OneVariable(name: string, auto: map<string, string>, manual: map<string, string>)
    requires name != [] && AllNames(name, 0, |name|)
    ensures FillAll(Parse(['['] + name + [']'], 0), auto, manual)
         == if name in auto then auto[name] else if name in manual then manual[name] else ""
  {
    var s := ['['] + name + [']'];
    assert Match(s, 0, |name| + 1);
    MatchEndIs(s, 0, |name| + 1);
    assert s[1..|name| + 1] == name;
    assert Parse(s, 0) == [Var(name)];
  }

  /** A template without variables stays as it is. */
  lemma {:induction false} NoVariables(s: string, i: nat, auto: map<string, string>, manual: map<string, string>)
    requires i <= |s| && forall a, b :: i <= a ==> !Match(s, a, b)
    ensures FillAll(Parse(s, i), auto, manual) == s[i..]
    decreases |s| - i
  {
    if i < |s| {
      MatchEndIs(s, i, i);
      assert Tail(s, i) == i + 1 && Head(s, i) == Plain(s[i]);
      FillStep(s, i, auto, manual, []);
      NoVariables(s, i + 1, auto, manual);
      assert [s[i]] + s[i + 1..] == s[i..];
    }
  }

  /** One pass from left to right is parsing, filling in each segment and
      putting the results together: what is filled in is never looked at
      again. */
  method Substitute(s: string, auto: map<string, string>, manual: map<string, string>) returns (out: string)
    ensures out == FillAll(Parse(s, 0), auto, manual)
  {
    out := [];
    var i := 0;
    ghost var all := FillAll(Parse(s, 0), auto, manual);
    while i < |s|
      invariant i <= |s|
      invariant Ahead(s, i, auto, manual, out, all)
    {
      AheadNext(s, i, auto, manual, out, all);
      var e := NameRun(s, i + 1);
      if s[i] == '[' && e > i + 1 && e < |s| && s[e] == ']' {
        out := out + Value(s[i + 1..e], auto, manual);
        i := e + 1;
      } else {
        out := out + [s[i]];
        i := i + 1;
      }
    }
  }

  /** What is written and what the rest of the text stands for make up all. */
  predicate Ahead(s: string, i: nat, auto: map<string, string>, manual: map<string, string>, out: string, all: string)
    requires i <= |s|
  {
    out + FillAll(Parse(s, i), auto, manual) == all
  }

  lemma AheadNext(s: string, i: nat, auto: map<string, string>, manual: map<string, string>, out: string, all: string)
    requires i < |s| && Ahead(s, i, auto, manual, out, all)
    ensures Ahead(s, Tail(s, i), auto, manual, out + Fill(Head(s, i), auto, manual), all)
  {
    FillStep(s, i, auto, manual, out);
  }

  method NameRun(s: string, i: nat) returns (e: nat)
    requires i <= |s|
    ensures e == RunEnd(s, i)
  {
    e := i;
    while e < |s| && NameChar(s[e])
      invariant i <= e <= |s| && AllNames(s, i, e)
    {
      e := e + 1;
    }
    RunEndIs(s, i, e);
  }
}
