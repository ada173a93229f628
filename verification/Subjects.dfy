/** Normalising the subject of a message: reply and forward prefixes are
    removed until none is left, then the white space around the rest. */
module Subjects {

  import opened Options
  import opened Texts

  // ---- One prefix ----

  /** The letter, small or capital. */
  predicate Letter(c: char, small: char, capital: char) {
    c == small || c == capital
  }

  predicate ReplyAt(s: string, i: nat) {
    i + 2 <= |s| && Letter(s[i], 'r', 'R') && (Letter(s[i + 1], 'e', 'E') || Letter(s[i + 1], 'v', 'V'))
  }

  predicate ForwardAt(s: string, i: nat) {
    i + 2 <= |s| && Letter(s[i], 'f', 'F') && Letter(s[i + 1], 'w', 'W')
  }

  /** The end of the word "re", "rv", "fwd" or "fw" at i, in any case, or i. */
  function WordEnd(s: string, i: nat): (r: nat)
    requires i <= |s|
    ensures i <= r <= |s|
  {
    if ReplyAt(s, i) then i + 2
    else if ForwardAt(s, i) then if i + 2 < |s| && Letter(s[i + 2], 'd', 'D') then i + 3 else i + 2
    else i
  }

  /** Where the prefix that starts at i ends: white space, a word, white space,
      a colon, white space. */
  function PrefixEnd(s: string, i: nat): (r: Option<nat>)
    requires i <= |s|
    ensures r.Some? ==> i < r.value <= |s|
  {
    var w := SkipSpace(s, i);
    var e := WordEnd(s, w);
    var c := SkipSpace(s, e);
    if e > w && c < |s| && s[c] == ':' then Some(SkipSpace(s, c + 1)) else None
  }

  // ---- All prefixes, and the white space around ----

  /** From each place, the next place to go on from, if any. */
  ghost predicate Jumps(next: seq<Option<nat>>) {
    forall i :: 0 <= i < |next| && next[i].Some? ==> i < next[i].value < |next|
  }

  /** Where the jumps that start at i end. */
  ghost function Land(next: seq<Option<nat>>, i: nat): (r: nat)
    requires Jumps(next) && i < |next|
    ensures i <= r < |next| && next[r] == None
    decreases |next| - i
  {
    if next[i].Some? then Land(next, next[i].value) else i
  }

  /** The end of the prefix at each place. */
  ghost function Ends(s: string): (r: seq<Option<nat>>)
    ensures |r| == |s| + 1 && Jumps(r)
    ensures forall i :: 0 <= i <= |s| ==> r[i] == PrefixEnd(s, i)
  {
    seq(|s| + 1, i requires 0 <= i <= |s| => PrefixEnd(s, i))
  }

  /** The text from i on, without the white space around it. */
  function Trimmed(s: string, i: nat): string
    requires i <= |s|
  {
    TrimEnd(s[SkipSpace(s, i)..])
  }

  /** The normal form of a subject. */
  ghost function Normal(s: string): string {
    Trimmed(s, Land(Ends(s), 0))
  }

  // ---- Text before and after ----

  /** t ends with s, which begins at n. */
  ghost predicate EndsWith(t: string, n: nat, s: string) {
    |t| == n + |s| && forall k {:trigger s[k]} :: 0 <= k < |s| ==> t[n + k] == s[k]
  }

  lemma Appended(p: string, s: string)
    ensures EndsWith(p + s, |p|, s)
  {
  }

  lemma {:induction false} SkipSpaceAfter(t: string, n: nat, s: string, i: nat)
    requires EndsWith(t, n, s) && i <= |s|
    ensures SkipSpace(t, n + i) == n + SkipSpace(s, i)
    decreases |s| - i
  {
    if i < |s| && IsSpace(s[i]) {
      SkipSpaceAfter(t, n, s, i + 1);
    }
  }

  lemma {:induction false} SkipSpaceBefore(p: string, s: string, i: nat)
    requires i <= |p|
    ensures SkipSpace(p + s, i) == if SkipSpace(p, i) < |p| then SkipSpace(p, i) else |p| + SkipSpace(s, 0)
    decreases |p| - i
  {
    if i == |p| {
      SkipSpaceAfter(p + s, |p|, s, 0);
    } else if IsSpace(p[i]) {
      SkipSpaceBefore(p, s, i + 1);
    }
  }

  lemma WordEndAfter(t: string, n: nat, s: string, i: nat)
    requires EndsWith(t, n, s) && i <= |s|
    ensures WordEnd(t, n + i) == n + WordEnd(s, i)
  {
  }

  /** What stands before a text does not change what its prefixes are. */
  lemma PrefixEndAfter(t: string, n: nat, s: string, i: nat)
    requires EndsWith(t, n, s) && i <= |s|
    ensures PrefixEnd(t, n + i) == if PrefixEnd(s, i).Some? then Some(n + PrefixEnd(s, i).value) else None
  {
    var w := SkipSpace(s, i);
    var e := WordEnd(s, w);
    var c := SkipSpace(s, e);
    SkipSpaceAfter(t, n, s, i);
    WordEndAfter(t, n, s, w);
    SkipSpaceAfter(t, n, s, e);
    if c < |s| {
      SkipSpaceAfter(t, n, s, c + 1);
    }
  }

  /** Later has the jumps of next, n places further on. */
  ghost predicate Shifted(later: seq<Option<nat>>, next: seq<Option<nat>>, n: nat) {
    && |later| == n + |next|
    && forall i :: 0 <= i < |next| ==>
         later[n + i] == if next[i].Some? then Some(n + next[i].value) else None
  }

  lemma {:induction false} LandShifted(later: seq<Option<nat>>, next: seq<Option<nat>>, n: nat, i: nat)
    requires Jumps(later) && Jumps(next) && Shifted(later, next, n) && i < |next|
    ensures Land(later, n + i) == n + Land(next, i)
    decreases |next| - i
  {
    if next[i].Some? {
      LandShifted(later, next, n, next[i].value);
    }
  }

  lemma EndsShifted(t: string, n: nat, s: string)
    requires EndsWith(t, n, s)
    ensures Shifted(Ends(t), Ends(s), n)
  {
    forall i | 0 <= i <= |s|
      ensures Ends(t)[n + i] == if Ends(s)[i].Some? then Some(n + Ends(s)[i].value) else None
    {
      PrefixEndAfter(t, n, s, i);
    }
  }

  lemma TrimmedAfter(t: string, p: string, s: string, i: nat, j: nat)
    requires t == p + s && i == |p| + j && j <= |s|
    ensures Trimmed(t, i) == Trimmed(s, j)
  {
    Appended(p, s);
    SkipSpaceAfter(t, |p|, s, j);
    assert t[SkipSpace(t, i)..] == s[SkipSpace(s, j)..];
  }

  /** A prefix stays one whatever text follows; only its white space grows. */
  lemma PrefixEndBefore(p: string, s: string)
    requires PrefixEnd(p, 0).Some?
    ensures PrefixEnd(p + s, 0).Some?
    ensures PrefixEnd(p, 0) == Some(|p|) ==> PrefixEnd(p + s, 0) == Some(|p| + SkipSpace(s, 0))
  {
    var w := SkipSpace(p, 0);
    var e := WordEnd(p, w);
    var c := SkipSpace(p, e);
    SkipSpaceBefore(p, s, 0);
    assert e < |p| && (e == c || IsSpace(p[e]));
    assert WordEnd(p + s, w) == e;
    SkipSpaceBefore(p, s, e);
    SkipSpaceBefore(p, s, c + 1);
  }

  lemma SkipSpaceTwice(s: string, i: nat)
    requires i <= |s|
    ensures SkipSpace(s, SkipSpace(s, i)) == SkipSpace(s, i)
  {
  }

  /** White space in front makes no difference. */
  lemma SpaceInFront(s: string, i: nat)
    requires i <= |s|
    ensures PrefixEnd(s, SkipSpace(s, i)) == PrefixEnd(s, i)
  {
    SkipSpaceTwice(s, i);
  }

  lemma TrimmedWithoutSpace(s: string, i: nat)
    requires i <= |s|
    ensures Trimmed(s, SkipSpace(s, i)) == Trimmed(s, i)
  {
    SkipSpaceTwice(s, i);
  }

  // ---- What normalising is for ----

  /** A reply or a forward has the same normal subject as what it answers. */
  lemma ReplyHasSameSubject(p: string, s: string)
    requires PrefixEnd(p, 0) == Some(|p|)
    ensures Normal(p + s) == Normal(s)
  {
    var n := SkipSpace(s, 0);
    TrimmedReply(p, s, n);
    SameNormal(p + s, s, n);
  }

  lemma SameNormal(t: string, s: string, n: nat)
    requires n == SkipSpace(s, 0) && Trimmed(t, Land(Ends(t), 0)) == Trimmed(s, Land(Ends(s), n))
    ensures Normal(t) == Normal(s)
  {
    NormalWithoutSpace(s, n);
  }

  lemma TrimmedReply(p: string, s: string, n: nat)
    requires PrefixEnd(p, 0) == Some(|p|) && n == SkipSpace(s, 0)
    ensures Trimmed(p + s, Land(Ends(p + s), 0)) == Trimmed(s, Land(Ends(s), n))
  {
    LandOfReply(p, s, n);
    TrimmedAfter(p + s, p, s, Land(Ends(p + s), 0), Land(Ends(s), n));
  }

  lemma ReplyStarts(t: string, m: nat, s: string, n: nat)
    requires EndsWith(t, m, s) && PrefixEnd(t, 0) == Some(m + n)
    ensures Shifted(Ends(t), Ends(s), m) && Ends(t)[0] == Some(m + n)
  {
    EndsShifted(t, m, s);
  }

  lemma LandOfReply(p: string, s: string, n: nat)
    requires PrefixEnd(p, 0) == Some(|p|) && n == SkipSpace(s, 0)
    ensures Land(Ends(p + s), 0) == |p| + Land(Ends(s), n)
  {
    PrefixEndBefore(p, s);
    Appended(p, s);
    ReplyStarts(p + s, |p|, s, n);
    LandAfter(Ends(p + s), Ends(s), |p|, n);
  }

  lemma LandAfter(later: seq<Option<nat>>, next: seq<Option<nat>>, m: nat, n: nat)
    requires Jumps(later) && Jumps(next) && Shifted(later, next, m) && n < |next|
    requires later[0] == Some(m + n)
    ensures Land(later, 0) == m + Land(next, n)
  {
    LandShifted(later, next, m, n);
  }

  lemma NormalWithoutSpace(s: string, n: nat)
    requires n == SkipSpace(s, 0)
    ensures Trimmed(s, Land(Ends(s), n)) == Normal(s)
  {
    SpaceInFront(s, 0);
    LandFrom(Ends(s), 0, n);
    TrimmedWithoutSpace(s, 0);
  }

  lemma LandFrom(next: seq<Option<nat>>, i: nat, j: nat)
    requires Jumps(next) && i < |next| && j < |next| && next[i] == next[j]
    ensures if next[i].Some? then Land(next, j) == Land(next, i) else Land(next, i) == i && Land(next, j) == j
  {
  }

  /** A text that starts at a and has no prefix there keeps having none when
      its end is cut off. */
  lemma NoPrefixInside(s: string, a: nat, r: string)
    requires a <= |s| && r <= s[a..] && PrefixEnd(s, a) == None
    ensures PrefixEnd(r, 0) == None
  {
    if PrefixEnd(r, 0).Some? {
      var rest := s[a..][|r|..];
      PrefixEndBefore(r, rest);
      assert r + rest == s[a..];
      PrefixInside(s, a);
    }
  }

  lemma PrefixInside(s: string, a: nat)
    requires a <= |s|
    ensures PrefixEnd(s, a).Some? <==> PrefixEnd(s[a..], 0).Some?
  {
    PrefixEndAfter(s, a, s[a..], 0);
  }

  /** The normal form has no prefix and no white space around it, so
      normalising it again changes nothing. */
  lemma NormalIsNormal(s: string)
    ensures PrefixEnd(Normal(s), 0) == None
    ensures Normal(Normal(s)) == Normal(s)
  {
    var b := Land(Ends(s), 0);
    var a := SkipSpace(s, b);
    var r := Normal(s);
    SpaceInFront(s, b);
    NoPrefixInside(s, a, r);
    assert r != [] ==> r[0] == s[a];
    assert r[0..] == r;
  }

  // ---- What a prefix is ----

  /** "re", "rv", "fw" or "fwd", in any case. */
  predicate IsWord(w: string) {
    if |w| == 2 then (w[0] in "rR" && w[1] in "eEvV") || (w[0] in "fF" && w[1] in "wW")
    else |w| == 3 && w[0] in "fF" && w[1] in "wW" && w[2] in "dD"
  }

  predicate SpaceIn(s: string, i: int, j: int)
    requires 0 <= i && j <= |s|
  {
    forall k :: i <= k < j ==> IsSpace(s[k])
  }

  /** White space up to i, a word up to e, white space up to j, a colon at j, and
      white space to the end. */
  predicate PrefixAt(p: string, i: int, e: int, j: int) {
    && 0 <= i < e <= j < |p| && SpaceIn(p, 0, i) && IsWord(p[i..e])
    && SpaceIn(p, e, j) && p[j] == ':' && SpaceIn(p, j + 1, |p|)
  }

  /** One of the words, then a colon, with any white space around either. */
  ghost predicate IsPrefix(p: string) {
    exists i, e, j :: PrefixAt(p, i, e, j)
  }

  lemma WordEndIs(s: string, i: nat, e: nat)
    requires i <= e <= |s| && IsWord(s[i..e]) && (e < |s| ==> IsSpace(s[e]) || s[e] == ':')
    ensures WordEnd(s, i) == e
  {
    assert forall k :: 0 <= k < e - i ==> s[i..e][k] == s[i + k];
  }

  lemma WordFound(s: string, i: nat)
    requires i <= |s| && WordEnd(s, i) > i
    ensures IsWord(s[i..WordEnd(s, i)])
  {
    var e := WordEnd(s, i);
    assert forall k :: 0 <= k < e - i ==> s[i..e][k] == s[i + k];
  }

  /** The scan takes the whole of a text exactly if that is a prefix. */
  lemma PrefixIff(p: string)
    ensures PrefixEnd(p, 0) == Some(|p|) <==> IsPrefix(p)
  {
    if i, e, j :| PrefixAt(p, i, e, j) {
      PrefixScanned(p, i, e, j);
    }
    if PrefixEnd(p, 0) == Some(|p|) {
      PrefixFound(p, |p|);
      assert p[..|p|] == p;
    }
  }

  lemma PrefixScanned(p: string, i: nat, e: nat, j: nat)
    requires PrefixAt(p, i, e, j)
    ensures PrefixEnd(p, 0) == Some(|p|)
  {
    assert p[i] == p[i..e][0];
    SkipSpaceIs(p, 0, i);
    WordEndIs(p, i, e);
    SkipSpaceIs(p, e, j);
    SkipSpaceIs(p, j + 1, |p|);
  }

  lemma PrefixFound(s: string, r: nat)
    requires PrefixEnd(s, 0) == Some(r)
    ensures IsPrefix(s[..r])
  {
    var i := SkipSpace(s, 0);
    var e := WordEnd(s, i);
    var j := SkipSpace(s, e);
    SkippedIs(s, 0);
    WordFound(s, i);
    SkippedIs(s, e);
    SkippedIs(s, j + 1);
    assert s[..r][i..e] == s[i..e];
    assert PrefixAt(s[..r], i, e, j);
  }

  // ---- What the normal form is ----

  function Joined(ps: seq<string>): string {
    if ps == [] then [] else ps[0] + Joined(ps[1..])
  }

  /** No beginning of the text is a prefix. */
  ghost predicate Plain(s: string) {
    forall k :: 0 <= k <= |s| ==> !IsPrefix(s[..k])
  }

  /** s is made of prefixes, white space, n and white space, where n has no
      prefix and no white space around it. */
  ghost predicate MadeOf(s: string, ps: seq<string>, lead: string, n: string, trail: string) {
    && s == Joined(ps) + (lead + n + trail) && (forall i :: 0 <= i < |ps| ==> IsPrefix(ps[i]))
    && AllSpace(lead) && AllSpace(trail) && Bare(n) && Plain(n)
  }

  lemma PlainIff(s: string)
    ensures PrefixEnd(s, 0) == None <==> Plain(s)
  {
    if PrefixEnd(s, 0).Some? {
      PrefixFound(s, PrefixEnd(s, 0).value);
    }
    forall k | 0 <= k <= |s| && IsPrefix(s[..k])
      ensures PrefixEnd(s, 0).Some?
    {
      PrefixIff(s[..k]);
      PrefixEndBefore(s[..k], s[k..]);
      assert s[..k] + s[k..] == s;
    }
  }

  /** White space around a text gives it no prefix. */
  lemma PlainWithSpace(lead: string, n: string, trail: string)
    requires AllSpace(lead) && AllSpace(trail) && Bare(n) && Plain(n)
    ensures PrefixEnd(lead + n + trail, 0) == None
  {
    var s := lead + n + trail;
    var i := SkipSpace(s, 0);
    if PrefixEnd(s, 0).Some? {
      assert i < |s| && !IsSpace(s[i]);
      assert n != [] by {
        assert n == [] ==> AllSpace(s);
      }
      assert s[|lead|] == n[0];
      SkipSpaceIs(s, 0, |lead|);
      PrefixWithin(lead, n, trail, SkipSpace(s, WordEnd(s, i)));
    }
  }

  lemma PrefixWithin(lead: string, n: string, trail: string, j: nat)
    requires AllSpace(lead) && AllSpace(trail) && Bare(n) && n != []
    requires var s := lead + n + trail;
      SkipSpace(s, 0) == |lead| < WordEnd(s, |lead|) && j == SkipSpace(s, WordEnd(s, |lead|)) < |s| && s[j] == ':'
    ensures !Plain(n)
  {
    var s, i := lead + n + trail, |lead|;
    var e := WordEnd(s, i);
    assert forall k :: i + |n| <= k < |s| ==> s[k] == trail[k - i - |n|];
    assert j < i + |n|;
    var p := n[..j - i + 1];
    WordFound(s, i);
    SkippedIs(s, e);
    assert forall k :: 0 <= k < |p| ==> p[k] == s[i + k];
    assert p[..e - i] == s[i..e];
    assert PrefixAt(p, 0, e - i, j - i);
  }

  /** However a text is made of such parts, its normal form is the one in the
      middle. */
  lemma {:induction false} NormalOf(s: string, ps: seq<string>, lead: string, n: string, trail: string)
    requires MadeOf(s, ps, lead, n, trail)
    ensures Normal(s) == n
    decreases |ps|
  {
    var rest := lead + n + trail;
    if ps == [] {
      assert s == rest;
      PlainWithSpace(lead, n, trail);
      assert Ends(s)[0] == None;
      StripIs(lead, n, trail);
    } else {
      var t := Joined(ps[1..]) + rest;
      assert s == ps[0] + t;
      PrefixIff(ps[0]);
      NormalOf(t, ps[1..], lead, n, trail);
      ReplyHasSameSubject(ps[0], t);
    }
  }

  lemma MadeOfMore(p: string, s: string, ps: seq<string>, lead: string, n: string, trail: string)
    requires MadeOf(s, ps, lead, n, trail) && IsPrefix(p)
    ensures MadeOf(p + s, [p] + ps, lead, n, trail)
  {
    var rest := lead + n + trail;
    assert ([p] + ps)[1..] == ps;
    assert p + (Joined(ps) + rest) == p + Joined(ps) + rest;
  }

  lemma FirstPrefix(s: string) returns (p: string, t: string)
    requires PrefixEnd(s, 0).Some?
    ensures s == p + t && |t| < |s| && IsPrefix(p) && Normal(s) == Normal(t)
  {
    var r := PrefixEnd(s, 0).value;
    p, t := s[..r], s[r..];
    PrefixFound(s, r);
    PrefixIff(p);
    assert s == p + t;
    ReplyHasSameSubject(p, t);
  }

  /** And every text is made of such parts. */
  lemma {:induction false} Parts(s: string) returns (ps: seq<string>, lead: string, trail: string)
    ensures MadeOf(s, ps, lead, Normal(s), trail)
    decreases |s|
  {
    if PrefixEnd(s, 0) == None {
      lead, trail := LastParts(s);
      ps := [];
    } else {
      var p, t := FirstPrefix(s);
      ps, lead, trail := Parts(t);
      MadeOfMore(p, t, ps, lead, Normal(t), trail);
      ps := [p] + ps;
    }
  }

  lemma Between(s: string, i: nat, n: string)
    requires i <= |s| && n <= s[i..]
    ensures i + |n| <= |s| && s[..i] + n + s[i + |n|..] == s
  {
  }

  lemma SpaceBehind(s: string, i: nat, n: nat)
    requires i + n <= |s| && forall k :: n <= k < |s[i..]| ==> IsSpace(s[i..][k])
    ensures AllSpace(s[i + n..])
  {
    forall k | i + n <= k < |s|
      ensures IsSpace(s[k])
    {
      assert s[i..][k - i] == s[k];
    }
  }

  lemma MadeOfRest(s: string, lead: string, n: string, trail: string)
    requires s == lead + n + trail && AllSpace(lead) && AllSpace(trail) && Bare(n) && Plain(n)
    ensures MadeOf(s, [], lead, n, trail)
  {
    assert [] + (lead + n + trail) == s;
  }

  lemma NormalWithoutPrefix(s: string)
    requires PrefixEnd(s, 0) == None
    ensures Normal(s) == TrimEnd(s[SkipSpace(s, 0)..]) && Bare(Normal(s)) && Plain(Normal(s))
  {
    assert Ends(s)[0] == None;
    NormalIsNormal(s);
    PlainIff(Normal(s));
    assert Normal(s) != [] ==> Normal(s)[0] == s[SkipSpace(s, 0)];
  }

  lemma LastParts(s: string) returns (lead: string, trail: string)
    requires PrefixEnd(s, 0) == None
    ensures MadeOf(s, [], lead, Normal(s), trail)
  {
    var n, i := Normal(s), SkipSpace(s, 0);
    NormalWithoutPrefix(s);
    Between(s, i, n);
    SkippedIs(s, 0);
    TrimmedIs(s[i..]);
    SpaceBehind(s, i, |n|);
    lead, trail := s[..i], s[i + |n|..];
    MadeOfRest(s, lead, n, trail);
  }

  /** The normal form of a subject is what is left of it when all prefixes in
      front, and the white space around the rest, are taken away. */
  lemma NormalIff(s: string, n: string)
    ensures Normal(s) == n <==> exists ps, lead, trail :: MadeOf(s, ps, lead, n, trail)
  {
    if ps, lead, trail :| MadeOf(s, ps, lead, n, trail) {
      NormalOf(s, ps, lead, n, trail);
    }
    var ps, lead, trail := Parts(s);
  }

  lemma NormalIsMade(s: string)
    ensures exists ps, lead, trail :: MadeOf(s, ps, lead, Normal(s), trail)
    ensures Bare(s) && Plain(s) ==> Normal(s) == s
  {
    var ps, lead, trail := Parts(s);
    if Bare(s) && Plain(s) {
      assert Joined([]) + ([] + s + []) == s;
      NormalOf(s, [], [], s, []);
    }
  }

  // ---- The loop ----

  /** Where the prefixes in front of a text end. */
  method SkipPrefixes(s: string) returns (i: nat)
    ensures i <= |s| && i == Land(Ends(s), 0)
  {
    i := 0;
    while PrefixEnd(s, i).Some?
      invariant i <= |s| && Land(Ends(s), i) == Land(Ends(s), 0)
      decreases |s| - i
    {
      i := PrefixEnd(s, i).value;
    }
  }

  method NormalizeSubject(subject: Option<string>) returns (normal: string)
    ensures normal == if subject.Some? then Normal(subject.value) else []
    ensures subject.Some? ==> exists ps, lead, trail :: MadeOf(subject.value, ps, lead, normal, trail)
    ensures subject.Some? && Bare(subject.value) && Plain(subject.value) ==> normal == subject.value
  {
    NormalIsMade(if subject.Some? then subject.value else []);
    if subject == None || subject.value == [] {
      return [];
    }
    var i := SkipPrefixes(subject.value);
    normal := Trimmed(subject.value, i);
  }
}
