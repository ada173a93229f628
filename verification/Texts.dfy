/** White space, as stripping and the regular expressions see it. */
module Texts {

  predicate IsSpace(c: char) {
    var n := c as int;
    0x09 <= n <= 0x0D || 0x1C <= n <= 0x20 || n == 0x85 || n == 0xA0 || n == 0x1680 || 0x2000 <= n <= 0x200A
    || n == 0x2028 || n == 0x2029 || n == 0x202F || n == 0x205F || n == 0x3000
  }

  /** One by one. */
  const SPACES: set<int> := {
    9, 10, 11, 12, 13, 28, 29, 30, 31, 32, 133, 160, 5760,
    8192, 8193, 8194, 8195, 8196, 8197, 8198, 8199, 8200, 8201, 8202, 8232, 8233, 8239, 8287, 12288
  }

  lemma SpacesAre(c: char)
    ensures IsSpace(c) <==> c as int in SPACES
  {
  }

  predicate AllSpace(s: string) {
    forall i :: 0 <= i < |s| ==> IsSpace(s[i])
  }

  /** No white space at either end. */
  predicate Bare(s: string) {
    s != [] ==> !IsSpace(s[0]) && !IsSpace(s[|s| - 1])
  }

  function SkipSpace(s: string, i: nat): (r: nat)
    requires i <= |s|
    ensures i <= r <= |s|
    ensures r < |s| ==> !IsSpace(s[r])
    decreases |s| - i
  {
    if i < |s| && IsSpace(s[i]) then SkipSpace(s, i + 1) else i
  }

  /** What is skipped is white space. */
  lemma {:induction false} SkippedIs(s: string, i: nat)
    requires i <= |s|
    ensures forall k :: i <= k < SkipSpace(s, i) ==> IsSpace(s[k])
    decreases |s| - i
  {
    if i < |s| && IsSpace(s[i]) {
      SkippedIs(s, i + 1);
    }
  }

  lemma SkipSpaceIs(s: string, i: nat, r: nat)
    requires i <= r <= |s| && (forall k :: i <= k < r ==> IsSpace(s[k])) && (r < |s| ==> !IsSpace(s[r]))
    ensures SkipSpace(s, i) == r
  {
    SkippedIs(s, i);
  }

  function TrimEnd(s: string): (r: string)
    ensures r <= s
    ensures r != [] ==> !IsSpace(r[|r| - 1])
  {
    if s != [] && IsSpace(s[|s| - 1]) then TrimEnd(s[..|s| - 1]) else s
  }

  /** What is trimmed is white space. */
  lemma {:induction false} TrimmedIs(s: string)
    ensures forall k :: |TrimEnd(s)| <= k < |s| ==> IsSpace(s[k])
  {
    if s != [] && IsSpace(s[|s| - 1]) {
      TrimmedIs(s[..|s| - 1]);
      assert forall k :: 0 <= k < |s| - 1 ==> s[..|s| - 1][k] == s[k];
    }
  }

  function Strip(s: string): string {
    TrimEnd(s[SkipSpace(s, 0)..])
  }

  /** Stripping takes away white space at both ends, and nothing else. */
  lemma StripIs(lead: string, s: string, trail: string)
    requires AllSpace(lead) && Bare(s) && AllSpace(trail)
    ensures Strip(lead + s + trail) == s
  {
    var all := lead + s + trail;
    var a := SkipSpace(all, 0);
    SkippedIs(all, 0);
    if s == [] {
      assert AllSpace(all);
    } else {
      assert all[|lead|] == s[0];
      assert a == |lead|;
      TrimEndIs(s, trail);
      assert all[a..] == s + trail;
    }
  }

  lemma TrimEndIs(s: string, trail: string)
    requires Bare(s) && AllSpace(trail)
    ensures TrimEnd(s + trail) == s
  {
    var r := TrimEnd(s + trail);
    TrimmedIs(s + trail);
    assert forall k :: |s| <= k < |s + trail| ==> IsSpace((s + trail)[k]);
    assert s != [] ==> (s + trail)[|s| - 1] == s[|s| - 1];
  }
}
