/** Substring search, the one string primitive the tools rely on (JavaScript's
    `String.prototype.includes` and a case-insensitive regular-expression test). */
module Strings {

  /** `sub` occurs in `s` starting at index `i`. */
  ghost predicate OccursAt(s: string, sub: string, i: int)
  {
    0 <= i && i + |sub| <= |s| && s[i..i + |sub|] == sub
  }

  /** `sub` is a contiguous run of `s`. */
  ghost predicate Contains(s: string, sub: string)
  {
    exists i :: OccursAt(s, sub, i)
  }

  predicate StartsWith(s: string, prefix: string)
  {
    |prefix| <= |s| && s[..|prefix|] == prefix
  }

  /** An occurrence that is not at the front of `s` is an occurrence in `s[1..]`. */
  lemma {:induction false} ContainsTail(s: string, sub: string)
    requires |s| > 0 && !StartsWith(s, sub)
    ensures Contains(s, sub) <==> Contains(s[1..], sub)
  {
    if Contains(s, sub) {
      var i :| OccursAt(s, sub, i);
      assert i != 0;
      assert s[1..][i - 1..i - 1 + |sub|] == s[i..i + |sub|];
      assert OccursAt(s[1..], sub, i - 1);
    }
    if Contains(s[1..], sub) {
      var j :| OccursAt(s[1..], sub, j);
      assert s[1..][j..j + |sub|] == s[j + 1..j + 1 + |sub|];
      assert OccursAt(s, sub, j + 1);
    }
  }

  /** JavaScript `s.includes(sub)`: try every start position from the left. */
  function Includes(s: string, sub: string): (b: bool)
    ensures b <==> Contains(s, sub)
    decreases |s|
  {
    if StartsWith(s, sub) then
      assert OccursAt(s, sub, 0);
      true
    else if |s| == 0 then
      false
    else
      ContainsTail(s, sub);
      Includes(s[1..], sub)
  }

  /** An occurrence of `sub` inside a longer string is an occurrence in the whole. */
  lemma ContainsWithin(s: string, i: nat, sub: string)
    requires i + |sub| <= |s| && s[i..i + |sub|] == sub
    ensures Contains(s, sub)
  {
    assert OccursAt(s, sub, i);
  }

  /** ASCII case folding: `A`..`Z` map to `a`..`z`, every other character is kept. */
  function FoldChar(c: char): (d: char)
  {
    if 'A' <= c <= 'Z' then (c as int + 32) as char else c
  }

  function Fold(s: string): (t: string)
    ensures |t| == |s|
    ensures forall k :: 0 <= k < |s| ==> t[k] == FoldChar(s[k])
  {
    if s == [] then [] else [FoldChar(s[0])] + Fold(s[1..])
  }

  /** `sub` occurs in `s` at `i` when letters are compared without regard to ASCII case. */
  ghost predicate OccursAtIgnoringCase(s: string, sub: string, i: int)
  {
    0 <= i && i + |sub| <= |s| && forall k :: 0 <= k < |sub| ==> FoldChar(s[i + k]) == FoldChar(sub[k])
  }

  ghost predicate ContainsIgnoringCase(s: string, sub: string)
  {
    exists i :: OccursAtIgnoringCase(s, sub, i)
  }

  /** Searching the folded strings finds exactly the case-insensitive occurrences. */
  lemma {:induction false} FoldedSearch(s: string, sub: string)
    ensures Contains(Fold(s), Fold(sub)) <==> ContainsIgnoringCase(s, sub)
  {
    var fs, fsub := Fold(s), Fold(sub);
    if Contains(fs, fsub) {
      var i :| OccursAt(fs, fsub, i);
      forall k | 0 <= k < |sub|
        ensures FoldChar(s[i + k]) == FoldChar(sub[k])
      {
        assert fs[i..i + |fsub|][k] == fsub[k];
      }
      assert OccursAtIgnoringCase(s, sub, i);
    }
    if ContainsIgnoringCase(s, sub) {
      var i :| OccursAtIgnoringCase(s, sub, i);
      assert fs[i..i + |fsub|] == fsub;
      assert OccursAt(fs, fsub, i);
    }
  }

  /** Case-insensitive substring test, as a regular expression with the `i` flag
      and an ASCII-only pattern performs it. */
  function IncludesIgnoringCase(s: string, sub: string): (b: bool)
    ensures b <==> ContainsIgnoringCase(s, sub)
  {
    FoldedSearch(s, sub);
    Includes(Fold(s), Fold(sub))
  }

  /** A case-sensitive occurrence is also a case-insensitive one. */
  lemma ContainsIgnoresCase(s: string, sub: string)
    requires Contains(s, sub)
    ensures ContainsIgnoringCase(s, sub)
  {
    var i :| OccursAt(s, sub, i);
    forall k | 0 <= k < |sub|
      ensures FoldChar(s[i + k]) == FoldChar(sub[k])
    {
      assert s[i..i + |sub|][k] == sub[k];
    }
    assert OccursAtIgnoringCase(s, sub, i);
  }

  /** `sub` occurs in any string that has it between two other parts. */
  lemma ContainsMiddle(before: string, sub: string, after: string)
    ensures Contains(before + sub + after, sub)
  {
    var s := before + sub + after;
    assert s[|before|..|before| + |sub|] == sub;
    assert OccursAt(s, sub, |before|);
  }

  /** A string that lacks one of `sub`'s characters cannot contain `sub`. */
  lemma MissingCharExcludes(s: string, sub: string, c: char)
    requires c in sub && c !in s
    ensures !Contains(s, sub)
  {
    var k :| 0 <= k < |sub| && sub[k] == c;
    forall i | 0 <= i
      ensures !OccursAt(s, sub, i)
    {
      if i + |sub| <= |s| {
        assert s[i..i + |sub|][k] == s[i + k] != c;
      }
    }
  }

  /** The pieces joined end to end. */
  function Concat(pieces: seq<string>): (s: string)
  {
    if pieces == [] then "" else pieces[0] + Concat(pieces[1..])
  }

  /** An occurrence in `b` is an occurrence in `a + b`. */
  lemma ContainsAfter(a: string, b: string, sub: string)
    requires Contains(b, sub)
    ensures Contains(a + b, sub)
  {
    var i :| OccursAt(b, sub, i);
    assert (a + b)[|a| + i..|a| + i + |sub|] == b[i..i + |sub|];
    assert OccursAt(a + b, sub, |a| + i);
  }

  /** Every piece occurs in the joined string. */
  lemma {:induction false} PieceOccurs(pieces: seq<string>, k: nat)
    requires k < |pieces|
    ensures Contains(Concat(pieces), pieces[k])
  {
    if k == 0 {
      assert Concat(pieces) == "" + pieces[0] + Concat(pieces[1..]);
      ContainsMiddle("", pieces[0], Concat(pieces[1..]));
    } else {
      PieceOccurs(pieces[1..], k - 1);
      ContainsAfter(pieces[0], Concat(pieces[1..]), pieces[k]);
    }
  }

  /** A character found in no piece is not in the joined string. */
  lemma {:induction false} AbsentFromPieces(pieces: seq<string>, c: char)
    requires forall k :: 0 <= k < |pieces| ==> c !in pieces[k]
    ensures c !in Concat(pieces)
  {
    if pieces != [] {
      AbsentFromPieces(pieces[1..], c);
    }
  }
}
