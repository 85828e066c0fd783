/** The text-diff tool (`showDiff`): both texts are split into lines and compared
    line by line at equal indices; there is no alignment of inserted or deleted lines. */
module Diff {

  /** JavaScript `text.split("\n")`: the runs between newlines, always at least one. */
  function SplitLines(s: string): (lines: seq<string>)
    ensures |lines| >= 1
    ensures forall i :: 0 <= i < |lines| ==> '\n' !in lines[i]
  {
    if s == [] then [""]
    else
      var rest := SplitLines(s[1..]);
      if s[0] == '\n' then [""] + rest
      else [[s[0]] + rest[0]] + rest[1..]
  }

  /** JavaScript `lines.join("\n")`. */
  function JoinLines(lines: seq<string>): (text: string)
    requires |lines| >= 1
  {
    if |lines| == 1 then lines[0] else lines[0] + "\n" + JoinLines(lines[1..])
  }

  /** Splitting loses nothing: joining the lines gives back the text. */
  lemma {:induction false} JoinSplit(s: string)
    ensures JoinLines(SplitLines(s)) == s
  {
    if s != [] {
      var rest := SplitLines(s[1..]);
      JoinSplit(s[1..]);
      if s[0] == '\n' {
        assert SplitLines(s)[1..] == rest;
        assert s == "\n" + s[1..];
      } else {
        var lines := SplitLines(s);
        if |rest| == 1 {
          assert JoinLines(lines) == [s[0]] + rest[0];
        } else {
          assert lines[1..] == rest[1..];
          assert JoinLines(rest) == rest[0] + "\n" + JoinLines(rest[1..]);
        }
        assert s == [s[0]] + s[1..];
      }
    }
  }

  /** Text without a newline stays in the first line of whatever follows it. */
  lemma {:induction false} SplitAfterLine(a: string, t: string)
    requires '\n' !in a
    ensures SplitLines(a + t) == [a + SplitLines(t)[0]] + SplitLines(t)[1..]
  {
    if a != [] {
      SplitAfterLine(a[1..], t);
      assert (a + t)[1..] == a[1..] + t;
      assert (a + t)[0] == a[0];
      assert [a[0]] + (a[1..] + SplitLines(t)[0]) == a + SplitLines(t)[0];
    } else {
      var lines := SplitLines(t);
      assert a + t == t;
      assert a + lines[0] == lines[0];
      assert lines == [lines[0]] + lines[1..];
    }
  }

  /** Lines without newlines survive a join and split unchanged. */
  lemma {:induction false} SplitJoin(lines: seq<string>)
    requires |lines| >= 1
    requires forall i :: 0 <= i < |lines| ==> '\n' !in lines[i]
    ensures SplitLines(JoinLines(lines)) == lines
  {
    if |lines| == 1 {
      SplitAfterLine(lines[0], "");
      assert lines[0] + "" == lines[0];
    } else {
      var rest := JoinLines(lines[1..]);
      SplitJoin(lines[1..]);
      assert lines[0] + "\n" + rest == lines[0] + ("\n" + rest);
      SplitAfterLine(lines[0], "\n" + rest);
      assert ("\n" + rest)[1..] == rest;
      assert ("\n" + rest)[0] == '\n';
      assert SplitLines("\n" + rest) == [""] + lines[1..];
      assert lines[0] + "" == lines[0];
      assert lines == [lines[0]] + lines[1..];
    }
  }

  /** A trailing newline adds one empty line and changes nothing before it. */
  lemma {:induction false} SplitTrailingNewline(s: string)
    ensures SplitLines(s + "\n") == SplitLines(s) + [""]
  {
    if s == [] {
      assert s + "\n" == "\n";
      assert SplitLines("\n") == [""] + SplitLines([]);
    } else {
      SplitTrailingNewline(s[1..]);
      assert (s + "\n")[1..] == s[1..] + "\n";
      assert (s + "\n")[0] == s[0];
    }
  }

  /** One line of the rendered diff: the 1-based row number and the text shown. */
  datatype Entry =
    | Unchanged(number: nat, text: string)
    | Removed(number: nat, text: string)
    | Added(number: nat, text: string)

  /** A JavaScript array read: `undefined` past the end. */
  datatype Lookup = Undefined | Defined(value: string)

  function Element(lines: seq<string>, i: nat): (v: Lookup)
  {
    if i < |lines| then Defined(lines[i]) else Undefined
  }

  /** JavaScript `v || ""`: `v` when it is truthy (a non-empty string), else "". */
  function OrEmpty(v: Lookup): (r: string)
  {
    if v.Defined? && v.value != "" then v.value else ""
  }

  /** `lines[i] || ""`: the fallback never alters a line that exists, and reads past the
      end as an empty line. */
  function LineAt(lines: seq<string>, i: nat): (r: string)
    ensures i < |lines| ==> r == lines[i]
    ensures |lines| <= i ==> r == ""
  {
    OrEmpty(Element(lines, i))
  }

  /** The first `n` lines, padded with empty lines as the comparison sees them. */
  function Padded(lines: seq<string>, n: nat): (r: seq<string>)
    ensures |r| == n
    ensures forall i :: 0 <= i < n ==> r[i] == LineAt(lines, i)
  {
    seq(n, i requires 0 <= i < n => LineAt(lines, i))
  }

  lemma PaddedGrows(lines: seq<string>, n: nat)
    ensures Padded(lines, n + 1) == Padded(lines, n) + [LineAt(lines, n)]
  {
  }

  /** The entries for row `i`: one unchanged line when the two lines agree, otherwise
      the old line removed and then the new line added; all numbered `i + 1`. */
  function RowEntries(a: seq<string>, b: seq<string>, i: nat): (r: seq<Entry>)
    ensures 1 <= |r| <= 2
    ensures |r| == 1 <==> LineAt(a, i) == LineAt(b, i)
    ensures |r| == 1 ==> r[0].Unchanged?
    ensures |r| == 2 ==> r[0].Removed? && r[1].Added?
    ensures forall k :: 0 <= k < |r| ==> r[k].number == i + 1
    ensures OldSide(r) == [LineAt(a, i)] && NewSide(r) == [LineAt(b, i)]
  {
    var x, y := LineAt(a, i), LineAt(b, i);
    if x == y then
      assert [Unchanged(i + 1, x)][..0] == [];
      [Unchanged(i + 1, x)]
    else
      var removed, added := Removed(i + 1, x), Added(i + 1, y);
      assert [removed, added][..1] == [removed];
      assert [removed][..0] == [];
      assert OldSide([removed]) == [x] && NewSide([removed]) == [];
      [removed, added]
  }

  /** The entries for rows `0 .. n-1`, in row order: one or two per row, each numbered
      with its row. */
  function Rows(a: seq<string>, b: seq<string>, n: nat): (r: seq<Entry>)
    ensures n <= |r| <= 2 * n
    ensures forall k :: 0 <= k < |r| ==> 1 <= r[k].number <= n
  {
    if n == 0 then [] else Rows(a, b, n - 1) + RowEntries(a, b, n - 1)
  }

  /** The old text as the diff shows it: unchanged and removed lines. */
  function OldSide(entries: seq<Entry>): (lines: seq<string>)
  {
    if entries == [] then []
    else
      var e := entries[|entries| - 1];
      OldSide(entries[..|entries| - 1]) + (if e.Added? then [] else [e.text])
  }

  /** The new text as the diff shows it: unchanged and added lines. */
  function NewSide(entries: seq<Entry>): (lines: seq<string>)
  {
    if entries == [] then []
    else
      var e := entries[|entries| - 1];
      NewSide(entries[..|entries| - 1]) + (if e.Removed? then [] else [e.text])
  }

  /** Either side distributes over concatenation. */
  lemma {:induction false} SidesAppend(xs: seq<Entry>, ys: seq<Entry>)
    ensures OldSide(xs + ys) == OldSide(xs) + OldSide(ys)
    ensures NewSide(xs + ys) == NewSide(xs) + NewSide(ys)
    decreases |ys|
  {
    if ys != [] {
      var init := ys[..|ys| - 1];
      assert (xs + ys)[..|xs + ys| - 1] == xs + init;
      SidesAppend(xs, init);
    } else {
      assert xs + ys == xs;
    }
  }

  /** The diff loses nothing: its old side is the original's lines and its new side
      the modified text's lines, both padded with empty lines to `n` rows. */
  lemma {:induction false} RowsReconstruct(a: seq<string>, b: seq<string>, n: nat)
    ensures OldSide(Rows(a, b, n)) == Padded(a, n)
    ensures NewSide(Rows(a, b, n)) == Padded(b, n)
  {
    if n > 0 {
      RowsReconstruct(a, b, n - 1);
      SidesAppend(Rows(a, b, n - 1), RowEntries(a, b, n - 1));
      PaddedGrows(a, n - 1);
      PaddedGrows(b, n - 1);
    }
  }

  /** Every entry carries a row number from 1 to `n`, and the numbers never go back. */
  lemma {:induction false} RowsNumbered(a: seq<string>, b: seq<string>, n: nat)
    ensures n <= |Rows(a, b, n)| <= 2 * n
    ensures forall k :: 0 <= k < |Rows(a, b, n)| ==> 1 <= Rows(a, b, n)[k].number <= n
    ensures forall j, k :: 0 <= j < k < |Rows(a, b, n)| ==> Rows(a, b, n)[j].number <= Rows(a, b, n)[k].number
  {
    if n > 0 {
      RowsNumbered(a, b, n - 1);
    }
  }

  /** No entry is a removal or an addition. */
  predicate AllUnchanged(entries: seq<Entry>)
  {
    forall k :: 0 <= k < |entries| ==> entries[k].Unchanged?
  }

  /** The diff shows no change at all exactly when every row's two lines agree. */
  lemma {:induction false} RowsUnchangedIff(a: seq<string>, b: seq<string>, n: nat)
    ensures AllUnchanged(Rows(a, b, n)) <==> forall i :: 0 <= i < n ==> LineAt(a, i) == LineAt(b, i)
  {
    if n > 0 {
      RowsUnchangedIff(a, b, n - 1);
      var prev, row := Rows(a, b, n - 1), RowEntries(a, b, n - 1);
      var all := prev + row;
      assert Rows(a, b, n) == all;
      assert AllUnchanged(all) <==> AllUnchanged(prev) && AllUnchanged(row) by {
        if AllUnchanged(all) {
          assert forall k :: 0 <= k < |prev| ==> prev[k] == all[k];
          assert forall k :: 0 <= k < |row| ==> row[k] == all[|prev| + k];
        }
      }
      if LineAt(a, n - 1) != LineAt(b, n - 1) {
        assert !row[0].Unchanged?;
      }
    }
  }

  /** The row-by-row comparison, as the loop in `showDiff` builds it. */
  method CompareLines(a: seq<string>, b: seq<string>) returns (entries: seq<Entry>)
    ensures var n := if |a| > |b| then |a| else |b|;
            && entries == Rows(a, b, n)
            && OldSide(entries) == Padded(a, n)
            && NewSide(entries) == Padded(b, n)
  {
    var n := if |a| > |b| then |a| else |b|;
    entries := [];
    var i := 0;
    while i < n
      invariant 0 <= i <= n
      invariant entries == Rows(a, b, i)
    {
      var x, y := LineAt(a, i), LineAt(b, i);
      if x == y {
        entries := entries + [Unchanged(i + 1, x)];
      } else {
        entries := entries + [Removed(i + 1, x)];
        entries := entries + [Added(i + 1, y)];
      }
      assert entries == Rows(a, b, i) + RowEntries(a, b, i);
      i := i + 1;
    }
    RowsReconstruct(a, b, n);
  }

  /** The first lines of a padded split are the text's own lines. */
  lemma PaddedRecoversText(text: string, n: nat)
    requires |SplitLines(text)| <= n
    ensures JoinLines(Padded(SplitLines(text), n)[..|SplitLines(text)|]) == text
  {
    var lines := SplitLines(text);
    assert Padded(lines, n)[..|lines|] == lines;
    JoinSplit(text);
  }

  /** What the diff tool shows. */
  datatype Outcome =
    | NothingToCompare          // both inputs empty: the tool asks for two texts
    | Identical                 // "Texts are identical"
    | Changes(entries: seq<Entry>)

  /** Compare two texts: refuse two empty inputs, report identical texts, and
      otherwise list the rows; each side of the listing gives back its text. */
  method ShowDiff(original: string, modified: string) returns (r: Outcome)
    ensures r == NothingToCompare <==> original == "" && modified == ""
    ensures r == Identical <==> original != "" && original == modified
    ensures r.Changes? ==> original != modified
    ensures r.Changes? ==>
              var a, b := SplitLines(original), SplitLines(modified);
              var n := if |a| > |b| then |a| else |b|;
              && r.entries == Rows(a, b, n)
              && OldSide(r.entries) == Padded(a, n)
              && NewSide(r.entries) == Padded(b, n)
    ensures r.Changes? ==>
              var a, b := SplitLines(original), SplitLines(modified);
              && |a| <= |OldSide(r.entries)| && JoinLines(OldSide(r.entries)[..|a|]) == original
              && |b| <= |NewSide(r.entries)| && JoinLines(NewSide(r.entries)[..|b|]) == modified
  {
    if original == "" && modified == "" {
      return NothingToCompare;
    }
    if original == modified {
      return Identical;
    }
    var a, b := SplitLines(original), SplitLines(modified);
    var entries := CompareLines(a, b);
    var n := if |a| > |b| then |a| else |b|;
    PaddedRecoversText(original, n);
    PaddedRecoversText(modified, n);
    r := Changes(entries);
  }

  /** Two texts that differ only by a trailing newline are reported as changed,
      yet every row of the listing is unchanged. */
  lemma TrailingNewlineShowsNoChangedRow(s: string)
    ensures s != s + "\n"
    ensures var a, b := SplitLines(s), SplitLines(s + "\n");
            AllUnchanged(Rows(a, b, |b|))
  {
    assert |s + "\n"| == |s| + 1;
    var a, b := SplitLines(s), SplitLines(s + "\n");
    SplitTrailingNewline(s);
    assert forall i :: 0 <= i < |b| ==> LineAt(a, i) == LineAt(b, i);
    RowsUnchangedIff(a, b, |b|);
  }
}
