/** Two pieces of the password generator: the strength label shown for a password
    (`updatePasswordStrength`) and the bounded history of saved passwords (`savePassword`). */
module Passwords {

  datatype Strength = Weak | Medium | Strong

  /** The text shown in the strength indicator; each text belongs to one strength. */
  function Label(s: Strength): (r: string)
    ensures r == "Weak" <==> s == Weak
    ensures r == "Medium" <==> s == Medium
    ensures r == "Strong" <==> s == Strong
  {
    match s
    case Weak => "Weak"
    case Medium => "Medium"
    case Strong => "Strong"
  }

  /** Order of the labels, weakest first. */
  function Rank(s: Strength): (r: nat)
  {
    match s
    case Weak => 0
    case Medium => 1
    case Strong => 2
  }

  /** The strength label is a three-way threshold on the password's length. */
  function StrengthOf(password: string): (s: Strength)
    ensures s == Strong <==> |password| >= 12
    ensures s == Medium <==> 8 <= |password| < 12
    ensures s == Weak <==> |password| < 8
  {
    if |password| >= 12 then Strong
    else if |password| >= 8 then Medium
    else Weak
  }

  /** Only the length matters: two passwords of equal length get the same label. */
  lemma StrengthDependsOnlyOnLength(p: string, q: string)
    requires |p| == |q|
    ensures StrengthOf(p) == StrengthOf(q)
  {
  }

  /** `updatePasswordStrength`: the text placed in the strength indicator. */
  function StrengthText(password: string): (text: string)
    ensures text == "Strong" <==> |password| >= 12
    ensures text == "Medium" <==> 8 <= |password| < 12
    ensures text == "Weak" <==> |password| < 8
  {
    Label(StrengthOf(password))
  }

  /** A longer password is never rated weaker than a shorter one. */
  lemma StrengthMonotone(p: string, q: string)
    requires |p| <= |q|
    ensures Rank(StrengthOf(p)) <= Rank(StrengthOf(q))
  {
  }

  const MaxSaved: nat := 10

  /** One stored password with the ISO time at which it was saved. */
  datatype Entry = Entry(password: string, timestamp: string)

  /** The last `n` elements of `xs` (all of them when there are fewer). */
  function LastN<T>(xs: seq<T>, n: nat): (r: seq<T>)
  {
    if |xs| <= n then xs else xs[|xs| - n..]
  }

  /** Save `password` at time `timestamp`: an empty password stores nothing; otherwise
      the entry is appended and only the ten most recent entries are kept. */
  function Save(saved: seq<Entry>, password: string, timestamp: string): (r: seq<Entry>)
    ensures password == "" ==> r == saved
    ensures password != "" ==>
              && |r| == (if |saved| < MaxSaved then |saved| + 1 else MaxSaved)
              && r[|r| - 1] == Entry(password, timestamp)
              && r[..|r| - 1] == saved[|saved| - (|r| - 1)..]
    ensures password != "" && |saved| < MaxSaved ==> r == saved + [Entry(password, timestamp)]
    ensures |saved| <= MaxSaved ==> |r| <= MaxSaved
  {
    if password == "" then saved
    else
      var all := saved + [Entry(password, timestamp)];
      var r := if |all| > MaxSaved then all[|all| - MaxSaved..] else all;
      assert r[..|r| - 1] == saved[|saved| - (|r| - 1)..];
      r
  }

  /** A non-empty save is the last-ten window of the list with the entry appended. */
  lemma SaveIsWindow(saved: seq<Entry>, e: Entry)
    requires e.password != ""
    ensures Save(saved, e.password, e.timestamp) == LastN(saved + [e], MaxSaved)
  {
  }

  /** Save the passwords of `entries` one after the other. */
  function SaveAll(saved: seq<Entry>, entries: seq<Entry>): (r: seq<Entry>)
    decreases |entries|
  {
    if entries == [] then saved
    else SaveAll(Save(saved, entries[0].password, entries[0].timestamp), entries[1..])
  }

  /** However many passwords are saved, the store holds exactly the ten most recent
      entries of the whole history, oldest first. */
  lemma {:induction false} SaveAllKeepsMostRecent(saved: seq<Entry>, entries: seq<Entry>)
    requires |saved| <= MaxSaved
    requires forall k :: 0 <= k < |entries| ==> entries[k].password != ""
    ensures SaveAll(saved, entries) == LastN(saved + entries, MaxSaved)
    decreases |entries|
  {
    if entries != [] {
      var e, rest := entries[0], entries[1..];
      var next := LastN(saved + [e], MaxSaved);
      SaveAllStep(saved, entries);
      assert forall k :: 0 <= k < |rest| ==> rest[k].password != "" by {
        forall k | 0 <= k < |rest| ensures rest[k].password != "" {
          assert rest[k] == entries[k + 1];
        }
      }
      SaveAllKeepsMostRecent(next, rest);
      LastNAppend(saved + [e], rest, MaxSaved);
      MoveFirst(saved, entries);
    }
  }

  /** The first save of a batch is the window over the list with that entry appended. */
  lemma SaveAllStep(saved: seq<Entry>, entries: seq<Entry>)
    requires entries != [] && entries[0].password != ""
    ensures SaveAll(saved, entries) == SaveAll(LastN(saved + [entries[0]], MaxSaved), entries[1..])
    ensures |LastN(saved + [entries[0]], MaxSaved)| <= MaxSaved
  {
    SaveIsWindow(saved, entries[0]);
  }

  lemma MoveFirst<T>(xs: seq<T>, ys: seq<T>)
    requires ys != []
    ensures (xs + [ys[0]]) + ys[1..] == xs + ys
  {
    assert ys == [ys[0]] + ys[1..];
  }

  /** Trimming before appending more does not change the final window. */
  lemma LastNAppend<T>(xs: seq<T>, ys: seq<T>, n: nat)
    ensures LastN(LastN(xs, n) + ys, n) == LastN(xs + ys, n)
  {
    if |xs| > n {
      var t := xs[|xs| - n..];
      var left, right := t + ys, xs + ys;
      if ys == [] {
        assert left == t && right == xs;
      } else {
        assert |left| > n && |right| > n;
        var a, b := left[|left| - n..], right[|right| - n..];
        forall k | 0 <= k < n
          ensures a[k] == b[k]
        {
          if k < n - |ys| {
            assert a[k] == t[|ys| + k] == xs[|xs| - n + |ys| + k] == b[k];
          } else {
            assert a[k] == ys[k - (n - |ys|)] == b[k];
          }
        }
        assert a == b;
      }
    }
  }
}
