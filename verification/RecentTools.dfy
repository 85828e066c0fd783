/** The "recently used tools" list of `addToRecentTools`: a most-recently-used list of
    tool ids, newest first, capped at three entries. The stored JSON array is the
    sequence `recent`; a missing store is the empty sequence. */
module RecentTools {

  const MaxRecent: nat := 3

  /** A tool's key in the tool table, such as "json-formatter". */
  type ToolId = string

  /** `a` can be obtained from `b` by deleting elements, so `a` keeps the relative order of `b`. */
  predicate IsSubsequence<T(==)>(a: seq<T>, b: seq<T>)
    decreases |b|
  {
    if a == [] then true
    else if b == [] then false
    else if a[0] == b[0] then IsSubsequence(a[1..], b[1..])
    else IsSubsequence(a, b[1..])
  }

  /** `xs` with every occurrence of `x` removed (JavaScript `xs.filter(y => y !== x)`). */
  function Without(xs: seq<ToolId>, x: ToolId): (r: seq<ToolId>)
    ensures x !in r
    ensures forall y :: y in r <==> y in xs && y != x
    ensures multiset(r) == multiset(xs)[x := 0]
    ensures IsSubsequence(r, xs)
    ensures x in xs ==> |r| < |xs|
    ensures x !in xs ==> r == xs
  {
    if xs == [] then []
    else if xs[0] == x then
      assert xs == [xs[0]] + xs[1..];
      Without(xs[1..], x)
    else
      assert xs == [xs[0]] + xs[1..];
      [xs[0]] + Without(xs[1..], x)
  }

  /** A well-formed stored list: no id twice and at most `MaxRecent` of them. */
  predicate Valid(recent: seq<ToolId>)
  {
    |recent| <= MaxRecent && Distinct(recent)
  }

  /** Record that tool `id` was opened: drop it from the list, put it in front, keep the first three. */
  function AddToRecent(recent: seq<ToolId>, id: ToolId): (r: seq<ToolId>)
    ensures 0 < |r| <= MaxRecent && r[0] == id
    ensures id !in r[1..]
    ensures multiset(r)[id] == 1
    ensures IsSubsequence(r[1..], recent)
    ensures forall y :: y in r ==> y == id || y in recent
    ensures |r| == if |Without(recent, id)| < MaxRecent then |Without(recent, id)| + 1 else MaxRecent
    ensures r[1..] == Without(recent, id)[..|r| - 1]
    ensures id in recent ==> |r| <= |recent|
  {
    var others := Without(recent, id);
    var kept := [id] + others;
    var r := if |kept| > MaxRecent then kept[..MaxRecent] else kept;
    FrontThenPrefix(id, others, r);
    PrefixIsSubsequence(others, |r| - 1);
    SubsequenceTransitive(r[1..], others, recent);
    r
  }

  /** A list made of `id` followed by a prefix of `others`, where `id` is not among `others`. */
  lemma FrontThenPrefix(id: ToolId, others: seq<ToolId>, r: seq<ToolId>)
    requires id !in others
    requires r == [id] + others || (|others| >= MaxRecent && r == ([id] + others)[..MaxRecent])
    ensures 0 < |r| && r[0] == id
    ensures r[1..] == others[..|r| - 1]
    ensures id !in r[1..]
    ensures multiset(r)[id] == 1
    ensures forall y :: y in r ==> y == id || y in others
  {
    assert r[1..] == others[..|r| - 1];
    assert r == [id] + r[1..];
    assert multiset(r) == multiset([id]) + multiset(r[1..]);
    assert id !in multiset(r[1..]);
  }

  lemma {:induction false} PrefixIsSubsequence<T>(xs: seq<T>, n: nat)
    requires n <= |xs|
    ensures IsSubsequence(xs[..n], xs)
    decreases n
  {
    if n > 0 {
      assert xs[..n][1..] == xs[1..][..n - 1];
      PrefixIsSubsequence(xs[1..], n - 1);
    }
  }

  /** Dropping the first element of a subsequence leaves a subsequence. */
  lemma {:induction false} SubsequenceDropHead<T>(a: seq<T>, c: seq<T>)
    requires a != [] && IsSubsequence(a, c)
    ensures IsSubsequence(a[1..], c)
    decreases |c|, 1
  {
    if a[0] == c[0] {
      SubsequenceExtend(a[1..], c);
    } else {
      SubsequenceDropHead(a, c[1..]);
      SubsequenceExtend(a[1..], c);
    }
  }

  /** A subsequence of the tail is a subsequence of the whole. */
  lemma {:induction false} SubsequenceExtend<T>(x: seq<T>, c: seq<T>)
    requires c != [] && IsSubsequence(x, c[1..])
    ensures IsSubsequence(x, c)
    decreases |c|, 0
  {
    if x != [] && x[0] == c[0] {
      SubsequenceDropHead(x, c[1..]);
    }
  }

  lemma {:induction false} SubsequenceTransitive<T>(a: seq<T>, b: seq<T>, c: seq<T>)
    requires IsSubsequence(a, b) && IsSubsequence(b, c)
    ensures IsSubsequence(a, c)
    decreases |c|
  {
    if a != [] && b != [] && c != [] {
      if b[0] == c[0] {
        if a[0] == b[0] {
          SubsequenceTransitive(a[1..], b[1..], c[1..]);
        } else {
          SubsequenceTransitive(a, b[1..], c[1..]);
        }
      } else {
        SubsequenceTransitive(a, b, c[1..]);
        SubsequenceExtend(a, c);
      }
    }
  }

  /** Opening the same tool twice in a row changes nothing the second time. */
  lemma AddIdempotent(recent: seq<ToolId>, id: ToolId)
    ensures AddToRecent(AddToRecent(recent, id), id) == AddToRecent(recent, id)
  {
    var r := AddToRecent(recent, id);
    assert r == [id] + r[1..];
    assert Without(r, id) == Without(r[1..], id) == r[1..];
  }

  /** The update keeps a well-formed list well formed. */
  lemma AddPreservesValid(recent: seq<ToolId>, id: ToolId)
    requires Valid(recent)
    ensures Valid(AddToRecent(recent, id))
  {
    var r := AddToRecent(recent, id);
    forall i, j | 0 <= i < j < |r|
      ensures r[i] != r[j]
    {
      if i == 0 {
        assert r[j] == r[1..][j - 1];
      } else {
        WithoutDistinct(recent, id);
        assert r[i] == Without(recent, id)[i - 1] && r[j] == Without(recent, id)[j - 1];
      }
    }
  }

  /** No value occurs twice in `xs`. */
  predicate Distinct(xs: seq<ToolId>)
  {
    forall i, j :: 0 <= i < j < |xs| ==> xs[i] != xs[j]
  }

  /** Removing an id from a list without duplicates leaves a list without duplicates. */
  lemma {:induction false} WithoutDistinct(xs: seq<ToolId>, x: ToolId)
    requires Distinct(xs)
    ensures Distinct(Without(xs, x))
  {
    if xs != [] {
      WithoutDistinct(xs[1..], x);
      var w := Without(xs[1..], x);
      if xs[0] != x {
        assert xs[0] !in xs[1..];
        assert xs[0] !in w;
        assert Without(xs, x) == [xs[0]] + w;
      }
    }
  }

  /** In a list without duplicates, every value occurs at most once. */
  lemma {:induction false} DistinctCount(xs: seq<ToolId>, v: ToolId)
    requires Distinct(xs)
    ensures multiset(xs)[v] <= 1
  {
    if xs != [] {
      assert xs == [xs[0]] + xs[1..];
      DistinctCount(xs[1..], v);
      if xs[0] == v {
        assert v !in xs[1..];
      }
    }
  }

  /** Re-opening a tool that is already listed only reorders a well-formed list. */
  lemma ReAddKeepsMembers(recent: seq<ToolId>, id: ToolId)
    requires Valid(recent) && id in recent
    ensures |AddToRecent(recent, id)| == |recent|
    ensures forall y :: y in AddToRecent(recent, id) <==> y in recent
  {
    var w := Without(recent, id);
    assert |w| < |recent| <= MaxRecent;
    DistinctCount(recent, id);
    assert |w| == |recent| - 1 by {
      assert |multiset(w)| == |multiset(recent)| - multiset(recent)[id];
    }
  }

  /** Opening a new tool when the list is full evicts the least recently used one. */
  lemma AddNewToFullEvictsOldest(recent: seq<ToolId>, id: ToolId)
    requires |recent| == MaxRecent && id !in recent
    ensures AddToRecent(recent, id) == [id, recent[0], recent[1]]
  {
  }
}
