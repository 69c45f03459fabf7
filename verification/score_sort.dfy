/** The score ordering of the lead list: `leads.sort((a, b) => sortOrder ===
    "desc" ? b.score - a.score : a.score - b.score)`. `Array.prototype.sort`
    is stable (ECMA-262, 10th edition onward), so the sort is modelled as a
    stable insertion sort, and `SortIsDetermined` shows that every stable sort
    by score yields the same sequence. */
module ScoreSort {
  import opened LeadTypes
  import Seqs

  /** `a` may stand before `b`: the comparator does not return a positive value. */
  predicate InOrder(o: SortOrder, a: Lead, b: Lead) {
    match o
    case Desc => b.score - a.score <= 0
    case Asc => a.score - b.score <= 0
  }

  /** Every pair of positions is in order. */
  predicate Sorted(o: SortOrder, s: seq<Lead>) {
    forall i, j :: 0 <= i < j < |s| ==> InOrder(o, s[i], s[j])
  }

  /** The leads of `s` whose score is `k`, in the order of `s`. */
  function WithScore(s: seq<Lead>, k: int): seq<Lead> {
    Seqs.Filter(s, (l: Lead) => l.score == k)
  }

  /** `WithScore` unfolds on a sequence with a known head. */
  lemma WithScoreCons(x: Lead, t: seq<Lead>, k: int)
    ensures WithScore([x] + t, k) == if x.score == k then [x] + WithScore(t, k) else WithScore(t, k)
  {
    assert ([x] + t)[1..] == t;
  }

  /** `WithScoreCons` for every score at once. */
  lemma WithScoreConsAll(x: Lead, t: seq<Lead>)
    ensures forall k :: WithScore([x] + t, k) == if x.score == k then [x] + WithScore(t, k) else WithScore(t, k)
  {
    forall k ensures WithScore([x] + t, k) == if x.score == k then [x] + WithScore(t, k) else WithScore(t, k) {
      WithScoreCons(x, t, k);
    }
  }

  /** When `x` is inserted behind `t[0]`, `t[0]` has a different score, so the
      leads of each score keep their relative order. */
  lemma WithScoreBehindHead(o: SortOrder, x: Lead, t: seq<Lead>, rest: seq<Lead>)
    requires t != [] && !InOrder(o, x, t[0])
    requires forall k :: WithScore(rest, k) == if x.score == k then [x] + WithScore(t[1..], k) else WithScore(t[1..], k)
    ensures forall k :: WithScore([t[0]] + rest, k) == if x.score == k then [x] + WithScore(t, k) else WithScore(t, k)
  {
    assert t == [t[0]] + t[1..];
    WithScoreConsAll(t[0], rest);
    WithScoreConsAll(t[0], t[1..]);
  }

  /** Inserts `x` before the first element it may precede. */
  function Insert(o: SortOrder, x: Lead, t: seq<Lead>): (r: seq<Lead>)
    ensures multiset(r) == multiset(t) + multiset{x}
    ensures forall k :: WithScore(r, k) == if x.score == k then [x] + WithScore(t, k) else WithScore(t, k)
  {
    if t == [] then
      WithScoreConsAll(x, []);
      assert [x] + [] == [x];
      [x]
    else if InOrder(o, x, t[0]) then
      WithScoreConsAll(x, t);
      [x] + t
    else
      var rest := Insert(o, x, t[1..]);
      assert t == [t[0]] + t[1..];
      WithScoreBehindHead(o, x, t, rest);
      [t[0]] + rest
  }

  /** Insertion keeps a sorted sequence sorted. */
  lemma {:induction false} InsertSorted(o: SortOrder, x: Lead, t: seq<Lead>)
    requires Sorted(o, t)
    ensures Sorted(o, Insert(o, x, t))
  {
    if t != [] && !InOrder(o, x, t[0]) {
      var rest := Insert(o, x, t[1..]);
      InsertSorted(o, x, t[1..]);
      assert t == [t[0]] + t[1..];
      HeadPrecedesInserted(o, x, t, rest);
      SortedCons(o, t[0], rest);
    }
  }

  /** A head that may precede every element of a sorted tail gives a sorted sequence. */
  lemma SortedCons(o: SortOrder, h: Lead, rest: seq<Lead>)
    requires Sorted(o, rest)
    requires forall y :: y in rest ==> InOrder(o, h, y)
    ensures Sorted(o, [h] + rest)
  {
    var r := [h] + rest;
    forall i, j | 0 <= i < j < |r| ensures InOrder(o, r[i], r[j]) {
      if i == 0 {
        assert r[j] in rest;
      } else {
        assert r[i] == rest[i - 1] && r[j] == rest[j - 1];
      }
    }
  }

  /** When `x` is inserted behind the head of a sorted `t`, the head may
      still precede everything after it. */
  lemma HeadPrecedesInserted(o: SortOrder, x: Lead, t: seq<Lead>, rest: seq<Lead>)
    requires t != [] && !InOrder(o, x, t[0])
    requires multiset(rest) == multiset(t[1..]) + multiset{x}
    ensures Sorted(o, t) ==> forall y :: y in rest ==> InOrder(o, t[0], y)
  {
    if Sorted(o, t) {
      forall y | y in rest ensures InOrder(o, t[0], y) {
        assert y in multiset(rest);
        if y != x {
          var j :| 0 <= j < |t[1..]| && t[1..][j] == y;
          assert t[j + 1] == y;
        }
      }
    }
  }

  /** Insertion sort: a sorted permutation of `s` that keeps the relative order
      of leads with equal scores. */
  function Sort(o: SortOrder, s: seq<Lead>): (r: seq<Lead>)
    ensures multiset(r) == multiset(s)
    ensures Sorted(o, r)
    ensures forall k :: WithScore(r, k) == WithScore(s, k)
  {
    if s == [] then []
    else
      var rest := Sort(o, s[1..]);
      assert s == [s[0]] + s[1..];
      WithScoreConsAll(s[0], s[1..]);
      InsertSorted(o, s[0], rest);
      Insert(o, s[0], rest)
  }

  /** The head of a sorted sequence may precede every element of it. */
  lemma HeadFirst(o: SortOrder, s: seq<Lead>, y: Lead)
    requires Sorted(o, s) && y in s
    ensures InOrder(o, s[0], y)
  {
    var j :| 0 <= j < |s| && s[j] == y;
  }

  /** Two sorted sequences that agree, score by score, on which leads they hold
      and in what order, are equal. */
  lemma {:induction false} SortedStableUnique(o: SortOrder, a: seq<Lead>, b: seq<Lead>)
    requires Sorted(o, a) && Sorted(o, b)
    requires forall k :: WithScore(a, k) == WithScore(b, k)
    ensures a == b
    decreases |a|
  {
    if a != [] {
      assert a[0] in WithScore(a, a[0].score);
    }
    if b != [] {
      assert b[0] in WithScore(b, b[0].score);
    }
    if a != [] && b != [] {
      assert a == [a[0]] + a[1..] && b == [b[0]] + b[1..];
      var ka, kb := a[0].score, b[0].score;
      assert a[0] in WithScore(b, ka);
      HeadFirst(o, b, a[0]);
      assert b[0] in WithScore(a, kb);
      HeadFirst(o, a, b[0]);
      assert ka == kb;
      WithScoreCons(a[0], a[1..], ka);
      WithScoreCons(b[0], b[1..], ka);
      assert a[0] == b[0];
      forall k ensures WithScore(a[1..], k) == WithScore(b[1..], k) {
        WithScoreCons(a[0], a[1..], k);
        WithScoreCons(b[0], b[1..], k);
      }
      SortedStableUnique(o, a[1..], b[1..]);
    }
  }

  /** Any stable sort of `s` by score, such as the engine's own, yields `Sort(o, s)`. */
  lemma SortIsDetermined(o: SortOrder, s: seq<Lead>, r: seq<Lead>)
    requires Sorted(o, r)
    requires forall k :: WithScore(r, k) == WithScore(s, k)
    ensures r == Sort(o, s)
  {
    SortedStableUnique(o, r, Sort(o, s));
  }
}
