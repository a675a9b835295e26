/**
 * transactionHistory: the incomes followed by the expenses, sorted newest
 * first by a stable sort on `createdAt`, cut to the first five.
 */
module History {
  import opened Records

  /** How many records the history returns (`slice(0, 5)`). */
  const HistoryLimit: nat := 5

  function Min(a: nat, b: nat): nat
  {
    if a <= b then a else b
  }

  /** Non-increasing by `createdAt`: what a sort with the comparator
      `(a, b) => b.createdAt - a.createdAt` produces. */
  predicate NewestFirst(s: seq<Transaction>)
  {
    forall i, j :: 0 <= i < j < |s| ==> s[i].createdAt >= s[j].createdAt
  }

  /** The records of `s` created at time `t`, in their order in `s`. A sort is
      stable exactly when it leaves each of these subsequences as it was. */
  function SameTime(s: seq<Transaction>, t: int): seq<Transaction>
  {
    if s == [] then []
    else (if s[0].createdAt == t then [s[0]] else []) + SameTime(s[1..], t)
  }

  /** Places `x` after every record of `s` that is at least as new as it, and
      before the strictly older records at the end of `s`. */
  function Insert(s: seq<Transaction>, x: Transaction): (r: seq<Transaction>)
    ensures |r| == |s| + 1
  {
    if s == [] || s[|s| - 1].createdAt >= x.createdAt then s + [x]
    else Insert(s[..|s| - 1], x) + [s[|s| - 1]]
  }

  /** The stable newest-first sort of `s`, by insertion from the left. */
  function SortNewestFirst(s: seq<Transaction>): (r: seq<Transaction>)
    ensures |r| == |s|
  {
    if s == [] then [] else Insert(SortNewestFirst(s[..|s| - 1]), s[|s| - 1])
  }

  /** What transactionHistory returns for the given collections. */
  function Recent(incomes: seq<Transaction>, expenses: seq<Transaction>): seq<Transaction>
  {
    SortNewestFirst(incomes + expenses)[..Min(HistoryLimit, |incomes| + |expenses|)]
  }

  // ---------------------------------------------------------------------------
  // SameTime

  lemma {:induction false} SameTimeConcat(a: seq<Transaction>, b: seq<Transaction>, t: int)
    ensures SameTime(a + b, t) == SameTime(a, t) + SameTime(b, t)
  {
    if a == [] {
      assert a + b == b;
    } else {
      var first := if a[0].createdAt == t then [a[0]] else [];
      assert (a + b)[0] == a[0];
      assert (a + b)[1..] == a[1..] + b;
      SameTimeConcat(a[1..], b, t);
      calc {
        SameTime(a + b, t);
        first + SameTime(a[1..] + b, t);
        first + (SameTime(a[1..], t) + SameTime(b, t));
        (first + SameTime(a[1..], t)) + SameTime(b, t);
      }
    }
  }

  lemma SameTimeSingle(x: Transaction, t: int)
    ensures SameTime([x], t) == if x.createdAt == t then [x] else []
  {
  }

  /** Every record in `SameTime(s, t)` comes from `s` and has time `t`. */
  lemma {:induction false} SameTimeMembers(s: seq<Transaction>, t: int)
    ensures forall y :: y in SameTime(s, t) ==> y in s && y.createdAt == t
    ensures forall y :: y in s && y.createdAt == t ==> y in SameTime(s, t)
  {
    if s != [] {
      SameTimeMembers(s[1..], t);
      assert s == [s[0]] + s[1..];
    }
  }

  // ---------------------------------------------------------------------------
  // Insert

  /** Where `Insert` puts `x`: after position `j`'s prefix when the record just
      before `j` is at least as new as `x` and everything from `j` on is older. */
  lemma {:induction false} InsertAt(s: seq<Transaction>, x: Transaction, j: nat)
    requires j <= |s|
    requires j == 0 || s[j - 1].createdAt >= x.createdAt
    requires forall k :: j <= k < |s| ==> s[k].createdAt < x.createdAt
    ensures Insert(s, x) == s[..j] + [x] + s[j..]
  {
    if j == |s| {
      assert s[..j] == s && s[j..] == [];
    } else {
      var n := |s| - 1;
      assert s[n].createdAt < x.createdAt;
      InsertAt(s[..n], x, j);
      assert s[..n][..j] == s[..j];
      assert s[..n][j..] + [s[n]] == s[j..];
    }
  }

  lemma {:induction false} InsertMultiset(s: seq<Transaction>, x: Transaction)
    ensures multiset(Insert(s, x)) == multiset(s) + multiset{x}
  {
    if s != [] && s[|s| - 1].createdAt < x.createdAt {
      var n := |s| - 1;
      InsertMultiset(s[..n], x);
      assert s == s[..n] + [s[n]];
    }
  }

  lemma {:induction false} InsertNewestFirst(s: seq<Transaction>, x: Transaction)
    requires NewestFirst(s)
    ensures NewestFirst(Insert(s, x))
  {
    if s != [] && s[|s| - 1].createdAt < x.createdAt {
      var n := |s| - 1;
      var last := s[n];
      var front := Insert(s[..n], x);
      InsertNewestFirst(s[..n], x);
      InsertMultiset(s[..n], x);
      forall y | y in front
        ensures y.createdAt >= last.createdAt
      {
        assert y in multiset(front);
        if y != x {
          assert y in multiset(s[..n]);
          var i :| 0 <= i < n && s[..n][i] == y;
          assert s[i] == y;
        }
      }
      assert Insert(s, x) == front + [last];
      forall i, j | 0 <= i < j < |front| + 1
        ensures (front + [last])[i].createdAt >= (front + [last])[j].createdAt
      {
        if j == |front| {
          assert front[i] in front;
        }
      }
    }
  }

  /** Inserting `x` appends it to its own time's subsequence and leaves every
      other time's subsequence alone. */
  lemma {:induction false} InsertSameTime(s: seq<Transaction>, x: Transaction, t: int)
    ensures SameTime(Insert(s, x), t) == SameTime(s, t) + SameTime([x], t)
  {
    if s == [] || s[|s| - 1].createdAt >= x.createdAt {
      SameTimeConcat(s, [x], t);
    } else {
      var n := |s| - 1;
      var last := s[n];
      InsertSameTime(s[..n], x, t);
      SameTimeConcat(Insert(s[..n], x), [last], t);
      SameTimeConcat(s[..n], [last], t);
      assert s == s[..n] + [last];
      SameTimeSingle(x, t);
      SameTimeSingle(last, t);
    }
  }

  // ---------------------------------------------------------------------------
  // SortNewestFirst: sorted, a permutation, stable, and the only such order

  lemma {:induction false} SortIsNewestFirst(s: seq<Transaction>)
    ensures NewestFirst(SortNewestFirst(s))
  {
    if s != [] {
      SortIsNewestFirst(s[..|s| - 1]);
      InsertNewestFirst(SortNewestFirst(s[..|s| - 1]), s[|s| - 1]);
    }
  }

  lemma {:induction false} SortIsPermutation(s: seq<Transaction>)
    ensures multiset(SortNewestFirst(s)) == multiset(s)
  {
    if s != [] {
      var n := |s| - 1;
      SortIsPermutation(s[..n]);
      InsertMultiset(SortNewestFirst(s[..n]), s[n]);
      assert s == s[..n] + [s[n]];
    }
  }

  /** Stability: records created at the same time keep their relative order. */
  lemma {:induction false} SortIsStable(s: seq<Transaction>, t: int)
    ensures SameTime(SortNewestFirst(s), t) == SameTime(s, t)
  {
    if s != [] {
      var n := |s| - 1;
      SortIsStable(s[..n], t);
      InsertSameTime(SortNewestFirst(s[..n]), s[n], t);
      SameTimeConcat(s[..n], [s[n]], t);
      assert s == s[..n] + [s[n]];
    }
  }

  /** A newest-first sequence starts with one of its newest records. */
  lemma NewestFirstHead(p: seq<Transaction>, y: Transaction)
    requires NewestFirst(p) && y in p
    ensures p[0].createdAt >= y.createdAt
  {
  }

  lemma SameTimeTail(p: seq<Transaction>, t: int)
    requires p != []
    ensures SameTime(p[1..], t) == if p[0].createdAt == t then SameTime(p, t)[1..] else SameTime(p, t)
  {
  }

  /** A record of `p` shows up in its own time's subsequence, so an order that
      agrees with a nonempty `p` on every time is not empty either. */
  lemma NonEmptyAgrees(p: seq<Transaction>, q: seq<Transaction>)
    requires p != []
    requires forall t :: SameTime(p, t) == SameTime(q, t)
    ensures q != []
  {
    assert SameTime(q, p[0].createdAt) == SameTime(p, p[0].createdAt) != [];
  }

  /** Two newest-first orders that agree on each time's subsequence are both
      empty or start with the same record. */
  lemma HeadsAgree(p: seq<Transaction>, q: seq<Transaction>)
    requires NewestFirst(p) && NewestFirst(q)
    requires forall t :: SameTime(p, t) == SameTime(q, t)
    ensures p == [] <==> q == []
    ensures p != [] ==> p[0] == q[0]
  {
    if p != [] {
      NonEmptyAgrees(p, q);
      var m := p[0].createdAt;
      var n := q[0].createdAt;
      assert SameTime(p, n) == SameTime(q, n) != [];
      SameTimeMembers(p, n);
      SameTimeMembers(q, m);
      var y :| y in p && y.createdAt == n;
      NewestFirstHead(p, y);
      var z :| z in q && z.createdAt == m;
      NewestFirstHead(q, z);
      assert m == n;
      assert SameTime(p, m)[0] == p[0];
      assert SameTime(q, m)[0] == q[0];
    }
    if q != [] {
      NonEmptyAgrees(q, p);
    }
  }

  /** Any two newest-first orders of the same records whose equal-time records
      appear in the same order are equal. So every stable sort with this
      comparator, whatever its algorithm, returns `SortNewestFirst`. */
  lemma {:induction false} StableOrderIsUnique(p: seq<Transaction>, q: seq<Transaction>)
    requires NewestFirst(p) && NewestFirst(q)
    requires forall t :: SameTime(p, t) == SameTime(q, t)
    ensures p == q
  {
    HeadsAgree(p, q);
    if p != [] {
      forall t
        ensures SameTime(p[1..], t) == SameTime(q[1..], t)
      {
        SameTimeTail(p, t);
        SameTimeTail(q, t);
      }
      StableOrderIsUnique(p[1..], q[1..]);
      assert p == [p[0]] + p[1..] && q == [q[0]] + q[1..];
    }
  }

  /** A stable newest-first order of the records of `s`. */
  ghost predicate IsStableSortOf(r: seq<Transaction>, s: seq<Transaction>)
  {
    NewestFirst(r) && forall t :: SameTime(r, t) == SameTime(s, t)
  }

  /** `SortNewestFirst` is characterised by its properties: a sequence is the
      stable newest-first sort of `s` exactly when it is newest first and keeps
      each time's records of `s` in their order. */
  lemma SortCharacterised(s: seq<Transaction>, r: seq<Transaction>)
    ensures r == SortNewestFirst(s) <==> IsStableSortOf(r, s)
  {
    var sorted := SortNewestFirst(s);
    SortIsNewestFirst(s);
    forall t
      ensures SameTime(sorted, t) == SameTime(s, t)
    {
      SortIsStable(s, t);
    }
    assert IsStableSortOf(sorted, s);
    if IsStableSortOf(r, s) {
      forall t
        ensures SameTime(r, t) == SameTime(sorted, t)
      {
      }
      StableOrderIsUnique(r, sorted);
    }
  }

  // ---------------------------------------------------------------------------
  // The sort as transactionHistory runs it: in place on a fresh array.

  /** One step of the insertion sort: `a[..i]` is sorted already, and `a[i]`
      moves left past the strictly older records, which shift one place right. */
  method InsertStep(a: array<Transaction>, i: nat)
    requires i < a.Length
    modifies a
    ensures a[..i + 1] == Insert(old(a[..i]), old(a[i]))
    ensures a[i + 1..] == old(a[i + 1..])
  {
    ghost var sorted := a[..i];
    var x := a[i];
    var j := i;
    while j > 0 && a[j - 1].createdAt < x.createdAt
      invariant 0 <= j <= i
      invariant forall k :: 0 <= k < j ==> a[k] == sorted[k]
      invariant forall k :: j < k <= i ==> a[k] == sorted[k - 1]
      invariant forall k :: i < k < a.Length ==> a[k] == old(a[k])
      invariant forall k :: j <= k < i ==> sorted[k].createdAt < x.createdAt
    {
      a[j] := a[j - 1];
      j := j - 1;
    }
    a[j] := x;
    InsertAt(sorted, x, j);
    assert a[..i + 1] == sorted[..j] + [x] + sorted[j..];
  }

  lemma SortExtend(s: seq<Transaction>, i: nat)
    requires i < |s|
    ensures SortNewestFirst(s[..i + 1]) == Insert(SortNewestFirst(s[..i]), s[i])
  {
    assert s[..i + 1][..i] == s[..i];
  }

  /** Stable insertion sort, newest first: equal times keep their order. */
  method SortInPlace(a: array<Transaction>)
    modifies a
    ensures a[..] == SortNewestFirst(old(a[..]))
  {
    ghost var input := a[..];
    var i := 0;
    while i < a.Length
      invariant 0 <= i <= a.Length
      invariant a[..i] == SortNewestFirst(input[..i])
      invariant a[i..] == input[i..]
    {
      assert a[i] == input[i];
      InsertStep(a, i);
      SortExtend(input, i);
      i := i + 1;
    }
    assert a[..a.Length] == a[..] && input[..a.Length] == input;
  }

  // ---------------------------------------------------------------------------
  // Properties of the history

  lemma RecentIsNewestFirst(incomes: seq<Transaction>, expenses: seq<Transaction>)
    ensures NewestFirst(Recent(incomes, expenses))
  {
    SortIsNewestFirst(incomes + expenses);
  }

  /** The history holds only records of the two collections, each no more often
      than it occurs there. */
  lemma RecentIsDrawnFromStore(incomes: seq<Transaction>, expenses: seq<Transaction>)
    ensures multiset(Recent(incomes, expenses)) <= multiset(incomes) + multiset(expenses)
  {
    var all := SortNewestFirst(incomes + expenses);
    var k := Min(HistoryLimit, |incomes| + |expenses|);
    SortIsPermutation(incomes + expenses);
    assert all == all[..k] + all[k..];
    assert multiset(all) == multiset(all[..k]) + multiset(all[k..]);
  }

  /** In a newest-first sequence nothing after position `k` is newer than
      anything before it. */
  lemma PrefixHoldsNewest(all: seq<Transaction>, k: nat)
    requires NewestFirst(all) && k <= |all|
    ensures forall r, h :: r in all[k..] && h in all[..k] ==> r.createdAt <= h.createdAt
  {
  }

  /** No record left out of the history is strictly newer than one in it. */
  lemma RecentKeepsNewest(incomes: seq<Transaction>, expenses: seq<Transaction>)
    ensures forall r, h ::
      r in multiset(incomes + expenses) - multiset(Recent(incomes, expenses)) && h in Recent(incomes, expenses)
      ==> r.createdAt <= h.createdAt
  {
    var all := SortNewestFirst(incomes + expenses);
    var k := Min(HistoryLimit, |incomes| + |expenses|);
    SortIsPermutation(incomes + expenses);
    SortIsNewestFirst(incomes + expenses);
    PrefixHoldsNewest(all, k);
    assert all == all[..k] + all[k..];
    assert multiset(incomes + expenses) - multiset(all[..k]) == multiset(all[k..]);
  }

  /** Stability of the history: the records of one time appear in merge order,
      the incomes of that time first and then its expenses, and none is
      skipped in front of one that is kept. */
  lemma RecentKeepsMergeOrder(incomes: seq<Transaction>, expenses: seq<Transaction>, t: int)
    ensures SameTime(Recent(incomes, expenses), t) <= SameTime(incomes, t) + SameTime(expenses, t)
  {
    var all := SortNewestFirst(incomes + expenses);
    var k := Min(HistoryLimit, |incomes| + |expenses|);
    SortIsStable(incomes + expenses, t);
    SameTimeConcat(incomes, expenses, t);
    assert all == all[..k] + all[k..];
    SameTimeConcat(all[..k], all[k..], t);
  }
}
