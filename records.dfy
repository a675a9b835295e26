/**
 * Income and expense records as the store caches them, and the sum of their
 * amounts that totalIncome and totalExpenses compute.
 */
module Records {

  /** One income or expense entry. The server assigns `id`; `createdAt` is the
      creation time already parsed to an integer (milliseconds since the epoch). */
  datatype Transaction = Transaction(id: string, title: string, amount: int, createdAt: int)

  /** The sum of the amounts of `s`, taken from the front. */
  function Sum(s: seq<Transaction>): int
  {
    if s == [] then 0 else s[0].amount + Sum(s[1..])
  }

  /** The total of a concatenation is the sum of the totals. */
  lemma {:induction false} SumConcat(a: seq<Transaction>, b: seq<Transaction>)
    ensures Sum(a + b) == Sum(a) + Sum(b)
  {
    if a == [] {
      assert a + b == b;
    } else {
      assert (a + b)[1..] == a[1..] + b;
      SumConcat(a[1..], b);
    }
  }

  /** The total does not depend on the order of the records: any rearrangement
      of the same records has the same sum. */
  lemma {:induction false} SumPermutation(a: seq<Transaction>, b: seq<Transaction>)
    requires multiset(a) == multiset(b)
    ensures Sum(a) == Sum(b)
  {
    if a == [] {
      assert |b| == |multiset(b)| == 0;
    } else {
      var x := a[0];
      assert x in multiset(b);
      var k :| 0 <= k < |b| && b[k] == x;
      var rest := b[..k] + b[k + 1..];
      assert b == b[..k] + ([x] + b[k + 1..]);
      assert a == [x] + a[1..];
      assert multiset(a[1..]) == multiset(rest) by {
        assert b == b[..k] + [x] + b[k + 1..];
        assert multiset(b) == multiset(b[..k]) + multiset{x} + multiset(b[k + 1..]);
        assert multiset(a) == multiset{x} + multiset(a[1..]);
        assert multiset(rest) == multiset(b[..k]) + multiset(b[k + 1..]);
        assert multiset(a[1..]) == multiset(a) - multiset{x};
        assert multiset(rest) == multiset(b) - multiset{x};
      }
      SumPermutation(a[1..], rest);
      SumConcat(b[..k], [x] + b[k + 1..]);
      SumConcat(b[..k], b[k + 1..]);
      assert ([x] + b[k + 1..])[1..] == b[k + 1..];
    }
  }

  /** The forEach accumulation done by totalIncome and totalExpenses: starts at
      0 and adds each record's amount in turn. */
  method Total(records: seq<Transaction>) returns (total: int)
    ensures total == Sum(records)
  {
    total := 0;
    for i := 0 to |records|
      invariant total == Sum(records[..i])
    {
      assert records[..i + 1] == records[..i] + [records[i]];
      SumConcat(records[..i], [records[i]]);
      total := total + records[i].amount;
    }
    assert records[..|records|] == records;
  }
}
