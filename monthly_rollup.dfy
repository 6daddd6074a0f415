/**
 * The monthly summary (app.py:360-367): the user's history grouped by the
 * year-month of each report's date, the three numeric columns summed per
 * group, groups in ascending month order as `groupby` sorts its keys.
 */
module MonthlyRollup {
  import opened TaxAggregator
  import opened ReportStore

  /** One row of the monthly summary: the "YYYY-MM" key and its three sums. */
  datatype Bucket = Bucket(month: string, totals: Totals)

  /** The year-month of a "YYYY-MM-DD HH:MM" timestamp. */
  function MonthOf(date: string): string
    requires WellFormedTimestamp(date)
  {
    date[..7]
  }

  // ---------------------------------------------------------------------
  // Key order
  // ---------------------------------------------------------------------

  /** Strict lexicographic order on strings. */
  predicate Before(a: string, b: string)
  {
    if a == [] then b != []
    else b != [] && (a[0] < b[0] || (a[0] == b[0] && Before(a[1..], b[1..])))
  }

  lemma {:induction false} BeforeIrreflexive(a: string)
    ensures !Before(a, a)
  {
    if a != [] {
      BeforeIrreflexive(a[1..]);
    }
  }

  lemma {:induction false} BeforeTransitive(a: string, b: string, c: string)
    requires Before(a, b) && Before(b, c)
    ensures Before(a, c)
  {
    if a != [] && b != [] && c != [] && a[0] == b[0] == c[0] {
      BeforeTransitive(a[1..], b[1..], c[1..]);
    }
  }

  lemma {:induction false} BeforeTotal(a: string, b: string)
    ensures a == b || Before(a, b) || Before(b, a)
  {
    if a != [] && b != [] && a[0] == b[0] {
      BeforeTotal(a[1..], b[1..]);
      if a[1..] == b[1..] {
        assert a == [a[0]] + a[1..] && b == [b[0]] + b[1..];
      }
    }
  }

  /** The calendar order of two year-months, as pandas orders monthly periods. */
  predicate Earlier(a: string, b: string)
    requires WellFormedTimestamp(a) && WellFormedTimestamp(b)
  {
    var ya, yb := DigitsValue(a[..4]), DigitsValue(b[..4]);
    var ma, mb := DigitsValue(a[5..7]), DigitsValue(b[5..7]);
    ya < yb || (ya == yb && ma < mb)
  }

  /**
   * On the "YYYY-MM" keys of well-formed timestamps, string order is calendar
   * order, so sorting the keys as strings sorts the months chronologically.
   */
  lemma KeyOrderIsCalendarOrder(a: string, b: string)
    requires WellFormedTimestamp(a) && WellFormedTimestamp(b)
    ensures Before(MonthOf(a), MonthOf(b)) <==> Earlier(a, b)
  {
    var ka, kb := MonthOf(a), MonthOf(b);
    var ya, yb := a[..4], b[..4];
    var ma, mb := a[5..7], b[5..7];
    assert ka == ya + ("-" + ma) && kb == yb + ("-" + mb);
    BeforeConcat(ya, "-" + ma, yb, "-" + mb);
    assert Before("-" + ma, "-" + mb) == Before(ma, mb) by {
      assert ("-" + ma)[1..] == ma && ("-" + mb)[1..] == mb;
    }
    DigitsOrder(ya, yb);
    DigitsOrder(ma, mb);
  }

  /**
   * Two well-formed timestamps share a "YYYY-MM" key exactly when their year
   * and month numbers agree, so grouping by the key groups by calendar month.
   */
  lemma MonthKeyGroupsByCalendarMonth(a: string, b: string)
    requires WellFormedTimestamp(a) && WellFormedTimestamp(b)
    ensures MonthOf(a) == MonthOf(b) <==>
              DigitsValue(a[..4]) == DigitsValue(b[..4]) && DigitsValue(a[5..7]) == DigitsValue(b[5..7])
  {
    var ka, kb := MonthOf(a), MonthOf(b);
    var ya, yb := a[..4], b[..4];
    var ma, mb := a[5..7], b[5..7];
    assert ka == ya + ("-" + ma) && kb == yb + ("-" + mb);
    DigitsOrder(ya, yb);
    DigitsOrder(ma, mb);
    if ka == kb {
      assert ya == ka[..4] && yb == kb[..4];
      assert ma == ka[5..7] && mb == kb[5..7];
    }
  }

  /** Comparing two concatenations whose first parts have the same length. */
  lemma {:induction false} BeforeConcat(a: string, b: string, c: string, d: string)
    requires |a| == |c|
    ensures Before(a + b, c + d) <==> Before(a, c) || (a == c && Before(b, d))
  {
    if a != [] {
      assert (a + b)[0] == a[0] && (c + d)[0] == c[0];
      assert (a + b)[1..] == a[1..] + b && (c + d)[1..] == c[1..] + d;
      BeforeConcat(a[1..], b, c[1..], d);
      if a[0] == c[0] && a[1..] == c[1..] {
        assert a == [a[0]] + a[1..] && c == [c[0]] + c[1..];
      }
      if a == c {
        assert a[1..] == c[1..];
      }
    } else {
      assert a + b == b && c + d == d;
    }
  }

  /** On digit strings of one length, string order is numeric order, and equal values mean equal strings. */
  lemma DigitsOrder(a: string, b: string)
    requires AllDigits(a) && AllDigits(b) && |a| == |b|
    ensures Before(a, b) <==> DigitsValue(a) < DigitsValue(b)
    ensures a == b <==> DigitsValue(a) == DigitsValue(b)
  {
    DigitsStrictOrder(a, b);
    DigitsStrictOrder(b, a);
    BeforeTotal(a, b);
    BeforeIrreflexive(a);
  }

  lemma {:induction false} DigitsStrictOrder(a: string, b: string)
    requires AllDigits(a) && AllDigits(b) && |a| == |b|
    ensures Before(a, b) ==> DigitsValue(a) < DigitsValue(b)
  {
    if a != [] && Before(a, b) {
      var p := Pow10(|a| - 1);
      DigitsValueFront(a);
      DigitsValueFront(b);
      var x, y := DigitValue(a[0]), DigitValue(b[0]);
      if x < y {
        DigitsValueBound(a[1..]);
        LeadingDigitDecides(x, y, p, DigitsValue(a[1..]), DigitsValue(b[1..]));
      } else {
        assert a[0] == b[0] && Before(a[1..], b[1..]);
        DigitsStrictOrder(a[1..], b[1..]);
      }
    }
  }

  lemma LeadingDigitDecides(x: nat, y: nat, p: nat, r: nat, q: nat)
    requires x < y && r < p
    ensures x * p + r < y * p + q
  {
    assert (x + 1) * p == x * p + p;
    assert (x + 1) * p <= y * p;
  }

  /** A digit string read from its first digit. */
  lemma {:induction false} DigitsValueFront(s: string)
    requires AllDigits(s) && s != []
    ensures DigitsValue(s) == DigitValue(s[0]) * Pow10(|s| - 1) + DigitsValue(s[1..])
  {
    if |s| > 1 {
      var init, tail := s[..|s| - 1], s[1..];
      DigitsValueFront(init);
      assert init[1..] == tail[..|tail| - 1];
      assert init[0] == s[0] && tail[|tail| - 1] == s[|s| - 1];
      FrontDigitArithmetic(DigitValue(s[0]), Pow10(|s| - 2), Pow10(|s| - 1), DigitsValue(init[1..]),
                           DigitValue(s[|s| - 1]), DigitsValue(s), DigitsValue(init), DigitsValue(tail));
    } else {
      assert s[1..] == [];
    }
  }

  /** The arithmetic step of DigitsValueFront, on named values. */
  lemma FrontDigitArithmetic(d: int, p: int, p10: int, mid: int, last: int, v: int, vInit: int, vTail: int)
    requires p10 == 10 * p
    requires v == 10 * vInit + last && vInit == d * p + mid && vTail == 10 * mid + last
    ensures v == d * p10 + vTail
  {
    assert 10 * (d * p) == d * (10 * p);
  }

  lemma {:induction false} DigitsValueBound(s: string)
    requires AllDigits(s)
    ensures DigitsValue(s) < Pow10(|s|)
  {
    if s != [] {
      DigitsValueBound(s[..|s| - 1]);
    }
  }

  /** Buckets in strictly ascending month order, so no month appears twice. */
  predicate Ascending(bs: seq<Bucket>)
  {
    forall i, j :: 0 <= i < j < |bs| ==> Before(bs[i].month, bs[j].month)
  }

  // ---------------------------------------------------------------------
  // The group-by
  // ---------------------------------------------------------------------

  /** Adds one report's totals under `month`, keeping the buckets in month order. */
  function Insert(bs: seq<Bucket>, month: string, t: Totals): (r: seq<Bucket>)
    ensures r != []
  {
    if bs == [] then [Bucket(month, t)]
    else if bs[0].month == month then [Bucket(month, bs[0].totals.Plus(t))] + bs[1..]
    else if Before(month, bs[0].month) then [Bucket(month, t)] + bs
    else [bs[0]] + Insert(bs[1..], month, t)
  }

  /** `groupby(month)[columns].sum()` over the history rows. */
  function Rollup(history: seq<Report>): seq<Bucket>
    requires AllWellFormed(history)
  {
    if history == [] then []
    else Insert(Rollup(history[1..]), MonthOf(history[0].date), history[0].totals)
  }

  // ---------------------------------------------------------------------
  // Reference sums
  // ---------------------------------------------------------------------

  function SumTotals(history: seq<Report>): Totals
  {
    if history == [] then ZeroTotals else history[0].totals.Plus(SumTotals(history[1..]))
  }

  /** The sums over the reports dated in `month`. */
  function MonthTotal(history: seq<Report>, month: string): Totals
    requires AllWellFormed(history)
  {
    if history == [] then ZeroTotals
    else (if MonthOf(history[0].date) == month then history[0].totals else ZeroTotals)
           .Plus(MonthTotal(history[1..], month))
  }

  function Months(history: seq<Report>): set<string>
    requires AllWellFormed(history)
  {
    set i | 0 <= i < |history| :: MonthOf(history[i].date)
  }

  function BucketMonths(bs: seq<Bucket>): set<string>
  {
    set i | 0 <= i < |bs| :: bs[i].month
  }

  function SumBuckets(bs: seq<Bucket>): Totals
  {
    if bs == [] then ZeroTotals else bs[0].totals.Plus(SumBuckets(bs[1..]))
  }

  /** The sums of the buckets keyed `month` (at most one when the buckets are ascending). */
  function BucketTotal(bs: seq<Bucket>, month: string): Totals
  {
    if bs == [] then ZeroTotals
    else (if bs[0].month == month then bs[0].totals else ZeroTotals).Plus(BucketTotal(bs[1..], month))
  }

  // ---------------------------------------------------------------------
  // Insert
  // ---------------------------------------------------------------------

  lemma BucketMonthsCons(b: Bucket, bs: seq<Bucket>)
    ensures BucketMonths([b] + bs) == {b.month} + BucketMonths(bs)
  {
    var r := [b] + bs;
    forall m | m in BucketMonths(bs) ensures m in BucketMonths(r) {
      var i :| 0 <= i < |bs| && bs[i].month == m;
      assert r[i + 1].month == m;
    }
    assert r[0].month == b.month;
  }

  lemma PlusCommutes(a: Totals, b: Totals)
    ensures a.Plus(b) == b.Plus(a)
  {
  }

  lemma PlusAssociates(a: Totals, b: Totals, c: Totals)
    ensures a.Plus(b).Plus(c) == a.Plus(b.Plus(c))
  {
  }

  lemma PlusZero(a: Totals)
    ensures a.Plus(ZeroTotals) == a && ZeroTotals.Plus(a) == a
  {
  }

  lemma {:induction false} InsertAscending(bs: seq<Bucket>, month: string, t: Totals)
    requires Ascending(bs)
    ensures Ascending(Insert(bs, month, t))
    ensures BucketMonths(Insert(bs, month, t)) == BucketMonths(bs) + {month}
  {
    if bs == [] {
      assert BucketMonths([Bucket(month, t)]) == {month} by { BucketMonthsCons(Bucket(month, t), []); }
    } else if bs[0].month == month {
      var r := Insert(bs, month, t);
      assert r == [r[0]] + bs[1..];
      BucketMonthsCons(r[0], bs[1..]);
      assert bs == [bs[0]] + bs[1..];
      BucketMonthsCons(bs[0], bs[1..]);
    } else if Before(month, bs[0].month) {
      forall i | 0 <= i < |bs| ensures Before(month, bs[i].month) {
        if i > 0 {
          BeforeTransitive(month, bs[0].month, bs[i].month);
        }
      }
      AscendingCons(Bucket(month, t), bs);
      BucketMonthsCons(Bucket(month, t), bs);
    } else {
      BeforeTotal(month, bs[0].month);
      var rest := Insert(bs[1..], month, t);
      InsertAscending(bs[1..], month, t);
      forall i | 0 <= i < |rest| ensures Before(bs[0].month, rest[i].month) {
        assert rest[i].month in BucketMonths(rest);
        if rest[i].month != month {
          var k :| 0 <= k < |bs[1..]| && bs[1..][k].month == rest[i].month;
          assert bs[k + 1].month == rest[i].month;
        }
      }
      AscendingCons(bs[0], rest);
      BucketMonthsCons(bs[0], rest);
      assert bs == [bs[0]] + bs[1..];
      BucketMonthsCons(bs[0], bs[1..]);
    }
  }

  /** A bucket before every bucket of an ascending list can go in front of it. */
  lemma AscendingCons(b: Bucket, bs: seq<Bucket>)
    requires Ascending(bs)
    requires forall i :: 0 <= i < |bs| ==> Before(b.month, bs[i].month)
    ensures Ascending([b] + bs)
  {
    var r := [b] + bs;
    forall i, j | 0 <= i < j < |r| ensures Before(r[i].month, r[j].month) {
      assert r[j] == bs[j - 1];
      if i > 0 {
        assert r[i] == bs[i - 1];
      }
    }
  }

  lemma InsertSum(bs: seq<Bucket>, month: string, t: Totals)
    ensures SumBuckets(Insert(bs, month, t)) == SumBuckets(bs).Plus(t)
  {
    if bs != [] && bs[0].month != month && !Before(month, bs[0].month) {
      InsertSum(bs[1..], month, t);
    }
  }

  lemma {:induction false} InsertBucketTotal(bs: seq<Bucket>, month: string, t: Totals, key: string)
    ensures BucketTotal(Insert(bs, month, t), key)
              == BucketTotal(bs, key).Plus(if key == month then t else ZeroTotals)
  {
    var add := if key == month then t else ZeroTotals;
    if bs == [] {
      PlusZero(add);
    } else {
      var head := if bs[0].month == key then bs[0].totals else ZeroTotals;
      var rest := BucketTotal(bs[1..], key);
      assert BucketTotal(bs, key) == head.Plus(rest);
      if bs[0].month == month {
        var r := Insert(bs, month, t);
        assert r[1..] == bs[1..];
        assert BucketTotal(r, key) == (if key == month then bs[0].totals.Plus(t) else ZeroTotals).Plus(rest);
        PlusAssociates(head, rest, add);
        PlusCommutes(rest, add);
        PlusAssociates(head, add, rest);
        PlusZero(rest);
      } else if Before(month, bs[0].month) {
        var r := Insert(bs, month, t);
        assert r[1..] == bs;
        assert BucketTotal(r, key) == add.Plus(BucketTotal(bs, key));
        PlusCommutes(add, BucketTotal(bs, key));
      } else {
        var r := Insert(bs, month, t);
        assert r[1..] == Insert(bs[1..], month, t);
        InsertBucketTotal(bs[1..], month, t, key);
        assert BucketTotal(r, key) == head.Plus(rest.Plus(add));
        PlusAssociates(head, rest, add);
      }
    }
  }

  lemma {:induction false} AscendingBucketTotal(bs: seq<Bucket>, i: nat)
    requires Ascending(bs) && i < |bs|
    ensures BucketTotal(bs, bs[i].month) == bs[i].totals
  {
    var key := bs[i].month;
    if i == 0 {
      NoLaterBucket(bs[1..], key);
    } else {
      BeforeIrreflexive(key);
      assert bs[0].month != key;
      AscendingBucketTotal(bs[1..], i - 1);
    }
  }

  /** No bucket of an ascending list is keyed by a month before all of them. */
  lemma {:induction false} NoLaterBucket(bs: seq<Bucket>, key: string)
    requires forall j :: 0 <= j < |bs| ==> Before(key, bs[j].month)
    ensures BucketTotal(bs, key) == ZeroTotals
  {
    if bs != [] {
      BeforeIrreflexive(key);
      NoLaterBucket(bs[1..], key);
    }
  }

  // ---------------------------------------------------------------------
  // The rollup's contract
  // ---------------------------------------------------------------------

  /** Buckets come out in strictly ascending month order, one per month present in the history. */
  lemma {:induction false} RollupAscending(history: seq<Report>)
    requires AllWellFormed(history)
    ensures Ascending(Rollup(history))
    ensures BucketMonths(Rollup(history)) == Months(history)
  {
    if history != [] {
      RollupAscending(history[1..]);
      InsertAscending(Rollup(history[1..]), MonthOf(history[0].date), history[0].totals);
    }
  }

  lemma {:induction false} RollupBucketTotal(history: seq<Report>, key: string)
    requires AllWellFormed(history)
    ensures BucketTotal(Rollup(history), key) == MonthTotal(history, key)
  {
    if history != [] {
      var m := MonthOf(history[0].date);
      var t := history[0].totals;
      var tail := Rollup(history[1..]);
      RollupBucketTotal(history[1..], key);
      InsertBucketTotal(tail, m, t, key);
      PlusCommutes(BucketTotal(tail, key), if key == m then t else ZeroTotals);
    }
  }

  /** Each bucket's three columns are the sums over exactly the reports of its month. */
  lemma RollupSums(history: seq<Report>, i: nat)
    requires AllWellFormed(history)
    requires i < |Rollup(history)|
    ensures Rollup(history)[i].totals == MonthTotal(history, Rollup(history)[i].month)
  {
    RollupAscending(history);
    AscendingBucketTotal(Rollup(history), i);
    RollupBucketTotal(history, Rollup(history)[i].month);
  }

  /** Every report lands in exactly one bucket: the one keyed by its month. */
  lemma RollupPartition(history: seq<Report>, k: nat)
    requires AllWellFormed(history)
    requires k < |history|
    ensures exists i :: 0 <= i < |Rollup(history)| && Rollup(history)[i].month == MonthOf(history[k].date)
    ensures forall i, j ::
              (0 <= i < |Rollup(history)| && 0 <= j < |Rollup(history)|
               && Rollup(history)[i].month == MonthOf(history[k].date)
               && Rollup(history)[j].month == MonthOf(history[k].date)) ==> i == j
  {
    var bs := Rollup(history);
    RollupAscending(history);
    assert MonthOf(history[k].date) in Months(history);
    forall i, j | 0 <= i < |bs| && 0 <= j < |bs| && bs[i].month == bs[j].month
      ensures i == j
    {
      BeforeIrreflexive(bs[i].month);
    }
  }

  /** The buckets together sum to the whole history. */
  lemma {:induction false} RollupTotal(history: seq<Report>)
    requires AllWellFormed(history)
    ensures SumBuckets(Rollup(history)) == SumTotals(history)
  {
    if history != [] {
      RollupTotal(history[1..]);
      InsertSum(Rollup(history[1..]), MonthOf(history[0].date), history[0].totals);
    }
  }

  /** No history, no buckets; any history, at least one bucket. */
  lemma RollupEmpty(history: seq<Report>)
    requires AllWellFormed(history)
    ensures Rollup(history) == [] <==> history == []
  {
  }
}
