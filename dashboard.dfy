/**
 * The page flow that ties the components together: once logged in, an upload
 * is processed and saved under the session's user (app.py:229-260, 316-324),
 * and the history and monthly summary shown are that user's alone
 * (app.py:347-367, 389-390).
 */
module Dashboard {
  import opened Wrappers
  import opened SessionGate
  import opened TaxAggregator
  import opened ReportStore
  import opened MonthlyRollup

  /**
   * Process an upload and press Save. A failed upload stops the page before
   * Save is offered, so nothing is stored; otherwise one report with the
   * upload's totals is appended under the logged-in user. The totals are those
   * of the corrected processing; they are the source's own totals whenever no
   * Amount cell is blank, and the upload fails exactly when the source's does.
   */
  method SaveUpload(s: Session, store: ReportTable, up: Upload, rate: Rate, date: string)
    returns (r: Result<nat, TaxError>)
    requires s.Valid() && s.loggedIn && store.Valid()
    requires WellFormedTimestamp(date)
    modifies store
    ensures store.Valid()
    ensures r.Err? <==> Process(up, rate).Err?
    ensures r.Err? ==> r.error == Process(up, rate).error
                       && store.rows == old(store.rows) && store.nextId == old(store.nextId)
    ensures r.Ok? ==> && r.value == old(store.nextId) && store.nextId == old(store.nextId) + 1
                      && store.rows == old(store.rows) + [Report(r.value, s.user.value, date, Process(up, rate).value.totals)]
    ensures r.Ok? ==> var t := Process(up, rate).value.totals; t.grandTotal == t.totalAmount + t.totalGst
    ensures r.Err? <==> ProcessAsWritten(up, rate).Err?
    ensures r.Err? ==> r.error == ProcessAsWritten(up, rate).error
    ensures r.Ok? && NoBlankAmount(up) ==>
              store.rows[|store.rows| - 1].totals == ProcessAsWritten(up, rate).value.totals
  {
    CorrectionOnlyTouchesBlankAmounts(up, rate);
    var p := Process(up, rate);
    if p.Err? {
      return Err(p.error);
    }
    GrandTotal(up, rate);
    var id := store.Save(s.user.value, date, p.value.totals);
    r := Ok(id);
  }

  /**
   * The monthly summary of the logged-in user: the rollup of that user's
   * history, so `RollupSums` and `RollupPartition` give each bucket's contents;
   * buckets in ascending month order that sum to that user's saved reports,
   * and none at all when the user has saved nothing ("No saved reports yet").
   */
  function MonthlySummary(s: Session, store: ReportTable): (bs: seq<Bucket>)
    reads s, store
    requires s.Valid() && s.loggedIn && store.Valid()
    ensures bs == Rollup(store.History(s.user.value))
    ensures Ascending(bs)
    ensures SumBuckets(bs) == SumTotals(store.History(s.user.value))
    ensures bs == [] <==> forall i :: 0 <= i < |store.rows| ==> store.rows[i].username != s.user.value
  {
    var h := store.History(s.user.value);
    RollupAscending(h);
    RollupTotal(h);
    RollupEmpty(h);
    assert h == [] <==> forall i :: 0 <= i < |store.rows| ==> store.rows[i].username != s.user.value by {
      if h != [] {
        assert h[0] in store.rows;
      }
      if h == [] {
        forall i | 0 <= i < |store.rows| ensures store.rows[i].username != s.user.value {
          assert store.rows[i] in store.rows;
        }
      }
    }
    Rollup(h)
  }
}
