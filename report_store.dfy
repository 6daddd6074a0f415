/**
 * The reports table (app.py:52-61): one row per Save, tagged with the user
 * who was logged in, read back per user newest first and cleared per user
 * (app.py:317-324, 347-351, 382-385).
 */
module ReportStore {
  import opened TaxAggregator

  /** One saved report. `id` is the AUTOINCREMENT primary key. */
  datatype Report = Report(id: nat, username: string, date: string, totals: Totals)

  /** The shape `strftime("%Y-%m-%d %H:%M")` produces: "YYYY-MM-DD HH:MM". */
  predicate WellFormedTimestamp(s: string)
  {
    && |s| == 16
    && IsDigit(s[0]) && IsDigit(s[1]) && IsDigit(s[2]) && IsDigit(s[3])
    && s[4] == '-' && IsDigit(s[5]) && IsDigit(s[6])
    && s[7] == '-' && IsDigit(s[8]) && IsDigit(s[9])
    && s[10] == ' ' && IsDigit(s[11]) && IsDigit(s[12])
    && s[13] == ':' && IsDigit(s[14]) && IsDigit(s[15])
  }

  /** Ids grow strictly along the table, as AUTOINCREMENT hands them out. */
  predicate IdsAscending(rows: seq<Report>)
  {
    forall i, j :: 0 <= i < j < |rows| ==> rows[i].id < rows[j].id
  }

  predicate IdsDescending(rows: seq<Report>)
  {
    forall i, j :: 0 <= i < j < |rows| ==> rows[i].id > rows[j].id
  }

  predicate AllWellFormed(rows: seq<Report>)
  {
    forall i :: 0 <= i < |rows| ==> WellFormedTimestamp(rows[i].date)
  }

  /** What every reachable reports table satisfies, with `nextId` the id the next Save gets. */
  predicate StoreInvariant(rows: seq<Report>, nextId: nat)
  {
    && 1 <= nextId
    && IdsAscending(rows)
    && (forall i :: 0 <= i < |rows| ==> rows[i].id < nextId)
    && AllWellFormed(rows)
  }

  /** `WHERE username = user`, keeping table order. */
  function OwnedBy(rows: seq<Report>, user: string): (r: seq<Report>)
    ensures forall x :: x in r <==> x in rows && x.username == user
    ensures |r| <= |rows|
  {
    if rows == [] then []
    else OwnedBy(rows[..|rows| - 1], user)
         + (if rows[|rows| - 1].username == user then [rows[|rows| - 1]] else [])
  }

  /** `DELETE ... WHERE username = user` leaves exactly the other users' rows, in order. */
  function WithoutUser(rows: seq<Report>, user: string): (r: seq<Report>)
    ensures forall x :: x in r <==> x in rows && x.username != user
    ensures |r| <= |rows|
  {
    if rows == [] then []
    else WithoutUser(rows[..|rows| - 1], user)
         + (if rows[|rows| - 1].username != user then [rows[|rows| - 1]] else [])
  }

  function Reverse(s: seq<Report>): (r: seq<Report>)
    ensures |r| == |s|
    ensures forall i :: 0 <= i < |s| ==> r[i] == s[|s| - 1 - i]
  {
    if s == [] then [] else [s[|s| - 1]] + Reverse(s[..|s| - 1])
  }

  /** `... WHERE username = user ORDER BY id DESC`. */
  function HistoryOf(rows: seq<Report>, user: string): seq<Report>
  {
    Reverse(OwnedBy(rows, user))
  }

  // ---------------------------------------------------------------------
  // Order facts
  // ---------------------------------------------------------------------

  /** A filter of an ascending table is ascending. */
  lemma {:induction false} OwnedByAscending(rows: seq<Report>, user: string)
    requires IdsAscending(rows)
    ensures IdsAscending(OwnedBy(rows, user))
    ensures forall x :: x in OwnedBy(rows, user) ==> x in rows
  {
    if rows != [] {
      var init := rows[..|rows| - 1];
      OwnedByAscending(init, user);
      var last := rows[|rows| - 1];
      forall x | x in OwnedBy(init, user) ensures x.id < last.id {
        var k :| 0 <= k < |init| && init[k] == x;
      }
    }
  }

  lemma {:induction false} WithoutUserAscending(rows: seq<Report>, user: string)
    requires IdsAscending(rows)
    ensures IdsAscending(WithoutUser(rows, user))
  {
    if rows != [] {
      var init := rows[..|rows| - 1];
      WithoutUserAscending(init, user);
      var last := rows[|rows| - 1];
      forall x | x in WithoutUser(init, user) ensures x.id < last.id {
        var k :| 0 <= k < |init| && init[k] == x;
      }
    }
  }

  lemma ReverseAscending(s: seq<Report>)
    requires IdsAscending(s)
    ensures IdsDescending(Reverse(s))
  {
  }

  // ---------------------------------------------------------------------
  // The queries' contracts
  // ---------------------------------------------------------------------

  /**
   * History holds exactly the user's reports, newest first: strictly
   * descending ids, so no report appears twice.
   */
  lemma HistoryContents(rows: seq<Report>, user: string)
    requires IdsAscending(rows)
    ensures forall x :: x in HistoryOf(rows, user) <==> x in rows && x.username == user
    ensures IdsDescending(HistoryOf(rows, user))
  {
    OwnedByAscending(rows, user);
    ReverseAscending(OwnedBy(rows, user));
    var h := HistoryOf(rows, user);
    var o := OwnedBy(rows, user);
    forall x ensures x in h <==> x in o {
      if x in o {
        var k :| 0 <= k < |o| && o[k] == x;
        assert h[|o| - 1 - k] == x;
      }
    }
  }

  /** A user with no saved reports has an empty history. */
  lemma {:induction false} EmptyHistory(rows: seq<Report>, user: string)
    requires forall i :: 0 <= i < |rows| ==> rows[i].username != user
    ensures HistoryOf(rows, user) == []
  {
    if rows != [] {
      EmptyHistory(rows[..|rows| - 1], user);
    }
  }

  /** Appending a report of `user` puts it first in that user's history and leaves the rest as it was. */
  lemma HistoryAfterSave(rows: seq<Report>, r: Report, user: string)
    ensures HistoryOf(rows + [r], user)
              == if r.username == user then [r] + HistoryOf(rows, user) else HistoryOf(rows, user)
  {
    assert (rows + [r])[..|rows|] == rows;
  }

  /** After clearing, the user's history is empty and everyone else's is unchanged. */
  lemma {:induction false} HistoryAfterClear(rows: seq<Report>, user: string, other: string)
    requires other != user
    ensures HistoryOf(WithoutUser(rows, user), user) == []
    ensures HistoryOf(WithoutUser(rows, user), other) == HistoryOf(rows, other)
  {
    EmptyHistoryAfterClear(rows, user);
    OwnedByWithout(rows, user, other);
  }

  lemma EmptyHistoryAfterClear(rows: seq<Report>, user: string)
    ensures HistoryOf(WithoutUser(rows, user), user) == []
  {
    var w := WithoutUser(rows, user);
    forall i | 0 <= i < |w| ensures w[i].username != user {
      assert w[i] in w;
    }
    EmptyHistory(w, user);
  }

  lemma {:induction false} OwnedByWithout(rows: seq<Report>, user: string, other: string)
    requires other != user
    ensures OwnedBy(WithoutUser(rows, user), other) == OwnedBy(rows, other)
  {
    if rows != [] {
      var init := rows[..|rows| - 1];
      var last := rows[|rows| - 1];
      OwnedByWithout(init, user, other);
      var w0 := WithoutUser(init, user);
      if last.username != user {
        var w := w0 + [last];
        assert WithoutUser(rows, user) == w;
        assert w[..|w| - 1] == w0 && w[|w| - 1] == last;
        assert OwnedBy(w, other) == OwnedBy(w0, other) + (if last.username == other then [last] else []);
      } else {
        assert WithoutUser(rows, user) == w0 + [] == w0;
        assert OwnedBy(rows, other) == OwnedBy(init, other) + [] == OwnedBy(init, other);
      }
    }
  }

  /** Clearing twice removes nothing the first clear left. */
  lemma {:induction false} ClearIdempotent(rows: seq<Report>, user: string)
    ensures WithoutUser(WithoutUser(rows, user), user) == WithoutUser(rows, user)
  {
    if rows != [] {
      var init := rows[..|rows| - 1];
      var last := rows[|rows| - 1];
      ClearIdempotent(init, user);
      var w0 := WithoutUser(init, user);
      if last.username != user {
        var w := w0 + [last];
        assert WithoutUser(rows, user) == w;
        assert w[..|w| - 1] == w0 && w[|w| - 1] == last;
        assert WithoutUser(w, user) == WithoutUser(w0, user) + [last];
      } else {
        assert WithoutUser(rows, user) == w0 + [] == w0;
      }
    }
  }

  /** The reports table, updated in place by Save and Clear. */
  class ReportTable {
    var rows: seq<Report>
    var nextId: nat

    ghost predicate Valid()
      reads this
    {
      StoreInvariant(rows, nextId)
    }

    constructor ()
      ensures Valid() && rows == [] && nextId == 1
    {
      rows := [];
      nextId := 1;
    }

    /**
     * The Save button: appends one report for `user` stamped `date` with the
     * next id, and changes no existing row.
     */
    method Save(user: string, date: string, totals: Totals) returns (id: nat)
      requires Valid()
      requires WellFormedTimestamp(date)
      modifies this
      ensures Valid()
      ensures id == old(nextId) && nextId == old(nextId) + 1
      ensures rows == old(rows) + [Report(id, user, date, totals)]
    {
      id := nextId;
      rows := rows + [Report(id, user, date, totals)];
      nextId := nextId + 1;
    }

    /** The Clear My History button: deletes every report of `user` and no other. */
    method Clear(user: string)
      requires Valid()
      modifies this
      ensures Valid()
      ensures rows == WithoutUser(old(rows), user) && nextId == old(nextId)
    {
      WithoutUserAscending(rows, user);
      rows := WithoutUser(rows, user);
    }

    /** The history query: exactly the user's reports, newest first, all stamped in the Save format. */
    function History(user: string): (h: seq<Report>)
      reads this
      requires Valid()
      ensures forall x :: x in h <==> x in rows && x.username == user
      ensures IdsDescending(h)
      ensures AllWellFormed(h)
    {
      HistoryContents(rows, user);
      HistoryOf(rows, user)
    }
  }
}
