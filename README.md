# GST Reporter — a Dafny model of its core

GST Reporter is a one-page web dashboard. A user registers and logs in. They
upload a table of transactions with an `Amount` column. The page computes
Goods-and-Services Tax (GST) and a per-row total, then shows three sums:
total amount, total GST and grand total. The user can save those sums
to a per-user history. The history is shown newest first with a monthly
summary, and the user can clear it.

This project models the five pieces of logic under the page's widgets:

- **Credentials** (`credentials.dfy`): the users table. Usernames are
  unique, the password is stored only as a digest, register rejects empty
  fields and duplicates, and login checks for a matching row.
- **SessionGate** (`session.dfy`): the `logged_in` / `user` flags. Login
  sets them and logout clears them.
- **TaxAggregator** (`tax_aggregator.dfy`): the upload processing. It finds
  the `Amount` column, removes thousands separators before parsing, takes
  GST from the first `gst`/`tax` column or from the chosen rate, computes
  per-row totals and the three sums. Amounts are exact reals. pandas' NaN
  is modelled because it changes the sums: a blank Amount cell becomes NaN,
  NaN spreads through `*` and `+`, and `Series.sum()` skips it.
- **ReportStore** (`report_store.dfy`): the reports table. Save appends a
  row with the next AUTOINCREMENT id. History selects one user's rows in
  descending id order. Clear deletes one user's rows.
- **MonthlyRollup** (`monthly_rollup.dfy`): the group-by. It groups a
  history by the `YYYY-MM` prefix of each date, sums the three columns per
  month, and orders the months ascending.
- **Dashboard** (`dashboard.dfy`): the page flow joining them. It saves a
  processed upload under the logged-in user and builds that user's monthly
  summary.

`wrappers.dfy` holds `Option` and `Result`.

Code that updates state in place is written as classes: `UserTable`,
`Session` and `ReportTable`. Their fields are `seq` tables and flags, and
their methods carry `modifies` clauses. Each method's postcondition gives
the new state as a pure function of the old one. The lemmas are about
those pure functions. Code that only computes is written as functions and
lemmas. This includes the vectorised column arithmetic and the group-by.

Two points of the code's behaviour that the model keeps as written:

- `Clear` returns nothing, just as the DELETE at app.py:382-387 reports no
  count.
- `float` raises ValueError on an Amount cell it cannot read (app.py:240),
  which stops the page. The model returns `BadAmount` with the first such
  row.

## Model

| member | source | states |
|---|---|---|
| `Credentials.HashInjective` | app.py:69-70 | Two passwords have the same digest exactly when they are the same password. No member reads the password back out of a digest; the lemmas use only `HashInjective`. |
| `Credentials.RegisterOutcomes` | app.py:96-108 | Register says "fill all fields" exactly when the username or password is empty, and "username exists" exactly when both are filled and the name is taken. Both leave the table unchanged. Otherwise exactly one row (username, hash(password)) is appended. |
| `Credentials.RegisterKeepsInvariant` | app.py:43-49 | Register preserves the UNIQUE username constraint. It also preserves two facts: no stored username is empty, and no stored hash is the hash of the empty password. |
| `Credentials.RegisterTwiceRefused` | app.py:46 | Registering a username a second time is refused as a duplicate, and the first credential is not overwritten. |
| `Credentials.RegisterThenLogin` | app.py:101-105 | After a successful register, login with that username succeeds with the registered password and with no other password. |
| `Credentials.RegisterIsolation` | app.py:101-105 | Registering one username does not change whether any other username can log in with any password. |
| `Credentials.LoginDeterminesPassword` | app.py:120-125 | In a table built by register, at most one password logs in for a given username, and an empty username or an empty password never logs in. |
| `Credentials.LoginNeedsRegisteredUser` | app.py:120-125 | A successful login implies that the username is in the table. |
| `Credentials.UserTable.constructor` | app.py:43-49 | The users table starts empty and satisfies its invariant. |
| `Credentials.UserTable.Register` | app.py:94-108 | The Register button returns the outcome above and leaves the table exactly as `AfterRegister` describes. The table invariant is kept. |
| `SessionGate.Session.constructor` | app.py:76-80 | A session starts with `logged_in` false and `user` None, that is, Anonymous. |
| `SessionGate.Session.State` | app.py:76-80 | The two flags always read as one of the two gate states. Anonymous holds exactly when not logged in, and Authenticated carries the stored user. |
| `SessionGate.Session.Login` | app.py:118-130 | Login succeeds exactly when some row matches both the username and hash(password). On success the session becomes Authenticated(username). On failure the flags are unchanged. |
| `SessionGate.Session.Logout` | app.py:157-159 | Logout sets `logged_in` to false and `user` to None from any state. |
| `SessionGate.LoginLogoutRound` | app.py:125-127 | On a fresh session with a registered user, the gate goes from Anonymous to Authenticated(name) and then back to Anonymous. |
| `TaxAggregator.IndexOf` | app.py:236 | Finds the first column with exactly the given name, and returns None exactly when no column has that name. |
| `TaxAggregator.Lower` | app.py:247 | Lower-cases each character and keeps the length. |
| `TaxAggregator.FirstTaxColumn` | app.py:247-249 | `gst_cols[0]`: the first column whose lower-cased name is "gst" or "tax". Returns None exactly when no column qualifies. |
| `TaxAggregator.TaxNames` | app.py:247 | "GST", "gst", "Tax" and "TAX" select the tax column. "Amount" and "GST Rate" do not. |
| `TaxAggregator.StripCommas` | app.py:240 | The result has no commas and keeps every other character with its multiplicity. A string without commas is returned unchanged. |
| `TaxAggregator.IntegerTextParsed` | app.py:240 | A run of digits parses to the integer it spells. |
| `TaxAggregator.NegativeIntegerTextParsed` | app.py:240 | A minus sign followed by a run of digits parses to the negated integer. |
| `TaxAggregator.CommaRejected` | app.py:240 | Text that still contains a comma does not parse as a number. This is why the separators are stripped first. |
| `TaxAggregator.ThousandsSeparatorStripped` | app.py:240 | The Amount cell "1,000" reads as 1000. |
| `TaxAggregator.DecimalAmountParsed` | app.py:240 | The Amount cell "2,500.50" reads as 2500.50. |
| `TaxAggregator.GstCommaCoercedToZero` | app.py:250 | In a GST column "1,000" is not stripped, so `to_numeric(errors="coerce").fillna(0)` makes it 0. |
| `TaxAggregator.ParseAmounts` | app.py:240 | Either every Amount cell converts and the column holds exactly those values in row order, or the first row whose cell does not convert is reported. |
| `TaxAggregator.MissingAmountAborts` | app.py:236-238 | Processing stops with "must contain 'Amount' column" exactly when no column is named exactly `Amount`. |
| `TaxAggregator.BadAmountAborts` | app.py:240 | Once `Amount` exists, processing fails exactly when some Amount cell does not parse, and it names the first such row. |
| `TaxAggregator.ProcessedRows` | app.py:240-260 | On success there is one amount, GST and total per row. Amounts are the parsed cells. GST comes from the first tax-like column, coerced, or else equals amount * rate / 100. Each total is amount + GST. The three sums are the NaN-skipping sums of the three columns. |
| `TaxAggregator.RateSum` | app.py:253 | A GST column that is the amount column times rate / 100, row by row, sums to the total amount times rate / 100. NaN rows are skipped on both sides. |
| `TaxAggregator.RateGst` | app.py:252-259 | When no column is tax-like and processing succeeds, total GST = `GstAt(total amount, rate)`, that is, total amount * rate / 100. |
| `TaxAggregator.RateTotals` | app.py:252-260 | When no column is tax-like and processing succeeds, total GST = `GstAt(total amount, rate)`, and grand total = total amount * (100 + rate) / 100. |
| `TaxAggregator.SumOfAddColumns` | app.py:255-260 | When two columns are NaN in the same rows, the sum of their element-wise sum equals the sum of their sums. |
| `TaxAggregator.GrandTotalWithRate` | app.py:252-260 | When GST comes from the rate, gt == ta + tg, even with blank amounts. |
| `TaxAggregator.GrandTotalWithoutNaN` | app.py:255-260 | When no amount is NaN, gt == ta + tg for either GST source. |
| `TaxAggregator.BlankAmountBreaksGrandTotal` | app.py:240 | As written: a blank Amount cell next to a GST column of 5 gives ta = 0, tg = 5 and gt = 0. |
| `TaxAggregator.GrandTotal` | app.py:255-260 | With blank Amount cells read as 0, every upload that processes has gt == ta + tg. |
| `TaxAggregator.ParseAmountsBlankReading` | app.py:240 | How a blank cell is read never changes whether the Amount column parses, or which row fails. Without blank cells it changes nothing. |
| `TaxAggregator.CorrectionOnlyTouchesBlankAmounts` | app.py:240-260 | The corrected processing fails exactly when the as-written one does, with the same error. On uploads with no blank Amount cell the two give identical results. |
| `TaxAggregator.TwoRowExample` | app.py:236-260 | The amounts "1,000" and "2,500.50" at an 18% rate give totals 3500.50, 630.09 and 4130.59 exactly. |
| `ReportStore.OwnedBy` | app.py:348 | `WHERE username = ?`: keeps exactly that user's rows. |
| `ReportStore.WithoutUser` | app.py:382-385 | `DELETE ... WHERE username = ?`: keeps exactly the other users' rows. |
| `ReportStore.HistoryContents` | app.py:347-351 | History holds exactly the user's reports, with strictly descending ids, so newest first and none repeated. |
| `ReportStore.EmptyHistory` | app.py:347-353 | A user with no saved reports gets an empty history. |
| `ReportStore.HistoryAfterSave` | app.py:317-324 | After a save, that user's history is the new report followed by the old history. Every other user's history is unchanged. |
| `ReportStore.HistoryAfterClear` | app.py:382-385 | After a clear, the user's history is empty and every other user's history is unchanged. |
| `ReportStore.ClearIdempotent` | app.py:382-385 | A second clear removes nothing. |
| `ReportStore.ReportTable.constructor` | app.py:52-61 | The reports table starts empty, and the first id is 1. |
| `ReportStore.ReportTable.Save` | app.py:316-325 | Exactly one report (next id, user, date, totals) is appended, existing rows stay the same, and the id counter moves on. Ids stay ascending and unique. |
| `ReportStore.ReportTable.Clear` | app.py:381-386 | Deletes exactly the user's reports and keeps the id counter, so ids are never reused. |
| `ReportStore.ReportTable.History` | app.py:347-351 | The history query returns exactly the user's reports, newest first. Each date is a well-formed "YYYY-MM-DD HH:MM" stamp. |
| `MonthlyRollup.MonthKeyGroupsByCalendarMonth` | app.py:360-363 | Two well-formed timestamps get the same "YYYY-MM" key exactly when their year numbers and month numbers are equal, so grouping by the key is grouping by `to_period("M")`. |
| `MonthlyRollup.KeyOrderIsCalendarOrder` | app.py:363 | For well-formed timestamps, string order of month keys equals calendar order (year, then month), which is how monthly periods sort. |
| `MonthlyRollup.RollupAscending` | app.py:362-367 | Buckets are in strictly ascending month order, with exactly one bucket for each month in the history. |
| `MonthlyRollup.RollupSums` | app.py:362-367 | Each bucket's three columns are the sums over exactly the reports dated in its month. |
| `MonthlyRollup.RollupPartition` | app.py:362-367 | Every report falls in exactly one bucket, the one keyed by its month. |
| `MonthlyRollup.RollupTotal` | app.py:362-367 | The buckets together sum to the whole history. |
| `MonthlyRollup.RollupEmpty` | app.py:389-390 | The rollup is empty exactly when the history is empty. |
| `Dashboard.SaveUpload` | app.py:316-324 | An upload fails exactly when the source's processing fails, with the same error, and then nothing is stored. A processed upload appends exactly one report with the corrected totals under the logged-in user, and its grand total equals amount plus GST. When no Amount cell is blank, the saved totals are the source's processed totals. |
| `Dashboard.MonthlySummary` | app.py:347-367 | The logged-in user's summary is the rollup of exactly that user's history, so each bucket holds that month's sums (`RollupSums`). It is in ascending month order and sums to that user's saved reports. It is empty exactly when the user has saved nothing ("No saved reports yet"). |

## Findings

| source | as written | input that shows it | evidently intended | confidence | as-written member | corrected member |
|---|---|---|---|---|---|---|
| app.py:240-260 | A blank Amount cell is printed as "nan" and read back as NaN. That row's Total is NaN, and `sum()` skips it. Its GST-column value is coerced to a number and still counted. | Columns `Amount`, `GST`; one row with a blank Amount and GST 5. This gives ta = 0, tg = 5, gt = 0. | Grand total = total amount + total GST, as the dashboard and the PDF present it. Here a blank amount counts as 0, as a blank GST cell already does. | medium; not executed | `TaxAggregator.BlankAmountBreaksGrandTotal` | `TaxAggregator.GrandTotal` |

`TaxAggregator.ProcessAsWritten` is the processing as written. `TaxAggregator.Process`
is the corrected processing, and `Dashboard.SaveUpload` uses it. Both are
`ProcessWith` and differ only in what a blank Amount cell becomes.
`CorrectionOnlyTouchesBlankAmounts` proves that they fail on the same uploads,
and that they agree wherever no Amount cell is blank.
`GrandTotalWithRate` shows that the as-written processing still keeps
gt == ta + tg when GST comes from the rate.

## Left out

- Dashboard.SaveUpload: stores the totals of the corrected processing, not the source's. For the blank-Amount input in "## Findings" with a GST cell of 5.0, the source saves (0, 5, 0) while the model saves (0, 5, 5). Its contract says the two processings agree on every upload without a blank Amount cell. It also always saves a processed upload, while the source may not: when the GST column holds only whole numbers, pandas keeps it int64, so `tg` at app.py:259 is a `numpy.int64`. sqlite3 cannot bind that value in the INSERT at app.py:317-324, which then raises and saves nothing. `Cell.Number` holds a real, so the model cannot tell an integer column from a float one, and it saves these totals too.
- Streamlit UI: widgets, tabs, `st.rerun`/`st.stop`, metrics and table display (app.py:17-21, 136-148, 221-243, 266-269). The page plumbing decides only when each operation is offered. `Dashboard` states it as a precondition that a user is logged in. A failed upload returns its error and stores nothing.
- SQLite connection and SQL execution (app.py:39-63). They are replaced by in-memory `seq` tables in `UserTable` and `ReportTable`. The users table's id column is never read and is not kept.
- The bare `except` on the users INSERT (app.py:107). It turns every storage error into "Username already exists". Only the duplicate-username case is modelled, and storage failures are out of scope.
- SHA-256 internals (app.py:70). `HashPassword` is an injective stand-in, so the model treats SHA-256 as collision-free.
- CSV/Excel reading (app.py:231-234) and Excel export (app.py:336-338). An upload is given directly as column names and rows of `Number`/`Text`/`Blank` cells. Duplicate column names, which pandas renames, are not modelled; the first match wins. Headers are assumed to be text: `pd.read_excel` can give a numeric header cell a non-string column name, and then `c.lower()` (app.py:247) raises AttributeError and stops the page, which the model does not capture.
- ParseDecimal: reads only an optional sign, digits and at most one '.'. Python's `float` and `pd.to_numeric` also accept surrounding whitespace, exponents and the words nan/inf. `float` also accepts `_` between digits and non-ASCII Unicode decimal digits (fullwidth "１２" reads as 12.0). The model rejects those. In the Amount column such text (say "1e3" or " 5 ") then becomes a `BadAmount` error. In a GST column, `GstValue` reads it as 0.0, so total GST comes out smaller than pandas would make it.
- Lower: lower-cases ASCII letters only. For the names that matter here, "gst" and "tax", this gives the same match as Python's full Unicode `str.lower()`.
- StripCommas: the contract states character counts and "no commas left", not that the other characters keep their order (the body does keep it).
- PDF generation with reportlab (app.py:166-216) and all matplotlib charts (app.py:281-306, 376-379). These are rendering libraries.
- Binary floating-point rounding and the `:,.2f` currency formatting (app.py:205-207, 267-269). Amounts are exact reals. Only NaN is kept from float semantics, because it changes the sums.
- `datetime.now()` and `pd.to_datetime` (app.py:321, 330, 360). The timestamp is a parameter of `Save` and must have the "YYYY-MM-DD HH:MM" shape that `strftime` produces. The month key is the prefix of that string. Digit ranges, such as a month between 01 and 12, are not checked.
- History: the query also projects onto four columns (date and the three sums). The model returns whole records, including id and username, so that ordering and ownership can be stated.
- Directory creation (app.py:23). This is file-system I/O.
