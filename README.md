# Gurudwara donation tracker: the ledger

The tracker keeps two SQLite tables. `families` holds one row per household: id, name, land area and balance due. `transactions` is the history log: id, family id, date and time, description, amount, and a type of DEBIT (adds to the balance) or CREDIT (takes from it). The application class `DonationApp` changes these tables in three ways:

- **add a family** (`add_family_to_db`): insert the row with its opening due as its balance. Log that due as an "Initial Balance" DEBIT only when it is positive.
- **apply the periodic fee** (`apply_period_update`): walk every family once. Charge each family `land * rate` when that amount is positive, and log one DEBIT for it.
- **record a payment** (`process_payment`): subtract the amount from the selected family's balance and log a "Payment Received" CREDIT.

There are also two read queries. The family list filters by name with `LIKE '%text%'`. The detail view shows one family's history, newest first.

The model has four modules:

- `SqlLike` (`like.dfy`) models SQLite's built-in LIKE operator. `%` matches any run of characters, `_` matches exactly one character, and only ASCII letters compare case-insensitively. It proves that, for a search text without wildcards, `%text%` is a case-folded substring test.
- `Tables` (`tables.dfy`) holds the row types, the queries as recursive functions, the signed sum of a family's log, and the fee pass stated over values.
- `Ledger` (`ledger.dfy`) defines the ledger invariant over the two tables and proves that each operation preserves it. Every balance due equals the signed sum of that family's transactions (DEBIT +, CREDIT −), plus the opening due when that due was zero or negative. A positive opening due is already logged as its own DEBIT row.
- `Tracker` (`app.dfy`) is the class `DonationApp`. Its fields are the two tables, their two AUTOINCREMENT counters, and a ghost map of opening dues. Its methods update those fields in place, and the fee pass is a loop with invariants. Each method's postcondition gives the whole new state in terms of the old one, and the `Ledger` lemmas it calls carry the invariant across.

Timestamps are passed in as a parameter. Parsed text fields arrive as `Option<real>`, where `None` stands for an empty field. Amounts are exact `real`s.

In these details the model follows `main.py` as written:

- The fee pass only checks that the rate field is non-empty (main.py:306). It does not require a positive rate, and it charges a family whenever `land * rate` is positive (main.py:316-317). A negative rate times a negative land area gives a positive fee, and that family is charged.
- Payment amounts are not checked to be non-negative (main.py:347-348). A negative amount is recorded as a CREDIT with a negative amount, and the balance goes up.
- The name search is `name LIKE '%text%'` (main.py:175-176), which is case-insensitive for ASCII letters only. This is SQLite's LIKE behaviour.
- A payment for an id that no family has changes no balance (main.py:352). The CREDIT row is still inserted (main.py:355). `Ledger.ForwardPaymentBreaksLedger` shows the harm: if the id is handed out later, the new family adopts that CREDIT row. For this reason the invariant is proved for payments to ids already handed out. The UI only ever selects existing families.

## Model

| member | source | states |
|---|---|---|
| `Tracker.DonationApp.DbInit` | main.py:140-166 | On a fresh database both tables are empty, both id counters start at 1, and the ledger invariant holds |
| `Tracker.DonationApp.LoadFamilies` | main.py:169-179 | An empty search returns the whole table in order. Otherwise it returns exactly the families whose name is LIKE `%search%`, which for a wildcard-free search means the names containing the text up to ASCII case. Rows come in ascending id order |
| `Tables.SelectFamilies` | main.py:172-178 | The query returns the whole table when there is no WHERE clause. Otherwise a row is in the result if and only if it is in the table and its name matches the pattern |
| `Tables.SelectFamiliesAscending` | main.py:172-178 | The filtered listing keeps the table's ascending id order |
| `SqlLike.ContainsPatternIsSubstring` | main.py:174-176 | For a search text without `%` or `_`, `name LIKE '%text%'` holds if and only if the text occurs in the name, ignoring ASCII case |
| `SqlLike.LeadingPercent` | main.py:176 | A leading `%` lets the rest of the pattern match any suffix of the name, in both directions |
| `SqlLike.PrefixPattern` | main.py:176 | For a wildcard-free text, `text%` matches exactly the names that start with the text, up to ASCII case |
| `Tracker.DonationApp.LoadHistory` | main.py:213-228 | With no selection the result is nothing. With a selection, the family row is present if and only if a family has that id. The history holds exactly that id's transactions, with strictly descending ids |
| `Tables.FindFamily` | main.py:218-219 | The lookup returns a row with the requested id that is in the table. It returns none only when no row has that id |
| `Tables.HistoryOf` | main.py:227-228 | A transaction is in the history if and only if it is in the log and carries the family's id |
| `Tables.HistoryNewestFirst` | main.py:227 | When log ids ascend in append order, the history's ids strictly descend, so the newest row comes first |
| `Tables.HistoryAfterAppend` | main.py:355-359 | The step of `HistoryOf` that the payment's postcondition follows: a row just appended for a family heads that family's history, ahead of its earlier rows |
| `Tracker.DonationApp.AddFamily` | main.py:265-282 | With an empty name, land area or opening due, nothing changes. Otherwise one family is appended with a fresh id larger than every existing id, its name and land, and balance equal to the opening due. The log gains exactly one "Initial Balance" DEBIT for the due if and only if the due is positive. The new family's history is exactly that row, or nothing. The ledger invariant is kept |
| `Ledger.AddFamilyKeepsLedger` | main.py:270-280 | Adding a family keeps both tables well formed and the ledger balanced, and the new family's history is exactly its logged opening due |
| `Ledger.AddFamilyHistory` | main.py:276-280 | A family no earlier row refers to has its "Initial Balance" DEBIT, if any, as its entire history |
| `Ledger.AddFamilyBalanced` | main.py:272-280 | After the insert, every old balance still equals its signed sum. The new family's balance equals its logged DEBIT or, for a due of zero or less, the unlogged due |
| `Tracker.DonationApp.ApplyPeriodicFee` | main.py:304-324 | With no rate, nothing changes. Otherwise a family whose `land * rate` is positive gains exactly that fee, and every other family is untouched. The log gains exactly the fee DEBITs in table order, and the id counter advances by the number of charged families. The ledger invariant is kept |
| `Tables.Charged` | main.py:314-317 | A family is charged if and only if it is in the table and its fee is positive |
| `Tables.FeeRowsAreCharges` | main.py:311-322 | The fee pass appends one row per charged family, in table order. Row k is a DEBIT for the k-th charged family, with that family's fee, the rate's description, the pass's timestamp and id `first + k` |
| `Tables.FeeRowsStep` | main.py:314-322 | The step of `FeeRows` that the fee loop's invariant follows: extending the pass by one family appends its DEBIT exactly when its fee is positive |
| `Tables.FeeRowsSum` | main.py:314-322 | With distinct family ids, the fee rows add to each family's signed sum exactly what the pass adds to its balance |
| `Ledger.PeriodicFeeKeepsLedger` | main.py:311-322 | The fee pass keeps both tables well formed and the ledger balanced |
| `Tracker.DonationApp.ProcessPayment` | main.py:345-358 | With no selection or an empty amount, nothing changes. Otherwise the row with the selected id, if any, loses exactly the amount and no other family changes. Exactly one "Payment Received" CREDIT for the amount is appended, and it heads that id's history. The invariant is kept when the id has been handed out |
| `Ledger.PaymentKeepsLedger` | main.py:351-356 | A payment keeps both tables well formed. When the paid id is below the family counter, the ledger stays balanced |
| `Ledger.PaymentToUnknownFamily` | main.py:352 | An UPDATE for an id that no family has leaves every balance unchanged |
| `Ledger.ForwardPaymentBreaksLedger` | main.py:347-356 | A CREDIT for an id not yet handed out is adopted by the family that later gets the id, whose balance then disagrees with its history |
| `Ledger.AppendFamilyShape` | main.py:146-147 | Inserting with the AUTOINCREMENT id keeps family ids positive, strictly increasing and below the counter |
| `Ledger.AppendRowsShape` | main.py:156-157 | Rows numbered on from the AUTOINCREMENT counter keep transaction ids positive, strictly increasing in append order and below the counter. The log is only ever appended to |
| `Tables.SignedSumAppend` | main.py:155-164 | A family's signed sum over a log extended by more rows is its old sum plus the sum over the new rows |

## Left out

- The Kivy layer: the layout string, the dialogs, screen navigation, list widgets and display formatting (`:.2f`, sign and colour).
- The sqlite3 connection, cursor and `commit`. Each operation is one atomic update of the in-memory tables.
- `datetime.now()`: the timestamp is the `now` parameter.
- Parsing of text fields with `float`. Inputs arrive parsed, and an empty field is `None`. Non-numeric text that makes `float` raise is not modelled. An empty opening-due field, which makes `float('')` raise before any insert, is modelled as "nothing changes".
- Floating-point rounding: amounts, land and rate are exact `real`s.
- The text of the periodic-fee description, which depends on Python's float formatting. It is the value `PeriodicFee(rate)`.
- The selected family id is a string in the source (`str(f_id)`) and SQLite converts it when it compares with the integer column. The model takes the id as a number.
- Tracker.DonationApp.ApplyPeriodicFee: the loop updates the row at the current position rather than searching for `WHERE id = f_id`. The two coincide because family ids are unique, which `Valid()` keeps.
- The detail query reads only name, land area and balance. The model returns the whole family row.
- Tracker.DonationApp.DbInit: models only a fresh database file. On an existing file `CREATE TABLE IF NOT EXISTS` (main.py:146, 156) keeps the stored rows and counters, and that reopen path is not modelled.
