/** The data side of the donation tracker: the `families` and `transactions`
    tables held in memory, the AUTOINCREMENT counters of both, and the three
    ledger operations that update them in place. */
module Tracker {
  import opened SqlLike
  import opened Tables
  import opened Ledger

  /** What the detail screen loads for the selected family: its row, if one
      has that id, and its history, newest first. */
  datatype DetailView = DetailView(family: Option<Family>, history: seq<Transaction>)

  class DonationApp {
    var families: seq<Family>          // table `families`, in id order
    var transactions: seq<Transaction> // table `transactions`, in append order
    var nextFamilyId: nat              // next AUTOINCREMENT id of `families`
    var nextTransactionId: nat         // next AUTOINCREMENT id of `transactions`

    /** Each family's opening due, as it was entered; no table stores it. */
    ghost var openings: map<nat, real>

    /** Shape of the tables: see `Ledger.WellFormed`. */
    ghost predicate Valid()
      reads this
    {
      WellFormed(families, transactions, nextFamilyId, nextTransactionId, openings)
    }

    /** The ledger invariant: see `Ledger.Consistent`. */
    ghost predicate Consistent()
      reads this
    {
      Ledger.Consistent(families, transactions, nextFamilyId, nextTransactionId, openings)
    }

    /** `db_init` on a fresh database file: both tables empty. */
    constructor DbInit()
      ensures Consistent()
      ensures families == [] && transactions == []
      ensures nextFamilyId == 1 && nextTransactionId == 1
    {
      families, transactions := [], [];
      nextFamilyId, nextTransactionId := 1, 1;
      openings := map[];
    }

    /** The family list: all families for an empty search text, otherwise
        those whose name is LIKE `%search%`, in table order. */
    function LoadFamilies(search: string): (rows: seq<Family>)
      reads this
      ensures search == [] ==> rows == families
      ensures forall f :: f in rows <==> f in families && (search == [] || NameMatches(f.name, search))
      ensures search != [] && NoWildcards(search) ==>
        forall f :: f in rows <==> f in families && ContainsFolded(f.name, search)
      ensures Valid() ==> FamilyIdsAscending(rows)
    {
      var rows := SelectFamilies(families, search);
      assert Valid() ==> FamilyIdsAscending(rows) by {
        if Valid() { SelectFamiliesAscending(families, search); }
      }
      if search != [] && NoWildcards(search) then
        assert forall f :: f in families ==> (NameMatches(f.name, search) <==> ContainsFolded(f.name, search)) by {
          forall f | f in families
            ensures NameMatches(f.name, search) <==> ContainsFolded(f.name, search)
          {
            ContainsPatternIsSubstring(search, f.name);
          }
        }
        rows
      else rows
    }

    /** The detail screen: nothing without a selection; otherwise the row with
        the selected id, if any, and that id's transactions, newest first. */
    function LoadHistory(selected: Option<nat>): (view: Option<DetailView>)
      reads this
      ensures view.None? <==> selected.None?
      ensures view.Some? ==>
        var id := selected.value;
        && (view.value.family.Some? <==> exists f :: f in families && f.id == id)
        && (view.value.family.Some? ==> view.value.family.value in families && view.value.family.value.id == id)
        && (forall t :: t in view.value.history <==> t in transactions && t.familyId == id)
        && (Valid() ==> IdsDescending(view.value.history))
    {
      match selected
      case None => None
      case Some(id) =>
        assert Valid() ==> IdsDescending(HistoryOf(transactions, id)) by {
          if Valid() { HistoryNewestFirst(transactions, id); }
        }
        Some(DetailView(FindFamily(families, id), HistoryOf(transactions, id)))
    }

    /** `add_family_to_db`: with a name and a land area, inserts the family
        with its opening due as balance, and logs the opening due as an
        "Initial Balance" DEBIT only when it is positive. An empty opening-due
        field makes `main.py`'s `float('')` raise before anything is written. */
    method AddFamily(name: string, land: Option<real>, initialDue: Option<real>, now: Timestamp)
      returns (newId: Option<nat>)
      requires Valid()
      modifies this
      ensures Valid()
      ensures newId.Some? <==> name != [] && land.Some? && initialDue.Some?
      ensures newId.None? ==>
        && families == old(families) && transactions == old(transactions)
        && nextFamilyId == old(nextFamilyId) && nextTransactionId == old(nextTransactionId)
        && openings == old(openings)
      ensures newId.Some? ==>
        var id, due := newId.value, initialDue.value;
        var logged := InitialRows(id, due, now, old(nextTransactionId));
        && id == old(nextFamilyId) && nextFamilyId == id + 1
        && (forall f :: f in old(families) ==> f.id < id)
        && families == old(families) + [Family(id, name, land.value, due)]
        && openings == old(openings)[id := due]
        && transactions == old(transactions) + logged
        && nextTransactionId == old(nextTransactionId) + |logged|
        && (old(Consistent()) ==> HistoryOf(transactions, id) == logged)
      ensures old(Consistent()) ==> Consistent()
    {
      if name == [] || land.None? || initialDue.None? {
        return None;
      }
      var id, due := nextFamilyId, initialDue.value;
      AddFamilyKeepsLedger(families, transactions, nextFamilyId, nextTransactionId, openings,
                           name, land.value, due, now);
      families := families + [Family(id, name, land.value, due)];
      nextFamilyId := nextFamilyId + 1;
      openings := openings[id := due];
      if due > 0.0 {
        transactions := transactions + [Transaction(nextTransactionId, id, now, InitialBalance, due, Debit)];
        nextTransactionId := nextTransactionId + 1;
      }
      newId := Some(id);
    }

    /** `apply_period_update`: with a rate, walks the family table once and
        charges every family whose `land * rate` is positive by that fee,
        logging one DEBIT per charged family; the others are untouched. */
    method ApplyPeriodicFee(rate: Option<real>, now: Timestamp)
      requires Valid()
      modifies this
      ensures Valid()
      ensures nextFamilyId == old(nextFamilyId) && openings == old(openings)
      ensures rate.None? ==>
        families == old(families) && transactions == old(transactions)
        && nextTransactionId == old(nextTransactionId)
      ensures rate.Some? ==>
        && |families| == |old(families)|
        && (forall i :: 0 <= i < |families| ==> families[i] == ChargeFamily(old(families)[i], rate.value))
        && transactions == old(transactions) + FeeRows(old(families), rate.value, now, old(nextTransactionId))
        && nextTransactionId == old(nextTransactionId) + |Charged(old(families), rate.value)|
      ensures old(Consistent()) ==> Consistent()
    {
      if rate.None? {
        return;
      }
      var r := rate.value;
      var snapshot := families;  // the pass reads the whole table once, up front
      ghost var log0 := transactions;
      ghost var firstId := nextTransactionId;
      var i := 0;
      while i < |snapshot|
        invariant 0 <= i <= |snapshot|
        invariant |families| == |snapshot|
        invariant forall j :: 0 <= j < i ==> families[j] == ChargeFamily(snapshot[j], r)
        invariant forall j :: i <= j < |snapshot| ==> families[j] == snapshot[j]
        invariant transactions == log0 + FeeRows(snapshot[..i], r, now, firstId)
        invariant nextTransactionId == firstId + |FeeRows(snapshot[..i], r, now, firstId)|
        invariant nextFamilyId == old(nextFamilyId) && openings == old(openings)
      {
        var f := snapshot[i];
        var fee := Fee(f.land, r);  // land * rate
        FeeRowsStep(snapshot, i, r, now, firstId);
        if fee > 0.0 {
          // ids are unique, so `WHERE id = f.id` is the row at position i
          families := families[i := families[i].(balanceDue := families[i].balanceDue + fee)];
          transactions := transactions + [Transaction(nextTransactionId, f.id, now, PeriodicFee(r), fee, Debit)];
          nextTransactionId := nextTransactionId + 1;
        }
        i := i + 1;
      }
      assert snapshot[..i] == snapshot;
      assert families == ChargeAll(snapshot, r);
      FeeRowsAreCharges(snapshot, r, now, firstId);
      PeriodicFeeKeepsLedger(snapshot, log0, nextFamilyId, firstId, openings, r, now);
    }

    /** `process_payment`: with an amount and a selected family, subtracts the
        amount from the balance of the row with that id (no row if the id is
        unknown) and logs a "Payment Received" CREDIT for that id either way. */
    method ProcessPayment(selected: Option<nat>, amount: Option<real>, now: Timestamp)
      requires Valid()
      modifies this
      ensures Valid()
      ensures nextFamilyId == old(nextFamilyId) && openings == old(openings)
      ensures selected.None? || amount.None? ==>
        families == old(families) && transactions == old(transactions)
        && nextTransactionId == old(nextTransactionId)
      ensures selected.Some? && amount.Some? ==>
        var id, paid := selected.value, amount.value;
        && |families| == |old(families)|
        && (forall i :: 0 <= i < |families| ==>
              families[i] == if old(families)[i].id == id
                             then old(families)[i].(balanceDue := old(families)[i].balanceDue - paid)
                             else old(families)[i])
        && transactions == old(transactions) + [PaymentRow(old(nextTransactionId), id, now, paid)]
        && nextTransactionId == old(nextTransactionId) + 1
        && HistoryOf(transactions, id) == [transactions[|transactions| - 1]] + HistoryOf(old(transactions), id)
      ensures old(Consistent()) && (selected.Some? && amount.Some? ==> selected.value < nextFamilyId) ==>
        Consistent()
    {
      if selected.None? || amount.None? {
        return;
      }
      var id, paid := selected.value, amount.value;
      PaymentKeepsLedger(families, transactions, nextFamilyId, nextTransactionId, openings, id, paid, now);
      HistoryAfterAppend(transactions, PaymentRow(nextTransactionId, id, now, paid));
      families := Pay(families, id, paid);
      transactions := transactions + [PaymentRow(nextTransactionId, id, now, paid)];
      nextTransactionId := nextTransactionId + 1;
    }
  }
}
