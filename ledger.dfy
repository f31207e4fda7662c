/** The ledger invariant over the two tables, the table-level effect of each
    ledger operation, and the proofs that every operation keeps the invariant. */
module Ledger {
  import opened Tables

  /** Shape of the tables: ids handed out in increasing order and below the
      AUTOINCREMENT counters, every family's opening due remembered. */
  ghost predicate WellFormed(fs: seq<Family>, ts: seq<Transaction>,
                             nextFamilyId: nat, nextTransactionId: nat, openings: map<nat, real>)
  {
    && 0 < nextFamilyId && 0 < nextTransactionId
    && FamilyIdsAscending(fs)
    && (forall i :: 0 <= i < |fs| ==> 0 < fs[i].id < nextFamilyId && fs[i].id in openings)
    && IdsAscending(ts)
    && (forall j :: 0 <= j < |ts| ==> 0 < ts[j].id < nextTransactionId)
  }

  /** No transaction names a family id that has not been handed out yet;
      such a row would be adopted by the family that later gets the id. */
  ghost predicate NoForwardReferences(ts: seq<Transaction>, nextFamilyId: nat)
  {
    forall j :: 0 <= j < |ts| ==> ts[j].familyId < nextFamilyId
  }

  /** Every balance due is the signed sum of the family's transactions plus
      the part of its opening due that was not logged as a DEBIT. */
  ghost predicate Balanced(fs: seq<Family>, ts: seq<Transaction>, openings: map<nat, real>)
  {
    forall i :: 0 <= i < |fs| ==>
      fs[i].id in openings &&
      fs[i].balanceDue == SignedSum(ts, fs[i].id) + Unlogged(openings[fs[i].id])
  }

  ghost predicate Consistent(fs: seq<Family>, ts: seq<Transaction>,
                             nextFamilyId: nat, nextTransactionId: nat, openings: map<nat, real>)
  {
    && WellFormed(fs, ts, nextFamilyId, nextTransactionId, openings)
    && NoForwardReferences(ts, nextFamilyId)
    && Balanced(fs, ts, openings)
  }

  // ------------------------------------------------- effects on the tables

  /** The "Initial Balance" row `add_family_to_db` logs: only for a positive due. */
  function InitialRows(familyId: nat, due: real, now: Timestamp, rowId: nat): seq<Transaction>
  {
    if due > 0.0 then [Transaction(rowId, familyId, now, InitialBalance, due, Debit)] else []
  }

  /** The family table after the fee pass. */
  function ChargeAll(fs: seq<Family>, rate: real): seq<Family>
  {
    seq(|fs|, i requires 0 <= i < |fs| => ChargeFamily(fs[i], rate))
  }

  /** The balance update of a payment: the row whose id matches, if any,
      owes `paid` less; every other row is left alone. */
  function Pay(fs: seq<Family>, id: nat, paid: real): seq<Family>
  {
    seq(|fs|, i requires 0 <= i < |fs| =>
      if fs[i].id == id then fs[i].(balanceDue := fs[i].balanceDue - paid) else fs[i])
  }

  /** The "Payment Received" row `process_payment` logs. */
  function PaymentRow(rowId: nat, familyId: nat, now: Timestamp, paid: real): Transaction
  {
    Transaction(rowId, familyId, now, PaymentReceived, paid, Credit)
  }

  // ------------------------------------------------------- table shape steps

  /** Appending a family with the counter's id keeps the family table well shaped. */
  lemma AppendFamilyShape(fs: seq<Family>, nf: nat, openings: map<nat, real>, f: Family, due: real)
    requires FamilyIdsAscending(fs)
    requires forall i :: 0 <= i < |fs| ==> 0 < fs[i].id < nf && fs[i].id in openings
    requires f.id == nf && 0 < nf
    ensures FamilyIdsAscending(fs + [f])
    ensures forall i :: 0 <= i < |fs + [f]| ==>
      0 < (fs + [f])[i].id < nf + 1 && (fs + [f])[i].id in openings[nf := due]
  {
    var fs' := fs + [f];
    forall i, j | 0 <= i < j < |fs'| ensures fs'[i].id < fs'[j].id {
      assert fs'[i] == fs[i];
    }
    forall i | 0 <= i < |fs'| ensures 0 < fs'[i].id < nf + 1 && fs'[i].id in openings[nf := due] {
      if i < |fs| { assert fs'[i] == fs[i]; }
    }
  }

  /** Appending rows numbered on from the counter keeps the log well shaped. */
  lemma AppendRowsShape(ts: seq<Transaction>, nt: nat, rows: seq<Transaction>)
    requires IdsAscending(ts)
    requires forall j :: 0 <= j < |ts| ==> 0 < ts[j].id < nt
    requires forall k :: 0 <= k < |rows| ==> rows[k].id == nt + k
    requires 0 < nt
    ensures IdsAscending(ts + rows)
    ensures forall j :: 0 <= j < |ts + rows| ==> 0 < (ts + rows)[j].id < nt + |rows|
  {
    var ts' := ts + rows;
    forall i, j | 0 <= i < j < |ts'| ensures ts'[i].id < ts'[j].id {
      if j < |ts| {
        assert ts'[i] == ts[i] && ts'[j] == ts[j];
      } else if i < |ts| {
        assert ts'[i] == ts[i] && ts'[j] == rows[j - |ts|];
      } else {
        assert ts'[i] == rows[i - |ts|] && ts'[j] == rows[j - |ts|];
      }
    }
    forall j | 0 <= j < |ts'| ensures 0 < ts'[j].id < nt + |rows| {
      if j < |ts| { assert ts'[j] == ts[j]; } else { assert ts'[j] == rows[j - |ts|]; }
    }
  }

  // ------------------------------------------------------------ preservation

  /** Adding a family keeps the tables well formed and the ledger balanced,
      and the new family's history is exactly its opening DEBIT, if any. */
  lemma AddFamilyKeepsLedger(fs: seq<Family>, ts: seq<Transaction>, nf: nat, nt: nat,
                             openings: map<nat, real>, name: string, land: real, due: real, now: Timestamp)
    requires WellFormed(fs, ts, nf, nt, openings)
    ensures var rows := InitialRows(nf, due, now, nt);
      WellFormed(fs + [Family(nf, name, land, due)], ts + rows, nf + 1, nt + |rows|, openings[nf := due])
    ensures var rows := InitialRows(nf, due, now, nt);
      Consistent(fs, ts, nf, nt, openings) ==>
        && Consistent(fs + [Family(nf, name, land, due)], ts + rows, nf + 1, nt + |rows|, openings[nf := due])
        && HistoryOf(ts + rows, nf) == rows
  {
    var rows := InitialRows(nf, due, now, nt);
    var fs', ts', op' := fs + [Family(nf, name, land, due)], ts + rows, openings[nf := due];
    AppendFamilyShape(fs, nf, openings, Family(nf, name, land, due), due);
    AppendRowsShape(ts, nt, rows);
    if Consistent(fs, ts, nf, nt, openings) {
      assert forall t :: t in ts ==> t.familyId != nf;
      AddFamilyHistory(ts, nf, due, now, nt);
      AppendRowsNoForwardReferences(ts, nf, rows);
      AddFamilyBalanced(fs, ts, nf, openings, Family(nf, name, land, due), now, nt);
    }
  }

  /** A new family's history is its opening DEBIT, if any. */
  lemma AddFamilyHistory(ts: seq<Transaction>, nf: nat, due: real, now: Timestamp, nt: nat)
    requires forall t :: t in ts ==> t.familyId != nf
    ensures HistoryOf(ts + InitialRows(nf, due, now, nt), nf) == InitialRows(nf, due, now, nt)
  {
    HistoryOfUnreferenced(ts, nf);
    if due > 0.0 {
      HistoryAfterAppend(ts, InitialRows(nf, due, now, nt)[0]);
    } else {
      assert ts + InitialRows(nf, due, now, nt) == ts;
    }
  }

  /** Rows that name a handed-out id keep the log free of forward references. */
  lemma AppendRowsNoForwardReferences(ts: seq<Transaction>, nf: nat, rows: seq<Transaction>)
    requires NoForwardReferences(ts, nf)
    requires forall k :: 0 <= k < |rows| ==> rows[k].familyId <= nf
    ensures NoForwardReferences(ts + rows, nf + 1)
  {
    var ts' := ts + rows;
    forall j | 0 <= j < |ts'| ensures ts'[j].familyId < nf + 1 {
      if j < |ts| { assert ts'[j] == ts[j]; } else { assert ts'[j] == rows[j - |ts|]; }
    }
  }

  /** The step of `AddFamilyKeepsLedger` for the balances. */
  lemma AddFamilyBalanced(fs: seq<Family>, ts: seq<Transaction>, nf: nat,
                          openings: map<nat, real>, f: Family, now: Timestamp, nt: nat)
    requires Balanced(fs, ts, openings)
    requires forall i :: 0 <= i < |fs| ==> fs[i].id < nf
    requires forall t :: t in ts ==> t.familyId != nf
    requires f.id == nf
    ensures Balanced(fs + [f], ts + InitialRows(nf, f.balanceDue, now, nt), openings[nf := f.balanceDue])
  {
    var rows := InitialRows(nf, f.balanceDue, now, nt);
    var fs', ts', op' := fs + [f], ts + rows, openings[nf := f.balanceDue];
    forall i | 0 <= i < |fs'|
      ensures fs'[i].id in op' &&
              fs'[i].balanceDue == SignedSum(ts', fs'[i].id) + Unlogged(op'[fs'[i].id])
    {
      if i < |fs| {
        assert fs'[i] == fs[i];
        OldFamilyUnaffected(ts, rows, fs[i].id, nf);
      } else {
        NewFamilyBalanced(ts, nf, f.balanceDue, now, nt);
      }
    }
  }

  /** Rows logged for a new id leave every older family's signed sum alone. */
  lemma OldFamilyUnaffected(ts: seq<Transaction>, rows: seq<Transaction>, id: nat, nf: nat)
    requires id != nf
    requires forall k :: 0 <= k < |rows| ==> rows[k].familyId == nf
    ensures SignedSum(ts + rows, id) == SignedSum(ts, id)
  {
    SignedSumAppend(ts, rows, id);
    SignedSumUnreferenced(rows, id);
  }

  /** A new family's opening due is its logged DEBIT or, if not positive, unlogged. */
  lemma NewFamilyBalanced(ts: seq<Transaction>, nf: nat, due: real, now: Timestamp, nt: nat)
    requires forall t :: t in ts ==> t.familyId != nf
    ensures due == SignedSum(ts + InitialRows(nf, due, now, nt), nf) + Unlogged(due)
  {
    var rows := InitialRows(nf, due, now, nt);
    SignedSumAppend(ts, rows, nf);
    SignedSumUnreferenced(ts, nf);
    assert rows != [] ==> rows[..0] == [];
  }

  /** The fee pass keeps the tables well formed and the ledger balanced. */
  lemma PeriodicFeeKeepsLedger(fs: seq<Family>, ts: seq<Transaction>, nf: nat, nt: nat,
                               openings: map<nat, real>, rate: real, now: Timestamp)
    requires WellFormed(fs, ts, nf, nt, openings)
    ensures var rows := FeeRows(fs, rate, now, nt);
      WellFormed(ChargeAll(fs, rate), ts + rows, nf, nt + |rows|, openings)
    ensures var rows := FeeRows(fs, rate, now, nt);
      Consistent(fs, ts, nf, nt, openings) ==>
        Consistent(ChargeAll(fs, rate), ts + rows, nf, nt + |rows|, openings)
  {
    var rows := FeeRows(fs, rate, now, nt);
    var fs', ts' := ChargeAll(fs, rate), ts + rows;
    FeeRowsAreCharges(fs, rate, now, nt);
    AppendRowsShape(ts, nt, rows);
    assert forall i :: 0 <= i < |fs'| ==> fs'[i].id == fs[i].id;
    if Consistent(fs, ts, nf, nt, openings) {
      forall j | 0 <= j < |ts'| ensures ts'[j].familyId < nf {
        if j < |ts| {
          assert ts'[j] == ts[j];
        } else {
          var c := Charged(fs, rate)[j - |ts|];
          assert ts'[j] == rows[j - |ts|] && rows[j - |ts|].familyId == c.id;
          assert c in fs;
        }
      }
      forall i | 0 <= i < |fs'|
        ensures fs'[i].id in openings &&
                fs'[i].balanceDue == SignedSum(ts', fs'[i].id) + Unlogged(openings[fs'[i].id])
      {
        SignedSumAppend(ts, rows, fs[i].id);
        FeeRowsSum(fs, rate, now, nt, i);
      }
    }
  }

  /** A payment keeps the tables well formed; it keeps the ledger balanced
      when the paid id has already been handed out. */
  lemma PaymentKeepsLedger(fs: seq<Family>, ts: seq<Transaction>, nf: nat, nt: nat,
                           openings: map<nat, real>, id: nat, paid: real, now: Timestamp)
    requires WellFormed(fs, ts, nf, nt, openings)
    ensures WellFormed(Pay(fs, id, paid), ts + [PaymentRow(nt, id, now, paid)], nf, nt + 1, openings)
    ensures Consistent(fs, ts, nf, nt, openings) && id < nf ==>
      Consistent(Pay(fs, id, paid), ts + [PaymentRow(nt, id, now, paid)], nf, nt + 1, openings)
  {
    var fs', ts' := Pay(fs, id, paid), ts + [PaymentRow(nt, id, now, paid)];
    AppendRowsShape(ts, nt, [PaymentRow(nt, id, now, paid)]);
    assert forall i :: 0 <= i < |fs'| ==> fs'[i].id == fs[i].id;
    assert ts'[..|ts'| - 1] == ts;
    if Consistent(fs, ts, nf, nt, openings) && id < nf {
      forall j | 0 <= j < |ts'| ensures ts'[j].familyId < nf {
        if j < |ts| { assert ts'[j] == ts[j]; }
      }
    }
  }

  /** A payment for an id no family has leaves every balance as it was. */
  lemma PaymentToUnknownFamily(fs: seq<Family>, id: nat, paid: real)
    requires forall f :: f in fs ==> f.id != id
    ensures Pay(fs, id, paid) == fs
  {
    assert forall i :: 0 <= i < |fs| ==> fs[i] in fs;
  }

  /** Why payments must name an id already handed out: a CREDIT for the next
      id on an empty database is adopted by the family added next, whose
      balance then disagrees with its history. */
  lemma ForwardPaymentBreaksLedger(now: Timestamp)
    ensures var ts := [PaymentRow(1, 1, now, 5.0)];
      && WellFormed([], ts, 1, 2, map[])
      && !Consistent([Family(1, "A", 1.0, 0.0)], ts + InitialRows(1, 0.0, now, 2), 2, 2, map[1 := 0.0])
  {
    var ts := [PaymentRow(1, 1, now, 5.0)];
    assert ts[..0] == [];
    assert SignedSum(ts, 1) == -5.0;
    assert ts + InitialRows(1, 0.0, now, 2) == ts;
    assert !Balanced([Family(1, "A", 1.0, 0.0)], ts, map[1 := 0.0]) by {
      assert [Family(1, "A", 1.0, 0.0)][0].balanceDue == 0.0;
    }
  }
}
