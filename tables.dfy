/** The two tables of the tracker's database (`families`, `transactions`),
    the read queries over them, and the value-level specification of the
    periodic fee pass, with the lemmas the ledger invariant rests on. */
module Tables {
  import opened SqlLike

  datatype Option<T> = None | Some(value: T)

  /** Wall-clock time as the application formats it ("%Y-%m-%d %H:%M"); the
      clock itself is outside the model and the value is passed in. */
  type Timestamp = string

  /** The `type` column: a DEBIT adds to the balance due, a CREDIT takes from it. */
  datatype Kind = Debit | Credit

  /** The `description` column. The periodic fee's text embeds the rate,
      so the rate is what it carries here. */
  datatype Description = InitialBalance | PeriodicFee(rate: real) | PaymentReceived

  /** A row of `families`. */
  datatype Family = Family(id: nat, name: string, land: real, balanceDue: real)

  /** A row of `transactions`. */
  datatype Transaction = Transaction(
    id: nat, familyId: nat, dateTime: Timestamp,
    description: Description, amount: real, kind: Kind)

  predicate FamilyIdsAscending(fs: seq<Family>)
  {
    forall i, j :: 0 <= i < j < |fs| ==> fs[i].id < fs[j].id
  }

  predicate IdsAscending(ts: seq<Transaction>)
  {
    forall i, j :: 0 <= i < j < |ts| ==> ts[i].id < ts[j].id
  }

  predicate IdsDescending(ts: seq<Transaction>)
  {
    forall i, j :: 0 <= i < j < |ts| ==> ts[i].id > ts[j].id
  }

  // ---------------------------------------------------------------- queries

  /** `name LIKE '%search%'` */
  predicate NameMatches(name: string, search: string)
  {
    Like(ContainsPattern(search), name)
  }

  /** The family listing: every row when the search text is empty, else the
      rows whose name is LIKE `%search%`, in table (ascending id) order. */
  function SelectFamilies(fs: seq<Family>, search: string): (rows: seq<Family>)
    ensures search == [] ==> rows == fs
    ensures forall f :: f in rows <==> f in fs && (search == [] || NameMatches(f.name, search))
  {
    if search == [] || fs == [] then fs
    else
      var pre, last := fs[..|fs| - 1], fs[|fs| - 1];
      assert fs == pre + [last];
      SelectFamilies(pre, search) + if NameMatches(last.name, search) then [last] else []
  }

  /** The filtered listing keeps the table's ascending id order. */
  lemma {:induction false} SelectFamiliesAscending(fs: seq<Family>, search: string)
    requires FamilyIdsAscending(fs)
    ensures FamilyIdsAscending(SelectFamilies(fs, search))
    decreases |fs|
  {
    if search != [] && fs != [] {
      var pre, last := fs[..|fs| - 1], fs[|fs| - 1];
      SelectFamiliesAscending(pre, search);
      if NameMatches(last.name, search) {
        assert forall g :: g in pre ==> g.id < last.id;
        AppendAscending(SelectFamilies(pre, search), last);
      }
    }
  }

  /** A row whose id exceeds every id of an ascending table keeps it ascending. */
  lemma AppendAscending(rows: seq<Family>, f: Family)
    requires FamilyIdsAscending(rows)
    requires forall g :: g in rows ==> g.id < f.id
    ensures FamilyIdsAscending(rows + [f])
  {
    var rows' := rows + [f];
    forall i, j | 0 <= i < j < |rows'| ensures rows'[i].id < rows'[j].id {
      assert rows'[i] == rows[i] && rows[i] in rows;
    }
  }

  /** The detail lookup: the first (and, ids being unique, only) row with the id. */
  function FindFamily(fs: seq<Family>, id: nat): (r: Option<Family>)
    ensures r.Some? ==> r.value in fs && r.value.id == id
    ensures r.None? ==> forall f :: f in fs ==> f.id != id
  {
    if fs == [] then None
    else if fs[0].id == id then Some(fs[0])
    else FindFamily(fs[1..], id)
  }

  /** One family's history: its rows of the log, latest appended first. */
  function HistoryOf(ts: seq<Transaction>, fid: nat): (rows: seq<Transaction>)
    ensures forall t :: t in rows <==> t in ts && t.familyId == fid
  {
    if ts == [] then []
    else
      var pre, last := ts[..|ts| - 1], ts[|ts| - 1];
      assert ts == pre + [last];
      (if last.familyId == fid then [last] else []) + HistoryOf(pre, fid)
  }

  /** In a log whose ids ascend in append order, the history is newest first. */
  lemma {:induction false} HistoryNewestFirst(ts: seq<Transaction>, fid: nat)
    requires IdsAscending(ts)
    ensures IdsDescending(HistoryOf(ts, fid))
    decreases |ts|
  {
    if ts != [] {
      var pre, last := ts[..|ts| - 1], ts[|ts| - 1];
      HistoryNewestFirst(pre, fid);
      if last.familyId == fid {
        assert forall u :: u in pre ==> u.id < last.id;
        PrependDescending(last, HistoryOf(pre, fid));
      }
    }
  }

  /** A row whose id exceeds every id of a descending list keeps it descending. */
  lemma PrependDescending(t: Transaction, rows: seq<Transaction>)
    requires IdsDescending(rows)
    requires forall u :: u in rows ==> u.id < t.id
    ensures IdsDescending([t] + rows)
  {
    var rows' := [t] + rows;
    forall i, j | 0 <= i < j < |rows'| ensures rows'[i].id > rows'[j].id {
      assert rows'[j] == rows[j - 1] && rows[j - 1] in rows;
    }
  }

  /** A transaction just appended for a family is the first row of its history. */
  lemma {:induction false} HistoryAfterAppend(ts: seq<Transaction>, t: Transaction)
    ensures HistoryOf(ts + [t], t.familyId) == [t] + HistoryOf(ts, t.familyId)
  {
    assert (ts + [t])[..|ts|] == ts;
  }

  /** A family no transaction refers to has an empty history. */
  lemma {:induction false} HistoryOfUnreferenced(ts: seq<Transaction>, fid: nat)
    requires forall t :: t in ts ==> t.familyId != fid
    ensures HistoryOf(ts, fid) == []
    decreases |ts|
  {
    if ts != [] {
      HistoryOfUnreferenced(ts[..|ts| - 1], fid);
    }
  }

  // ----------------------------------------------------------- the ledger sum

  /** A transaction's effect on the balance due. */
  function Signed(t: Transaction): real
  {
    match t.kind
    case Debit => t.amount
    case Credit => -t.amount
  }

  /** The signed sum of one family's transactions (DEBIT +, CREDIT −). */
  function SignedSum(ts: seq<Transaction>, fid: nat): real
  {
    if ts == [] then 0.0
    else
      var last := ts[|ts| - 1];
      SignedSum(ts[..|ts| - 1], fid) + (if last.familyId == fid then Signed(last) else 0.0)
  }

  /** The part of an opening due that no transaction records: a positive one
      is logged as its own DEBIT, zero or a negative one is not. */
  function Unlogged(openingDue: real): real
  {
    if openingDue <= 0.0 then openingDue else 0.0
  }

  lemma {:induction false} SignedSumAppend(a: seq<Transaction>, b: seq<Transaction>, fid: nat)
    ensures SignedSum(a + b, fid) == SignedSum(a, fid) + SignedSum(b, fid)
    decreases |b|
  {
    if b == [] {
      assert a + b == a;
    } else {
      var b' := b[..|b| - 1];
      assert (a + b)[..|a + b| - 1] == a + b';
      SignedSumAppend(a, b', fid);
    }
  }

  lemma {:induction false} SignedSumUnreferenced(ts: seq<Transaction>, fid: nat)
    requires forall t :: t in ts ==> t.familyId != fid
    ensures SignedSum(ts, fid) == 0.0
    decreases |ts|
  {
    if ts != [] {
      SignedSumUnreferenced(ts[..|ts| - 1], fid);
    }
  }

  // ------------------------------------------------------ the periodic fee

  /** A family's periodic fee: its land area times the rate per acre. */
  function Fee(land: real, rate: real): real
  {
    land * rate
  }

  /** A family after the fee pass: charged only when its fee is positive. */
  function ChargeFamily(f: Family, rate: real): Family
  {
    var fee := Fee(f.land, rate);
    if fee > 0.0 then f.(balanceDue := f.balanceDue + fee) else f
  }

  /** The families the fee pass charges, in table order. */
  function Charged(fs: seq<Family>, rate: real): (r: seq<Family>)
    ensures forall f :: f in r <==> f in fs && Fee(f.land, rate) > 0.0
    ensures |r| <= |fs|
  {
    if fs == [] then []
    else
      var last := fs[|fs| - 1];
      assert fs == fs[..|fs| - 1] + [last];
      Charged(fs[..|fs| - 1], rate) + (if Fee(last.land, rate) > 0.0 then [last] else [])
  }

  /** The DEBIT rows the fee pass appends, ids counting up from `firstId`. */
  function FeeRows(fs: seq<Family>, rate: real, now: Timestamp, firstId: nat): seq<Transaction>
  {
    if fs == [] then []
    else
      var last := fs[|fs| - 1];
      var prev := FeeRows(fs[..|fs| - 1], rate, now, firstId);
      var fee := Fee(last.land, rate);
      if fee > 0.0 then prev + [Transaction(firstId + |prev|, last.id, now, PeriodicFee(rate), fee, Debit)]
      else prev
  }

  /** One step of the fee pass over the table prefix `fs[..i]`. */
  lemma FeeRowsStep(fs: seq<Family>, i: nat, rate: real, now: Timestamp, firstId: nat)
    requires i < |fs|
    ensures var prev := FeeRows(fs[..i], rate, now, firstId);
      var fee := Fee(fs[i].land, rate);
      FeeRows(fs[..i + 1], rate, now, firstId)
        == prev + if fee > 0.0 then [Transaction(firstId + |prev|, fs[i].id, now, PeriodicFee(rate), fee, Debit)] else []
  {
    assert fs[..i + 1][..i] == fs[..i];
  }

  /** The fee pass logs exactly one DEBIT per charged family, in table order,
      for that family's fee, with consecutive ids. */
  lemma {:induction false} FeeRowsAreCharges(fs: seq<Family>, rate: real, now: Timestamp, firstId: nat)
    ensures |FeeRows(fs, rate, now, firstId)| == |Charged(fs, rate)|
    ensures forall k :: 0 <= k < |FeeRows(fs, rate, now, firstId)| ==>
      var c := Charged(fs, rate)[k];
      FeeRows(fs, rate, now, firstId)[k]
        == Transaction(firstId + k, c.id, now, PeriodicFee(rate), Fee(c.land, rate), Debit)
    decreases |fs|
  {
    if fs != [] {
      FeeRowsAreCharges(fs[..|fs| - 1], rate, now, firstId);
    }
  }

  /** Fee rows only ever name families of the table they were drawn from. */
  lemma {:induction false} FeeRowsUnreferenced(fs: seq<Family>, rate: real, now: Timestamp, firstId: nat, fid: nat)
    requires forall f :: f in fs ==> f.id != fid
    ensures forall t :: t in FeeRows(fs, rate, now, firstId) ==> t.familyId != fid
    decreases |fs|
  {
    if fs != [] {
      var pre := fs[..|fs| - 1];
      assert forall f :: f in pre ==> f in fs;
      FeeRowsUnreferenced(pre, rate, now, firstId, fid);
    }
  }

  /** With distinct family ids, the fee rows add to a family's signed sum
      exactly what the pass adds to its balance. */
  lemma {:induction false} FeeRowsSum(fs: seq<Family>, rate: real, now: Timestamp, firstId: nat, k: nat)
    requires FamilyIdsAscending(fs)
    requires k < |fs|
    ensures SignedSum(FeeRows(fs, rate, now, firstId), fs[k].id)
         == ChargeFamily(fs[k], rate).balanceDue - fs[k].balanceDue
    decreases |fs|
  {
    var n := |fs| - 1;
    var pre := fs[..n];
    var last := fs[n];
    var prev := FeeRows(pre, rate, now, firstId);
    var fee := Fee(last.land, rate);
    var rows := FeeRows(fs, rate, now, firstId);
    if k < n {
      FeeRowsSum(pre, rate, now, firstId, k);
      assert pre[k] == fs[k];
      if fee > 0.0 {
        assert rows[..|rows| - 1] == prev;
      }
    } else {
      assert forall f :: f in pre ==> f.id != last.id;
      FeeRowsUnreferenced(pre, rate, now, firstId, last.id);
      SignedSumUnreferenced(prev, last.id);
      if fee > 0.0 {
        assert rows[..|rows| - 1] == prev;
      }
    }
  }
}
