/** The data-entry page: a form whose submission is validated and, when valid,
    stored as one new row of the production table; and the KPI summary computed
    over the stored rows (total OK, total NG, total production, yield). */
module AppRecord {
  import opened Common
  import opened Records

  /** A row of the production table the form writes to. */
  datatype Entry = Entry(
    date: Day,
    station: string,
    modelType: string,
    ok: nat,
    ng: nat,
    minutes: nat,
    batch: string,
    line: string)

  /** The values of the form's widgets at submission. The number inputs have
      `min_value=0` and `step=1`, so the counts and the minutes are naturals; a
      text input yields a string, possibly empty. */
  datatype Form = Form(
    date: Day,
    station: string,
    modelType: string,
    ok: nat,
    ng: nat,
    minutes: nat,
    batch: string,
    line: string)

  /** What the page shows after a run: nothing submitted, the "required" error,
      or the "saved" message. */
  datatype Outcome = Idle | Rejected | Saved

  /** `not station_name or not model_type`: a text input is falsy exactly when empty. */
  predicate MissingRequired(form: Form) {
    |form.station| == 0 || |form.modelType| == 0
  }

  /** The row the INSERT statement writes, each named parameter bound to its widget. */
  function ToEntry(form: Form): (e: Entry)
    ensures e.date == form.date && e.station == form.station && e.modelType == form.modelType
    ensures e.ok == form.ok && e.ng == form.ng && e.minutes == form.minutes
    ensures e.batch == form.batch && e.line == form.line
  {
    Entry(form.date, form.station, form.modelType, form.ok, form.ng, form.minutes, form.batch, form.line)
  }

  /** One run of the form: without a click nothing happens; a click with an empty
      station name or model type shows the error and writes nothing; otherwise
      exactly one row, carrying the form's values, is added to the table. */
  function Submit(table: seq<Entry>, submitted: bool, form: Form): (r: (Outcome, seq<Entry>))
    ensures r.0 == Idle <==> !submitted
    ensures r.0 == Rejected <==> submitted && (form.station == "" || form.modelType == "")
    ensures r.0 != Saved ==> r.1 == table
    ensures r.0 == Saved ==> |r.1| == |table| + 1 && r.1[..|table|] == table
    ensures r.0 == Saved ==> var e := r.1[|table|];
      && e.date == form.date && e.station == form.station && e.modelType == form.modelType
      && e.ok == form.ok && e.ng == form.ng && e.minutes == form.minutes
      && e.batch == form.batch && e.line == form.line
  {
    if !submitted then (Idle, table)
    else if MissingRequired(form) then (Rejected, table)
    else (Saved, table + [ToEntry(form)])
  }

  // ---------------------------------------------------------------------------
  // KPI summary

  function EntryOk(e: Entry): nat {
    e.ok
  }

  function EntryNg(e: Entry): nat {
    e.ng
  }

  /** `df["OK Quantity"].sum()`. */
  function TotalOk(table: seq<Entry>): nat {
    SumBy(table, EntryOk)
  }

  /** `df["NG Quantity"].sum()`. */
  function TotalNg(table: seq<Entry>): nat {
    SumBy(table, EntryNg)
  }

  /** The yield in percent, `total_ok / total_prod * 100`, and 0 when nothing was
      produced. */
  function Yield(ok: nat, ng: nat): (y: real)
    ensures ok + ng == 0 ==> y == 0.0
    ensures ok + ng > 0 ==> y * (ok + ng) as real == 100.0 * ok as real
    ensures 0.0 <= y <= 100.0
    ensures y == 100.0 <==> ok + ng > 0 && ng == 0
  {
    if ok + ng > 0 then
      var prod := (ok + ng) as real;
      var y := ok as real / prod * 100.0;
      assert y * prod == 100.0 * ok as real;
      assert y <= 100.0 by {
        assert ok as real <= prod;
        assert (100.0 - y) * prod == 100.0 * (prod - ok as real);
      }
      assert y == 100.0 ==> ng == 0 by {
        if y == 100.0 {
          assert 100.0 * prod == 100.0 * ok as real;
        }
      }
      y
    else 0.0
  }

  /** The KPI block, or the "no data" message for an empty table. */
  datatype Kpi = NoData | Summary(totalOk: nat, totalNg: nat, totalProd: nat, yieldPct: real)

  function Kpis(table: seq<Entry>): (k: Kpi)
    ensures k.NoData? <==> |table| == 0
    ensures k.Summary? ==> k.totalOk == TotalOk(table) && k.totalNg == TotalNg(table)
    ensures k.Summary? ==> k.totalProd == k.totalOk + k.totalNg
    ensures k.Summary? && k.totalProd > 0 ==> k.yieldPct * k.totalProd as real == 100.0 * k.totalOk as real
    ensures k.Summary? ==> 0.0 <= k.yieldPct <= 100.0
    ensures k.Summary? ==> (k.totalProd == 0 <==> k.yieldPct == 0.0 && k.totalNg == 0)
  {
    if |table| == 0 then NoData
    else
      var ok, ng := TotalOk(table), TotalNg(table);
      Summary(ok, ng, ok + ng, Yield(ok, ng))
  }

  /** The NG total is zero exactly when no row has an NG unit. */
  lemma {:induction false} TotalNgZero(table: seq<Entry>)
    ensures TotalNg(table) == 0 <==> forall e :: e in table ==> e.ng == 0
  {
    if |table| > 0 {
      TotalNgZero(table[1..]);
      assert forall e :: e in table <==> e == table[0] || e in table[1..] by {
        assert table == [table[0]] + table[1..];
      }
    }
  }

  /** The exact yield is 100 exactly when something was produced and no row has an
      NG unit. */
  lemma FullYield(table: seq<Entry>)
    requires |table| > 0
    ensures Kpis(table).yieldPct == 100.0 <==>
      Kpis(table).totalProd > 0 && forall e :: e in table ==> e.ng == 0
  {
    TotalNgZero(table);
  }

  /** A saved submission raises the OK and NG totals by the submitted counts, so
      the summary is shown afterwards. */
  lemma SaveUpdatesKpis(table: seq<Entry>, form: Form)
    requires !MissingRequired(form)
    ensures var after := Submit(table, true, form).1;
      && Kpis(after).Summary?
      && Kpis(after).totalOk == TotalOk(table) + form.ok
      && Kpis(after).totalNg == TotalNg(table) + form.ng
  {
    var e := ToEntry(form);
    SumByAppend(table, [e], EntryOk);
    SumByAppend(table, [e], EntryNg);
    assert [e][1..] == [];
  }

  /** The table is read `ORDER BY production_date DESC`; any order of the same rows
      gives the same KPIs. */
  lemma KpisPermutationInvariant(a: seq<Entry>, b: seq<Entry>)
    requires multiset(a) == multiset(b)
    ensures Kpis(a) == Kpis(b)
  {
    assert |a| == |multiset(a)| && |b| == |multiset(b)|;
    SumByPermutation(a, b, EntryOk);
    SumByPermutation(a, b, EntryNg);
  }

  /** Idle and rejected runs leave the KPIs as they were. */
  lemma UnsavedKeepsKpis(table: seq<Entry>, submitted: bool, form: Form)
    requires !submitted || MissingRequired(form)
    ensures Kpis(Submit(table, submitted, form).1) == Kpis(table)
  {
  }
}
