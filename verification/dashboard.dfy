/** The real-time dashboard's reporting logic: the three header filters (model
    type, inclusive date range, batch), the option lists of the two select boxes,
    and the reordering of rows by the canonical station order before a bar chart
    is drawn. */
module Dashboard {
  import opened Common
  import opened Strings
  import opened Records

  /** The select-box entry that switches its filter off. */
  const All: string := "All"

  // ---------------------------------------------------------------------------
  // Filters

  /** One of the dashboard's filters. */
  datatype Criterion =
    | ModelTypeIs(modelType: string)    // the "Type Module" select box
    | DateWithin(start: Day, end: Day)  // the "Start Date" and "End Date" inputs
    | BatchIs(batch: string)            // the "Batch" select box

  /** The boolean mask a filter applies when it is switched on. */
  predicate Matches(c: Criterion, r: Record) {
    match c
    case ModelTypeIs(t) => r.modelType == t
    case DateWithin(start, end) => start <= r.date && r.date <= end
    case BatchIs(b) => r.batch == b
  }

  /** A select box left at "All" applies no mask; the date range is always applied. */
  predicate SwitchedOff(c: Criterion) {
    match c
    case ModelTypeIs(t) => t == All
    case DateWithin(_, _) => false
    case BatchIs(b) => b == All
  }

  /** `df[mask]`: the rows the mask keeps, in their order. */
  function Mask(rs: seq<Record>, c: Criterion): (kept: seq<Record>)
    ensures forall r :: r in kept <==> r in rs && Matches(c, r)
  {
    if |rs| == 0 then []
    else
      assert forall r :: r in rs <==> r == rs[0] || r in rs[1..] by {
        assert rs == [rs[0]] + rs[1..];
      }
      (if Matches(c, rs[0]) then [rs[0]] else []) + Mask(rs[1..], c)
  }

  /** One filter step of the dashboard: unchanged for "All", masked otherwise. */
  function Apply(rs: seq<Record>, c: Criterion): seq<Record> {
    if SwitchedOff(c) then rs else Mask(rs, c)
  }

  /** Whether a record passes one filter. */
  predicate Admits(c: Criterion, r: Record) {
    SwitchedOff(c) || Matches(c, r)
  }

  /** Whether a record passes every filter of cs. */
  predicate AdmitsAll(cs: seq<Criterion>, r: Record) {
    forall c :: c in cs ==> Admits(c, r)
  }

  /** Reference: the records that pass every filter of cs, in input order. */
  function Select(rs: seq<Record>, cs: seq<Criterion>): seq<Record> {
    if |rs| == 0 then []
    else (if AdmitsAll(cs, rs[0]) then [rs[0]] else []) + Select(rs[1..], cs)
  }

  /** Applies the filters of cs one after the other. */
  function ApplyAll(rs: seq<Record>, cs: seq<Criterion>): seq<Record>
    decreases |cs|
  {
    if |cs| == 0 then rs else ApplyAll(Apply(rs, cs[0]), cs[1..])
  }

  /** The state of the dashboard's header. */
  datatype Selection = Selection(modelType: string, start: Day, end: Day, batch: string)

  /** The filters in the order the dashboard applies them. */
  function Criteria(sel: Selection): seq<Criterion> {
    [ModelTypeIs(sel.modelType), DateWithin(sel.start, sel.end), BatchIs(sel.batch)]
  }

  /** Whether a record is shown under the selection. */
  predicate Shown(sel: Selection, r: Record) {
    && (sel.modelType == All || r.modelType == sel.modelType)
    && sel.start <= r.date <= sel.end
    && (sel.batch == All || r.batch == sel.batch)
  }

  /** `filtered_df`: the model-type filter, then the date range, then the batch
      filter. */
  function Filtered(rs: seq<Record>, sel: Selection): (shown: seq<Record>)
    ensures forall r :: r in shown <==> r in rs && Shown(sel, r)
    ensures sel.start > sel.end ==> shown == []
  {
    var byType := Apply(rs, ModelTypeIs(sel.modelType));
    var byDate := Apply(byType, DateWithin(sel.start, sel.end));
    var shown := Apply(byDate, BatchIs(sel.batch));
    assert sel.start > sel.end ==> shown == [] by {
      if sel.start > sel.end && |shown| > 0 {
        HeadIsMember(shown);
        assert false;
      }
    }
    shown
  }

  /** The model-type filter is the identity for "All" and otherwise keeps exactly
      the rows of that model type; the batch filter likewise. */
  lemma SelectBoxFilter(rs: seq<Record>, v: string)
    ensures v == All ==> Apply(rs, ModelTypeIs(v)) == rs && Apply(rs, BatchIs(v)) == rs
    ensures v != All ==> forall r :: r in Apply(rs, ModelTypeIs(v)) <==> r in rs && r.modelType == v
    ensures v != All ==> forall r :: r in Apply(rs, BatchIs(v)) <==> r in rs && r.batch == v
  {
  }

  /** The date filter keeps exactly the rows dated within [start, end], both ends
      included. */
  lemma DateFilter(rs: seq<Record>, start: Day, end: Day)
    ensures forall r :: r in Apply(rs, DateWithin(start, end)) <==> r in rs && start <= r.date <= end
  {
  }

  lemma {:induction false} SelectConcat(a: seq<Record>, b: seq<Record>, cs: seq<Criterion>)
    ensures Select(a + b, cs) == Select(a, cs) + Select(b, cs)
  {
    if |a| > 0 {
      assert (a + b)[1..] == a[1..] + b;
      SelectConcat(a[1..], b, cs);
    } else {
      assert a + b == b;
    }
  }

  /** A filter step selects the records its one criterion admits. */
  lemma {:induction false} ApplyIsSelect(rs: seq<Record>, c: Criterion)
    ensures Apply(rs, c) == Select(rs, [c])
  {
    if |rs| > 0 {
      ApplyIsSelect(rs[1..], c);
      assert AdmitsAll([c], rs[0]) <==> Admits(c, rs[0]) by {
        assert forall d :: d in [c] <==> d == c;
      }
      assert rs == [rs[0]] + rs[1..];
    }
  }

  /** Filtering twice selects what passes both lists of criteria. */
  lemma {:induction false} SelectSelect(rs: seq<Record>, cs: seq<Criterion>, ds: seq<Criterion>)
    ensures Select(Select(rs, cs), ds) == Select(rs, cs + ds)
  {
    if |rs| > 0 {
      SelectSelect(rs[1..], cs, ds);
      var head := if AdmitsAll(cs, rs[0]) then [rs[0]] else [];
      SelectConcat(head, Select(rs[1..], cs), ds);
      assert AdmitsAll(cs + ds, rs[0]) <==> AdmitsAll(cs, rs[0]) && AdmitsAll(ds, rs[0]) by {
        assert forall c :: c in cs + ds <==> c in cs || c in ds;
      }
    }
  }

  /** Applying filters one after the other selects the records that pass all of them. */
  lemma {:induction false} ApplyAllIsSelect(rs: seq<Record>, cs: seq<Criterion>)
    ensures ApplyAll(rs, cs) == Select(rs, cs)
    decreases |cs|
  {
    if |cs| == 0 {
      SelectNone(rs, cs);
    } else {
      ApplyIsSelect(rs, cs[0]);
      ApplyAllIsSelect(Apply(rs, cs[0]), cs[1..]);
      SelectSelect(rs, [cs[0]], cs[1..]);
      assert [cs[0]] + cs[1..] == cs;
    }
  }

  /** With no criteria every record is selected. */
  lemma {:induction false} SelectNone(rs: seq<Record>, cs: seq<Criterion>)
    requires |cs| == 0
    ensures Select(rs, cs) == rs
  {
    if |rs| > 0 {
      SelectNone(rs[1..], cs);
      assert rs == [rs[0]] + rs[1..];
    }
  }

  /** Selection depends on the set of criteria only, not on their order or repetition. */
  lemma {:induction false} SelectSameCriteria(rs: seq<Record>, cs: seq<Criterion>, ds: seq<Criterion>)
    requires forall c :: c in cs <==> c in ds
    ensures Select(rs, cs) == Select(rs, ds)
  {
    if |rs| > 0 {
      SelectSameCriteria(rs[1..], cs, ds);
      assert AdmitsAll(cs, rs[0]) == AdmitsAll(ds, rs[0]);
    }
  }

  /** The dashboard's filtered records are the records that pass all three
      filters, and applying the three filters in any order gives the same rows. */
  lemma FilterOrderIndependent(rs: seq<Record>, sel: Selection, cs: seq<Criterion>)
    requires multiset(cs) == multiset(Criteria(sel))
    ensures Filtered(rs, sel) == Select(rs, Criteria(sel))
    ensures ApplyAll(rs, cs) == Filtered(rs, sel)
  {
    var cr := Criteria(sel);
    assert Filtered(rs, sel) == ApplyAll(rs, cr) by {
      var a1 := Apply(rs, cr[0]);
      var a2 := Apply(a1, cr[1]);
      var a3 := Apply(a2, cr[2]);
      assert ApplyAll(a2, cr[2..]) == a3 by {
        assert cr[2..][0] == cr[2] && cr[2..][1..] == [];
      }
      assert ApplyAll(a1, cr[1..]) == ApplyAll(a2, cr[2..]) by {
        assert cr[1..][0] == cr[1] && cr[1..][1..] == cr[2..];
      }
    }
    ApplyAllIsSelect(rs, cr);
    ApplyAllIsSelect(rs, cs);
    forall c ensures c in cs <==> c in cr {
      assert c in cs <==> c in multiset(cs);
      assert c in cr <==> c in multiset(cr);
    }
    SelectSameCriteria(rs, cs, cr);
  }

  /** Selection keeps the order of the records it keeps. */
  lemma {:induction false} SelectIsSubsequence(rs: seq<Record>, cs: seq<Criterion>)
    ensures IsSubsequence(Select(rs, cs), rs)
  {
    if |rs| > 0 {
      SelectIsSubsequence(rs[1..], cs);
      var s := Select(rs, cs);
      if AdmitsAll(cs, rs[0]) {
        assert s[0] == rs[0] && s[1..] == Select(rs[1..], cs);
      } else {
        assert s == Select(rs[1..], cs);
      }
    }
  }

  /** The filtered records are an order-preserving subsequence of the input. */
  lemma FilteredIsSubsequence(rs: seq<Record>, sel: Selection)
    ensures IsSubsequence(Filtered(rs, sel), rs)
  {
    FilterOrderIndependent(rs, sel, Criteria(sel));
    SelectIsSubsequence(rs, Criteria(sel));
  }

  // ---------------------------------------------------------------------------
  // Option lists of the select boxes

  /** `["All"] + df['batch_number'].unique().tolist()`. */
  function BatchOptions(rs: seq<Record>): (opts: seq<string>)
    ensures |opts| >= 1 && opts[0] == All
    ensures Distinct(opts[1..])
    ensures forall b :: b in opts[1..] <==> Carries(rs, BatchField, b)
  {
    ColumnMembers(rs, BatchField);
    var opts := [All] + Unique(Column(rs, BatchField));
    assert opts[1..] == Unique(Column(rs, BatchField));
    opts
  }

  lemma BatchOptionsLayout(rs: seq<Record>)
    ensures BatchOptions(rs) == [All] + Unique(Column(rs, BatchField))
  {
  }

  /** After "All", the batches are listed in the order of their first appearance. */
  lemma BatchOptionsFirstSeen(rs: seq<Record>, i: nat, j: nat)
    requires 1 <= i < j < |BatchOptions(rs)|
    ensures BatchOptions(rs)[i] in Column(rs, BatchField) && BatchOptions(rs)[j] in Column(rs, BatchField)
    ensures FirstIndex(Column(rs, BatchField), BatchOptions(rs)[i]) < FirstIndex(Column(rs, BatchField), BatchOptions(rs)[j])
  {
    var batches := Column(rs, BatchField);
    var u := Unique(batches);
    var x, y := BatchOptions(rs)[i], BatchOptions(rs)[j];
    assert i - 1 < j - 1 < |u| && x == u[i - 1] && y == u[j - 1] by {
      BatchOptionsLayout(rs);
    }
    UniqueFirstSeenAt(batches, i - 1, j - 1, x, y);
  }

  /** `["All"] + sorted(df['model_type'].dropna().unique().tolist())`. */
  function ModelTypeOptions(rs: seq<Record>): (opts: seq<string>)
    ensures |opts| >= 1 && opts[0] == All
    ensures StrictlySorted(opts[1..])
    ensures forall t :: t in opts[1..] <==> Carries(rs, ModelTypeField, t)
  {
    ColumnMembers(rs, ModelTypeField);
    var opts := [All] + SortedDistinct(Column(rs, ModelTypeField));
    assert opts[1..] == SortedDistinct(Column(rs, ModelTypeField));
    opts
  }

  // ---------------------------------------------------------------------------
  // Canonical order for the bar chart

  /** `pd.Categorical` raises ValueError when the categories are not unique. */
  datatype PlotError = CategoriesNotUnique

  /** The categorical code of a value: its position in the order, or missing (NaN)
      for a value the order does not list. */
  function Code(order: seq<string>, v: string): (k: Option<nat>)
    ensures k.Some? <==> v in order
    ensures k.Some? ==> k.value < |order| && order[k.value] == v
  {
    if v in order then Some(FirstIndex(order, v)) else None
  }

  /** The sort key of `sort_values`: the code, with missing values after all codes. */
  function Rank(order: seq<string>, v: string): (k: nat)
    ensures k <= |order|
    ensures k == |order| <==> v !in order
  {
    match Code(order, v)
    case Some(k) => k
    case None => |order|
  }

  /** The sort key of a row: the rank of its colour-column value. */
  function Key(order: seq<string>, color: Field, r: Record): nat {
    Rank(order, Value(r, color))
  }

  predicate SortedByRank(rs: seq<Record>, color: Field, order: seq<string>) {
    forall i, j :: 0 <= i < j < |rs| ==> Key(order, color, rs[i]) <= Key(order, color, rs[j])
  }

  /** Insertion of one row into rows sorted by rank, before the first row that
      does not rank below it. */
  function InsertByRank(x: Record, rs: seq<Record>, color: Field, order: seq<string>): (s: seq<Record>)
    ensures multiset(s) == multiset(rs) + multiset{x}
    ensures |s| == |rs| + 1 && (s[0] == x || (|rs| > 0 && s[0] == rs[0]))
  {
    if |rs| == 0 then [x]
    else if Key(order, color, x) <= Key(order, color, rs[0]) then [x] + rs
    else
      assert rs == [rs[0]] + rs[1..];
      [rs[0]] + InsertByRank(x, rs[1..], color, order)
  }

  /** A row that ranks no higher than the first of sorted rows can go before them. */
  lemma PrependSorted(h: Record, t: seq<Record>, color: Field, order: seq<string>)
    requires SortedByRank(t, color, order)
    requires |t| > 0 ==> Key(order, color, h) <= Key(order, color, t[0])
    ensures SortedByRank([h] + t, color, order)
  {
    var s := [h] + t;
    forall i, j | 0 <= i < j < |s|
      ensures Key(order, color, s[i]) <= Key(order, color, s[j])
    {
      if i > 0 {
        assert s[i] == t[i - 1] && s[j] == t[j - 1];
      } else {
        assert s[j] == t[j - 1];
      }
    }
  }

  /** Insertion keeps rows sorted by rank. */
  lemma {:induction false} InsertByRankSorted(x: Record, rs: seq<Record>, color: Field, order: seq<string>)
    requires SortedByRank(rs, color, order)
    ensures SortedByRank(InsertByRank(x, rs, color, order), color, order)
  {
    if |rs| > 0 && Key(order, color, x) <= Key(order, color, rs[0]) {
      PrependSorted(x, rs, color, order);
    } else if |rs| > 0 {
      var tail := rs[1..];
      var t := InsertByRank(x, tail, color, order);
      InsertByRankSorted(x, tail, color, order);
      assert Key(order, color, rs[0]) <= Key(order, color, t[0]) by {
        if t[0] != x {
          assert t[0] == rs[1];
        }
      }
      PrependSorted(rs[0], t, color, order);
    }
  }

  /** Insertion sort by rank. */
  function SortByRank(rs: seq<Record>, color: Field, order: seq<string>): (s: seq<Record>)
    ensures SortedByRank(s, color, order)
    ensures multiset(s) == multiset(rs)
  {
    if |rs| == 0 then []
    else
      assert rs == [rs[0]] + rs[1..];
      var t := SortByRank(rs[1..], color, order);
      InsertByRankSorted(rs[0], t, color, order);
      InsertByRank(rs[0], t, color, order)
  }

  /** The ordering step of `bar_plot`: with a non-empty order and a colour column
      present in the frame, the column becomes categorical over the order and the
      rows are sorted by it, missing values last; otherwise the rows are left
      as they are. */
  function OrderForPlot(rs: seq<Record>, color: Option<Field>, order: Option<seq<string>>)
    : (r: Result<seq<Record>, PlotError>)
    ensures (order.None? || |order.value| == 0 || color.None?) ==> r == Success(rs)
    ensures order.Some? && |order.value| > 0 && color.Some? ==> (r.Failure? <==> !Distinct(order.value))
    ensures r.Success? ==> multiset(r.value) == multiset(rs)
    ensures r.Success? && order.Some? && color.Some? ==> SortedByRank(r.value, color.value, order.value)
  {
    if order.None? || |order.value| == 0 || color.None? then Success(rs)
    else if !Distinct(order.value) then Failure(CategoriesNotUnique)
    else Success(SortByRank(rs, color.value, order.value))
  }

  /** After ordering, a row whose value the order does not list comes after every
      row whose value it lists. */
  lemma UnknownSortLast(rs: seq<Record>, color: Field, order: seq<string>, i: nat, j: nat)
    requires OrderForPlot(rs, Some(color), Some(order)).Success?
    requires var s := OrderForPlot(rs, Some(color), Some(order)).value;
      i < |s| && j < |s| && Code(order, Value(s[i], color)).None? && Code(order, Value(s[j], color)).Some?
    ensures j < i
  {
    var s := OrderForPlot(rs, Some(color), Some(order)).value;
    assert Key(order, color, s[i]) == |order|;
    assert Key(order, color, s[j]) < |order|;
  }
}
