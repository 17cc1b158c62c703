/** A production record as the dashboards read it: one row per station event,
    carrying the station, the shift checkpoint (time bucket), the production date,
    the model type, the batch and the OK / NG unit counts. */
module Records {
  import opened Common


  /** A calendar date, as a day number (`pd.to_datetime` of a date compares as its day). */
  type Day = int

  datatype Record = Record(
    date: Day,
    time: string,
    station: string,
    modelType: string,
    batch: string,
    line: string,
    ok: nat,
    ng: nat)

  /** The text columns of a record, by which the reports group, filter and colour. */
  datatype Field = TimeField | StationField | ModelTypeField | BatchField | LineField

  function Value(r: Record, f: Field): string {
    match f
    case TimeField => r.time
    case StationField => r.station
    case ModelTypeField => r.modelType
    case BatchField => r.batch
    case LineField => r.line
  }

  /** Some record carries v in field f. */
  predicate Carries(rs: seq<Record>, f: Field, v: string) {
    exists r :: r in rs && Value(r, f) == v
  }

  /** One text column of the record set, `df[f]`. */
  function Column(rs: seq<Record>, f: Field): (vs: seq<string>)
    ensures |vs| == |rs|
  {
    if |rs| == 0 then [] else [Value(rs[0], f)] + Column(rs[1..], f)
  }

  /** Every record's value occurs in the column. */
  lemma {:induction false} ColumnHasValues(rs: seq<Record>, f: Field)
    ensures forall r :: r in rs ==> Value(r, f) in Column(rs, f)
  {
    if |rs| > 0 {
      ColumnHasValues(rs[1..], f);
      assert forall r :: r in rs ==> r == rs[0] || r in rs[1..];
    }
  }

  /** Every value of the column is some record's value. */
  lemma {:induction false} ColumnValuesFromRecords(rs: seq<Record>, f: Field, v: string)
    requires v in Column(rs, f)
    ensures Carries(rs, f, v)
  {
    if Value(rs[0], f) == v {
      assert rs[0] in rs;
    } else {
      ColumnValuesFromRecords(rs[1..], f, v);
      var r :| r in rs[1..] && Value(r, f) == v;
      assert r in rs;
    }
  }

  /** A value occurs in a column exactly when some record carries it. */
  lemma ColumnMembers(rs: seq<Record>, f: Field)
    ensures forall v :: v in Column(rs, f) <==> Carries(rs, f, v)
  {
    ColumnHasValues(rs, f);
    forall v | v in Column(rs, f)
      ensures Carries(rs, f, v)
    {
      ColumnValuesFromRecords(rs, f, v);
    }
  }

  /** The OK count of a record. */
  function OkCount(r: Record): nat {
    r.ok
  }

  /** The sum of the OK column. */
  function SumOk(rs: seq<Record>): nat {
    SumBy(rs, OkCount)
  }
}
