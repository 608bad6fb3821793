/** The values that come back from the data store, and the records (row
    dictionaries) built from them. What a value means is left abstract: the
    model only tells nulls, numbers, strings and dates apart. */
module Values {

  datatype Date = Date(year: int, month: int, day: int)

  /** One cell: `None`/`NaN`/`NaT` are all `Null`; every Python number is a `Num`. */
  datatype Value = Null | Num(x: real) | Str(s: string) | DateV(d: Date)

  /** A row dictionary, keyed by column name. */
  type Record = map<string, Value>

  /** What a pydantic "before" model validator is handed: a dict, or anything else. */
  datatype Payload = Dict(fields: Record) | NotDict(other: Value)

  /** Python `v == 0`: true of the numbers equal to zero and of nothing else. */
  predicate IsZero(v: Value) {
    v == Num(0.0)
  }

  /** Chronological order on dates, `a <= b`. */
  predicate DateLe(a: Date, b: Date) {
    a.year < b.year
    || (a.year == b.year && (a.month < b.month || (a.month == b.month && a.day <= b.day)))
  }

  /** `{**d, key: None if pd.isna(d.get(key)) else d[key]}`: the record
      gains `key`, which is null when it was missing or null, and nothing
      else changes. */
  function NullMissing(d: Record, key: string): (r: Record)
    ensures r.Keys == d.Keys + {key}
    ensures r[key] == Null <==> key !in d || d[key] == Null
    ensures key in d ==> r[key] == d[key]
    ensures forall k :: k in d && k != key ==> r[k] == d[k]
  {
    if key in d then d else d[key := Null]
  }

  /** The query period of the financial-statement fetchers. */
  datatype Period = Annual | Ytd | Quarter

  /** The literal the query carries for each period. */
  function PeriodName(p: Period): string {
    match p
    case Annual => "annual"
    case Ytd => "ytd"
    case Quarter => "quarter"
  }
}
