/** The equity profile fetcher's `transform_data`: the symbols are reverted
    in place, then each record is validated, which nulls empty strings and
    coerces the listing date. */
module EquityProfile {
  import opened Wrappers
  import opened Values
  import References
  import Validators

  /** The key the `first_stock_price_date` field is read from. */
  const ListDate: string := "list_date"

  /** The "before" validators on one record: `replace_empty_strings` on the
      whole dict, then `validate_date` on the listing date when there is one. */
  function ValidateProfile(d: Record): (r: Result<Record>)
    ensures r.Ok? ==> r.value.Keys == d.Keys
    ensures r.Ok? ==> forall k :: k in d && k != ListDate ==>
      r.value[k] == if Validators.IsEmptyMarker(d[k]) then Null else d[k]
    ensures ListDate in d && (d[ListDate].Null? || d[ListDate].DateV? || Validators.IsEmptyMarker(d[ListDate])) ==>
      r.Ok? && r.value[ListDate] == if d[ListDate].DateV? then d[ListDate] else Null
    ensures ListDate in d && d[ListDate].Str? && !Validators.IsEmptyMarker(d[ListDate]) ==>
      (r.Ok? <==> Validators.ValidateDate(d[ListDate]).Ok?)
    ensures ListDate in d && !Validators.IsEmptyMarker(d[ListDate]) ==>
      && (r.Ok? <==> Validators.ValidateDate(d[ListDate]).Ok?)
      && (r.Ok? ==> r.value[ListDate] == Validators.ValidateDate(d[ListDate]).value)
    ensures ListDate !in d ==> r.Ok?
  {
    var cleaned := Validators.ReplaceEmptyStrings(Dict(d)).fields;
    if ListDate in cleaned then
      var v :- Validators.ValidateDate(cleaned[ListDate]);
      Ok(cleaned[ListDate := v])
    else Ok(cleaned)
  }

  /** `[model_validate(d) for d in data]`: every record validated, in order;
      the first record that fails makes the whole list fail. */
  function ValidateAll(data: seq<Record>): (r: Result<seq<Record>>)
    ensures r.Ok? <==> forall i :: 0 <= i < |data| ==> ValidateProfile(data[i]).Ok?
    ensures r.Ok? ==> |r.value| == |data| && forall i :: 0 <= i < |data| ==> ValidateProfile(data[i]) == Ok(r.value[i])
  {
    if data == [] then Ok([])
    else
      var head :- ValidateProfile(data[0]);
      var tail :- ValidateAll(data[1..]);
      assert forall i :: 1 <= i < |data| ==> data[i] == data[1..][i - 1];
      Ok([head] + tail)
  }

  /** `transform_data`: the caller's records get their symbols reverted in
      place, then the reverted records are validated. */
  method TransformData(data: array<Record>) returns (r: Result<seq<Record>>)
    modifies data
    ensures var k := References.FirstUnrevertable(old(data[..]));
      && (k < data.Length ==> r == Err(References.RevertRecord(old(data[k])).error))
      && (k == data.Length ==> r == ValidateAll(data[..]))
      && (forall i :: 0 <= i < k ==> data[i] == References.RevertRecord(old(data[i])).value)
      && (forall i :: k <= i < data.Length ==> data[i] == old(data[i]))
  {
    var err := References.RevertStockCodeFormat(data);
    if err.Some? {
      return Err(err.value);
    }
    r := ValidateAll(data[..]);
  }
}
