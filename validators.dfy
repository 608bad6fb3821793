/** The "before" validators that clean one row dictionary ahead of schema
    validation, and the query-parameter rewrite every fetcher applies. The
    zero and empty-string validators occur verbatim in several fetchers; each
    is defined once here. */
module Validators {
  import opened Wrappers
  import opened Strs
  import opened Values
  import opened Dates
  import References

  // ---------------------------------------------------------------------
  // replace_zero

  /** `{k: None if v == 0 else v for k, v in values.items()}` on a dict;
      anything else passes through. */
  function ReplaceZero(p: Payload): (r: Payload)
    ensures p.NotDict? ==> r == p
    ensures p.Dict? ==> r.Dict? && r.fields.Keys == p.fields.Keys
    ensures p.Dict? ==> forall k :: k in r.fields ==> !IsZero(r.fields[k])
    ensures p.Dict? ==> forall k :: k in r.fields ==>
      (r.fields[k] == Null <==> p.fields[k] == Null || IsZero(p.fields[k]))
    ensures p.Dict? ==> forall k :: k in r.fields && r.fields[k] != Null ==> r.fields[k] == p.fields[k]
  {
    match p
    case NotDict(_) => p
    case Dict(fields) => Dict(map k | k in fields :: if IsZero(fields[k]) then Null else fields[k])
  }

  /** Running the validator twice changes nothing more. */
  lemma ReplaceZeroIdempotent(p: Payload)
    ensures ReplaceZero(ReplaceZero(p)) == ReplaceZero(p)
  {
    if p.Dict? {
      var once := ReplaceZero(p).fields;
      var twice := ReplaceZero(ReplaceZero(p)).fields;
      assert forall k :: k in twice ==> twice[k] == once[k];
      assert twice == once;
    }
  }

  // ---------------------------------------------------------------------
  // replace_empty_strings

  /** Python `v in ("", "NA")`. */
  predicate IsEmptyMarker(v: Value) {
    v == Str("") || v == Str("NA")
  }

  /** `{k: None if v in ("", "NA") else v for k, v in values.items()}` on a
      dict; anything else passes through. */
  function ReplaceEmptyStrings(p: Payload): (r: Payload)
    ensures p.NotDict? ==> r == p
    ensures p.Dict? ==> r.Dict? && r.fields.Keys == p.fields.Keys
    ensures p.Dict? ==> forall k :: k in r.fields ==> !IsEmptyMarker(r.fields[k])
    ensures p.Dict? ==> forall k :: k in r.fields ==>
      (r.fields[k] == Null <==> p.fields[k] == Null || IsEmptyMarker(p.fields[k]))
    ensures p.Dict? ==> forall k :: k in r.fields && r.fields[k] != Null ==> r.fields[k] == p.fields[k]
  {
    match p
    case NotDict(_) => p
    case Dict(fields) => Dict(map k | k in fields :: if IsEmptyMarker(fields[k]) then Null else fields[k])
  }

  lemma ReplaceEmptyStringsIdempotent(p: Payload)
    ensures ReplaceEmptyStrings(ReplaceEmptyStrings(p)) == ReplaceEmptyStrings(p)
  {
    if p.Dict? {
      var once := ReplaceEmptyStrings(p).fields;
      var twice := ReplaceEmptyStrings(ReplaceEmptyStrings(p)).fields;
      assert forall k :: k in twice ==> twice[k] == once[k];
      assert twice == once;
    }
  }

  // ---------------------------------------------------------------------
  // validate_date

  /** `validate_date`: a date or `None` is returned as it is; a falsy value
      (the empty string, zero) gives `None`; any other string goes through
      `date.fromisoformat`, and any other number makes it raise `TypeError`. */
  function ValidateDate(v: Value): (r: Result<Value>)
    ensures r.Ok? ==> r.value.Null? || (r.value.DateV? && ValidDate(r.value.d)) || r.value == v
    ensures v.DateV? || v.Null? ==> r == Ok(v)
    ensures v == Str("") || v == Num(0.0) ==> r == Ok(Null)
    ensures v.Str? && v.s != "" ==> (r.Ok? <==> ParseIsoDate(v.s).Some?)
    ensures v.Str? && v.s != "" && r.Ok? ==> r.value.DateV? && FormatIsoDate(r.value.d) == v.s
    ensures v.Num? && v.x != 0.0 ==> r == Err(TypeError)
  {
    match v
    case DateV(_) => Ok(v)
    case Null => Ok(v)
    case Str(s) =>
      if s == "" then Ok(Null)
      else (match ParseIsoDate(s)
        case Some(d) =>
          ParseThenFormat(s);
          Ok(DateV(d))
        case None => Err(ValueError("Invalid isoformat string: '" + s + "'")))
    case Num(x) => if x == 0.0 then Ok(Null) else Err(TypeError)
  }

  /** A date validated from its own text comes back unchanged. */
  lemma ValidateFormattedDate(d: Date)
    requires ValidDate(d)
    ensures ValidateDate(Str(FormatIsoDate(d))) == Ok(DateV(d))
  {
    FormatThenParse(d);
  }

  // ---------------------------------------------------------------------
  // transform_query

  /** Python truthiness of a parameter value. */
  predicate Truthy(v: Value) {
    match v
    case Null => false
    case Num(x) => x != 0.0
    case Str(s) => s != ""
    case DateV(_) => true
  }

  /** `params["symbol"] = convert_stock_code_format(params.get("symbol", ""))`:
      the symbol parameter is rewritten to prefix form and nothing else
      changes; a symbol that is not a string has no `split` and raises. A
      missing symbol defaults to `""`, which converts to `""`
      (`References.ConvertBlank`). */
  function TransformSymbolParam(params: Record): (r: Result<Record>)
    ensures "symbol" !in params ==> r == Ok(params["symbol" := Str("")])
    ensures "symbol" in params ==>
      (r.Ok? <==> params["symbol"].Str? && References.ConvertStockCodeFormat(params["symbol"].s).Ok?)
    ensures "symbol" in params && r.Ok? ==>
      r.value == params["symbol" := Str(References.ConvertStockCodeFormat(params["symbol"].s).value)]
  {
    if "symbol" in params then
      match params["symbol"]
      case Str(s) => ConvertedParams(params, "symbol", References.ConvertStockCodeFormat(s))
      case _ => Err(AttributeError)
    else
      References.ConvertBlank("");
      ConvertedParams(params, "symbol", References.ConvertStockCodeFormat(""))
  }

  /** The parameters with `key` set to the converted text, or the conversion's error. */
  function ConvertedParams(params: Record, key: string, converted: Result<string>): (r: Result<Record>)
    ensures r.Ok? <==> converted.Ok?
    ensures r.Ok? ==> r.value == params[key := Str(converted.value)]
  {
    match converted
    case Ok(c) => Ok(params[key := Str(c)])
    case Err(e) => Err(e)
  }

  /** The search fetchers' `transform_query`: the `query` parameter is
      converted only when it is truthy; otherwise the parameters pass through. */
  function TransformSearchQuery(params: Record): (r: Result<Record>)
    ensures !("query" in params && Truthy(params["query"])) ==> r == Ok(params)
    ensures "query" in params && Truthy(params["query"]) ==>
      (r.Ok? <==> params["query"].Str? && References.ConvertStockCodeFormat(params["query"].s).Ok?)
    ensures r.Ok? && "query" in params && Truthy(params["query"]) ==>
      r.value == params["query" := Str(References.ConvertStockCodeFormat(params["query"].s).value)]
  {
    if "query" in params && Truthy(params["query"]) then
      var v := params["query"];
      if !v.Str? then Err(AttributeError)
      else
        ConvertedParams(params, "query", References.ConvertStockCodeFormat(v.s))
    else Ok(params)
  }
}
