/**
 * `handle_validate_item_import` in weko_search_ui/utils.py: every imported
 * record is paired with the messages the JSON-schema validator reports for
 * its metadata. The validator is an oracle from a metadata value to its list
 * of messages (the schema is fixed inside it).
 */
module ImportValidation {
  import opened Wrappers
  import opened JsonValues

  /** A record read from the import file: a dict from field names to values. */
  type Record = seq<(string, Json)>

  /** `record.get('metadata')` is truthy. */
  predicate HasMetadata(record: Record)
  {
    Get(record, "metadata").Some? && Truthy(Get(record, "metadata").value)
  }

  /** `errors if len(errors) else None`. */
  function ErrorsValue(messages: seq<string>): (v: Json)
    ensures v == Null <==> |messages| == 0
    ensures |messages| > 0 ==>
      v.List? && |v.items| == |messages| && forall i :: 0 <= i < |messages| ==> v.items[i] == Str(messages[i])
  {
    if |messages| > 0 then List(seq(|messages|, i requires 0 <= i < |messages| => Str(messages[i]))) else Null
  }

  /**
   * The entry for one record: the record with an `errors` key added last.
   * `dict(**record, **{'errors': …})` rejects a record that already has one.
   */
  function ItemError(record: Record, messages: seq<string>): Result<Record, PyError>
  {
    if Get(record, "errors").Some? then Err(TypeError)
    else Ok(record + [("errors", ErrorsValue(messages))])
  }

  /** The messages for one record as the loop is evidently meant to compute them: none without metadata. */
  function Messages(record: Record, validate: Json -> seq<string>): seq<string>
  {
    if HasMetadata(record) then validate(Get(record, "metadata").value) else []
  }

  /**
   * The loop as written: `errors` is assigned only for a record with
   * metadata, so a record without metadata reuses the previous record's
   * messages, and the first record without metadata reads an unbound local.
   * `carried` is the value `errors` holds on entry (None while unbound).
   */
  function ValidateAsWritten(records: seq<Record>, validate: Json -> seq<string>, carried: Option<seq<string>>)
    : Result<seq<Record>, PyError>
    decreases |records|
  {
    if |records| == 0 then Ok([])
    else
      var errors := if HasMetadata(records[0]) then Some(validate(Get(records[0], "metadata").value)) else carried;
      if errors.None? then Err(UnboundLocalError)
      else match ItemError(records[0], errors.value)
        case Err(e) => Err(e)
        case Ok(item) =>
          match ValidateAsWritten(records[1..], validate, errors)
          case Err(e) => Err(e)
          case Ok(rest) => Ok([item] + rest)
  }

  /** A record with metadata that the validator rejects, then one without metadata. */
  const rejected: Record := [("metadata", Str("m"))]
  const noMetadata: Record := [("title", Str("t"))]

  /** A validator that reports one message for any metadata. */
  const alwaysBad: Json -> seq<string> := m => ["bad"]

  /**
   * As written, the record without metadata is reported with the previous
   * record's messages; with `errors` reset per record it gets `None`.
   */
  lemma StaleErrorsExample()
    ensures ValidateAsWritten([rejected, noMetadata], alwaysBad, None)
      == Ok([rejected + [("errors", List([Str("bad")]))], noMetadata + [("errors", List([Str("bad")]))]])
    ensures ItemError(noMetadata, Messages(noMetadata, alwaysBad)) == Ok(noMetadata + [("errors", Null)])
  {
    var item1 := rejected + [("errors", List([Str("bad")]))];
    var item2 := noMetadata + [("errors", List([Str("bad")]))];
    var two := [rejected, noMetadata];
    assert HasMetadata(rejected) && !HasMetadata(noMetadata);
    assert Get(rejected, "errors").None? && Get(noMetadata, "errors").None?;
    assert alwaysBad(Str("m")) == ["bad"];
    assert ErrorsValue(["bad"]) == List([Str("bad")]);
    assert two[0] == rejected && two[1..][0] == noMetadata && two[1..][1..] == [];
    assert ItemError(noMetadata, ["bad"]) == Ok(item2);
    assert ItemError(rejected, ["bad"]) == Ok(item1);
    assert ValidateAsWritten(two[1..][1..], alwaysBad, Some(["bad"])) == Ok([]);
    assert [item2] + [] == [item2];
    assert ValidateAsWritten(two[1..], alwaysBad, Some(["bad"])) == Ok([item2]);
    assert [item1] + [item2] == [item1, item2];
  }

  /** As written, an import whose first record has no metadata fails on the unbound `errors`. */
  lemma UnboundErrorsExample(validate: Json -> seq<string>)
    ensures ValidateAsWritten([noMetadata], validate, None) == Err(UnboundLocalError)
    ensures ItemError(noMetadata, Messages(noMetadata, validate)).Ok?
  {
    assert !HasMetadata(noMetadata);
  }

  /**
   * `handle_validate_item_import` with `errors` reset for every record: one
   * entry per record, in the same order, each the record plus its `errors`
   * (`None` when the validator reports nothing or there is no metadata). A
   * record that already has an `errors` key makes the call fail.
   */
  method HandleValidateItemImport(records: seq<Record>, validate: Json -> seq<string>)
    returns (r: Result<seq<Record>, PyError>)
    ensures r.Ok? <==> forall i :: 0 <= i < |records| ==> Get(records[i], "errors").None?
    ensures r.Err? ==> r.error == TypeError
    ensures r.Ok? ==> |r.value| == |records| && forall i :: 0 <= i < |records| ==>
      r.value[i] == records[i] + [("errors", ErrorsValue(Messages(records[i], validate)))]
  {
    var result: seq<Record> := [];
    for i := 0 to |records|
      invariant |result| == i
      invariant forall j :: 0 <= j < i ==> Get(records[j], "errors").None?
      invariant forall j :: 0 <= j < i ==>
        result[j] == records[j] + [("errors", ErrorsValue(Messages(records[j], validate)))]
    {
      var errors: seq<string> := [];
      if HasMetadata(records[i]) {
        errors := validate(Get(records[i], "metadata").value);
      }
      var item := ItemError(records[i], errors);
      if item.Err? {
        return Err(item.error);
      }
      result := result + [item.value];
    }
    return Ok(result);
  }
}
