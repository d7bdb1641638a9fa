/**
 * The request helpers of services/orders/features/utils.py: required-field
 * validation and the standard API response.
 */
module Utils {
  import opened Wrappers
  import opened Text
  import opened Responses

  const SuccessKey := "success"
  const TimestampKey := "timestamp"

  /**
   * `create_api_response`: the response body (before `jsonify`) and the
   * status code, which is passed through unchanged. The timestamp text is
   * the clock reading, taken as an input.
   */
  function CreateApiResponse(success: bool, data: Value, message: Option<string>, error: Option<string>,
                             statusCode: int, timestamp: string): (r: (map<string, Value>, int))
    ensures r.1 == statusCode
    ensures SuccessKey in r.0 && r.0[SuccessKey] == Bool(success)
    ensures TimestampKey in r.0 && r.0[TimestampKey] == Str(timestamp)
    ensures DataKey in r.0 <==> data != Null
    ensures DataKey in r.0 ==> r.0[DataKey] == data
    ensures MessageKey in r.0 <==> Truthy(message)
    ensures MessageKey in r.0 ==> r.0[MessageKey] == Str(message.value)
    ensures ErrorKey in r.0 <==> Truthy(error)
    ensures ErrorKey in r.0 ==> r.0[ErrorKey] == Str(error.value)
    ensures forall k :: k in r.0 ==> k in {SuccessKey, TimestampKey, DataKey, MessageKey, ErrorKey}
  {
    (WithOptionalKeys(map[SuccessKey := Bool(success), TimestampKey := Str(timestamp)], data, message, error),
     statusCode)
  }

  const RequiredMessage := "Request data is required"
  const MissingPrefix := "Missing required fields: "

  /** The required fields absent from `data`, in `required` order, duplicates kept. */
  function MissingFields(data: map<string, Value>, required: seq<string>): (m: seq<string>)
    ensures |m| <= |required|
  {
    if required == [] then []
    else (if required[0] in data then [] else [required[0]]) + MissingFields(data, required[1..])
  }

  /** A field is reported iff it is required and absent. */
  lemma {:induction false} MissingFieldsMembers(data: map<string, Value>, required: seq<string>)
    ensures forall f :: f in MissingFields(data, required) <==> f in required && f !in data
  {
    if required != [] {
      MissingFieldsMembers(data, required[1..]);
      assert required == [required[0]] + required[1..];
    }
  }

  /** Each absent field is reported as many times as it is required; a present one never. */
  lemma {:induction false} MissingFieldsCount(data: map<string, Value>, required: seq<string>, f: string)
    ensures multiset(MissingFields(data, required))[f] == if f in data then 0 else multiset(required)[f]
  {
    if required != [] {
      assert required == [required[0]] + required[1..];
      MissingFieldsCount(data, required[1..], f);
    }
  }

  /** The missing list of a concatenation is the concatenation of the missing lists: order is kept. */
  lemma {:induction false} MissingFieldsConcat(data: map<string, Value>, a: seq<string>, b: seq<string>)
    ensures MissingFields(data, a + b) == MissingFields(data, a) + MissingFields(data, b)
  {
    if a == [] {
      assert a + b == b;
    } else {
      var head := if a[0] in data then [] else [a[0]];
      assert (a + b)[0] == a[0];
      assert (a + b)[1..] == a[1..] + b;
      assert MissingFields(data, a + b) == head + MissingFields(data, a[1..] + b);
      MissingFieldsConcat(data, a[1..], b);
      assert MissingFields(data, a) == head + MissingFields(data, a[1..]);
    }
  }

  /**
   * `validate_request_data`: `None` when the data is usable, otherwise the
   * error text. `data` is `None` for a missing body.
   */
  function ValidateRequestData(data: Option<map<string, Value>>, required: seq<string>): (r: Option<string>)
    ensures r.None? <==> data.Some? && data.value != map[] && forall f :: f in required ==> f in data.value
    ensures (data.None? || data.value == map[]) ==> r == Some(RequiredMessage)
    ensures data.Some? && data.value != map[] && r.Some? ==>
      MissingFields(data.value, required) != [] &&
      r.value == MissingPrefix + Join(", ", MissingFields(data.value, required))
  {
    if data.None? || data.value == map[] then Some(RequiredMessage)
    else
      var missing := MissingFields(data.value, required);
      MissingFieldsMembers(data.value, required);
      if missing != [] then
        assert missing[0] in missing;
        Some(MissingPrefix + Join(", ", missing))
      else None
  }

  /** An empty body is refused even when nothing is required. */
  lemma EmptyBodyRefused()
    ensures ValidateRequestData(None, []) == Some(RequiredMessage)
    ensures ValidateRequestData(Some(map[]), []) == Some(RequiredMessage)
  {
  }

  /** A field required twice and missing is reported twice. */
  lemma DuplicateReportedTwice(f: string)
    requires f != "x"
    ensures ValidateRequestData(Some(map["x" := Null]), [f, f]) == Some(MissingPrefix + f + ", " + f)
  {
    var data := map["x" := Null];
    assert "x" in data && data != map[];
    assert [f, f][1..] == [f];
    assert [f][1..] == [];
    assert MissingFields(data, [f]) == [f];
    assert MissingFields(data, [f, f]) == [f, f];
    assert Join(", ", [f, f]) == f + ", " + f by {
      assert Join(", ", [f]) == f;
    }
    assert ValidateRequestData(Some(data), [f, f]) == Some(MissingPrefix + Join(", ", [f, f]));
    assert MissingPrefix + (f + ", " + f) == MissingPrefix + f + ", " + f;
  }
}
