/**
 * JSON-like Python values and the optional-key rule shared by
 * `create_api_response` (services/orders/features/utils.py) and
 * `BaseService.create_response` (services/orders/features/base_service.py).
 */
module Responses {
  import opened Wrappers

  /** A Python value that can appear in a response; `Null` is `None`. */
  datatype Value =
    | Null
    | Bool(b: bool)
    | Int(i: int)
    | Str(s: string)
    | List(items: seq<Value>)
    | Object(fields: map<string, Value>)

  const DataKey := "data"
  const MessageKey := "message"
  const ErrorKey := "error"

  /**
   * The three conditional insertions: 'data' unless it is `None` (so falsy
   * values such as 0 or {} are kept), 'message' and 'error' only when
   * truthy (so an empty string is dropped).
   */
  function WithOptionalKeys(base: map<string, Value>, data: Value, message: Option<string>, error: Option<string>)
    : (r: map<string, Value>)
    requires DataKey !in base && MessageKey !in base && ErrorKey !in base
    ensures forall k :: k in base ==> k in r && r[k] == base[k]
    ensures DataKey in r <==> data != Null
    ensures DataKey in r ==> r[DataKey] == data
    ensures MessageKey in r <==> Truthy(message)
    ensures MessageKey in r ==> r[MessageKey] == Str(message.value)
    ensures ErrorKey in r <==> Truthy(error)
    ensures ErrorKey in r ==> r[ErrorKey] == Str(error.value)
    ensures forall k :: k in r ==> k in base || k == DataKey || k == MessageKey || k == ErrorKey
  {
    var withData := if data != Null then base[DataKey := data] else base;
    var withMessage := if Truthy(message) then withData[MessageKey := Str(message.value)] else withData;
    if Truthy(error) then withMessage[ErrorKey := Str(error.value)] else withMessage
  }

  /** Falsy data is still included; only `None` is left out. */
  lemma FalsyDataKept(base: map<string, Value>, message: Option<string>, error: Option<string>)
    requires DataKey !in base && MessageKey !in base && ErrorKey !in base
    ensures WithOptionalKeys(base, Int(0), message, error)[DataKey] == Int(0)
    ensures WithOptionalKeys(base, Object(map[]), message, error)[DataKey] == Object(map[])
    ensures WithOptionalKeys(base, Str(""), message, error)[DataKey] == Str("")
    ensures WithOptionalKeys(base, Bool(false), message, error)[DataKey] == Bool(false)
  {
  }

  /** An empty message or error string is omitted, exactly as a missing one. */
  lemma EmptyTextOmitted(base: map<string, Value>, data: Value)
    requires DataKey !in base && MessageKey !in base && ErrorKey !in base
    ensures WithOptionalKeys(base, data, Some(""), Some("")) == WithOptionalKeys(base, data, None, None)
  {
  }
}
