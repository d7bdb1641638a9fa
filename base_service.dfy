/** `BaseService` (services/orders/features/base_service.py): its name and its response builder. */
module BaseService {
  import opened Wrappers
  import opened Responses

  const SuccessKey := "success"
  const ServiceKey := "service"

  class BaseService {
    /** `self.service_name`, fixed at construction. */
    const serviceName: string

    /**
     * `__init__`: the given name when it is truthy, otherwise the name of
     * the concrete class, passed in as `className`.
     */
    constructor (serviceName: Option<string>, className: string)
      ensures Truthy(serviceName) ==> this.serviceName == serviceName.value
      ensures !Truthy(serviceName) ==> this.serviceName == className
    {
      this.serviceName := if Truthy(serviceName) then serviceName.value else className;
    }

    /** `create_response`: always 'success' and 'service', then the optional keys. */
    function CreateResponse(success: bool, data: Value, message: Option<string>, error: Option<string>)
      : (r: map<string, Value>)
      ensures SuccessKey in r && r[SuccessKey] == Bool(success)
      ensures ServiceKey in r && r[ServiceKey] == Str(serviceName)
      ensures DataKey in r <==> data != Null
      ensures DataKey in r ==> r[DataKey] == data
      ensures MessageKey in r <==> Truthy(message)
      ensures MessageKey in r ==> r[MessageKey] == Str(message.value)
      ensures ErrorKey in r <==> Truthy(error)
      ensures ErrorKey in r ==> r[ErrorKey] == Str(error.value)
      ensures forall k :: k in r ==> k in {SuccessKey, ServiceKey, DataKey, MessageKey, ErrorKey}
    {
      WithOptionalKeys(map[SuccessKey := Bool(success), ServiceKey := Str(serviceName)], data, message, error)
    }
  }
}
