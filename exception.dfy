/** `Exception.from`: normalizes any thrown value into an instance of the class it is
    called on (`Exception` or a subclass of it). */
module Exceptions {
  import opened Wrappers
  import opened JsValues
  import opened ErrorModel

  /** `cls.from(error, details)` with `cls` the calling class. An instance of `cls` comes
      back itself, with `details` merged in when given; another Error is wrapped with its
      message and stack; anything else becomes the message of a new instance. */
  method From(cls: ErrorClass, error: Thrown, details: Option<map<string, Value>>, capturedStack: string)
    returns (r: ErrorObject)
    requires ExceptionClass <= cls
    modifies Objects(error)
    ensures InstanceOf(r, cls)
    ensures error.ErrorValue? && InstanceOf(error.error, cls) ==>
      && r == error.error
      && r.details == (if details.Some? then old(error.error.details) + details.value else old(error.error.details))
      && r.name == old(error.error.name) && r.message == old(error.error.message)
      && r.stack == old(error.error.stack) && r.originalError == old(error.error.originalError)
    ensures error.ErrorValue? && !InstanceOf(error.error, cls) ==>
      && fresh(r) && r.cls == cls && r.name == ClassName(cls)
      && r.message == error.error.message && r.stack == error.error.stack
      && r.originalError == error.error && r.details == DetailsOrEmpty(details)
    ensures error.OtherValue? ==>
      && fresh(r) && r.cls == cls && r.name == ClassName(cls)
      && r.message == MessageOf(error.text) && r.stack == capturedStack
      && r.originalError == null && r.details == DetailsOrEmpty(details)
    ensures !(error.ErrorValue? && InstanceOf(error.error, cls) && details.Some?) ==> unchanged(Objects(error))
  {
    if error.ErrorValue? && InstanceOf(error.error, cls) {
      if details.Some? {
        error.error.details := error.error.details + details.value;
      }
      return error.error;
    }
    if error.ErrorValue? {
      r := new ErrorObject.Create(cls, Some(error.error.message), details, capturedStack);
      r.originalError := error.error;
      r.stack := error.error.stack;
      return;
    }
    r := new ErrorObject.Create(cls, error.text, details, capturedStack);
  }

  /** Normalizing twice is normalizing once: the second call returns the object the
      first one returned, and, given no details, leaves its details as the first call
      made them. */
  method FromTwice(cls: ErrorClass, error: Thrown, details: Option<map<string, Value>>, capturedStack: string)
    returns (first: ErrorObject, second: ErrorObject)
    requires ExceptionClass <= cls
    modifies Objects(error)
    ensures second == first && InstanceOf(first, cls)
    ensures first.details ==
      if error.ErrorValue? && InstanceOf(error.error, cls) then
        (if details.Some? then old(error.error.details) + details.value else old(error.error.details))
      else DetailsOrEmpty(details)
  {
    first := From(cls, error, details, capturedStack);
    second := From(cls, ErrorValue(first), None, capturedStack);
  }

  /** Called on a subclass, an instance of the base class only is wrapped, not passed
      through. */
  method SubclassWrapsBaseInstance(capturedStack: string) returns (base: ErrorObject, r: ErrorObject)
    ensures r != base && r.originalError == base
    ensures r.name == "TestError" && r.message == base.message
  {
    base := new ErrorObject.Create(ExceptionClass, Some("error message"), None, "at base");
    r := From(ExceptionClass + ["TestError"], ErrorValue(base), None, capturedStack);
  }
}
