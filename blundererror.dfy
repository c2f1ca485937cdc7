/** `BlunderError.from`: the normalizer the bus uses. Unlike `Exception.from` it does
    not depend on the class it is called on: it always tests for, and constructs,
    `BlunderError`. */
module BlunderErrors {
  import opened Wrappers
  import opened JsValues
  import opened ErrorModel

  /** `BlunderError.from(error, details)`. */
  method From(error: Thrown, details: Option<map<string, Value>>, capturedStack: string)
    returns (r: ErrorObject)
    modifies Objects(error)
    ensures InstanceOf(r, BlunderErrorClass)
    ensures error.ErrorValue? && InstanceOf(error.error, BlunderErrorClass) ==>
      && r == error.error
      && r.details == (if details.Some? then old(error.error.details) + details.value else old(error.error.details))
      && r.name == old(error.error.name) && r.message == old(error.error.message)
      && r.stack == old(error.error.stack) && r.originalError == old(error.error.originalError)
    ensures error.ErrorValue? && !InstanceOf(error.error, BlunderErrorClass) ==>
      && fresh(r) && r.cls == BlunderErrorClass && r.name == "BlunderError"
      && r.message == error.error.message && r.stack == error.error.stack
      && r.originalError == error.error && r.details == DetailsOrEmpty(details)
    ensures error.OtherValue? ==>
      && fresh(r) && r.cls == BlunderErrorClass && r.name == "BlunderError"
      && r.message == MessageOf(error.text) && r.stack == capturedStack
      && r.originalError == null && r.details == DetailsOrEmpty(details)
    ensures !(error.ErrorValue? && InstanceOf(error.error, BlunderErrorClass) && details.Some?) ==>
      unchanged(Objects(error))
  {
    if error.ErrorValue? && InstanceOf(error.error, BlunderErrorClass) {
      if details.Some? {
        error.error.details := error.error.details + details.value;
      }
      return error.error;
    }
    if error.ErrorValue? {
      r := new ErrorObject.Create(BlunderErrorClass, Some(error.error.message), details, capturedStack);
      r.originalError := error.error;
      r.stack := error.error.stack;
      return;
    }
    r := new ErrorObject.Create(BlunderErrorClass, error.text, details, capturedStack);
  }

  /** `from(from(x))` is `from(x)`: the result is always a BlunderError, a BlunderError
      comes back as itself, and its details are those the first call made. */
  method FromTwice(error: Thrown, details: Option<map<string, Value>>, capturedStack: string)
    returns (first: ErrorObject, second: ErrorObject)
    modifies Objects(error)
    ensures second == first && InstanceOf(first, BlunderErrorClass)
    ensures first.details ==
      if error.ErrorValue? && InstanceOf(error.error, BlunderErrorClass) then
        (if details.Some? then old(error.error.details) + details.value else old(error.error.details))
      else DetailsOrEmpty(details)
  {
    first := From(error, details, capturedStack);
    second := From(ErrorValue(first), None, capturedStack);
  }

  /** Merging details twice: the union of both, the later keys winning. */
  method MergeTwice(e: ErrorObject, d1: map<string, Value>, d2: map<string, Value>, capturedStack: string)
    requires InstanceOf(e, BlunderErrorClass)
    modifies e
    ensures e.details == old(e.details) + d1 + d2
    ensures forall k :: k in d2 ==> e.details[k] == d2[k]
    ensures forall k :: k in d1 && k !in d2 ==> e.details[k] == d1[k]
    ensures forall k :: k in e.details <==> k in old(e.details) || k in d1 || k in d2
  {
    var r1 := From(ErrorValue(e), Some(d1), capturedStack);
    var r2 := From(ErrorValue(e), Some(d2), capturedStack);
  }

  /** A plain `Error` becomes a new BlunderError named "BlunderError" with the error's
      message and stack, and the error as `originalError`. */
  method ConvertsNormalError() returns (error: ErrorObject, r: ErrorObject)
    ensures r != error && InstanceOf(r, BlunderErrorClass) && !InstanceOf(error, BlunderErrorClass)
    ensures r.name == "BlunderError" && r.message == "error message"
    ensures r.stack == error.stack && r.originalError == error && r.details == map[]
  {
    error := new ErrorObject.Native(["Error"], "error message", "Error: error message\n    at test");
    r := From(ErrorValue(error), None, "    at from");
  }
}
