/** Error objects as the exception classes see them. `Exception` and `BlunderError`
    have the same constructor; both, and the platform's own errors, are instances of
    the one class `ErrorObject`, told apart by the class they were constructed with. */
module ErrorModel {
  import opened Wrappers
  import opened JsValues

  /** The chain of classes an error was constructed with, from `Error` down to its own
      class: `["Error"]`, `["Error", "TypeError"]`, `["Error", "Exception", "TestError"]`. */
  type ErrorClass = c: seq<string> | |c| > 0 && c[0] == "Error" witness ["Error"]

  const ExceptionClass: ErrorClass := ["Error", "Exception"]
  const BlunderErrorClass: ErrorClass := ["Error", "BlunderError"]

  /** `this.constructor.name`: the name of the class itself. */
  function ClassName(c: ErrorClass): string
  {
    c[|c| - 1]
  }

  /** `e instanceof C`: `C` is on the chain of `e`'s class. */
  predicate InstanceOf(e: ErrorObject, c: ErrorClass)
  {
    c <= e.cls
  }

  /** A value handed to `from`: an Error instance, or anything else, given by the string
      it converts to (`None` for `undefined`, which leaves the message empty). */
  datatype Thrown =
    | ErrorValue(error: ErrorObject)
    | OtherValue(text: Option<string>)

  /** The object `from` may update. */
  function Objects(t: Thrown): set<ErrorObject>
  {
    if t.ErrorValue? then {t.error} else {}
  }

  /** `details = {}` followed by `Object.assign({}, details)`: a copy, empty by default. */
  function DetailsOrEmpty(details: Option<map<string, Value>>): map<string, Value>
  {
    if details.Some? then details.value else map[]
  }

  /** The message `super(message)` stores. */
  function MessageOf(message: Option<string>): string
  {
    if message.Some? then message.value else ""
  }

  class ErrorObject {
    const cls: ErrorClass
    var name: string
    var message: string
    var stack: string
    /** the `details` bag of an `Exception` or `BlunderError`; empty for other errors */
    var details: map<string, Value>
    var originalError: ErrorObject?

    /** An error the platform constructs (`new Error(message)`, `new TypeError(...)`). */
    constructor Native(cls: ErrorClass, message: string, stack: string)
      ensures this.cls == cls && name == ClassName(cls)
      ensures this.message == message && this.stack == stack
      ensures details == map[] && originalError == null
    {
      this.cls := cls;
      name := ClassName(cls);
      this.message := message;
      this.stack := stack;
      details := map[];
      originalError := null;
    }

    /** `new C(message, details)` for `C` = `Exception`, `BlunderError` or a subclass:
        the name is the concrete class's name, the stack is the one the engine captures
        (`capturedStack`), and `details` holds a copy of the argument, `{}` by default. */
    constructor Create(cls: ErrorClass, message: Option<string>, details: Option<map<string, Value>>,
                       capturedStack: string)
      ensures this.cls == cls && name == ClassName(cls)
      ensures this.message == MessageOf(message) && stack == capturedStack
      ensures this.details == DetailsOrEmpty(details) && originalError == null
    {
      this.cls := cls;
      name := ClassName(cls);
      this.message := MessageOf(message);
      stack := capturedStack;
      this.details := DetailsOrEmpty(details);
      originalError := null;
    }
  }
}
