# blunder: a verified model of its core

This project models the core of blunder, a client-side error-capture library. It covers:

- **the cycle-safe serializer** (`serialize`). It turns any value graph into a JSON-safe tree:
  - scalars, dates and String/Number/Boolean wrapper objects pass through;
  - functions become `"[Function: name]"`;
  - arrays and plain objects are walked, and an own `__proto__` key of a plain object leaves no key in the result;
  - errors become `{name, message, stack[, cause]}`, or the serialization of what their `serializable()` hook returns;
  - every other kind becomes `undefined`;
  - an object met again on its own ancestor path becomes `"[Circular]"`.
- **the stack-trace parser** (`stacktrace`). It splits a stack on newlines, tries the Chrome pattern and then the Gecko/Safari pattern on each line, and turns each matching line into a frame `{functionName, fileName, lineNumber, columnNumber}`.
- **`Exception.from` and `BlunderError.from`**. Each normalizes a thrown value:
  - an instance of the class comes back as itself, with `details` merged into it;
  - a foreign Error is wrapped;
  - anything else becomes the message of a new instance.
- **the bus**. It holds an ordered subscriber list. `subscribe` returns an unsubscribe function. `dispatch` normalizes through `BlunderError.from`, then calls every subscriber of a snapshot taken before the loop.

Modules:

- `Wrappers`: `Option`.
- `JsValues`: JavaScript values, with objects as heap references.
- `Serialization`: src/serialize.js.
- `StackTrace`: src/stacktrace.js.
- `ErrorModel`: the error objects and the constructor shared by `Exception` and `BlunderError`.
- `Exceptions`: src/exception.js.
- `BlunderErrors`: src/blundererror.js.
- `Bus`: src/bus.js.

How each module is built:

- **Serializer.** The spec function `Serialized(h, v, seen)` takes the set of objects being visited as a parameter. The methods `Serialize`, `SerializeArray`, `SerializeObject`, `SerializeError` and `SerializeException` follow the source step by step, with that set as a mutable `Seen` object. Each method is proved to return `Serialized` of its input and to leave `seen` as it found it.
- **Error classes.** They are a chain of class names starting at `Error`, and `instanceof` is a prefix test. `Exception` and a subclass such as `TestError` are `["Error", "Exception"]` and `["Error", "Exception", "TestError"]`.
- **Bus.** It is a class with a `seq` of callback identities and a ghost log of the calls its dispatches make. What a callback does to the bus when called (subscribe or unsubscribe callbacks) is a parameter of `Dispatch`.

Where the repository's other files describe a different version, this model follows src/:

- test/specs/exception.js (lines 65-110) expects an `Exception` with `cause` and `data` properties. The `Exception` of src/exception.js carries `details` and `originalError` instead, and that is what is modelled.
- Dispatching the same error again notifies every subscriber again, as test/specs/bus.js:4-31 expects.
- A date serializes to the Date object itself, as test/specs/serialize.js:17-20 expects. A String, Number or Boolean wrapper object does the same.

## Model

| member | source | states |
|---|---|---|
| Serialization.GetType | src/serialize.js:1-3 | the type tag of a value: a recognised kind for each node kind, and for any other object a tag name outside the recognised ones, so that it is never mistaken for a kind the serializer handles |
| Serialization.Serialized | src/serialize.js:43-70 | the specified serialization; whenever an object is passed through as itself, it is a date or a primitive wrapper that is in the heap and not being visited |
| Serialization.SerializeRoot | src/serialize.js:43-70 | `serialize(value)` with a fresh `seen` returns exactly the specified serialization `Serialized(h, v, {})` |
| Serialization.Serialize | src/serialize.js:43-70 | the dispatch on the type tag returns the specified serialization for the objects being visited, and `seen` is as it was on entry |
| Serialization.SerializeArray | src/serialize.js:26-31 | adds the array to `seen`, serializes each element in order, removes it again; the result is the array's serialization and `seen` is restored |
| Serialization.SerializeObject | src/serialize.js:33-41 | fills the result key by key in entry order with the object visiting, serializing a `__proto__` entry's value but keeping no key for it; the result is the object's serialization and `seen` is restored |
| Serialization.SerializeError | src/serialize.js:12-24 | name, message and stack, then the serialized cause only when there is one; `seen` is restored |
| Serialization.SerializeException | src/serialize.js:5-10 | serializes the `serializable()` view with the error itself visiting; `seen` is restored |
| Serialization.Seen.Add | src/serialize.js:6 | the visiting set gains exactly the object |
| Serialization.Seen.Delete | src/serialize.js:8 | the visiting set loses exactly the object |
| Serialization.ScalarsPassThrough | src/serialize.js:44-53 | `null`, `undefined`, strings, numbers and booleans come back unchanged |
| Serialization.DatesAndWrappersPassThrough | src/serialize.js:51-53 | a Date or a String/Number/Boolean wrapper object comes back as the very same object |
| Serialization.FunctionsBecomeLabels | src/serialize.js:54-56 | a function becomes `"[Function: name]"`, or `"[Function: anonymous]"` when its name is empty |
| Serialization.ArraysMapElementwise | src/serialize.js:26-31 | an array becomes an array of the same length whose element at each index is the serialization of the element there, with the array visiting |
| Serialization.ObjectsKeepTheirKeys | src/serialize.js:33-41 | a plain object keeps every enumerable own key other than `__proto__`, each holding its value's serialization, and gains no other entry; when no key is `__proto__` it keeps them all, in order |
| Serialization.OwnEntriesMembers | src/serialize.js:35-38 | assigning pairs in turn to a fresh `{}` leaves exactly the pairs not keyed `__proto__` as own entries, and all of them when none is |
| Serialization.OwnEntriesAppend | src/serialize.js:36-38 | the assignments are independent and keep their order: the own entries of `a + b` are those of `a` followed by those of `b` |
| Serialization.ProtoKeyIsDropped | src/serialize.js:37 | `{__proto__: item, key: n}` serializes to `{key: n}` whatever `item` is: the assignment goes to the inherited setter and adds no own key |
| Serialization.ErrorsKeepNameMessageStack | src/serialize.js:12-24 | an Error without a hook yields exactly name, message and stack, plus a recursively serialized `cause` only when the property exists |
| Serialization.HookedErrorsUseTheirView | src/serialize.js:63-66 | an Error with a `serializable` hook serializes as its view, with the error itself counted as visiting |
| Serialization.UnrecognisedBecomeUndefined | src/serialize.js:69 | symbols, and objects that carry none of the recognised type tags and are not Error instances, become `undefined` |
| Serialization.FunctionLabelIsNotCircular | src/serialize.js:47-56 | a function's label never equals the circular placeholder |
| Serialization.CircularExactlyForAncestors | src/serialize.js:47-49 | for any object without a hook, the result is `"[Circular]"` if and only if the object is an ancestor being visited |
| Serialization.NestingBounded | src/serialize.js:43-70 | however the graph loops, the result nests no deeper than the number of heap objects not yet being visited, so cycles are always cut |
| Serialization.SelfReferentialArray | test/specs/serialize.js:322-330 | an array holding `'foo'` and itself serializes to `['foo', '[Circular]']` |
| Serialization.SharedErrorSerializedEachTime | test/specs/serialize.js:455-486 | an object `{cause: e, error: e, originalError: e}` holding one Error three times serializes that Error in full at every occurrence, because `seen` is restored after each |
| StackTrace.Split | src/stacktrace.js:6 | `split('\n')` gives at least one piece and no piece holds a newline |
| StackTrace.JoinSplit | src/stacktrace.js:6 | splitting loses nothing: joining the pieces with newlines gives back the stack text |
| StackTrace.SplitJoin | src/stacktrace.js:6 | splitting the joined text of newline-free pieces gives back exactly those pieces |
| StackTrace.SplitCount | src/stacktrace.js:6 | there is exactly one more line than there are newlines |
| StackTrace.DecimalString | src/stacktrace.js:13-14 | a printed line or column number is a non-empty digit string |
| StackTrace.DecimalRoundTrip | src/stacktrace.js:13-14 | reading a printed number back with unary `+` gives that number |
| StackTrace.ToFrame | src/stacktrace.js:9-15 | a frame's function name is never empty: it is the captured name, or `"<unknown>"` when none is captured; the file name is the captured one; the line and column are `null` exactly when their group is missing or empty, and otherwise the group's decimal value |
| StackTrace.ZeroIsNotNull | src/stacktrace.js:13 | a captured `0` stays `0` and is not turned into `null` |
| StackTrace.MatchLine | src/stacktrace.js:7 | a line matches exactly when the Chrome or the Gecko pattern matches it; a Chrome match is used as is, and only a line Chrome rejects is given the Gecko result |
| StackTrace.NumberOrNull | src/stacktrace.js:13-14 | a line or column is `null` exactly when its group is missing or empty, and otherwise the decimal value of the digits |
| StackTrace.ParseLines | src/stacktrace.js:6-18 | the fold yields at most one frame per line, and every frame has a non-empty function name |
| StackTrace.ParseOneLine | src/stacktrace.js:7-16 | a line yields one frame built from its groups when a pattern matches it, and none otherwise |
| StackTrace.ParseLinesAppend | src/stacktrace.js:6-18 | lines are parsed independently and frames keep their lines' order: parsing `a + b` gives the frames of `a` followed by the frames of `b` |
| StackTrace.ParseStack | src/stacktrace.js:5-19 | a stack yields at most as many frames as it has newline-separated lines |
| StackTrace.Stacktrace | src/stacktrace.js:29-36 | whatever the argument (nothing, an Error or a string), every frame has a non-empty function name, and there are at most as many frames as the parsed text has lines |
| StackTrace.ErrorArgumentParsesItsStack | src/stacktrace.js:29-35 | given an Error, `stacktrace` parses that error's `stack`, with the same result as passing the text |
| StackTrace.ChromeStackExample | test/specs/stacktrace.js:4-39 | the five lines of the test's Chrome stack give four frames, innermost first: the header is dropped and the anonymous site is named `"<unknown>"`; the Chrome pattern's captures on each call-site line are given as data |
| ErrorModel.ErrorObject.Native | src/exception.js:62 | a platform error has the name of its class, its message and its stack, and no details |
| ErrorModel.ErrorObject.Create | src/exception.js:8-51 | `new C(message, details)` has the concrete class's name, the message (empty when none), the captured stack, and a copy of `details` (`{}` by default) |
| Exceptions.From | src/exception.js:54-69 | an instance of the calling class comes back as itself, with details merged in as a key-union in which the new keys win, and nothing else changed (details untouched when none are given); a foreign Error gives a fresh instance with its message, its verbatim stack and `originalError` set to it; any other value gives a fresh instance with that value as its message; the result is always an instance of the calling class |
| Exceptions.FromTwice | src/exception.js:54-69 | normalizing the result again returns that same object, whose details are those the first call left (the instance's details merged with the given ones, or a copy of the given ones for a new instance) |
| Exceptions.SubclassWrapsBaseInstance | src/exception.js:56-66 | called on a subclass, a base-class instance is wrapped, not passed through: a new `TestError` with its message and `originalError` set to it |
| BlunderErrors.From | src/blundererror.js:54-68 | the same three cases, with `BlunderError` hard-coded for both the instance test and construction, whatever class it is called on; the result is always a BlunderError; a wrapped foreign Error or other value gives a new instance named `"BlunderError"`, while a BlunderError instance, a subclass instance included, comes back as itself with its own name |
| BlunderErrors.FromTwice | src/blundererror.js:54-68 | `from(from(x))` is `from(x)`, the result is a BlunderError, and its details are those the first call left (the instance's details merged with the given ones, or a copy of the given ones for a new instance) |
| BlunderErrors.ConvertsNormalError | test/specs/blundererror.js:169-179 | a plain `Error` is converted into a distinct BlunderError named `"BlunderError"` with the same message and stack, `originalError` set to it and no details |
| BlunderErrors.MergeTwice | src/blundererror.js:56-58 | merging details twice gives the union of all three maps, with the later keys winning on conflict and no other key present |
| Bus.RemoveFirst | src/bus.js:8-11 | removing an absent callback leaves the list as it is; removing a present one shortens it by exactly one |
| Bus.IndexOf | src/bus.js:8 | `indexOf` gives the first position of the callback, or -1 exactly when the callback is absent |
| Bus.RemoveFirstRemovesOne | src/bus.js:7-12 | unsubscribing an absent callback changes nothing; otherwise it removes exactly its first registration and keeps every other one, in order |
| Bus.SubscribeThenUnsubscribe | src/bus.js:5-12 | subscribing then unsubscribing gives back the list when the callback was not registered; otherwise it removes the earlier registration |
| Bus.Deliveries | src/bus.js:17 | a dispatch makes one call per snapshot entry, in order, each with the same error |
| Bus.QuietCallsKeepList | src/bus.js:17 | callbacks that do nothing to the bus leave the subscriber list as it was |
| Bus.SelfRemovalKeepsOthers | src/bus.js:7-17 | a subscriber that unsubscribes itself during a dispatch, the others doing nothing, leaves the others registered, in order |
| Bus.Registry.Subscribe | src/bus.js:5-7 | appends the callback at the end and changes nothing else; the returned unsubscribe function closes over that callback |
| Bus.Registry.Unsubscribe | src/bus.js:7-12 | removes the first occurrence of its callback, or does nothing when the callback is absent |
| Bus.Registry.Call | src/bus.js:17 | calling a subscriber records the call, then applies that subscriber's edits to the list |
| Bus.Registry.Dispatch | src/bus.js:15-18 | every callback registered at the start is called exactly once, in registration order, with the same `BlunderError.from(error)`, whatever the callbacks do to the list meanwhile; callbacks added during the dispatch are not called; a BlunderError is delivered by identity; a foreign Error is delivered as a new BlunderError named `"BlunderError"` with its message and stack, `originalError` set to it and no details; any other value as a new BlunderError with that value as its message, the captured stack, no `originalError` and no details; the input itself is not changed |
| Bus.RedispatchNotifiesAgain | test/specs/bus.js:4-31 | dispatching the same BlunderError twice calls each of two subscribers twice, every call receiving that very object; there is no de-duplication |
| Bus.SelfUnsubscribeDuringDispatch | test/specs/bus.js:46-87 | a subscriber that unsubscribes itself is still called in that dispatch, the next dispatch skips it, and the others are called both times |

## Left out

- Environment metadata (the `metadata` block of both constructors) is not modelled: it consists of host reads.
- Stack capture (`Error.captureStackTrace`, the `new Error(message).stack` fallback, `generateStack`) is not modelled. The captured stack is a parameter, `capturedStack` or `generated`.
- The two regular expressions are not re-implemented. A `Matcher` stands for each one and gives the capture groups of a line it matches. What the patterns accept (URL schemes, lazy groups, lookahead) is therefore not modelled.
- Numbers are unbounded integers. IEEE doubles, `NaN` and the precision of unary `+` on very long digit strings are not modelled.
- A callback is an identity plus a list of subscribe/unsubscribe actions it performs when called. A callback that throws, that dispatches re-entrantly, or that does anything other than subscribe and unsubscribe is not modelled.
- Bus.Registry.Dispatch returns the delivered error so that its contract can name it. The source's `dispatch` returns `undefined`.
- The bus's `subscribers` list is one module-level array in the source. The model makes it a field of a `Registry` object.
- `details` is a `map` value. The constructor's shallow copy (`Object.assign({}, details)`) therefore cannot alias the caller's object, and aliasing through nested values is not modelled.
- A non-object `details` argument (a string or number passed to `Object.assign`) is not modelled. `details` is either absent or a map.
- A thrown non-Error value is represented by the string it converts to, and a `Symbol` message is not modelled.
- Exceptions.From and BlunderErrors.From model `instanceof Error` structurally: only `ErrorObject`s are errors. Objects that merely inherit from `Error.prototype` by other means are not modelled.
- StackTrace.Stacktrace: an argument other than nothing, an Error with a string `stack`, or a string (`null`, a number, a plain object, an Error whose `stack` is not a string) makes the source throw a `TypeError` at `split`; the model's argument type cannot express these.
- Serialization.SerializeError: the source copies `name`, `message` and `stack` as they are, so a non-string value (a `stack` of `undefined`, an object `message` shared by reference) passes into the result; the model's error node holds strings only.
- Exceptions.From and BlunderErrors.From: `Object.assign` merges new details into the instance's existing details object in place, so anyone holding the old `err.details` object sees the new keys; the model replaces a map value and gives the details object no identity.
- A plain object's entries are taken to have distinct keys, as `Object.entries` gives them; a node listing a key twice is not rejected.
- Serialization.Serialized maps a reference outside the heap to `undefined`. Such a reference cannot arise in the source, where every object exists.
- Serialization.ObjectsKeepTheirKeys: an own `__proto__` entry whose serialized value is an object or `null` also replaces the result's prototype in the source; the model keeps no prototypes and records only that no own key is added.
- Serialization.ArraysMapElementwise: `array.map` keeps the holes of a sparse array, and an array node has no holes, so sparse arrays are not modelled.
- An object's `toString` tag and `Object.entries` order are given by the heap node, and getters with side effects are not modelled.
- `src/monitor.js`, `src/attempt.js`, `src/report.js`, `src/metadata.js`, the older `src/blunder.js` and the `dist/` builds are not part of this model.
