/** The cycle-safe structural serializer: turns a graph of JavaScript values into a
    JSON-safe tree. `Serialized` is the specification (the set of objects currently
    being visited is a parameter); the methods below it follow the source's own steps,
    with that set as a mutable object that every helper adds to before descending and
    deletes from afterwards. */
module Serialization {
  import opened Wrappers
  import opened JsValues

  /** The type tags `serialize` recognises by name. */
  const RecognisedTags := {"String", "Number", "Boolean", "Date", "Function", "Array", "Object"}

  /** The tag of an object that is none of the kinds `serialize` recognises. */
  type OtherTagName = t: string | t !in RecognisedTags witness "Promise"

  /** The wrapper objects of primitives (`new String('x')`, `new Number(1)`,
      `new Boolean(false)`), which carry their primitive's type tag. */
  datatype Wrapper = StringWrapper | NumberWrapper | BooleanWrapper

  /** A heap object, by the categories `serialize` tells apart: the type tag that
      `Object.prototype.toString` reports and, for the remaining objects, whether they
      are instances of `Error`. */
  datatype Node =
    | DateNode(time: int)
    | BoxedNode(wrapper: Wrapper)
      /** a function object and its `name` property */
    | FunctionNode(name: string)
    | ArrayNode(items: seq<Value>)
      /** an object tagged `Object`: its enumerable own entries, in `Object.entries` order;
          the keys are distinct, as `Object.entries` yields them, which the heaps here
          are taken to respect */
    | PlainNode(entries: seq<(string, Value)>)
      /** an `Error` instance: `cause` is `None` when the object has no `cause` property;
          `view` is what its `serializable()` hook returns, `None` when it has no hook */
    | ErrorNode(name: string, message: string, stack: string, cause: Option<Value>, view: Option<Value>)
      /** anything else: Promise, RegExp, Map, Set, ArrayBuffer, Event, ... */
    | OtherNode(tag: OtherTagName)

  type Heap = map<Ref, Node>

  /** The type tag `getType` reads off a value. */
  datatype Tag =
    | NullTag | UndefinedTag | StringTag | NumberTag | BooleanTag | SymbolTag
    | DateTag | FunctionTag | ArrayTag | ObjectTag | ErrorTag | OtherTag(name: string)

  /** What `serialize` returns. `JSame` is the very object it was given: a Date or a
      primitive's wrapper object. */
  datatype Json =
    | JNull
    | JUndefined
    | JStr(s: string)
    | JNum(n: int)
    | JBool(b: bool)
    | JSame(ref: Ref)
    | JArray(items: seq<Json>)
    | JObject(entries: seq<(string, Json)>)

  const Circular := "[Circular]"

  /** The key whose assignment on a fresh `{}` reaches the setter inherited from
      `Object.prototype`: it replaces the object's prototype and adds no own key. */
  const ProtoKey := "__proto__"

  /** The own entries of a fresh `{}` after `value[key] = item` for each pair in turn:
      every pair but those keyed `__proto__`, in order. */
  function OwnEntries(pairs: seq<(string, Json)>): seq<(string, Json)>
  {
    if pairs == [] then []
    else
      var rest := OwnEntries(pairs[..|pairs| - 1]);
      if pairs[|pairs| - 1].0 == ProtoKey then rest else rest + [pairs[|pairs| - 1]]
  }

  /** The result keeps exactly the pairs not keyed `__proto__`, and all of them when
      none is. */
  lemma {:induction false} OwnEntriesMembers(pairs: seq<(string, Json)>)
    ensures forall p :: p in OwnEntries(pairs) <==> p in pairs && p.0 != ProtoKey
    ensures (forall k :: 0 <= k < |pairs| ==> pairs[k].0 != ProtoKey) ==> OwnEntries(pairs) == pairs
  {
    if pairs != [] {
      OwnEntriesMembers(pairs[..|pairs| - 1]);
      assert pairs == pairs[..|pairs| - 1] + [pairs[|pairs| - 1]];
    }
  }

  /** Assignments are independent and keep their order: the own entries of `a + b` are
      those of `a` followed by those of `b`. */
  lemma {:induction false} OwnEntriesAppend(a: seq<(string, Json)>, b: seq<(string, Json)>)
    ensures OwnEntries(a + b) == OwnEntries(a) + OwnEntries(b)
    decreases |b|
  {
    if b == [] {
      assert a + b == a;
    } else {
      var b' := b[..|b| - 1];
      assert (a + b)[..|a + b| - 1] == a + b';
      OwnEntriesAppend(a, b');
    }
  }

  /** `getType`: the tag `Object.prototype.toString` reports. A tag that names no kind
      the serializer recognises is never one of the names it dispatches on. */
  function GetType(h: Heap, v: Value): (t: Tag)
    ensures t.OtherTag? ==> t.name !in RecognisedTags
  {
    match v
    case Null => NullTag
    case Undefined => UndefinedTag
    case Str(_) => StringTag
    case Num(_) => NumberTag
    case Bool(_) => BooleanTag
    case Sym(_) => SymbolTag
    case Obj(r) =>
      if r !in h then OtherTag("")
      else match h[r]
        case DateNode(_) => DateTag
        case BoxedNode(StringWrapper) => StringTag
        case BoxedNode(NumberWrapper) => NumberTag
        case BoxedNode(BooleanWrapper) => BooleanTag
        case FunctionNode(_) => FunctionTag
        case ArrayNode(_) => ArrayTag
        case PlainNode(_) => ObjectTag
        case ErrorNode(_, _, _, _, _) => ErrorTag
        case OtherNode(tag) => OtherTag(tag)
  }

  /** The placeholder a function serializes to. */
  function FunctionLabel(name: string): string
  {
    "[Function: " + (if name == "" then "anonymous" else name) + "]"
  }

  /** Adding an unvisited heap object to the visiting set leaves one object fewer to visit. */
  lemma Shrinks(keys: set<Ref>, seen: set<Ref>, r: Ref)
    requires r in keys && r !in seen
    ensures |keys - (seen + {r})| == |keys - seen| - 1
  {
    assert keys - seen == (keys - (seen + {r})) + {r};
  }

  /** The serialization of `v` while the objects in `seen` are being visited (the
      ancestors of `v`). A reference outside the heap cannot arise in the source; it is
      given `undefined` here. */
  function Serialized(h: Heap, v: Value, seen: set<Ref>): (j: Json)
    ensures j.JSame? ==> j.ref in h && j.ref !in seen && (h[j.ref].DateNode? || h[j.ref].BoxedNode?)
    decreases |h.Keys - seen|
  {
    match v
    case Null => JNull
    case Undefined => JUndefined
    case Str(s) => JStr(s)
    case Num(n) => JNum(n)
    case Bool(b) => JBool(b)
    case Sym(_) => JUndefined
    case Obj(r) =>
      if r in seen then JStr(Circular)
      else if r !in h then JUndefined
      else
        Shrinks(h.Keys, seen, r);
        var inner := seen + {r};
        match h[r]
        case DateNode(_) => JSame(r)
        case BoxedNode(_) => JSame(r)
        case FunctionNode(name) => JStr(FunctionLabel(name))
        case ArrayNode(items) =>
          JArray(seq(|items|, i requires 0 <= i < |items| => Serialized(h, items[i], inner)))
        case PlainNode(entries) =>
          JObject(OwnEntries(seq(|entries|, i requires 0 <= i < |entries| => (entries[i].0, Serialized(h, entries[i].1, inner)))))
        case ErrorNode(name, message, stack, cause, view) =>
          if view.Some? then Serialized(h, view.value, inner)
          else
            JObject([("name", JStr(name)), ("message", JStr(message)), ("stack", JStr(stack))]
                    + if cause.Some? then [("cause", Serialized(h, cause.value, inner))] else [])
        case OtherNode(_) => JUndefined
  }

  // ---------------------------------------------------------------------------
  // Properties of the specification

  /** `null`, `undefined`, strings, numbers and booleans come back unchanged. */
  lemma ScalarsPassThrough(h: Heap, v: Value, seen: set<Ref>)
    requires !v.Obj? && !v.Sym?
    ensures Serialized(h, v, seen) ==
      match v
      case Null => JNull
      case Undefined => JUndefined
      case Str(s) => JStr(s)
      case Num(n) => JNum(n)
      case Bool(b) => JBool(b)
  {
  }

  /** A Date object, and a wrapper object of a string, number or boolean, comes back as
      the same object. */
  lemma DatesAndWrappersPassThrough(h: Heap, r: Ref, seen: set<Ref>)
    requires r in h && (h[r].DateNode? || h[r].BoxedNode?) && r !in seen
    ensures Serialized(h, Obj(r), seen) == JSame(r)
  {
  }

  /** A function becomes "[Function: name]", or "[Function: anonymous]" when unnamed. */
  lemma FunctionsBecomeLabels(h: Heap, r: Ref, seen: set<Ref>)
    requires r in h && h[r].FunctionNode? && r !in seen
    ensures h[r].name != "" ==> Serialized(h, Obj(r), seen) == JStr("[Function: " + h[r].name + "]")
    ensures h[r].name == "" ==> Serialized(h, Obj(r), seen) == JStr("[Function: anonymous]")
  {
  }

  /** An array becomes an array of the same length holding, at each index, the
      serialization of the element at that index, with the array itself visiting. */
  lemma ArraysMapElementwise(h: Heap, r: Ref, seen: set<Ref>)
    requires r in h && h[r].ArrayNode? && r !in seen
    ensures Serialized(h, Obj(r), seen).JArray?
    ensures |Serialized(h, Obj(r), seen).items| == |h[r].items|
    ensures forall i :: 0 <= i < |h[r].items| ==>
      Serialized(h, Obj(r), seen).items[i] == Serialized(h, h[r].items[i], seen + {r})
  {
  }

  /** The serialized entries of a plain object, before the assignments drop any. */
  ghost function EntryResults(h: Heap, entries: seq<(string, Value)>, inner: set<Ref>): (pairs: seq<(string, Json)>)
    ensures |pairs| == |entries|
    ensures forall i :: 0 <= i < |entries| ==> pairs[i] == (entries[i].0, Serialized(h, entries[i].1, inner))
  {
    seq(|entries|, i requires 0 <= i < |entries| => (entries[i].0, Serialized(h, entries[i].1, inner)))
  }

  /** A plain object's serialization is the own entries left by assigning its serialized
      entries in order. */
  lemma ObjectSerialization(h: Heap, r: Ref, seen: set<Ref>)
    requires r in h && h[r].PlainNode? && r !in seen
    ensures Serialized(h, Obj(r), seen) == JObject(OwnEntries(EntryResults(h, h[r].entries, seen + {r})))
  {
  }

  /** A plain object keeps each of its enumerable own keys other than `__proto__`, holding
      the serialization of its value, and gains no other entry; when no key is
      `__proto__` it keeps them all, in order. */
  lemma ObjectsKeepTheirKeys(h: Heap, r: Ref, seen: set<Ref>)
    requires r in h && h[r].PlainNode? && r !in seen
    ensures Serialized(h, Obj(r), seen).JObject?
    ensures forall i :: 0 <= i < |h[r].entries| && h[r].entries[i].0 != ProtoKey ==>
      (h[r].entries[i].0, Serialized(h, h[r].entries[i].1, seen + {r})) in Serialized(h, Obj(r), seen).entries
    ensures forall p :: p in Serialized(h, Obj(r), seen).entries ==>
      p.0 != ProtoKey &&
      exists i :: 0 <= i < |h[r].entries| && p == (h[r].entries[i].0, Serialized(h, h[r].entries[i].1, seen + {r}))
    ensures (forall i :: 0 <= i < |h[r].entries| ==> h[r].entries[i].0 != ProtoKey) ==>
      |Serialized(h, Obj(r), seen).entries| == |h[r].entries| &&
      forall i :: 0 <= i < |h[r].entries| ==>
        Serialized(h, Obj(r), seen).entries[i] == (h[r].entries[i].0, Serialized(h, h[r].entries[i].1, seen + {r}))
  {
    ObjectSerialization(h, r, seen);
    var pairs := EntryResults(h, h[r].entries, seen + {r});
    OwnEntriesMembers(pairs);
    forall p | p in pairs
      ensures exists i :: 0 <= i < |h[r].entries| && p == (h[r].entries[i].0, Serialized(h, h[r].entries[i].1, seen + {r}))
    {
      var i :| 0 <= i < |pairs| && pairs[i] == p;
    }
  }

  /** An own `__proto__` entry, whatever its value, leaves no key in the result: an
      object `{__proto__: item, key: n}` serializes to `{key: n}`. */
  lemma ProtoKeyIsDropped(h: Heap, r: Ref, seen: set<Ref>, item: Value, key: string, n: int)
    requires r in h && r !in seen && key != ProtoKey
    requires h[r] == PlainNode([(ProtoKey, item), (key, Num(n))])
    ensures Serialized(h, Obj(r), seen) == JObject([(key, JNum(n))])
  {
    ObjectSerialization(h, r, seen);
    var pairs := EntryResults(h, h[r].entries, seen + {r});
    assert pairs == [pairs[0]] + [(key, JNum(n))];
    OwnEntriesAppend([pairs[0]], [(key, JNum(n))]);
    assert OwnEntries([pairs[0]]) == [] by {
      assert [pairs[0]][..0] == [];
    }
    assert OwnEntries([(key, JNum(n))]) == [(key, JNum(n))] by {
      assert [(key, JNum(n))][..0] == [];
    }
  }

  /** An Error without a `serializable` hook yields exactly name, message and stack, and
      a recursively serialized cause only when it has a `cause` property. */
  lemma ErrorsKeepNameMessageStack(h: Heap, r: Ref, seen: set<Ref>)
    requires r in h && h[r].ErrorNode? && h[r].view.None? && r !in seen
    ensures var e := h[r];
      Serialized(h, Obj(r), seen) == JObject(
        [("name", JStr(e.name)), ("message", JStr(e.message)), ("stack", JStr(e.stack))]
        + if e.cause.Some? then [("cause", Serialized(h, e.cause.value, seen + {r}))] else [])
  {
  }

  /** An Error with a `serializable` hook serializes as its view would, with the error
      itself visiting: a view that leads back to the error shows "[Circular]". */
  lemma HookedErrorsUseTheirView(h: Heap, r: Ref, seen: set<Ref>)
    requires r in h && h[r].ErrorNode? && h[r].view.Some? && r !in seen
    ensures Serialized(h, Obj(r), seen) == Serialized(h, h[r].view.value, seen + {r})
  {
  }

  /** Every value whose type tag the serializer does not recognise becomes `undefined`. */
  lemma UnrecognisedBecomeUndefined(h: Heap, v: Value, seen: set<Ref>)
    requires GetType(h, v).SymbolTag? || GetType(h, v).OtherTag?
    requires v.Obj? ==> v.ref !in seen
    ensures Serialized(h, v, seen) == JUndefined
  {
  }

  /** A label of a function never reads as the circular placeholder. */
  lemma FunctionLabelIsNotCircular(name: string)
    ensures FunctionLabel(name) != Circular
  {
    assert FunctionLabel(name)[1] == 'F';
    assert Circular[1] == 'C';
  }

  /** For an object that is not an Error with a `serializable` hook, "[Circular]" is
      produced exactly when the object is an ancestor on the current path. */
  lemma CircularExactlyForAncestors(h: Heap, r: Ref, seen: set<Ref>)
    requires r in h && !(h[r].ErrorNode? && h[r].view.Some?)
    ensures Serialized(h, Obj(r), seen) == JStr(Circular) <==> r in seen
  {
    if r !in seen && h[r].FunctionNode? {
      FunctionLabelIsNotCircular(h[r].name);
    }
  }

  /** The result nests no deeper than `n` arrays and objects. */
  ghost predicate NestedAtMost(j: Json, n: nat)
  {
    match j
    case JArray(items) => n > 0 && forall i :: 0 <= i < |items| ==> NestedAtMost(items[i], n - 1)
    case JObject(entries) => n > 0 && forall i :: 0 <= i < |entries| ==> NestedAtMost(entries[i].1, n - 1)
    case _ => true
  }

  /** Cycles are cut: however the graph loops, the serialized tree nests no deeper than
      the number of heap objects not yet being visited. */
  lemma {:induction false} NestingBounded(h: Heap, v: Value, seen: set<Ref>, n: nat)
    requires |h.Keys - seen| <= n
    ensures NestedAtMost(Serialized(h, v, seen), n)
    decreases |h.Keys - seen|, 2
  {
    if v.Obj? && v.ref !in seen && v.ref in h {
      match h[v.ref]
      case ArrayNode(_) => ArrayNestingBounded(h, v.ref, seen, n);
      case PlainNode(_) => ObjectNestingBounded(h, v.ref, seen, n);
      case ErrorNode(_, _, _, _, _) => ErrorNestingBounded(h, v.ref, seen, n);
      case _ =>
    }
  }

  /** The children of an object being visited each nest no deeper than `n`. */
  lemma {:induction false} ChildrenNestingBounded(h: Heap, children: seq<Value>, seen: set<Ref>, n: nat)
    requires |h.Keys - seen| <= n
    ensures forall i :: 0 <= i < |children| ==> NestedAtMost(Serialized(h, children[i], seen), n)
    decreases |h.Keys - seen|, 3
  {
    forall i | 0 <= i < |children|
      ensures NestedAtMost(Serialized(h, children[i], seen), n)
    {
      NestingBounded(h, children[i], seen, n);
    }
  }

  lemma {:induction false} ArrayNestingBounded(h: Heap, r: Ref, seen: set<Ref>, n: nat)
    requires r in h && h[r].ArrayNode? && r !in seen
    requires |h.Keys - seen| <= n
    ensures NestedAtMost(Serialized(h, Obj(r), seen), n)
    decreases |h.Keys - seen|, 1
  {
    Shrinks(h.Keys, seen, r);
    ArraysMapElementwise(h, r, seen);
    ChildrenNestingBounded(h, h[r].items, seen + {r}, n - 1);
  }

  lemma {:induction false} ObjectNestingBounded(h: Heap, r: Ref, seen: set<Ref>, n: nat)
    requires r in h && h[r].PlainNode? && r !in seen
    requires |h.Keys - seen| <= n
    ensures NestedAtMost(Serialized(h, Obj(r), seen), n)
    decreases |h.Keys - seen|, 1
  {
    Shrinks(h.Keys, seen, r);
    ObjectSerialization(h, r, seen);
    var entries := h[r].entries;
    var pairs := EntryResults(h, entries, seen + {r});
    forall i | 0 <= i < |pairs|
      ensures NestedAtMost(pairs[i].1, n - 1)
    {
      NestingBounded(h, entries[i].1, seen + {r}, n - 1);
    }
    var out := OwnEntries(pairs);
    OwnEntriesMembers(pairs);
    forall k | 0 <= k < |out|
      ensures NestedAtMost(out[k].1, n - 1)
    {
      assert out[k] in pairs;
      var i :| 0 <= i < |pairs| && pairs[i] == out[k];
    }
  }

  lemma {:induction false} ErrorNestingBounded(h: Heap, r: Ref, seen: set<Ref>, n: nat)
    requires r in h && h[r].ErrorNode? && r !in seen
    requires |h.Keys - seen| <= n
    ensures NestedAtMost(Serialized(h, Obj(r), seen), n)
    decreases |h.Keys - seen|, 1
  {
    Shrinks(h.Keys, seen, r);
    var e := h[r];
    if e.view.Some? {
      HookedErrorsUseTheirView(h, r, seen);
      NestingBounded(h, e.view.value, seen + {r}, n);
    } else {
      ErrorsKeepNameMessageStack(h, r, seen);
      if e.cause.Some? {
        NestingBounded(h, e.cause.value, seen + {r}, n - 1);
      }
    }
  }

  /** An array holding itself: `['foo', array]` becomes `['foo', '[Circular]']`. */
  lemma SelfReferentialArray()
    ensures Serialized(map[0 := ArrayNode([Str("foo"), Obj(0)])], Obj(0), {})
         == JArray([JStr("foo"), JStr(Circular)])
  {
    var h := map[0 := ArrayNode([Str("foo"), Obj(0)])];
    var out := Serialized(h, Obj(0), {});
    assert out.items[1] == Serialized(h, Obj(0), {0});
  }

  /** One Error referenced three times by an object that is not its ancestor is
      serialized in full at every occurrence: `{cause: e, error: e, originalError: e}`. */
  lemma SharedErrorSerializedEachTime(h: Heap, r: Ref, q: Ref, seen: set<Ref>)
    requires r in h && q in h && r != q && r !in seen && q !in seen
    requires h[r] == PlainNode([("cause", Obj(q)), ("error", Obj(q)), ("originalError", Obj(q))])
    requires h[q].ErrorNode? && h[q].cause.None? && h[q].view.None?
    ensures var e := JObject([("name", JStr(h[q].name)), ("message", JStr(h[q].message)), ("stack", JStr(h[q].stack))]);
      Serialized(h, Obj(r), seen) == JObject([("cause", e), ("error", e), ("originalError", e)])
  {
    var e := JObject([("name", JStr(h[q].name)), ("message", JStr(h[q].message)), ("stack", JStr(h[q].stack))]);
    ErrorsKeepNameMessageStack(h, q, seen + {r});
    assert e.entries + [] == e.entries;
    ObjectSerialization(h, r, seen);
    var pairs := EntryResults(h, h[r].entries, seen + {r});
    assert pairs == [("cause", e), ("error", e), ("originalError", e)];
    OwnEntriesMembers(pairs);
  }

  // ---------------------------------------------------------------------------
  // The serializer as the source runs it

  /** The identity set of objects currently being visited (the source's `WeakSet`). */
  class Seen {
    var members: set<Ref>

    constructor ()
      ensures members == {}
    {
      members := {};
    }

    function Has(r: Ref): bool
      reads this
    {
      r in members
    }

    method Add(r: Ref)
      modifies this
      ensures members == old(members) + {r}
    {
      members := members + {r};
    }

    method Delete(r: Ref)
      modifies this
      ensures members == old(members) - {r}
    {
      members := members - {r};
    }
  }

  /** A value handed back as it is: a primitive, or the very object. */
  function Itself(v: Value): Json
    requires !v.Null? && !v.Undefined? && !v.Sym?
  {
    match v
    case Str(s) => JStr(s)
    case Num(n) => JNum(n)
    case Bool(b) => JBool(b)
    case Obj(r) => JSame(r)
  }

  /** `serialize(value, seen)`: returns the specified serialization and leaves `seen`
      as it found it. */
  method Serialize(h: Heap, v: Value, seen: Seen) returns (out: Json)
    modifies seen
    ensures seen.members == old(seen.members)
    ensures out == Serialized(h, v, old(seen.members))
    decreases |h.Keys - seen.members|, 1
  {
    if v.Null? || v.Undefined? {
      return if v.Null? then JNull else JUndefined;
    }
    if v.Obj? && seen.Has(v.ref) {
      return JStr(Circular);
    }
    var tag := GetType(h, v);
    if tag.StringTag? || tag.NumberTag? || tag.BooleanTag? || tag.DateTag? {
      out := Itself(v);
    } else if tag.FunctionTag? {
      out := JStr(FunctionLabel(h[v.ref].name));
    } else if tag.ArrayTag? {
      out := SerializeArray(h, v.ref, seen);
    } else if tag.ObjectTag? {
      out := SerializeObject(h, v.ref, seen);
    } else if tag.ErrorTag? {
      if h[v.ref].view.Some? {
        out := SerializeException(h, v.ref, seen);
      } else {
        out := SerializeError(h, v.ref, seen);
      }
    } else {
      out := JUndefined;
    }
  }

  /** `serializeArray`: serializes each element in turn with the array visiting. */
  method SerializeArray(h: Heap, r: Ref, seen: Seen) returns (out: Json)
    requires r in h && h[r].ArrayNode? && r !in seen.members
    modifies seen
    ensures seen.members == old(seen.members)
    ensures out == Serialized(h, Obj(r), old(seen.members))
    decreases |h.Keys - seen.members|, 0
  {
    Shrinks(h.Keys, seen.members, r);
    seen.Add(r);
    var items := h[r].items;
    var values: seq<Json> := [];
    for i := 0 to |items|
      invariant seen.members == old(seen.members) + {r}
      invariant |values| == i
      invariant forall k :: 0 <= k < i ==> values[k] == Serialized(h, items[k], seen.members)
    {
      var value := Serialize(h, items[i], seen);
      values := values + [value];
    }
    ArraysMapElementwise(h, r, old(seen.members));
    seen.Delete(r);
    out := JArray(values);
  }

  /** `serializeObject`: fills a fresh object key by key with the object visiting; an
      assignment to `__proto__` serializes its value but keeps no key. */
  method SerializeObject(h: Heap, r: Ref, seen: Seen) returns (out: Json)
    requires r in h && h[r].PlainNode? && r !in seen.members
    modifies seen
    ensures seen.members == old(seen.members)
    ensures out == Serialized(h, Obj(r), old(seen.members))
    decreases |h.Keys - seen.members|, 0
  {
    Shrinks(h.Keys, seen.members, r);
    seen.Add(r);
    var entries := h[r].entries;
    ghost var pairs := EntryResults(h, entries, seen.members);
    var value: seq<(string, Json)> := [];
    for i := 0 to |entries|
      invariant seen.members == old(seen.members) + {r}
      invariant value == OwnEntries(pairs[..i])
    {
      var item := Serialize(h, entries[i].1, seen);
      assert pairs[..i + 1] == pairs[..i] + [(entries[i].0, item)];
      OwnEntriesAppend(pairs[..i], [(entries[i].0, item)]);
      if entries[i].0 != ProtoKey {
        value := value + [(entries[i].0, item)];
      }
    }
    assert pairs[..|entries|] == pairs;
    ObjectSerialization(h, r, old(seen.members));
    seen.Delete(r);
    out := JObject(value);
  }

  /** `serializeError`: name, message and stack, and the cause when there is one. */
  method SerializeError(h: Heap, r: Ref, seen: Seen) returns (out: Json)
    requires r in h && h[r].ErrorNode? && h[r].view.None? && r !in seen.members
    modifies seen
    ensures seen.members == old(seen.members)
    ensures out == Serialized(h, Obj(r), old(seen.members))
    decreases |h.Keys - seen.members|, 0
  {
    Shrinks(h.Keys, seen.members, r);
    seen.Add(r);
    var e := h[r];
    var value := [("name", JStr(e.name)), ("message", JStr(e.message)), ("stack", JStr(e.stack))];
    if e.cause.Some? {
      var cause := Serialize(h, e.cause.value, seen);
      value := value + [("cause", cause)];
    }
    ErrorsKeepNameMessageStack(h, r, old(seen.members));
    seen.Delete(r);
    out := JObject(value);
  }

  /** `serializeException`: serializes what the `serializable()` hook returns, with the
      error visiting. */
  method SerializeException(h: Heap, r: Ref, seen: Seen) returns (out: Json)
    requires r in h && h[r].ErrorNode? && h[r].view.Some? && r !in seen.members
    modifies seen
    ensures seen.members == old(seen.members)
    ensures out == Serialized(h, Obj(r), old(seen.members))
    decreases |h.Keys - seen.members|, 0
  {
    Shrinks(h.Keys, seen.members, r);
    seen.Add(r);
    out := Serialize(h, h[r].view.value, seen);
    seen.Delete(r);
  }

  /** `serialize(value)` with its default, empty `seen`. */
  method SerializeRoot(h: Heap, v: Value) returns (out: Json)
    ensures out == Serialized(h, v, {})
  {
    var seen := new Seen();
    out := Serialize(h, v, seen);
  }
}
