/** JavaScript values as the core sees them: primitives by value, everything else by
    reference into a heap that the module using it defines. */
module JsValues {
  /** Identity of a heap object (what a `WeakSet` keys on). */
  type Ref = nat

  /** A JavaScript value. Numbers are kept as integers: the core never computes with
      them, it only passes them through. `Sym` stands for symbols (and the other
      primitive kinds the core does not recognise). */
  datatype Value =
    | Null
    | Undefined
    | Str(s: string)
    | Num(n: int)
    | Bool(b: bool)
    | Sym(id: nat)
    | Obj(ref: Ref)
}
