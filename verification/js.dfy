/**
 * The JavaScript values the adapters inspect: caller input, transport responses and
 * stream fragments.  Only the JSON-like part of the language is modelled.
 */
module Js {

  /** A JSON-like JavaScript value.  A number is held by its JavaScript display text
      (`"0.7"`, `"42"`): nothing in the core computes with numbers, it only tests their
      truthiness and turns them into text.  The text is what `String(n)` gives, so both
      zeros read `"0"`. */
  datatype JVal =
    | Undefined
    | Null
    | Bool(b: bool)
    | Num(text: string)
    | Str(s: string)
    | Arr(items: seq<JVal>)
    | Obj(fields: map<string, JVal>)

  /** `v === null || v === undefined` */
  predicate Nullish(v: JVal) {
    v.Undefined? || v.Null?
  }

  /** JavaScript truthiness (`if (v)`). */
  predicate Truthy(v: JVal) {
    match v
    case Undefined => false
    case Null => false
    case Bool(b) => b
    case Num(t) => t != "0" && t != "NaN"
    case Str(s) => s != ""
    case Arr(_) => true
    case Obj(_) => true
  }

  /** `a || b` */
  function Or(a: JVal, b: JVal): (r: JVal)
    ensures Truthy(a) ==> r == a
    ensures !Truthy(a) ==> r == b
  {
    if Truthy(a) then a else b
  }

  /** `String(v)`; also what `s += v` appends to a string `s`. */
  function ToStr(v: JVal): string
    decreases v, 1
  {
    match v
    case Undefined => "undefined"
    case Null => "null"
    case Bool(b) => if b then "true" else "false"
    case Num(t) => t
    case Str(s) => s
    case Arr(xs) => ItemsStr(v, xs)
    case Obj(_) => "[object Object]"
  }

  /** `Array.prototype.toString`: the items joined by ",", a nullish item rendered empty. */
  function ItemsStr(whole: JVal, xs: seq<JVal>): string
    requires forall x :: x in xs ==> x < whole
    decreases whole, 0, |xs|
  {
    if xs == [] then ""
    else
      assert xs[0] in xs;
      var head := if Nullish(xs[0]) then "" else ToStr(xs[0]);
      if |xs| == 1 then head
      else
        assert forall x :: x in xs[1..] ==> x in xs;
        head + "," + ItemsStr(whole, xs[1..])
  }

  /** One step of a property path: a named property or the index `[0]`. */
  datatype Step = Key(name: string) | First

  /** `v?.name` / `v?.[0]`: a missing property, or any property of a nullish value,
      is `undefined`. */
  function Get(v: JVal, step: Step): JVal {
    match step
    case Key(k) =>
      (match v
       case Obj(m) => if k in m then m[k] else Undefined
       case _ => Undefined)
    case First =>
      (match v
       case Arr(xs) => if xs == [] then Undefined else xs[0]
       case Str(s) => if s == "" then Undefined else Str(s[..1])
       case Obj(m) => if "0" in m then m["0"] else Undefined
       case _ => Undefined)
  }

  /** A chain of optional property accesses, `v?.a?.b?.[0]`. */
  function Walk(v: JVal, path: seq<Step>): JVal
    decreases |path|
  {
    if path == [] then v else Walk(Get(v, path[0]), path[1..])
  }

  /** Optional chaining short-circuits: every non-empty path from a nullish value is undefined. */
  lemma {:induction false} WalkNullish(v: JVal, path: seq<Step>)
    requires Nullish(v) && path != []
    ensures Walk(v, path) == Undefined
    decreases |path|
  {
    if |path| > 1 {
      WalkNullish(Get(v, path[0]), path[1..]);
    }
  }

  /** The message object `{role, content}`. */
  function Message(role: string, content: JVal): JVal {
    Obj(map["role" := Str(role), "content" := content])
  }

  /** What an exception thrown out of an adapter carries. */
  datatype Thrown =
    /** a property read on `null`/`undefined` */
    | TypeError
    /** `throw new Error(message)` */
    | ErrorWith(message: string)
    /** `throw value` of a non-Error value */
    | Raised(value: JVal)

  /** How an adapter call ends: with a value, or with an exception. */
  datatype Outcome = Returned(value: JVal) | Threw(error: Thrown)
}
