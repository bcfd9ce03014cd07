/** Python built-ins applied to JSON values. */
module Python {
  import opened Wrappers
  import opened Json
  import opened JsonText

  /** Looking up an array or an object as a dictionary key raises `TypeError`. */
  predicate Unhashable(v: Json) { v.Arr? || v.Obj? }

  /** Keys that a dictionary cannot tell apart have one representative: `True == 1`. */
  function HashKey(v: Json): Json {
    if v.Bool? then Num(if v.b then 1 else 0) else v
  }

  /** The truth value of `v`. */
  predicate Truthy(v: Json) {
    match v
    case Null => false
    case Bool(b) => b
    case Num(n) => n != 0
    case Str(s) => s != ""
    case Arr(items) => items.Item?
    case Obj(m) => m.Member?
  }

  /** `str(v)`; for arrays and objects `repr` stands for what Python prints. */
  function PyStr(repr: Json -> string, v: Json): string {
    match v
    case Str(s) => s
    case Num(n) => IntText(n)
    case Bool(b) => if b then "True" else "False"
    case Null => "None"
    case _ => repr(v)
  }

  /** `int(v)`, `None` where it raises; `ofText` stands for `int` on strings. */
  function PyInt(ofText: string -> Option<int>, v: Json): Option<int> {
    match v
    case Num(n) => Some(n)
    case Bool(b) => Some(if b then 1 else 0)
    case Str(s) => ofText(s)
    case _ => None
  }

  /** What the built-ins make of the constants, and that `int` undoes `str` on numbers. */
  lemma {:induction false} BuiltIns(repr: Json -> string, ofText: string -> Option<int>, n: int)
    requires ofText(IntText(n)) == Some(n)
    ensures PyStr(repr, Null) == "None" && PyStr(repr, Bool(true)) == "True" && PyStr(repr, Bool(false)) == "False"
    ensures PyInt(ofText, Str(PyStr(repr, Num(n)))) == PyInt(ofText, Num(n)) == Some(n)
    ensures PyInt(ofText, Bool(true)) == Some(1) && PyInt(ofText, Bool(false)) == Some(0)
    ensures PyInt(ofText, Null) == PyInt(ofText, Arr(NoItems)) == PyInt(ofText, Obj(NoMembers)) == None
  {
  }
}
