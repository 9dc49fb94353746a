/** The dynamically typed values that answers, parsed JSON and form state
    hold, with the JavaScript operations the source applies to them:
    truthiness, `Array.isArray`, `String(v)` (also the key coercion of
    `record[v]`), `Array.prototype.join` and property access. */
module JsValues {
  import opened Wrappers
  import opened Strings

  datatype JsVal =
    | Undef
    | Null
    | Bool(b: bool)
    | Num(n: int)
    | Str(s: string)
    | Arr(elems: seq<JsVal>)
    | Obj(fields: map<string, JsVal>)

  /** JavaScript truthiness: `!!v`. */
  predicate Truthy(v: JsVal) {
    match v
    case Undef => false
    case Null => false
    case Bool(b) => b
    case Num(n) => n != 0
    case Str(s) => s != ""
    case Arr(_) => true
    case Obj(_) => true
  }

  /** `v !== undefined && v !== null && v !== ""`: the answer filter of the
      analytics views. */
  predicate Answered(v: JsVal) {
    v != Undef && v != Null && v != Str("")
  }

  lemma TruthyIsAnswered(v: JsVal)
    ensures Truthy(v) ==> Answered(v)
  {
  }

  /** `record[key]` on a plain record: `undefined` when the key is absent. */
  function At(m: map<string, JsVal>, key: string): (r: JsVal)
    ensures key !in m ==> r == Undef
  {
    if key in m then m[key] else Undef
  }

  /** One element as `Array.prototype.join` renders it: `null` and
      `undefined` become the empty string. */
  function ElemToStr(v: JsVal): string {
    if v == Undef || v == Null then "" else ToStr(v)
  }

  /** `String(v)`, which is also how `record[v]` turns `v` into a key. */
  function ToStr(v: JsVal): (r: string)
    ensures v.Str? ==> r == v.s
    decreases v
  {
    match v
    case Undef => "undefined"
    case Null => "null"
    case Bool(b) => if b then "true" else "false"
    case Num(n) => IntToString(n)
    case Str(s) => s
    case Arr(xs) =>
      Join(seq(|xs|, i requires 0 <= i < |xs| =>
             if xs[i] == Undef || xs[i] == Null then "" else ToStr(xs[i])), ",")
    case Obj(_) => "[object Object]"
  }

  /** `xs.join(sep)`. */
  function JoinArr(xs: seq<JsVal>, sep: string): string {
    Join(seq(|xs|, i requires 0 <= i < |xs| => ElemToStr(xs[i])), sep)
  }

  /** Property access `v.name`: `None` stands for the TypeError thrown on
      `null` and `undefined`; primitives and arrays have none of the
      property names the source reads, so they give `undefined`. */
  function Prop(v: JsVal, name: string): (r: Option<JsVal>)
    ensures r.None? <==> v == Undef || v == Null
  {
    match v
    case Undef => None
    case Null => None
    case Obj(m) => Some(At(m, name))
    case _ => Some(Undef)
  }

  /** `xs.filter(v => v !== x)` for a string `x`. */
  function RemoveStr(xs: seq<JsVal>, x: string): (r: seq<JsVal>)
    ensures Str(x) !in r
    ensures forall v :: v in r <==> v in xs && v != Str(x)
    ensures |r| <= |xs|
  {
    if xs == [] then []
    else if xs[0] == Str(x) then RemoveStr(xs[1..], x)
    else [xs[0]] + RemoveStr(xs[1..], x)
  }

  /** Removing a value that is absent leaves the list as it was. */
  lemma {:induction false} RemoveStrAbsent(xs: seq<JsVal>, x: string)
    requires Str(x) !in xs
    ensures RemoveStr(xs, x) == xs
  {
    if xs != [] {
      assert xs[0] != Str(x);
      assert Str(x) !in xs[1..] by { assert forall v :: v in xs[1..] ==> v in xs; }
      RemoveStrAbsent(xs[1..], x);
    }
  }

  /** Removing after appending a value that was absent restores the list. */
  lemma {:induction false} RemoveStrAppended(xs: seq<JsVal>, x: string)
    requires Str(x) !in xs
    ensures RemoveStr(xs + [Str(x)], x) == xs
  {
    if xs == [] {
      assert RemoveStr([Str(x)], x) == RemoveStr([], x);
    } else {
      assert (xs + [Str(x)])[1..] == xs[1..] + [Str(x)];
      assert Str(x) !in xs[1..] by { assert forall v :: v in xs[1..] ==> v in xs; }
      RemoveStrAppended(xs[1..], x);
    }
  }

  /** Removal works element by element, so the rest keep their order. */
  lemma {:induction false} RemoveStrConcat(xs: seq<JsVal>, ys: seq<JsVal>, x: string)
    ensures RemoveStr(xs + ys, x) == RemoveStr(xs, x) + RemoveStr(ys, x)
  {
    if xs != [] {
      assert (xs + ys)[1..] == xs[1..] + ys;
      RemoveStrConcat(xs[1..], ys, x);
    } else {
      assert xs + ys == ys;
    }
  }
}
