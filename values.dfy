/** JavaScript values as the saga test helpers see them: primitives, functions
    (compared by identity), arrays, plain objects, redux-saga effect objects,
    promises and generator objects. A generator object is a cursor over the
    values it yields. */
module Values {

  datatype Option<+T> = None | Some(value: T)

  /** The effect tags of shared/keys: the keys redux-saga puts on its effect
      objects, plus PARALLEL, PROMISE and NONE, which parseEffect reports for
      arrays, promises and everything else. */
  datatype Tag =
    | TAKE | PUT | CALL | CPS | FORK | JOIN | CANCEL | SELECT
    | ACTION_CHANNEL | CANCELLED | FLUSH | RACE
    | PARALLEL | PROMISE | NONE
  {
    /** The tags that are a key of a redux-saga effect object. */
    predicate IsIo() {
      this != PARALLEL && this != PROMISE && this != NONE
    }

    function Key(): string {
      match this
      case TAKE => "TAKE"
      case PUT => "PUT"
      case CALL => "CALL"
      case CPS => "CPS"
      case FORK => "FORK"
      case JOIN => "JOIN"
      case CANCEL => "CANCEL"
      case SELECT => "SELECT"
      case ACTION_CHANNEL => "ACTION_CHANNEL"
      case CANCELLED => "CANCELLED"
      case FLUSH => "FLUSH"
      case RACE => "RACE"
      case PARALLEL => "PARALLEL"
      case PROMISE => "PROMISE"
      case NONE => "NONE"
    }
  }

  type IoTag = t: Tag | t.IsIo() witness TAKE

  /** The marker key of every redux-saga effect object. */
  const IO := "@@redux-saga/IO"
  /** The marker key redux-saga puts on the iterators of its helpers. */
  const HELPER := "@@redux-saga/HELPER"

  datatype Value =
    | Undefined
    | Null
    | Bool(b: bool)
    | Num(n: int)
    | Str(s: string)
      /** A function, known only by its identity. */
    | Func(id: nat)
    | Arr(elems: seq<Value>)
      /** A plain object: every property `in` reaches, own or inherited. */
    | Obj(props: map<string, Value>)
      /** A redux-saga effect object `{ [IO]: true, [tag]: payload }`. */
    | Eff(tag: IoTag, payload: Value)
    | Thenable(id: nat)
      /** A generator object with a `name` property, carrying the HELPER
          marker when `marked`; `cursor` holds what its next() calls yield. */
    | Iter(name: Value, marked: bool, cursor: Cursor)
  {
    /** `v == null` in JavaScript: null or undefined. */
    predicate IsNullish() {
      Undefined? || Null?
    }

    /** JavaScript truthiness. */
    predicate IsTruthy() {
      match this
      case Undefined => false
      case Null => false
      case Bool(b) => b
      case Num(n) => n != 0
      case Str(s) => s != ""
      case _ => true
    }

    /** `typeof v === 'object'` (true of null as well). */
    predicate IsObject() {
      Null? || Arr? || Obj? || Eff? || Thenable? || Iter?
    }
  }

  /** `v[key]` for a value whose property access cannot throw; a missing
      property reads as undefined. */
  function Prop(v: Value, key: string): Value {
    match v
    case Obj(props) => if key in props then props[key] else Undefined
    case Eff(t, p) => if key == t.Key() then p else if key == IO then Bool(true) else Undefined
    case Iter(name, marked, _) =>
      if key == "name" then name else if key == HELPER && marked then Bool(true) else Undefined
    case Arr(elems) => if key == "length" then Num(|elems|) else Undefined
    case Str(s) => if key == "length" then Num(|s|) else Undefined
    case _ => Undefined
  }

  /** `key in v` for an object v (index keys of arrays and the methods of
      generator objects are not listed). */
  predicate Has(v: Value, key: string) {
    match v
    case Obj(props) => key in props
    case Eff(t, _) => key == t.Key() || key == IO
    case Iter(_, marked, _) => key == "name" || (marked && key == HELPER)
    case Arr(_) => key == "length"
    case _ => false
  }

  /** `v[0]`, the first argument of an argument list. */
  function First(v: Value): Value {
    match v
    case Arr(elems) => if elems == [] then Undefined else elems[0]
    case Obj(props) => if "0" in props then props["0"] else Undefined
    case _ => Undefined
  }

  /** The tag parseEffect reports for a yielded value. */
  function ParseEffect(v: Value): (t: Tag)
    ensures t.IsIo() <==> v.Eff?
    ensures v.Eff? ==> t == v.tag
    ensures t == PARALLEL <==> v.Arr?
    ensures t == PROMISE <==> v.Thenable?
  {
    match v
    case Eff(t, _) => t
    case Arr(_) => PARALLEL
    case Thenable(_) => PROMISE
    case _ => NONE
  }

  /** `asEffect[tag](v)`: the payload of v when v is an effect of that tag,
      undefined otherwise. */
  function AsEffect(t: Tag, v: Value): Value {
    if v.Eff? && v.tag == t then v.payload else Undefined
  }

  /** The value at position k of what is yielded, or undefined past the end. */
  function At(s: seq<Value>, k: nat): Value {
    if k < |s| then s[k] else Undefined
  }

  function Tail(s: seq<Value>): seq<Value> {
    if s == [] then [] else s[1..]
  }

  lemma AtTail(s: seq<Value>, k: nat)
    ensures At(Tail(s), k) == At(s, k + 1)
  {
  }

  // Sequence facts the proofs cite by name rather than by assertion.

  lemma AppendAssociates<T>(a: seq<T>, b: seq<T>, c: seq<T>)
    ensures a + b + c == a + (b + c)
  {
  }

  lemma PushTwice<T>(s: seq<T>, x: T)
    ensures s + [x] + [x] == s + [x, x]
  {
  }

  lemma TakeAll<T>(s: seq<T>)
    ensures s[..|s|] == s
  {
  }

  lemma TakeOfTake<T>(s: seq<T>, n: nat, k: nat)
    requires k <= n <= |s|
    ensures s[..n][..k] == s[..k]
  {
  }

  /** A generator object seen from outside: each next(input) call records its
      input and yields the following value, undefined once it is done. */
  class Cursor {
    /** What the following next() calls yield, in order. */
    var upcoming: seq<Value>
    var fed: seq<Value>

    constructor (outputs: seq<Value>)
      ensures upcoming == outputs && fed == []
    {
      upcoming := outputs;
      fed := [];
    }

    method Next(input: Value) returns (v: Value)
      modifies this
      ensures fed == old(fed) + [input]
      ensures v == At(old(upcoming), 0)
      ensures upcoming == Tail(old(upcoming))
    {
      v := At(upcoming, 0);
      upcoming := Tail(upcoming);
      fed := fed + [input];
    }
  }
}
