/** The Code node's output clean-up: values a user's script returns are walked, and every object
    that is not a plain object (a `Date` with extra own properties, a class instance, ...) is
    replaced by its JSON text. The walk enters plain objects only: an array is kept as it is,
    with whatever objects it holds.

    Values are JavaScript values as a datatype; an object is its constructor's name and its own
    enumerable properties, in `Object.entries` order. */
module CodeOutput {
  datatype Value =
    | Undefined
    | Null
    | Boolean(b: bool)
    | Number(n: real)
    | String(s: string)
    | Function
    | Array(items: seq<Value>)
    | Object(obj: JsObject)

  /** `constructorName` is what `value.constructor.name` reads: normally the class's name, but an
      own `constructor` property shadows it. For `{constructor: 'x', a: 1}` it reads `undefined`
      (any text other than `Object` here), so that object is stringified like a class instance. */
  datatype JsObject = JsObject(constructorName: string, entries: seq<(string, Value)>)

  /** JavaScript's `typeof`. */
  function TypeOf(v: Value): string {
    match v
    case Undefined => "undefined"
    case Boolean(_) => "boolean"
    case Number(_) => "number"
    case String(_) => "string"
    case Function => "function"
    case Null => "object"
    case Array(_) => "object"
    case Object(_) => "object"
  }

  function KeysOf(entries: seq<(string, Value)>): (r: seq<string>)
    ensures |r| == |entries| && forall k :: 0 <= k < |entries| ==> r[k] == entries[k].0
  {
    if entries == [] then [] else [entries[0].0] + KeysOf(entries[1..])
  }

  /** `typeof v === 'object'`, not `null` and not an array: exactly the objects. */
  predicate IsObject(v: Value)
    ensures IsObject(v) <==> v.Object?
  {
    TypeOf(v) == "object" && v != Null && !v.Array?
  }

  /** An object with at least one own enumerable key. */
  predicate IsTraversable(v: Value)
    ensures IsTraversable(v) <==> v.Object? && |v.obj.entries| > 0
  {
    IsObject(v) && |KeysOf(v.obj.entries)| > 0
  }

  // The specification

  /** The value stored under a key once the output is standardised: a non-traversable value is
      kept; a traversable object whose constructor is not `Object` becomes its JSON text; a plain
      object is standardised in turn. */
  function StandardizedValue(v: Value, stringify: Value -> string): Value
    decreases v, 1
  {
    if !IsTraversable(v) then v
    else if v.obj.constructorName != "Object" then String(stringify(v))
    else Object(Standardized(v.obj, stringify))
  }

  /** The object once standardised: the same constructor and keys, each value standardised. */
  function Standardized(o: JsObject, stringify: Value -> string): (r: JsObject)
    ensures r.constructorName == o.constructorName && |r.entries| == |o.entries|
    ensures forall k :: 0 <= k < |o.entries| ==> r.entries[k].0 == o.entries[k].0
    decreases o, 0
  {
    JsObject(o.constructorName, seq(|o.entries|, k requires 0 <= k < |o.entries| =>
      assert o.entries[k] in o.entries;
      (o.entries[k].0, StandardizedValue(o.entries[k].1, stringify))))
  }

  /** No traversable object other than a plain one is left under a plain object, at any depth of
      plain objects (arrays are not entered). */
  predicate IsStandard(o: JsObject)
    decreases o
  {
    forall k :: 0 <= k < |o.entries| ==>
      var v := o.entries[k].1;
      IsTraversable(v) ==> v.obj.constructorName == "Object" && IsStandard(v.obj)
  }

  // What standardising promises

  /** The key set and order never change, and the constructor stays the same. */
  lemma StandardizedKeepsKeys(o: JsObject, stringify: Value -> string)
    ensures KeysOf(Standardized(o, stringify).entries) == KeysOf(o.entries)
    ensures Standardized(o, stringify).constructorName == o.constructorName
  {
  }

  /** Each value is kept when it is not traversable (a primitive, an array, an object with no own
      key such as a bare `Date`), stringified when it is a traversable non-plain object, and
      standardised in place when it is a traversable plain object. */
  lemma StandardizedEntries(o: JsObject, stringify: Value -> string, k: nat)
    requires k < |o.entries|
    ensures !IsTraversable(o.entries[k].1) ==> Standardized(o, stringify).entries[k].1 == o.entries[k].1
    ensures IsTraversable(o.entries[k].1) && o.entries[k].1.obj.constructorName != "Object" ==>
              Standardized(o, stringify).entries[k].1 == String(stringify(o.entries[k].1))
    ensures IsTraversable(o.entries[k].1) && o.entries[k].1.obj.constructorName == "Object" ==>
              Standardized(o, stringify).entries[k].1 == Object(Standardized(o.entries[k].1.obj, stringify))
  {
  }

  /** A `Date` (an object with no own enumerable key) is left as it is, not stringified. */
  lemma BareDateKept(stringify: Value -> string)
    ensures StandardizedValue(Object(JsObject("Date", [])), stringify) == Object(JsObject("Date", []))
  {
  }

  /** An array is not entered: whatever objects it holds are kept as they are. */
  lemma ArrayKept(items: seq<Value>, stringify: Value -> string)
    ensures StandardizedValue(Array(items), stringify) == Array(items)
  {
  }

  /** The result is standard at every depth. */
  lemma {:induction false} StandardizedIsStandard(o: JsObject, stringify: Value -> string)
    ensures IsStandard(Standardized(o, stringify))
    decreases o
  {
    var r := Standardized(o, stringify);
    forall k | 0 <= k < |r.entries| && IsTraversable(r.entries[k].1)
      ensures r.entries[k].1.obj.constructorName == "Object" && IsStandard(r.entries[k].1.obj)
    {
      var v := o.entries[k].1;
      assert r.entries[k].1 == StandardizedValue(v, stringify);
      if IsTraversable(v) && v.obj.constructorName == "Object" {
        assert o.entries[k] in o.entries;
        StandardizedIsStandard(v.obj, stringify);
      }
    }
  }

  /** A standard object is its own standardisation. */
  lemma {:induction false} StandardIsFixed(o: JsObject, stringify: Value -> string)
    requires IsStandard(o)
    ensures Standardized(o, stringify) == o
    decreases o
  {
    var r := Standardized(o, stringify);
    forall k | 0 <= k < |o.entries|
      ensures r.entries[k] == o.entries[k]
    {
      var v := o.entries[k].1;
      if IsTraversable(v) {
        assert o.entries[k] in o.entries;
        StandardIsFixed(v.obj, stringify);
      }
    }
  }

  /** Standardising twice is standardising once. */
  lemma StandardizedIdempotent(o: JsObject, stringify: Value -> string)
    ensures Standardized(Standardized(o, stringify), stringify) == Standardized(o, stringify)
  {
    StandardizedIsStandard(o, stringify);
    StandardIsFixed(Standardized(o, stringify), stringify);
  }

  // The walk as the source does it

  /** Walks the entries of `output`, replacing the value under each key as `Standardized` says,
      recursing into plain objects. */
  method StandardizeOutput(output: JsObject, stringify: Value -> string) returns (r: JsObject)
    ensures r == Standardized(output, stringify)
    decreases output
  {
    var entries := output.entries;
    var i := 0;
    while i < |entries|
      invariant 0 <= i <= |entries| == |output.entries|
      invariant forall k :: 0 <= k < i ==> entries[k] == (output.entries[k].0, StandardizedValue(output.entries[k].1, stringify))
      invariant forall k :: i <= k < |entries| ==> entries[k] == output.entries[k]
    {
      var (key, value) := entries[i];
      if IsTraversable(value) {
        if value.obj.constructorName != "Object" {
          entries := entries[i := (key, String(stringify(value)))];
        } else {
          assert output.entries[i] in output.entries;
          var inner := StandardizeOutput(value.obj, stringify);
          entries := entries[i := (key, Object(inner))];
        }
      }
      i := i + 1;
    }
    r := JsObject(output.constructorName, entries);
  }
}
