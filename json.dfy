/**
 * The loosely typed values the intake code handles: parsed request bodies, file
 * entries and report drafts. `Undefined` stands for a missing property. An object
 * is its own enumerable properties in enumeration order (keys are distinct).
 */
module Json {
  import opened Wrappers
  import opened JsCore

  datatype Value =
    | Undefined
    | Null
    | Bool(b: bool)
    | Num(n: int)
    | Str(s: string)
    | Arr(items: seq<Value>)
    | Obj(fields: seq<Field>)

  datatype Field = Field(key: string, val: Value)

  /** JavaScript truthiness. */
  predicate Truthy(v: Value) {
    match v
    case Undefined => false
    case Null => false
    case Bool(b) => b
    case Num(n) => n != 0
    case Str(s) => s != ""
    case Arr(_) => true
    case Obj(_) => true
  }

  /** `v == null`: the values `??` and `?.` treat as absent. */
  predicate Nullish(v: Value) { v.Undefined? || v.Null? }

  /** `a || b` */
  function Or(a: Value, b: Value): (r: Value)
    ensures Truthy(a) ==> r == a
    ensures !Truthy(a) ==> r == b
  {
    if Truthy(a) then a else b
  }

  /** `a ?? b` */
  function Coalesce(a: Value, b: Value): (r: Value)
    ensures !Nullish(a) ==> r == a
    ensures Nullish(a) ==> r == b
  {
    if Nullish(a) then b else a
  }

  function Lookup(fields: seq<Field>, key: string): (r: Value)
    ensures r == Undefined || exists i :: 0 <= i < |fields| && fields[i].key == key && fields[i].val == r
    ensures (forall i :: 0 <= i < |fields| ==> fields[i].key != key) ==> r == Undefined
  {
    if |fields| == 0 then Undefined
    else if fields[0].key == key then fields[0].val
    else Lookup(fields[1..], key)
  }

  /**
   * `v?.[key]`. Every key this code reads is an ordinary name, so on anything but an
   * object (a primitive, an array, null or undefined) the property is undefined.
   */
  function Get(v: Value, key: string): Value
  {
    if v.Obj? then Lookup(v.fields, key) else Undefined
  }

  /** The fields after `o[key] = x`; a new key goes last, the order of named, non-index keys. */
  function Store(fields: seq<Field>, key: string, x: Value): (r: seq<Field>)
  {
    if |fields| == 0 then [Field(key, x)]
    else if fields[0].key == key then [Field(key, x)] + fields[1..]
    else [fields[0]] + Store(fields[1..], key, x)
  }

  /** `o[key] = x`: an existing property keeps its place, a new one is appended. */
  function Set(o: Value, key: string, x: Value): (r: Value)
    requires o.Obj?
    ensures r.Obj?
  {
    Obj(Store(o.fields, key, x))
  }

  /** After `o[key] = x`, reading `key` gives `x` and every other key reads as before. */
  lemma {:induction false} StoreLookup(fields: seq<Field>, key: string, x: Value, other: string)
    ensures Lookup(Store(fields, key, x), key) == x
    ensures other != key ==> Lookup(Store(fields, key, x), other) == Lookup(fields, other)
  {
    if |fields| > 0 && fields[0].key != key {
      StoreLookup(fields[1..], key, x, other);
    }
  }

  lemma GetAfterSet(o: Value, key: string, x: Value, other: string)
    requires o.Obj?
    ensures Get(Set(o, key, x), key) == x
    ensures other != key ==> Get(Set(o, key, x), other) == Get(o, other)
  {
    StoreLookup(o.fields, key, x, other);
  }

  /** Assigning a key that is already present keeps the object's shape and key order. */
  lemma {:induction false} StoreKeepsKeys(fields: seq<Field>, key: string, x: Value)
    requires exists i :: 0 <= i < |fields| && fields[i].key == key
    ensures |Store(fields, key, x)| == |fields|
    ensures forall i :: 0 <= i < |fields| ==> Store(fields, key, x)[i].key == fields[i].key
  {
    if fields[0].key != key {
      var i :| 0 <= i < |fields| && fields[i].key == key;
      assert fields[1..][i - 1].key == key;
      StoreKeepsKeys(fields[1..], key, x);
    }
  }

  /** A key read from an object is the value of its first field with that key. */
  lemma {:induction false} LookupFirst(fields: seq<Field>, m: nat)
    requires m < |fields|
    requires forall j :: 0 <= j < m ==> fields[j].key != fields[m].key
    ensures Lookup(fields, fields[m].key) == fields[m].val
  {
    if m > 0 {
      assert fields[0].key != fields[m].key;
      assert fields[1..][m - 1] == fields[m];
      LookupFirst(fields[1..], m - 1);
    }
  }

  /** Assigning a present key the value it reads as changes nothing. */
  lemma {:induction false} StoreSame(fields: seq<Field>, key: string)
    requires exists i :: 0 <= i < |fields| && fields[i].key == key
    ensures Store(fields, key, Lookup(fields, key)) == fields
  {
    if fields[0].key != key {
      var i :| 0 <= i < |fields| && fields[i].key == key;
      assert fields[1..][i - 1].key == key;
      StoreSame(fields[1..], key);
      assert fields == [fields[0]] + fields[1..];
    }
  }

  /** Assigning a key that is not yet present appends it after the others. */
  lemma {:induction false} StoreAppends(fields: seq<Field>, key: string, x: Value)
    requires forall i :: 0 <= i < |fields| ==> fields[i].key != key
    ensures Store(fields, key, x) == fields + [Field(key, x)]
  {
    if |fields| > 0 {
      assert fields[0].key != key;
      StoreAppends(fields[1..], key, x);
      assert fields == [fields[0]] + fields[1..];
    }
  }

  /** `ss.join(sep)` over strings. */
  function JoinStrings(ss: seq<string>, sep: string): string
  {
    if |ss| == 0 then "" else if |ss| == 1 then ss[0] else ss[0] + sep + JoinStrings(ss[1..], sep)
  }

  /**
   * The string `String(v)` (and a template literal `${v}`) gives, for an object whose
   * `toString` and `valueOf` are the built-in ones.
   */
  function ToJsString(v: Value): string
  {
    match v
    case Undefined => "undefined"
    case Null => "null"
    case Bool(b) => if b then "true" else "false"
    case Num(n) => IntToString(n)
    case Str(s) => s
    case Arr(items) => ArrayJoin(items, ",")
    case Obj(_) => "[object Object]"
  }

  /** `items.join(sep)`: null and undefined elements print as the empty string. */
  function ArrayJoin(items: seq<Value>, sep: string): string
    decreases items
  {
    if |items| == 0 then ""
    else
      var first := if Nullish(items[0]) then "" else ToJsString(items[0]);
      if |items| == 1 then first else first + sep + ArrayJoin(items[1..], sep)
  }

  /** `Number(v)`: objects and arrays go through their string form. */
  function ToNumber(v: Value): Number
  {
    match v
    case Undefined => NaN
    case Null => Finite(0)
    case Bool(b) => Finite(if b then 1 else 0)
    case Num(n) => Finite(n)
    case Str(s) => StringToNumber(s)
    case Arr(_) => StringToNumber(ToJsString(v))
    case Obj(_) => StringToNumber(ToJsString(v))
  }

  /** The JavaScript number spelled out and read back is the number itself. */
  lemma NumberOfNumberString(n: int)
    ensures ToNumber(Str(ToJsString(Num(n)))) == Finite(n)
  {
    NumberOfIntString(n);
  }

  function IndexFields(items: seq<Value>, from: nat): (r: seq<Field>)
    ensures |r| == |items|
    ensures forall i :: 0 <= i < |items| ==> r[i] == Field(NatToString(from + i), items[i])
  {
    if |items| == 0 then [] else [Field(NatToString(from), items[0])] + IndexFields(items[1..], from + 1)
  }

  /**
   * `Object.entries(v)`: the properties of an object, the indices of an array or a
   * string, nothing for a number or boolean; it throws (None) on null and undefined.
   */
  function Entries(v: Value): (r: Option<seq<Field>>)
    ensures r.None? <==> Nullish(v)
  {
    match v
    case Undefined => None
    case Null => None
    case Bool(_) => Some([])
    case Num(_) => Some([])
    case Str(s) => Some(IndexFields(seq(|s|, i requires 0 <= i < |s| => Str([s[i]])), 0))
    case Arr(items) => Some(IndexFields(items, 0))
    case Obj(fields) => Some(fields)
  }
}
