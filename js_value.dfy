/** JavaScript values as they arrive from JSON: the body of an HTTP request, the
    body of the classifier service's reply, or the result of `JSON.parse`.
    Numbers are modelled as integers. */
module JsValue {

  datatype Option<T> = None | Some(value: T)

  datatype Value =
    | Undefined
    | Null
    | Bool(b: bool)
    | Num(n: int)
    | Str(s: string)
    | Arr(items: seq<Value>)
    | Obj(fields: map<string, Value>)

  /** JavaScript's ToBoolean: `undefined`, `null`, `false`, `0` and `''` are falsy. */
  predicate Truthy(v: Value) {
    match v
    case Undefined => false
    case Null => false
    case Bool(b) => b
    case Num(n) => n != 0
    case Str(s) => s != ""
    case Arr(_) => true
    case Obj(_) => true
  }

  /** `v == null`: the two values that optional chaining stops at. */
  predicate Nullish(v: Value) {
    v.Undefined? || v.Null?
  }

  /** `v.key` on a value that is not nullish, for the keys this code reads: an own
      property of an object, `undefined` for anything else. */
  function Member(v: Value, key: string): (r: Value)
    ensures !v.Obj? ==> r == Undefined
    ensures v.Obj? ==> r == (if key in v.fields then v.fields[key] else Undefined)
  {
    match v
    case Obj(fields) => if key in fields then fields[key] else Undefined
    case _ => Undefined
  }

  /** `v?.key` */
  function OptMember(v: Value, key: string): (r: Value)
    ensures Nullish(v) ==> r == Undefined
    ensures !Nullish(v) ==> r == Member(v, key)
  {
    if Nullish(v) then Undefined else Member(v, key)
  }

  /** `v?.[0]`: the first element of an array, the first character of a string, the
      property named "0" of an object, `undefined` otherwise. */
  function OptFirst(v: Value): Value {
    match v
    case Arr(items) => if items == [] then Undefined else items[0]
    case Str(s) => if s == "" then Undefined else Str([s[0]])
    case Obj(fields) => if "0" in fields then fields["0"] else Undefined
    case _ => Undefined
  }

  /** `x || fallback` */
  function Or(x: Value, fallback: Value): (r: Value)
    ensures Truthy(x) ==> r == x
    ensures !Truthy(x) ==> r == fallback
  {
    if Truthy(x) then x else fallback
  }

  /** The string entries of an array, in order: `xs.filter(s => typeof s === 'string')`. */
  function StringEntries(xs: seq<Value>): (r: seq<string>)
    ensures |r| <= |xs|
  {
    if xs == [] then []
    else (if xs[0].Str? then [xs[0].s] else []) + StringEntries(xs[1..])
  }

  /** Filtering distributes over concatenation: it keeps order and drops only non-strings. */
  lemma {:induction false} StringEntriesAppend(a: seq<Value>, b: seq<Value>)
    ensures StringEntries(a + b) == StringEntries(a) + StringEntries(b)
  {
    if a == [] {
      assert a + b == b;
    } else {
      var ab := a + b;
      assert ab[0] == a[0];
      assert ab[1..] == a[1..] + b;
      StringEntriesAppend(a[1..], b);
      assert StringEntries(ab) == (if a[0].Str? then [a[0].s] else []) + StringEntries(a[1..] + b);
    }
  }

  /** A string is kept exactly when it is an entry of the array. */
  lemma {:induction false} StringEntriesMembership(xs: seq<Value>, s: string)
    ensures s in StringEntries(xs) <==> Str(s) in xs
  {
    if xs != [] {
      StringEntriesMembership(xs[1..], s);
      assert xs == [xs[0]] + xs[1..];
    }
  }

  /** An array of strings is its own filter. */
  lemma {:induction false} StringEntriesOfStrings(ss: seq<string>)
    ensures StringEntries(seq(|ss|, i requires 0 <= i < |ss| => Str(ss[i]))) == ss
  {
    if ss != [] {
      var xs := seq(|ss|, i requires 0 <= i < |ss| => Str(ss[i]));
      StringEntriesOfStrings(ss[1..]);
      assert xs[1..] == seq(|ss[1..]|, i requires 0 <= i < |ss[1..]| => Str(ss[1..][i]));
    }
  }

  /** A sequence of strings as a JSON array. */
  function StrArray(ss: seq<string>): (v: Value)
    ensures v.Arr? && |v.items| == |ss|
    ensures forall i :: 0 <= i < |ss| ==> v.items[i] == Str(ss[i])
  {
    Arr(seq(|ss|, i requires 0 <= i < |ss| => Str(ss[i])))
  }
}
