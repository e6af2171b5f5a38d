/** The JavaScript values that JSON.parse produces, and the few pieces of the
    language's semantics the renderer relies on: truthiness, `typeof`,
    `String(v)` as a template literal applies it, `Object.keys` with the
    property values it lists, and property reads. */
module JsValues {

  datatype Option<T> = None | Some(value: T)

  /** A parsed JSON value. Numbers are integers; an object's pairs are listed
      in `Object.keys` order. In a JavaScript object they have distinct keys
      (DistinctKeys); the type does not enforce it. */
  datatype Json =
    | JString(s: string)
    | JNum(n: int)
    | JBool(b: bool)
    | JNull
    | JArray(items: seq<Json>)
    | JObject(fields: seq<(string, Json)>)

  /** `typeof v === "object"`: true of null, arrays and objects. */
  predicate IsObjectTyped(v: Json) {
    v.JNull? || v.JArray? || v.JObject?
  }

  /** Truthiness of a property read, where None stands for `undefined`. */
  predicate Truthy(o: Option<Json>) {
    match o
    case None => false
    case Some(JString(s)) => s != ""
    case Some(JNum(n)) => n != 0
    case Some(JBool(b)) => b
    case Some(JNull) => false
    case Some(JArray(_)) => true
    case Some(JObject(_)) => true
  }

  predicate IsDigit(c: char) {
    '0' <= c <= '9'
  }

  function DigitChar(d: nat): (c: char)
    requires d < 10
    ensures IsDigit(c) && c as int - '0' as int == d
  {
    '0' + d as char
  }

  /** The decimal numeral of `n`, exact for every `n` (JavaScript prints
      integers this way up to 2^53). */
  function NatToString(n: nat): (r: string)
    ensures |r| >= 1
    ensures forall i :: 0 <= i < |r| ==> IsDigit(r[i])
    ensures r[0] == '0' ==> n == 0
  {
    if n < 10 then [DigitChar(n)] else NatToString(n / 10) + [DigitChar(n % 10)]
  }

  /** The number a string of decimal digits denotes. */
  function DecimalValue(s: string): int
  {
    if s == [] then 0
    else 10 * DecimalValue(s[..|s| - 1]) + (s[|s| - 1] as int - '0' as int)
  }

  lemma {:induction false} DecimalRoundTrip(n: nat)
    ensures DecimalValue(NatToString(n)) == n
  {
    if n >= 10 {
      var r := NatToString(n);
      assert r[..|r| - 1] == NatToString(n / 10);
      DecimalRoundTrip(n / 10);
    }
  }

  /** `String(n)` for an integer `n`. */
  function IntToString(n: int): string
  {
    if n < 0 then "-" + NatToString(-n) else NatToString(n)
  }

  /** How an evaluation ends: with a string, or by throwing JavaScript's
      TypeError (reading a property of null, `Object.keys(null)`, or a value
      that cannot be turned into a string). */
  datatype Outcome = Returned(text: string) | ThrewTypeError

  /** `acc + next` where either side may have thrown: the sum, unless one
      of them threw. */
  function Then(acc: Outcome, next: Outcome): Outcome
  {
    match (acc, next)
    case (Returned(a), Returned(b)) => Returned(a + b)
    case _ => ThrewTypeError
  }

  /** A template literal `${pre}${inner}${post}` whose middle part may throw. */
  function Enclose(pre: string, inner: Outcome, post: string): Outcome
  {
    match inner
    case Returned(s) => Returned(pre + s + post)
    case ThrewTypeError => ThrewTypeError
  }

  /** Where `String(v)` throws. An object with its own `toString` key hides
      Object.prototype.toString behind a value that cannot be called, and
      `valueOf` yields no primitive either, so a TypeError is thrown. An array is joined, so it throws where one of its
      items does. */
  predicate ToStringFails(v: Json)
  {
    match v
    case JObject(fields) => exists i :: 0 <= i < |fields| && fields[i].0 == "toString"
    case JArray(items) => exists i :: 0 <= i < |items| && ToStringFails(items[i])
    case _ => false
  }

  /** `String(v)`: what `${v}` in a template literal gives. */
  function ToJsString(v: Json): Outcome
  {
    match v
    case JString(s) => Returned(s)
    case JNum(n) => Returned(IntToString(n))
    case JBool(b) => Returned(if b then "true" else "false")
    case JNull => Returned("null")
    case JArray(items) => JoinItems(v, |items|)
    case JObject(fields) =>
      if exists i :: 0 <= i < |fields| && fields[i].0 == "toString" then ThrewTypeError
      else Returned("[object Object]")
  }

  /** Array.prototype.join(",") over the first `n` items of array `a`: a null
      item prints as nothing. */
  function JoinItems(a: Json, n: nat): Outcome
    requires a.JArray? && n <= |a.items|
    decreases a, n
  {
    if n == 0 then Returned("")
    else
      var item := a.items[n - 1];
      var text := if item.JNull? then Returned("") else ToJsString(item);
      if n == 1 then text else Then(JoinItems(a, n - 1), Enclose(",", text, ""))
  }

  lemma {:induction false} JoinItemsThrowsIff(a: Json, n: nat)
    requires a.JArray? && n <= |a.items|
    ensures JoinItems(a, n).ThrewTypeError? <==> exists i :: 0 <= i < n && ToStringFails(a.items[i])
    decreases a, 0, n
  {
    if n > 0 {
      var item := a.items[n - 1];
      if !item.JNull? {
        ToJsStringThrowsIff(item);
      }
      if n > 1 {
        JoinItemsThrowsIff(a, n - 1);
      }
      if ToStringFails(item) {
        assert 0 <= n - 1 < n && ToStringFails(a.items[n - 1]);
      }
    }
  }

  /** `String(v)` throws exactly where ToStringFails says. */
  lemma {:induction false} ToJsStringThrowsIff(v: Json)
    ensures ToJsString(v).ThrewTypeError? <==> ToStringFails(v)
    decreases v, 1, 0
  {
    if v.JArray? {
      JoinItemsThrowsIff(v, |v.items|);
    }
  }

  /** `String(o)` for a property read, where None is `undefined`. */
  function Interpolate(o: Option<Json>): Outcome
  {
    match o
    case None => Returned("undefined")
    case Some(v) => ToJsString(v)
  }

  /** `Object.keys(v)`, each key paired with `v[key]`, for a non-null `v` (for
      null, `Object.keys` throws): an object's own pairs, an array's or a
      string's index keys; a number or a boolean has none. */
  function OwnProps(v: Json): (r: seq<(string, Json)>)
    requires !v.JNull?
    ensures v.JObject? ==> r == v.fields
    ensures v.JArray? ==> |r| == |v.items| && forall i :: 0 <= i < |r| ==> r[i] == (NatToString(i), v.items[i])
    ensures v.JString? ==> |r| == |v.s| && forall i :: 0 <= i < |r| ==> r[i] == (NatToString(i), JString([v.s[i]]))
    ensures v.JNum? || v.JBool? ==> r == []
  {
    match v
    case JObject(fields) => fields
    case JArray(items) => seq(|items|, i requires 0 <= i < |items| => (NatToString(i), items[i]))
    case JString(s) => seq(|s|, i requires 0 <= i < |s| => (NatToString(i), JString([s[i]])))
    case JNum(_) => []
    case JBool(_) => []
  }

  /** The value of the first pair keyed `k`, or None. */
  function Lookup(fields: seq<(string, Json)>, k: string): (r: Option<Json>)
    ensures r.Some? ==> exists i :: 0 <= i < |fields| && fields[i] == (k, r.value)
  {
    if fields == [] then None
    else if fields[0].0 == k then Some(fields[0].1)
    else
      var r := Lookup(fields[1..], k);
      assert forall i :: 1 <= i < |fields| ==> fields[i] == fields[1..][i - 1];
      r
  }

  /** `v[k]` for a non-null `v` and a key `k` that is not an array index, not
      `length` (which arrays and strings own) and not inherited from a
      prototype: only an object can have such a property. None is
      `undefined`. */
  function Member(v: Json, k: string): (r: Option<Json>)
    requires |k| > 0 && !IsDigit(k[0]) && k != "length"
    ensures r.Some? ==> v.JObject? && exists i :: 0 <= i < |v.fields| && v.fields[i] == (k, r.value)
  {
    if v.JObject? then Lookup(v.fields, k) else None
  }

  /** The keys of a JavaScript object are distinct. */
  predicate DistinctKeys(fields: seq<(string, Json)>)
  {
    forall i, j :: 0 <= i < j < |fields| ==> fields[i].0 != fields[j].0
  }

  /** Lookup finds a key exactly when some pair has it, and then reads the
      first such pair. */
  lemma {:induction false} LookupFindsFirst(fields: seq<(string, Json)>, k: string)
    ensures Lookup(fields, k).Some? <==> exists i :: 0 <= i < |fields| && fields[i].0 == k
    ensures Lookup(fields, k).Some? ==>
              exists i :: 0 <= i < |fields| && fields[i] == (k, Lookup(fields, k).value)
                          && forall j :: 0 <= j < i ==> fields[j].0 != k
  {
    if fields != [] {
      if fields[0].0 == k {
        assert fields[0] == (k, Lookup(fields, k).value);
      } else {
        var rest := fields[1..];
        LookupFindsFirst(rest, k);
        assert forall i :: 1 <= i < |fields| ==> fields[i] == rest[i - 1];
        if Lookup(rest, k).Some? {
          var i :| 0 <= i < |rest| && rest[i] == (k, Lookup(rest, k).value)
                   && forall j :: 0 <= j < i ==> rest[j].0 != k;
          assert fields[i + 1] == (k, Lookup(fields, k).value)
                 && forall j :: 0 <= j < i + 1 ==> fields[j].0 != k;
        } else {
          assert forall i :: 0 <= i < |fields| ==> fields[i].0 != k;
        }
      }
    }
  }

  /** `v[k]` reads a value exactly when `v` is an object with a pair keyed
      `k`, and then it is the value of the first such pair. */
  lemma MemberFindsFirst(v: Json, k: string)
    requires |k| > 0 && !IsDigit(k[0]) && k != "length"
    ensures Member(v, k).Some? <==> v.JObject? && exists i :: 0 <= i < |v.fields| && v.fields[i].0 == k
    ensures Member(v, k).Some? ==>
              exists i :: 0 <= i < |v.fields| && v.fields[i] == (k, Member(v, k).value)
                          && forall j :: 0 <= j < i ==> v.fields[j].0 != k
  {
    if v.JObject? {
      LookupFindsFirst(v.fields, k);
    }
  }

  /** Each key Object.keys lists for an object reads back the value listed
      with it, as `json[key]` does in the loops of parseAttributes and
      parseStyle, whatever the key looks like (`""`, `"0%"` and so on); for a key
      that is neither an index name nor `length` this is the read Member
      models. */
  lemma OwnPropsRead(v: Json, i: nat)
    requires v.JObject? && DistinctKeys(v.fields) && i < |OwnProps(v)|
    ensures Lookup(v.fields, OwnProps(v)[i].0) == Some(OwnProps(v)[i].1)
    ensures var k := OwnProps(v)[i].0;
            |k| > 0 && !IsDigit(k[0]) && k != "length" ==> Member(v, k) == Some(OwnProps(v)[i].1)
  {
    var k := v.fields[i].0;
    LookupFindsFirst(v.fields, k);
    var j :| 0 <= j < |v.fields| && v.fields[j] == (k, Lookup(v.fields, k).value)
             && forall m :: 0 <= m < j ==> v.fields[m].0 != k;
    assert j == i;
  }
}
