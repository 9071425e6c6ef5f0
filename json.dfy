/**
 * Parsed JSON values as the TypeScript and JavaScript sources see them after
 * `JSON.parse`, with the few ECMAScript operations the sources apply to them:
 * truthiness, property access, property assignment and `String(x)`.
 * Encoding and decoding themselves are not modelled here; where a source calls
 * `JSON.parse`/`JSON.stringify` or serde, the model takes them as parameters.
 */
module Json {
  import opened Wrappers
  import Text

  /** Numbers are kept as the text that ECMAScript's `String(n)` gives for them. */
  datatype Json =
    | JNull
    | JBool(b: bool)
    | JNum(text: string)
    | JStr(s: string)
    | JArr(items: seq<Json>)
    | JObj(fields: seq<Field>)

  /** One own property of an object, in insertion order. */
  datatype Field = Field(key: string, value: Json)

  function Keys(fields: seq<Field>): (ks: seq<string>)
    ensures |ks| == |fields|
    ensures forall i :: 0 <= i < |fields| ==> ks[i] == fields[i].key
  {
    if fields == [] then [] else [fields[0].key] + Keys(fields[1..])
  }

  /** `obj[key]` on an object: the value of the key, or `undefined` (None). */
  function Get(fields: seq<Field>, key: string): (r: Option<Json>)
    ensures r.Some? <==> key in Keys(fields)
  {
    if fields == [] then None
    else if fields[0].key == key then Some(fields[0].value)
    else Get(fields[1..], key)
  }

  /**
   * `obj[key] = v`: an existing property keeps its position and gets the new
   * value; a new property is added after all existing ones.
   */
  function Set(fields: seq<Field>, key: string, v: Json): (r: seq<Field>)
    ensures Get(r, key) == Some(v)
  {
    if fields == [] then [Field(key, v)]
    else if fields[0].key == key then [Field(key, v)] + fields[1..]
    else [fields[0]] + Set(fields[1..], key, v)
  }

  /** Assignment leaves every other property as it was. */
  lemma {:induction false} SetOther(fields: seq<Field>, key: string, v: Json, k: string)
    requires k != key
    ensures Get(Set(fields, key, v), k) == Get(fields, k)
  {
    if fields != [] && fields[0].key != key {
      SetOther(fields[1..], key, v, k);
      assert Set(fields, key, v)[1..] == Set(fields[1..], key, v);
    }
  }

  /** `SetOther` for every other key at once. */
  lemma SetOthers(fields: seq<Field>, key: string, v: Json)
    ensures forall k :: k != key ==> Get(Set(fields, key, v), k) == Get(fields, k)
  {
    forall k | k != key
      ensures Get(Set(fields, key, v), k) == Get(fields, k)
    {
      SetOther(fields, key, v, k);
    }
  }

  /** Assignment keeps the order of the existing properties and appends a new one. */
  lemma SetKeys(fields: seq<Field>, key: string, v: Json)
    ensures Keys(Set(fields, key, v)) == if key in Keys(fields) then Keys(fields) else Keys(fields) + [key]
  {
    if key in Keys(fields) {
      SetExistingKeys(fields, key, v);
    } else {
      SetNew(fields, key, v);
      KeysSnoc(fields, Field(key, v));
    }
  }

  lemma {:induction false} SetExistingKeys(fields: seq<Field>, key: string, v: Json)
    requires key in Keys(fields)
    ensures Keys(Set(fields, key, v)) == Keys(fields)
  {
    var f, tl := fields[0], fields[1..];
    assert fields == [f] + tl;
    KeysCons(f, tl);
    if f.key == key {
      assert Set(fields, key, v) == [Field(key, v)] + tl;
      KeysCons(Field(key, v), tl);
    } else {
      SetExistingKeys(tl, key, v);
      SetCons(f, tl, key, v);
      KeysCons(f, Set(tl, key, v));
    }
  }

  lemma KeysSnoc(fields: seq<Field>, f: Field)
    ensures Keys(fields + [f]) == Keys(fields) + [f.key]
  {
    var a, b := Keys(fields + [f]), Keys(fields) + [f.key];
    assert |a| == |b|;
    forall i | 0 <= i < |a| ensures a[i] == b[i] {
      assert (fields + [f])[i] == if i < |fields| then fields[i] else f;
    }
  }

  lemma SetCons(f: Field, rest: seq<Field>, key: string, v: Json)
    requires f.key != key
    ensures Set([f] + rest, key, v) == [f] + Set(rest, key, v)
  {
    assert ([f] + rest)[0] == f && ([f] + rest)[1..] == rest;
  }

  /** Assignment never removes or reorders existing properties. */
  lemma SetKeysPrefix(fields: seq<Field>, key: string, v: Json)
    ensures Keys(fields) <= Keys(Set(fields, key, v))
  {
    SetKeys(fields, key, v);
  }

  /** Assigning a property the object does not have appends it. */
  lemma {:induction false} SetNew(fields: seq<Field>, key: string, v: Json)
    requires key !in Keys(fields)
    ensures Set(fields, key, v) == fields + [Field(key, v)]
  {
    if fields != [] {
      var f, tl := fields[0], fields[1..];
      assert fields == [f] + tl;
      KeysCons(f, tl);
      SetNew(tl, key, v);
      assert Set(fields, key, v) == [f] + (tl + [Field(key, v)]);
    }
  }

  lemma KeysCons(f: Field, fs: seq<Field>)
    ensures Keys([f] + fs) == [f.key] + Keys(fs)
  {
    assert ([f] + fs)[1..] == fs;
  }

  /** Property access `x.key` on a value that is not null or undefined. */
  function Member(x: Json, key: string): Option<Json> {
    if x.JObj? then Get(x.fields, key) else None
  }

  /** ECMAScript truthiness; `None` stands for `undefined`. */
  predicate Truthy(x: Option<Json>) {
    match x
    case None => false
    case Some(JNull) => false
    case Some(JBool(b)) => b
    case Some(JNum(t)) => t != "0"
    case Some(JStr(s)) => s != ""
    case Some(_) => true
  }

  /** `String(x)`; `None` stands for `undefined`. */
  /**
   * `String(x)` and `new Date(x)` return rather than throw a TypeError. They
   * throw when an object reached through array elements has an own `toString`
   * property: a parsed value can never make it callable, and the inherited
   * `valueOf` gives back the object itself.
   */
  predicate Coercible(j: Json) {
    match j
    case JArr(items) => forall i :: 0 <= i < |items| ==> Coercible(items[i])
    case JObj(fields) => "toString" !in Keys(fields)
    case _ => true
  }

  /** `undefined` always coerces. */
  predicate Coerces(x: Option<Json>) {
    x.None? || Coercible(x.value)
  }

  function ToJsString(x: Option<Json>): string {
    match x
    case None => "undefined"
    case Some(j) => ValueString(j)
  }

  function ValueString(j: Json): string {
    match j
    case JNull => "null"
    case JBool(b) => if b then "true" else "false"
    case JNum(t) => t
    case JStr(s) => s
    // Array.prototype.join(','): null elements print as the empty string
    case JArr(items) =>
      Text.Join(seq(|items|, i requires 0 <= i < |items| =>
        if items[i].JNull? then "" else ValueString(items[i])), ',')
    case JObj(_) => "[object Object]"
  }
}
