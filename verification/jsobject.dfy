/**
 * Plain JavaScript objects used as string-keyed dictionaries, as the
 * mirrorer's `uniq`, `remove` and visited-page table use them. Property reads
 * fall through to the prototype, which is where the quirks come from.
 */
module JsObject {
  import opened Seqs
  import opened JsText

  /** Names every `{}` inherits from `Object.prototype`; reading one yields a function or object, which is truthy. */
  const ObjectPrototypeKeys: set<string> := {
    "constructor", "__proto__", "hasOwnProperty", "isPrototypeOf",
    "propertyIsEnumerable", "toString", "valueOf", "toLocaleString",
    "__defineGetter__", "__defineSetter__", "__lookupGetter__", "__lookupSetter__"
  }

  /** Method names a primitive string inherits from `String.prototype` (all functions, so truthy). */
  const StringPrototypeKeys: set<string> :=
    StringAccessorKeys + StringSearchKeys + StringTransformKeys + StringHtmlKeys

  const StringAccessorKeys: set<string> := {
    "at", "charAt", "charCodeAt", "codePointAt", "concat", "localeCompare",
    "normalize", "isWellFormed", "toWellFormed"
  }

  const StringSearchKeys: set<string> := {
    "endsWith", "includes", "indexOf", "lastIndexOf", "match", "matchAll",
    "search", "startsWith"
  }

  const StringTransformKeys: set<string> := {
    "padEnd", "padStart", "repeat", "replace", "replaceAll", "slice", "split",
    "substr", "substring", "toLocaleLowerCase", "toLocaleUpperCase",
    "toLowerCase", "toUpperCase", "trim", "trimEnd", "trimLeft", "trimRight",
    "trimStart"
  }

  /** The legacy HTML-wrapping methods. */
  const StringHtmlKeys: set<string> := {
    "anchor", "big", "blink", "bold", "fixed", "fontcolor", "fontsize",
    "italics", "link", "small", "strike", "sub", "sup"
  }

  /**
   * Assigning `obj["__proto__"] = true` goes to the inherited prototype setter,
   * which ignores a non-object value: no own key is created.
   */
  const ProtoKey := "__proto__"

  /**
   * `Object.keys` of an object built by `obj[k] = true` for each `k` of
   * `writes` in turn: every key once, in the order of its first write, and
   * never `__proto__`.
   */
  function ObjectKeys(writes: seq<string>): (r: seq<string>)
    ensures NoDups(r)
    ensures forall x :: x in r <==> x in writes && x != ProtoKey
  {
    Dedup(writes, {ProtoKey})
  }

  /** Repeated writes do not move a key: the keys are the first writes, in order. */
  lemma ObjectKeysFirstWrite(writes: seq<string>)
    ensures ObjectKeys(writes) == FirstOccurrences(writes, {ProtoKey})
  {
    DedupIsFirstOccurrences(writes, {ProtoKey});
  }

  /**
   * `obj[key]` is truthy, for an object whose own keys are exactly `keys`, each
   * set to `true`. Inherited names are truthy as well.
   */
  predicate Lookup(keys: set<string>, key: string) {
    key in keys || key in ObjectPrototypeKeys
  }

  /**
   * `uniq(arr)`: a `reduce` that records each element in an accumulator object
   * unless reading it there is already truthy, then `Object.keys` of the
   * accumulator (insertion order).
   */
  function Uniq(arr: seq<string>): (r: seq<string>)
    ensures NoDups(r)
    ensures forall x :: x in r <==> x in arr && x !in ObjectPrototypeKeys
  {
    Dedup(arr, ObjectPrototypeKeys)
  }

  /** `uniq` keeps the first occurrence of every element, in order (inherited names aside). */
  lemma UniqFirstOccurrences(arr: seq<string>)
    ensures Uniq(arr) == FirstOccurrences(arr, ObjectPrototypeKeys)
  {
    DedupIsFirstOccurrences(arr, ObjectPrototypeKeys);
  }

  /** `uniq(uniq(x)) == uniq(x)` */
  lemma UniqIdempotent(arr: seq<string>)
    ensures Uniq(Uniq(arr)) == Uniq(arr)
  {
    DedupIdempotent(arr, ObjectPrototypeKeys);
  }

  // ---------------------------------------------------------------------------
  // remove(arr, obj) = arr.filter(e => !e[obj])

  /** The property key an ordinary object becomes when used as one: its `toString()`. */
  const ObjectAsKey := "[object Object]"

  predicate IsDigit(c: char) {
    '0' <= c <= '9'
  }

  function DigitsValue(k: string): nat
    requires forall i :: 0 <= i < |k| ==> IsDigit(k[i])
  {
    if k == [] then 0
    else
      assert IsDigit(k[|k| - 1]);
      DigitsValue(k[..|k| - 1]) * 10 + (k[|k| - 1] as int - '0' as int)
  }

  /** A key naming an array index: decimal digits without a leading zero. */
  predicate IsIndexKey(k: string) {
    && k != []
    && (forall i :: 0 <= i < |k| ==> IsDigit(k[i]))
    && (k == "0" || k[0] != '0')
  }

  /**
   * `s[key]` on a primitive string is truthy: an index in range gives a
   * one-character string, `length` gives a number that is truthy unless 0,
   * and inherited names give functions.
   */
  predicate StringPropertyTruthy(s: string, key: string) {
    || (IsIndexKey(key) && DigitsValue(key) < |s|)
    || (key == "length" && |s| > 0)
    || key in StringPrototypeKeys
    || key in ObjectPrototypeKeys
  }

  /**
   * `remove(arr, obj)`: keeps the elements `e` for which `e[obj]` is falsy.
   * The object becomes a key through its inherited `toString`, so only that
   * key matters, never the object's contents. An object with an own
   * `toString` key would make the coercion throw; the visited table never
   * has one (see `Frontier.Run`).
   */
  function Remove(arr: seq<string>, obj: set<string>): (r: seq<string>)
    ensures r == arr
  {
    var keep := (e: string) => !StringPropertyTruthy(e, ObjectAsKey);
    var r := Filter(arr, keep);
    assert r == arr by {
      forall i | 0 <= i < |arr|
        ensures keep(arr[i])
      {
        ObjectKeyNeverTruthy(arr[i]);
      }
      FilterAll(arr, keep);
    }
    r
  }

  /** No inherited property of a string is named "[object Object]". */
  lemma ObjectAsKeyNotInherited()
    ensures ObjectAsKey !in StringPrototypeKeys
    ensures ObjectAsKey !in ObjectPrototypeKeys
  {
    NotAKeyOf(StringAccessorKeys);
    NotAKeyOf(StringSearchKeys);
    NotAKeyOf(StringTransformKeys);
    NotAKeyOf(StringHtmlKeys);
    NotAKeyOf(ObjectPrototypeKeys);
  }

  /** Checked one key set at a time: no key of these sets has the length of "[object Object]". */
  lemma NotAKeyOf(keys: set<string>)
    requires keys == StringAccessorKeys || keys == StringSearchKeys || keys == StringTransformKeys
          || keys == StringHtmlKeys || keys == ObjectPrototypeKeys
    ensures ObjectAsKey !in keys
  {
    assert |ObjectAsKey| == 15;
    assert forall k :: k in keys ==> |k| != 15;
  }

  /** No string has a truthy "[object Object]" property, so `remove` subtracts nothing. */
  lemma ObjectKeyNeverTruthy(e: string)
    ensures !StringPropertyTruthy(e, ObjectAsKey)
  {
    assert !IsIndexKey(ObjectAsKey) by {
      assert !IsDigit(ObjectAsKey[0]);
    }
    ObjectAsKeyNotInherited();
  }
}
