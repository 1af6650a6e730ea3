/**
 * Configuration values as the extension sees them: JSON-like JavaScript values,
 * and the key/value objects that the command receives as candidates.
 */
module Values {

  /**
   * A JavaScript value that can stand in a settings file or in a candidate.
   * `Undefined` is JavaScript's `undefined`: a tier that is not set, or the
   * resolved value of a key that has neither a global nor a default value.
   * Numbers are integers here (see README).
   */
  datatype Value =
    | Undefined
    | Null
    | Bool(b: bool)
    | Num(n: int)
    | Str(s: string)
    | Arr(items: seq<Value>)
    | Obj(fields: map<string, Value>)

  /** `typeof v === "object"`: true for arrays, objects and also for `null`. */
  predicate IsObjectTyped(v: Value) {
    v.Null? || v.Arr? || v.Obj?
  }

  /**
   * A plain JavaScript object: `keys` is the order in which `Object.keys` and
   * `for ... in` visit its own properties, `entries` maps each one to its value.
   */
  datatype Object = Object(keys: seq<string>, entries: map<string, Value>)

  /** No key appears twice in the sequence. */
  predicate Distinct(s: seq<string>) {
    forall i, j :: 0 <= i < j < |s| ==> s[i] != s[j]
  }

  /** The key order lists exactly the object's own properties. */
  predicate KeysListed(o: Object) {
    && (forall k :: k in o.keys ==> k in o.entries)
    && (forall k :: k in o.entries ==> k in o.keys)
  }

  /** A configuration object: a key/value candidate, or the resolved current options. */
  type Configuration = o: Object | KeysListed(o) witness Object([], map[])

  /** `c[key] = v` on an object: a new key goes to the end of the key order. */
  function Put(c: Configuration, key: string, v: Value): Configuration {
    Object(if key in c.entries then c.keys else c.keys + [key], c.entries[key := v])
  }
}
