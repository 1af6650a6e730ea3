/**
 * `shallowEqual(a, b)`: compares a candidate `a` with the resolved options `b`
 * one level deep.
 */
module ShallowEquality {
  import opened Values

  /**
   * Whether one shared key lets the comparison go on: the values are strictly
   * equal, or the candidate's value is object-typed. Only the candidate's side
   * is type-tested. When the candidate's value is a primitive, `===` compares
   * it by value and never equates it with an object-typed value, which is what
   * `==` on `Value` does as well.
   */
  predicate KeyPasses(av: Value, bv: Value) {
    av == bv || IsObjectTyped(av)
  }

  /** The comparison over the objects' own properties. */
  predicate ShallowEqual(a: map<string, Value>, b: map<string, Value>) {
    && (forall key :: key in a ==> key in b && KeyPasses(a[key], b[key]))
    && (forall key :: key in b ==> key in a)
  }

  /** The two loops of `shallowEqual`, with their early returns. */
  method ShallowEqualScan(a: Configuration, b: Configuration) returns (equal: bool)
    ensures equal == ShallowEqual(a.entries, b.entries)
  {
    for i := 0 to |a.keys|
      invariant forall j :: 0 <= j < i ==> a.keys[j] in b.entries && KeyPasses(a.entries[a.keys[j]], b.entries[a.keys[j]])
    {
      var key := a.keys[i];
      if key !in b.entries {
        return false;
      }
      if a.entries[key] == b.entries[key] {
        continue;
      }
      if !IsObjectTyped(a.entries[key]) {
        return false;
      }
    }
    for i := 0 to |b.keys|
      invariant forall j :: 0 <= j < i ==> b.keys[j] in a.entries
    {
      if b.keys[i] !in a.entries {
        return false;
      }
    }
    return true;
  }

  /**
   * A true result means the two objects have the same keys, and a key present
   * on one side only makes the result false.
   */
  lemma SameKeysWhenEqual(a: map<string, Value>, b: map<string, Value>)
    ensures ShallowEqual(a, b) ==> a.Keys == b.Keys
    ensures (exists key :: key in a && key !in b) ==> !ShallowEqual(a, b)
    ensures (exists key :: key in b && key !in a) ==> !ShallowEqual(a, b)
  {
  }

  /**
   * The comparison in other words: equal key sets, and equal values wherever the
   * candidate's value is a primitive.
   */
  lemma ShallowEqualCharacterized(a: map<string, Value>, b: map<string, Value>)
    ensures ShallowEqual(a, b) <==>
      a.Keys == b.Keys && forall key :: key in a && !IsObjectTyped(a[key]) ==> a[key] == b[key]
  {
  }

  /**
   * A shared key whose candidate value is object-typed never decides the
   * result: whatever the other side holds there, the answer is the same.
   */
  lemma ObjectTypedKeyIgnored(a: map<string, Value>, b: map<string, Value>, key: string, v: Value)
    requires key in a && key in b && IsObjectTyped(a[key])
    ensures ShallowEqual(a, b[key := v]) == ShallowEqual(a, b)
  {
  }

  /** A shared key whose candidate value is a primitive passes only on strict equality. */
  lemma PrimitiveKeyMustMatch(a: map<string, Value>, b: map<string, Value>, key: string)
    requires key in a && key in b && !IsObjectTyped(a[key])
    ensures ShallowEqual(a, b) ==> a[key] == b[key]
  {
  }

  /**
   * Comparisons one level down are never made, and the test is not symmetric:
   * `{a: {x: 1}}` matches `{a: {x: 2}}` and `{a: null}` matches `{a: 1}`, while
   * `{a: 1}` matches neither `{a: 2}` nor `{a: null}`.
   */
  lemma ShallowAndAsymmetric()
    ensures ShallowEqual(map["a" := Obj(map["x" := Num(1)])], map["a" := Obj(map["x" := Num(2)])])
    ensures !ShallowEqual(map["a" := Num(1)], map["a" := Num(2)])
    ensures ShallowEqual(map["a" := Null], map["a" := Num(1)])
    ensures !ShallowEqual(map["a" := Num(1)], map["a" := Null])
  {
    PrimitiveKeyMustMatch(map["a" := Num(1)], map["a" := Num(2)], "a");
    PrimitiveKeyMustMatch(map["a" := Num(1)], map["a" := Null], "a");
  }
}
