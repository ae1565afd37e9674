/**
 * The values a preference document can hold, and the type tags the typed
 * getters ask for.
 */
module Values {

  datatype Option<T> = None | Some(value: T)

  /** Kotlin `Int`: a 32-bit two's-complement integer. */
  newtype int32 = x: int | -0x8000_0000 <= x < 0x8000_0000

  /** Kotlin `Long`: a 64-bit two's-complement integer. */
  newtype int64 = x: int | -0x8000_0000_0000_0000 <= x < 0x8000_0000_0000_0000

  /**
   * The `value` field of a stored document. A Kotlin `Float` is kept as its
   * IEEE 754 bit pattern and never computed with; a string set is a set of
   * strings. A document never holds null: a pending null deletes the key.
   */
  datatype Value =
    | BoolValue(b: bool)
    | IntValue(i: int32)
    | LongValue(l: int64)
    | FloatValue(bits: bv32)
    | StringValue(s: string)
    | StringSetValue(ss: set<string>)

  /** The Java class a typed getter asks the document to cast its value to. */
  datatype Kind = BooleanKind | IntKind | LongKind | FloatKind | StringKind | StringSetKind

  /** The class a stored value is an instance of. */
  function KindOf(v: Value): Kind
  {
    match v
    case BoolValue(_) => BooleanKind
    case IntValue(_) => IntKind
    case LongValue(_) => LongKind
    case FloatValue(_) => FloatKind
    case StringValue(_) => StringKind
    case StringSetValue(_) => StringSetKind
  }

  /** The document stored under `key`, if there is one. */
  function Lookup(docs: map<string, Value>, key: string): (r: Option<Value>)
    ensures r.Some? <==> key in docs
    ensures r.Some? ==> docs[key] == r.value
  {
    if key in docs then Some(docs[key]) else None
  }

  /** Two collections that agree on every lookup are equal. */
  lemma LookupExtensional(a: map<string, Value>, b: map<string, Value>)
    requires forall key :: Lookup(a, key) == Lookup(b, key)
    ensures a == b
  {
    assert a.Keys == b.Keys by {
      forall key ensures key in a <==> key in b {
        assert Lookup(a, key) == Lookup(b, key);
      }
    }
    forall key | key in a ensures a[key] == b[key] {
      assert Lookup(a, key) == Lookup(b, key);
    }
  }
}
