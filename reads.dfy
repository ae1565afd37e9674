/**
 * The read side of `DbPref`: every query looks up the document whose `key`
 * equals the requested key in the collection, abstracted here as the map
 * `docs` from key to stored value (the unique index on `key` is what makes
 * it a map).
 */
module Reads {
  import opened Values

  /**
   * `getAs`: the stored value when `key` has a document whose value is an
   * instance of the requested class; `None` (the caller's default) when the
   * key is absent or the cast fails.
   */
  function GetAs(docs: map<string, Value>, key: string, kind: Kind): (r: Option<Value>)
    ensures r.Some? <==> key in docs && KindOf(docs[key]) == kind
    ensures r.Some? ==> r.value == docs[key] && KindOf(r.value) == kind
  {
    match Lookup(docs, key)
    case Some(v) => if KindOf(v) == kind then Some(v) else None
    case None => None
  }

  function GetBoolean(docs: map<string, Value>, key: string, defValue: bool): (r: bool)
    ensures key in docs && docs[key].BoolValue? ==> docs[key] == BoolValue(r)
    ensures !(key in docs && docs[key].BoolValue?) ==> r == defValue
  {
    match GetAs(docs, key, BooleanKind)
    case Some(BoolValue(b)) => b
    case _ => defValue
  }

  function GetInt(docs: map<string, Value>, key: string, defValue: int32): (r: int32)
    ensures key in docs && docs[key].IntValue? ==> docs[key] == IntValue(r)
    ensures !(key in docs && docs[key].IntValue?) ==> r == defValue
  {
    match GetAs(docs, key, IntKind)
    case Some(IntValue(i)) => i
    case _ => defValue
  }

  function GetLong(docs: map<string, Value>, key: string, defValue: int64): (r: int64)
    ensures key in docs && docs[key].LongValue? ==> docs[key] == LongValue(r)
    ensures !(key in docs && docs[key].LongValue?) ==> r == defValue
  {
    match GetAs(docs, key, LongKind)
    case Some(LongValue(l)) => l
    case _ => defValue
  }

  function GetFloat(docs: map<string, Value>, key: string, defValue: bv32): (r: bv32)
    ensures key in docs && docs[key].FloatValue? ==> docs[key] == FloatValue(r)
    ensures !(key in docs && docs[key].FloatValue?) ==> r == defValue
  {
    match GetAs(docs, key, FloatKind)
    case Some(FloatValue(bits)) => bits
    case _ => defValue
  }

  /** `getString`: the default may be null (`None`). */
  function GetString(docs: map<string, Value>, key: string, defValue: Option<string>): (r: Option<string>)
    ensures key in docs && docs[key].StringValue? ==> r.Some? && docs[key] == StringValue(r.value)
    ensures !(key in docs && docs[key].StringValue?) ==> r == defValue
  {
    match GetAs(docs, key, StringKind)
    case Some(StringValue(s)) => Some(s)
    case _ => defValue
  }

  /** `getStringSet`: the default may be null (`None`). */
  function GetStringSet(docs: map<string, Value>, key: string, defValues: Option<set<string>>): (r: Option<set<string>>)
    ensures key in docs && docs[key].StringSetValue? ==> r.Some? && docs[key] == StringSetValue(r.value)
    ensures !(key in docs && docs[key].StringSetValue?) ==> r == defValues
  {
    match GetAs(docs, key, StringSetKind)
    case Some(StringSetValue(ss)) => Some(ss)
    case _ => defValues
  }

  /** `contains`: at least one document has this key. */
  predicate Contains(docs: map<string, Value>, key: string)
    ensures Contains(docs, key) <==> key in docs
  {
    Lookup(docs, key).Some?
  }

  /** `isEmpty`: a search for the first document counts none. */
  predicate IsEmpty(docs: map<string, Value>)
    ensures IsEmpty(docs) <==> docs == map[]
  {
    |docs| == 0
  }

  /**
   * `contains(k)` holds exactly when some typed getter would return the
   * stored value rather than its default.
   */
  lemma ContainsIffSomeGetterHits(docs: map<string, Value>, key: string)
    ensures Contains(docs, key) <==> exists kind :: GetAs(docs, key, kind).Some?
  {
    if Contains(docs, key) {
      assert GetAs(docs, key, KindOf(docs[key])).Some?;
    }
  }

  /** `isEmpty` holds exactly when `contains` fails for every key. */
  lemma IsEmptyIffContainsNothing(docs: map<string, Value>)
    ensures IsEmpty(docs) <==> forall key :: !Contains(docs, key)
  {
    if !IsEmpty(docs) {
      var key :| key in docs;
      assert Contains(docs, key);
    }
  }

  /** On an empty collection every getter returns its default. */
  lemma EmptyReadsDefault(docs: map<string, Value>, key: string, kind: Kind)
    requires IsEmpty(docs)
    ensures GetAs(docs, key, kind) == None
  {
  }
}
