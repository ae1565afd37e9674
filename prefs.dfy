/**
 * `DbPref` and its inner `PrefEditor` as classes. The external document
 * collection is the field `DbPref.docs`; only `PrefEditor.Commit` changes it.
 */
module Prefs {
  import opened Values
  import opened Batch

  class DbPref {
    /** The document collection, as a map from `key` to `value`. */
    var docs: map<string, Value>

    /** Wraps an existing collection; creating the unique index on `key` is left to the engine. */
    constructor (connection: map<string, Value>)
      ensures docs == connection
    {
      docs := connection;
    }

    /** `getAll`: copies every document of the collection into a fresh map. */
    method GetAll() returns (all: map<string, Value>)
      ensures all == docs
    {
      all := map[];
      var unvisited := docs.Keys;
      while unvisited != {}
        invariant unvisited <= docs.Keys
        invariant all.Keys == docs.Keys - unvisited
        invariant forall key :: key in all ==> all[key] == docs[key]
        decreases unvisited
      {
        var key :| key in unvisited;
        all := all[key := docs[key]];
        unvisited := unvisited - {key};
      }
    }

    /** `edit`: a new editor on this store, with nothing pending. */
    method Edit() returns (editor: PrefEditor)
      ensures fresh(editor) && editor.pref == this
      ensures editor.Valid() && editor.history == [] && editor.State() == Empty
    {
      editor := new PrefEditor(this);
    }
  }

  class PrefEditor {
    /** The store this editor belongs to (the outer instance of the inner class). */
    const pref: DbPref
    var clear: bool
    var toRemove: set<string>
    var toApply: map<string, Option<Value>>
    /** The editor calls made so far, oldest first. */
    ghost var history: seq<EditOp>

    function State(): Pending
      reads this
    {
      Pending(clear, toRemove, toApply)
    }

    /** The pending state is what the calls made so far produce. */
    ghost predicate Valid()
      reads this
    {
      State() == Replay(history)
    }

    constructor (pref: DbPref)
      ensures this.pref == pref
      ensures Valid() && history == [] && State() == Empty
    {
      this.pref := pref;
      clear := false;
      toRemove := {};
      toApply := map[];
      history := [];
    }

    /** `clear`: marks every document for removal; pending puts are kept. */
    method Clear() returns (r: PrefEditor)
      requires Valid()
      modifies this
      ensures r == this && Valid() && history == old(history) + [EditOp.Clear]
      ensures clear && toRemove == old(toRemove) && toApply == old(toApply)
      ensures pref.docs == old(pref.docs)
    {
      ReplayAppend(history, EditOp.Clear);
      clear := true;
      history := history + [EditOp.Clear];
      r := this;
    }

    /** `remove`: drops any pending put of `key` and records `key` for removal. */
    method Remove(key: string) returns (r: PrefEditor)
      requires Valid()
      modifies this
      ensures r == this && Valid() && history == old(history) + [EditOp.Remove(key)]
      ensures clear == old(clear) && toRemove == old(toRemove) + {key}
      ensures toApply == old(toApply) - {key}
      ensures pref.docs == old(pref.docs)
    {
      ReplayAppend(history, EditOp.Remove(key));
      toApply := toApply - {key};
      toRemove := toRemove + {key};
      history := history + [EditOp.Remove(key)];
      r := this;
    }

    /** The common body of every `put*`: the last pending entry for `key` wins. */
    method Stage(key: string, value: Option<Value>) returns (r: PrefEditor)
      requires Valid()
      modifies this
      ensures r == this && Valid() && history == old(history) + [Put(key, value)]
      ensures clear == old(clear) && toRemove == old(toRemove)
      ensures toApply == old(toApply)[key := value]
      ensures pref.docs == old(pref.docs)
    {
      ReplayAppend(history, Put(key, value));
      toApply := toApply[key := value];
      history := history + [Put(key, value)];
      r := this;
    }

    method PutLong(key: string, value: int64) returns (r: PrefEditor)
      requires Valid()
      modifies this
      ensures r == this && Valid() && history == old(history) + [Put(key, Some(LongValue(value)))]
      ensures clear == old(clear) && toRemove == old(toRemove)
      ensures toApply == old(toApply)[key := Some(LongValue(value))]
      ensures pref.docs == old(pref.docs)
    {
      r := Stage(key, Some(LongValue(value)));
    }

    method PutInt(key: string, value: int32) returns (r: PrefEditor)
      requires Valid()
      modifies this
      ensures r == this && Valid() && history == old(history) + [Put(key, Some(IntValue(value)))]
      ensures clear == old(clear) && toRemove == old(toRemove)
      ensures toApply == old(toApply)[key := Some(IntValue(value))]
      ensures pref.docs == old(pref.docs)
    {
      r := Stage(key, Some(IntValue(value)));
    }

    method PutBoolean(key: string, value: bool) returns (r: PrefEditor)
      requires Valid()
      modifies this
      ensures r == this && Valid() && history == old(history) + [Put(key, Some(BoolValue(value)))]
      ensures clear == old(clear) && toRemove == old(toRemove)
      ensures toApply == old(toApply)[key := Some(BoolValue(value))]
      ensures pref.docs == old(pref.docs)
    {
      r := Stage(key, Some(BoolValue(value)));
    }

    method PutFloat(key: string, value: bv32) returns (r: PrefEditor)
      requires Valid()
      modifies this
      ensures r == this && Valid() && history == old(history) + [Put(key, Some(FloatValue(value)))]
      ensures clear == old(clear) && toRemove == old(toRemove)
      ensures toApply == old(toApply)[key := Some(FloatValue(value))]
      ensures pref.docs == old(pref.docs)
    {
      r := Stage(key, Some(FloatValue(value)));
    }

    /** `putString`: a null string is staged as a deletion. */
    method PutString(key: string, value: Option<string>) returns (r: PrefEditor)
      requires Valid()
      modifies this
      ensures r == this && Valid()
      ensures history == old(history) + [Put(key, if value.Some? then Some(StringValue(value.value)) else None)]
      ensures clear == old(clear) && toRemove == old(toRemove)
      ensures value.None? ==> toApply == old(toApply)[key := None]
      ensures value.Some? ==> toApply == old(toApply)[key := Some(StringValue(value.value))]
      ensures pref.docs == old(pref.docs)
    {
      match value {
        case None => r := Stage(key, None);
        case Some(s) => r := Stage(key, Some(StringValue(s)));
      }
    }

    /** `putStringSet`: a null set is staged as a deletion. */
    method PutStringSet(key: string, values: Option<set<string>>) returns (r: PrefEditor)
      requires Valid()
      modifies this
      ensures r == this && Valid()
      ensures history == old(history) + [Put(key, if values.Some? then Some(StringSetValue(values.value)) else None)]
      ensures clear == old(clear) && toRemove == old(toRemove)
      ensures values.None? ==> toApply == old(toApply)[key := None]
      ensures values.Some? ==> toApply == old(toApply)[key := Some(StringSetValue(values.value))]
      ensures pref.docs == old(pref.docs)
    {
      match values {
        case None => r := Stage(key, None);
        case Some(ss) => r := Stage(key, Some(StringSetValue(ss)));
      }
    }

    /**
     * `commit`: removes every document (when `clear` is set) or each key in
     * `toRemove`, then deletes each key pending with null and upserts each
     * other pending entry. The pending state is left as it was.
     */
    method Commit() returns (ok: bool)
      requires Valid()
      modifies pref
      ensures ok
      ensures Valid() && State() == old(State())
      ensures pref.docs == CommitResult(old(pref.docs), State())
      ensures forall key :: Lookup(pref.docs, key) == Expected(old(pref.docs), history, key)
    {
      if clear {
        pref.docs := map[];
      } else {
        var removals := toRemove;
        while removals != {}
          invariant removals <= toRemove
          invariant pref.docs == old(pref.docs) - (toRemove - removals)
          decreases removals
        {
          var key :| key in removals;
          pref.docs := pref.docs - {key};
          removals := removals - {key};
        }
      }
      ghost var cleared := pref.docs;
      assert cleared == Cleared(old(pref.docs), State());
      var entries := toApply.Keys;
      while entries != {}
        invariant entries <= toApply.Keys
        invariant forall key :: Lookup(pref.docs, key) ==
                    if key in toApply && key !in entries then toApply[key] else Lookup(cleared, key)
        decreases entries
      {
        var key :| key in entries;
        match toApply[key] {
          case None => pref.docs := pref.docs - {key};
          case Some(value) => pref.docs := pref.docs[key := value];
        }
        entries := entries - {key};
      }
      LookupExtensional(pref.docs, CommitResult(old(pref.docs), State()));
      forall key ensures Lookup(pref.docs, key) == Expected(old(pref.docs), history, key) {
        CommitOfReplay(old(pref.docs), history, key);
      }
      ok := true;
    }
  }
}
