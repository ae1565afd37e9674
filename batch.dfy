/**
 * The pending state of a `PrefEditor` and what `commit` makes of it.
 *
 * An editor holds three pieces of transient state: the `clear` flag, the
 * set `toRemove` and the map `toApply` from key to a value or null. Editor
 * calls only change this state (`Step`); `commit` applies it to the
 * collection in a fixed order (`CommitResult`): first either the removal of
 * every document (when `clear` is set) or the per-key removals, then every
 * pending entry, where null deletes the key and a value upserts it.
 *
 * `Expected` is an independent per-key reading of a sequence of editor
 * calls ("the last call that names the key decides; a clear anywhere wipes
 * the keys nobody named"), and `CommitOfReplay` proves that batching the
 * calls and committing agrees with it.
 */
module Batch {
  import opened Values
  import opened Reads

  /** One call on an editor. `Put` stands for every typed `put*`; a null value is `None`. */
  datatype EditOp =
    | Put(key: string, value: Option<Value>)
    | Remove(key: string)
    | Clear

  datatype Pending = Pending(clear: bool, toRemove: set<string>, toApply: map<string, Option<Value>>)

  /** The state of a newly created editor. */
  const Empty := Pending(false, {}, map[])

  /** Whether a call names `key`; `Clear` names none. */
  predicate Names(op: EditOp, key: string)
  {
    (op.Put? || op.Remove?) && op.key == key
  }

  /**
   * The effect of one editor call on the pending state. A call never
   * unsets `clear` and never forgets a recorded removal, and it leaves the
   * pending entry and the removal record of every key it does not name
   * exactly as they were.
   */
  function Step(p: Pending, op: EditOp): (q: Pending)
    ensures p.clear ==> q.clear
    ensures p.toRemove <= q.toRemove
    ensures forall key :: !Names(op, key) ==>
              (key in q.toApply <==> key in p.toApply) && (key in q.toRemove <==> key in p.toRemove)
    ensures forall key :: !Names(op, key) && key in p.toApply ==> q.toApply[key] == p.toApply[key]
  {
    match op
    case Put(key, value) => p.(toApply := p.toApply[key := value])
    case Remove(key) => p.(toApply := p.toApply - {key}, toRemove := p.toRemove + {key})
    case Clear => p.(clear := true)
  }

  /** The pending state of a fresh editor after the calls `ops`, in order. */
  function Replay(ops: seq<EditOp>): Pending
    decreases |ops|
  {
    if ops == [] then Empty else Step(Replay(ops[..|ops| - 1]), ops[|ops| - 1])
  }

  /** Replaying one more call is one more `Step`. */
  lemma ReplayAppend(ops: seq<EditOp>, op: EditOp)
    ensures Replay(ops + [op]) == Step(Replay(ops), op)
  {
  }

  /** First phase of `commit`: remove every document, or the keys in `toRemove`. */
  function Cleared(docs: map<string, Value>, p: Pending): (r: map<string, Value>)
    ensures r.Keys == if p.clear then {} else docs.Keys - p.toRemove
    ensures forall key :: key in r ==> r[key] == docs[key]
  {
    if p.clear then map[] else docs - p.toRemove
  }

  /** Second phase of `commit`: a null entry deletes its key, any other upserts it. */
  function Applied(docs: map<string, Value>, toApply: map<string, Option<Value>>): (r: map<string, Value>)
    ensures forall key :: key in toApply ==> Lookup(r, key) == toApply[key]
    ensures forall key :: key !in toApply ==> Lookup(r, key) == Lookup(docs, key)
  {
    map key | key in docs.Keys + toApply.Keys && (key in toApply ==> toApply[key].Some?)
      :: if key in toApply then toApply[key].value else docs[key]
  }

  /** The collection after `commit` of the pending state `p`. */
  function CommitResult(docs: map<string, Value>, p: Pending): (r: map<string, Value>)
    ensures forall key :: key in p.toApply ==> Lookup(r, key) == p.toApply[key]
    ensures forall key :: key !in p.toApply && (p.clear || key in p.toRemove) ==> key !in r
    ensures forall key :: key !in p.toApply && !p.clear && key !in p.toRemove ==>
              Lookup(r, key) == Lookup(docs, key)
  {
    Applied(Cleared(docs, p), p.toApply)
  }

  /** What happened to one key over a sequence of editor calls. */
  datatype Fate = Untouched | Written(value: Option<Value>) | Erased

  /** The fate of `key` is decided by the last call that names it. */
  function FateOf(ops: seq<EditOp>, key: string): Fate
    decreases |ops|
  {
    if ops == [] then Untouched
    else
      var op := ops[|ops| - 1];
      if op.Put? && op.key == key then Written(op.value)
      else if op.Remove? && op.key == key then Erased
      else FateOf(ops[..|ops| - 1], key)
  }

  /**
   * Reference meaning of a batch of calls for one key: its last write (a
   * null write deletes), absence after a removal, and otherwise the old
   * document unless a clear appears anywhere in the batch.
   */
  function Expected(docs: map<string, Value>, ops: seq<EditOp>, key: string): Option<Value>
  {
    match FateOf(ops, key)
    case Written(value) => value
    case Erased => None
    case Untouched => if Clear in ops then None else Lookup(docs, key)
  }

  /** How the pending state of a replayed batch records each key. */
  lemma {:induction false} ReplayTracks(ops: seq<EditOp>, key: string)
    ensures Replay(ops).clear <==> Clear in ops
    ensures key in Replay(ops).toRemove <==> Remove(key) in ops
    ensures key in Replay(ops).toApply <==> FateOf(ops, key).Written?
    ensures key in Replay(ops).toApply ==> Replay(ops).toApply[key] == FateOf(ops, key).value
    ensures FateOf(ops, key).Erased? ==> Remove(key) in ops
    decreases |ops|
  {
    if ops != [] {
      var init, op := ops[..|ops| - 1], ops[|ops| - 1];
      assert ops == init + [op];
      ReplayTracks(init, key);
    }
  }

  /** Batching a sequence of editor calls and committing agrees, key by key, with `Expected`. */
  lemma CommitOfReplay(docs: map<string, Value>, ops: seq<EditOp>, key: string)
    ensures Lookup(CommitResult(docs, Replay(ops)), key) == Expected(docs, ops, key)
  {
    ReplayTracks(ops, key);
  }

  /** Calls on other keys do not change the fate of `key`. */
  lemma {:induction false} FateIgnoresOtherKeys(ops: seq<EditOp>, rest: seq<EditOp>, key: string)
    requires forall i :: 0 <= i < |rest| ==> !Names(rest[i], key)
    ensures FateOf(ops + rest, key) == FateOf(ops, key)
    decreases |rest|
  {
    if rest != [] {
      var init, op := rest[..|rest| - 1], rest[|rest| - 1];
      assert (ops + rest)[..|ops + rest| - 1] == ops + init;
      assert (ops + rest)[|ops + rest| - 1] == op;
      assert !Names(op, key);
      FateIgnoresOtherKeys(ops, init, key);
    } else {
      assert ops + rest == ops;
    }
  }

  /**
   * Within one editor the last put of a key wins, whatever came before it
   * and whatever later calls name other keys; a null put deletes the key.
   */
  lemma LastPutWins(docs: map<string, Value>, ops: seq<EditOp>, key: string, value: Option<Value>, rest: seq<EditOp>)
    requires forall i :: 0 <= i < |rest| ==> !Names(rest[i], key)
    ensures Lookup(CommitResult(docs, Replay(ops + [Put(key, value)] + rest)), key) == value
  {
    FateIgnoresOtherKeys(ops + [Put(key, value)], rest, key);
    CommitOfReplay(docs, ops + [Put(key, value)] + rest, key);
  }

  /** `remove(k)` cancels any earlier put of `k`: after commit `k` is absent. */
  lemma RemoveCancelsPut(docs: map<string, Value>, ops: seq<EditOp>, key: string, rest: seq<EditOp>)
    requires forall i :: 0 <= i < |rest| ==> !Names(rest[i], key)
    ensures Lookup(CommitResult(docs, Replay(ops + [Remove(key)] + rest)), key) == None
  {
    FateIgnoresOtherKeys(ops + [Remove(key)], rest, key);
    CommitOfReplay(docs, ops + [Remove(key)] + rest, key);
  }

  /**
   * A put after a remove of the same key survives the commit, because the
   * removals run before the upserts, even though the key stays in `toRemove`.
   */
  lemma PutAfterRemoveSurvives(docs: map<string, Value>, p: Pending, key: string, value: Value)
    ensures key in Step(Step(p, Remove(key)), Put(key, Some(value))).toRemove
    ensures Lookup(CommitResult(docs, Step(Step(p, Remove(key)), Put(key, Some(value)))), key) == Some(value)
  {
  }

  /** `clear` keeps the pending puts: the pending state does not depend on where the clear came. */
  lemma {:induction false} ClearKeepsPuts(ops: seq<EditOp>, rest: seq<EditOp>)
    ensures Replay(ops + [Clear] + rest) == Step(Replay(ops + rest), Clear)
    decreases |rest|
  {
    if rest == [] {
      assert ops + [Clear] + rest == ops + [Clear];
      assert ops + rest == ops;
    } else {
      var init, op := rest[..|rest| - 1], rest[|rest| - 1];
      assert (ops + [Clear] + rest)[..|ops + [Clear] + rest| - 1] == ops + [Clear] + init;
      assert (ops + rest)[..|ops + rest| - 1] == ops + init;
      ClearKeepsPuts(ops, init);
    }
  }

  /**
   * After a commit with `clear` set, the collection holds exactly the
   * pending non-null entries, and nothing of what it held before.
   */
  lemma ClearCommitHoldsExactlyPending(docs: map<string, Value>, p: Pending)
    requires p.clear
    ensures CommitResult(docs, p).Keys == set key | key in p.toApply && p.toApply[key].Some?
    ensures forall key :: key in CommitResult(docs, p) ==> Some(CommitResult(docs, p)[key]) == p.toApply[key]
  {
  }

  /** A pending null entry deletes its key on commit, whatever else is pending. */
  lemma NullPutDeletes(docs: map<string, Value>, p: Pending, key: string)
    requires key in p.toApply && p.toApply[key] == None
    ensures key !in CommitResult(docs, p)
  {
  }

  /** Without `clear`, a key neither removed nor put keeps its document, or stays absent. */
  lemma UntouchedKeyPreserved(docs: map<string, Value>, p: Pending, key: string)
    requires !p.clear && key !in p.toRemove && key !in p.toApply
    ensures key in CommitResult(docs, p) <==> key in docs
    ensures key in docs ==> CommitResult(docs, p)[key] == docs[key]
  {
  }

  /**
   * `commit` never resets the editor, so committing it again re-applies the
   * same pending state; doing so changes nothing.
   */
  lemma CommitIdempotent(docs: map<string, Value>, p: Pending)
    ensures CommitResult(CommitResult(docs, p), p) == CommitResult(docs, p)
  {
  }

  /**
   * A later commit of the same editor, onto a collection that other
   * commits have changed since, writes every pending entry again, so the
   * editor's pending values overwrite what was committed in between; with
   * `clear` kept set it wipes the collection again, and the result does
   * not depend on what the collection held.
   */
  lemma RecommitReapplies(docs: map<string, Value>, between: map<string, Value>, p: Pending)
    ensures forall key :: key in p.toApply ==>
              Lookup(CommitResult(between, p), key) == Lookup(CommitResult(docs, p), key)
    ensures p.clear ==> CommitResult(between, p) == CommitResult(docs, p)
  {
  }

  /** A value put and committed is what the getter of its own type reads back. */
  lemma ReadAfterPut(docs: map<string, Value>, ops: seq<EditOp>, key: string, value: Value)
    ensures GetAs(CommitResult(docs, Replay(ops + [Put(key, Some(value))])), key, KindOf(value)) == Some(value)
  {
  }

  /** After a committed remove every getter of the key returns its default. */
  lemma ReadAfterRemove(docs: map<string, Value>, ops: seq<EditOp>, key: string, kind: Kind)
    ensures GetAs(CommitResult(docs, Replay(ops + [Remove(key)])), key, kind) == None
  {
  }

  /** After a committed clear every getter of a key the batch never named returns its default. */
  lemma ReadAfterClear(docs: map<string, Value>, ops: seq<EditOp>, key: string, kind: Kind)
    requires Clear in ops
    requires forall i :: 0 <= i < |ops| ==> !Names(ops[i], key)
    ensures GetAs(CommitResult(docs, Replay(ops)), key, kind) == None
  {
    FateIgnoresOtherKeys([], ops, key);
    assert [] + ops == ops;
    CommitOfReplay(docs, ops, key);
  }
}
