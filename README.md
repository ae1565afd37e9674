# DbPref: a preference store over a document collection

This project models `DbPref`, an implementation of Android's
`SharedPreferences` on top of an embedded Nitrite document collection, and
its inner `PrefEditor`. The collection holds one document per preference,
`{key, value}`, with a unique index on `key`; here it is a finite map from
key to value (`map<string, Value>`).

- `Values` holds the stored values (boolean, 32-bit int, 64-bit long,
  float as its bit pattern, string, string set) and their type tags.
- `Reads` holds the read side as pure functions of the collection
  contents. These are `getAs` and the typed getters built on it, plus
  `contains` and `isEmpty`. A getter returns the caller's default when the
  key is absent or the stored value has another type.
- `Batch` holds the editor's pending state: the `clear` flag, the
  `toRemove` set and the `toApply` map, where a null entry is `None`. It
  gives the effect of each editor call (`Step`) and of a batch of calls
  (`Replay`), and the collection after `commit` (`CommitResult`). It also
  gives an independent per-key reading of a batch (`Expected`): the last
  call naming a key decides, and a clear anywhere wipes the keys that no
  call names. `CommitOfReplay` proves that the two agree.
- `Prefs` holds the classes `DbPref` and `PrefEditor`. Editor calls
  change only the editor's fields. `Commit` is the one method that changes
  the collection. It runs the source's two loops (removals, then pending
  entries) and is proved equal to `CommitResult`. A ghost `history` of the
  editor calls ties the fields to `Replay`.

The read side is pure, so the getters take the collection contents
(`DbPref.docs`) as an argument instead of being class members.

The editor is never reset. After `commit` the same pending state stays in
place, so a second `commit` applies it again. Committing again with no other
commit in between changes nothing (`CommitIdempotent`). A later commit of
the same editor re-applies everything it has pending, including a kept
`clear`. So it undoes writes, or wipes documents, that other editors
committed in between (`RecommitReapplies`).

After `clear`, puts made in the same editor survive it, whether they came
before or after it (`ClearKeepsPuts`, `ClearCommitHoldsExactlyPending`).
After a committed clear, a key holds a value only if the last call in the
batch that names it was a non-null put. Every other key reads as the
default: keys never named, keys removed, and keys put as null
(`CommitOfReplay`, `ReadAfterClear`).

## Model

| member | source | states |
|---|---|---|
| `Reads.GetAs` | TMessagesProj/src/main/java/tw/nekomimi/nekogram/database/DbPref.kt:27-34 | a value is returned exactly when the key is present and its value has the requested type; it is then the stored value; otherwise the caller's default (`None`) applies |
| `Reads.GetBoolean` | TMessagesProj/src/main/java/tw/nekomimi/nekogram/database/DbPref.kt:40 | the stored boolean when the key holds a boolean, else the default |
| `Reads.GetInt` | TMessagesProj/src/main/java/tw/nekomimi/nekogram/database/DbPref.kt:42 | the stored 32-bit int when the key holds an int, else the default |
| `Reads.GetLong` | TMessagesProj/src/main/java/tw/nekomimi/nekogram/database/DbPref.kt:52 | the stored 64-bit long when the key holds a long, else the default |
| `Reads.GetFloat` | TMessagesProj/src/main/java/tw/nekomimi/nekogram/database/DbPref.kt:54 | the stored float when the key holds a float, else the default |
| `Reads.GetString` | TMessagesProj/src/main/java/tw/nekomimi/nekogram/database/DbPref.kt:56 | the stored string when the key holds a string, else the (nullable) default |
| `Reads.GetStringSet` | TMessagesProj/src/main/java/tw/nekomimi/nekogram/database/DbPref.kt:58 | the stored string set when the key holds one, else the (nullable) default |
| `Reads.Contains` | TMessagesProj/src/main/java/tw/nekomimi/nekogram/database/DbPref.kt:36-38 | holds iff the key has a document |
| `Reads.IsEmpty` | TMessagesProj/src/main/java/tw/nekomimi/nekogram/database/DbPref.kt:25 | holds iff the collection has no documents |
| `Reads.ContainsIffSomeGetterHits` | TMessagesProj/src/main/java/tw/nekomimi/nekogram/database/DbPref.kt:36-38 | `contains(k)` holds iff the getter of some type finds a stored value for `k` |
| `Reads.IsEmptyIffContainsNothing` | TMessagesProj/src/main/java/tw/nekomimi/nekogram/database/DbPref.kt:25 | `isEmpty` (no document counted) holds iff `contains` fails for every key |
| `Reads.EmptyReadsDefault` | TMessagesProj/src/main/java/tw/nekomimi/nekogram/database/DbPref.kt:25-34 | on an empty store every getter returns its default |
| `Prefs.DbPref.constructor` | TMessagesProj/src/main/java/tw/nekomimi/nekogram/database/DbPref.kt:15-21 | the store wraps the given collection unchanged |
| `Prefs.DbPref.GetAll` | TMessagesProj/src/main/java/tw/nekomimi/nekogram/database/DbPref.kt:44-50 | the map built document by document equals the whole collection, key for key |
| `Prefs.DbPref.Edit` | TMessagesProj/src/main/java/tw/nekomimi/nekogram/database/DbPref.kt:68-70 | a fresh editor on this store with no clear, no removals and no pending entries |
| `Prefs.PrefEditor.constructor` | TMessagesProj/src/main/java/tw/nekomimi/nekogram/database/DbPref.kt:72-76 | a new editor starts with `clear` false and empty `toRemove` and `toApply` |
| `Prefs.PrefEditor.Clear` | TMessagesProj/src/main/java/tw/nekomimi/nekogram/database/DbPref.kt:78-81 | sets `clear`; keeps `toRemove`, `toApply` and the collection; returns the editor |
| `Prefs.PrefEditor.Remove` | TMessagesProj/src/main/java/tw/nekomimi/nekogram/database/DbPref.kt:93-97 | drops the key from `toApply`, adds it to `toRemove`, leaves the collection alone |
| `Prefs.PrefEditor.Stage` | TMessagesProj/src/main/java/tw/nekomimi/nekogram/database/DbPref.kt:83-117 | a put overwrites the pending entry for its key and changes nothing else |
| `Prefs.PrefEditor.PutLong` | TMessagesProj/src/main/java/tw/nekomimi/nekogram/database/DbPref.kt:83-86 | pends the long for the key; the collection is unchanged |
| `Prefs.PrefEditor.PutInt` | TMessagesProj/src/main/java/tw/nekomimi/nekogram/database/DbPref.kt:88-91 | pends the int for the key; the collection is unchanged |
| `Prefs.PrefEditor.PutBoolean` | TMessagesProj/src/main/java/tw/nekomimi/nekogram/database/DbPref.kt:99-102 | pends the boolean for the key; the collection is unchanged |
| `Prefs.PrefEditor.PutStringSet` | TMessagesProj/src/main/java/tw/nekomimi/nekogram/database/DbPref.kt:104-107 | pends the set, or a null entry when the set is null; the collection is unchanged |
| `Prefs.PrefEditor.PutFloat` | TMessagesProj/src/main/java/tw/nekomimi/nekogram/database/DbPref.kt:109-112 | pends the float for the key; the collection is unchanged |
| `Prefs.PrefEditor.PutString` | TMessagesProj/src/main/java/tw/nekomimi/nekogram/database/DbPref.kt:114-117 | pends the string, or a null entry when the string is null; the collection is unchanged |
| `Prefs.PrefEditor.Commit` | TMessagesProj/src/main/java/tw/nekomimi/nekogram/database/DbPref.kt:119-143 | returns true; the collection becomes `CommitResult` of the old one and the pending state, and each key reads as `Expected` from the editor's call history; the pending state is kept |
| `Batch.Step` | TMessagesProj/src/main/java/tw/nekomimi/nekogram/database/DbPref.kt:78-117 | no editor call unsets `clear` or forgets a recorded removal, and a call leaves the pending entry and removal record of every key it does not name unchanged |
| `Batch.Cleared` | TMessagesProj/src/main/java/tw/nekomimi/nekogram/database/DbPref.kt:121-127 | first commit phase: no documents left if `clear`, else every key in `toRemove` gone and the rest unchanged |
| `Batch.Applied` | TMessagesProj/src/main/java/tw/nekomimi/nekogram/database/DbPref.kt:128-137 | second commit phase: each pending key reads as its pending entry (null = absent); other keys are unchanged |
| `Batch.CommitResult` | TMessagesProj/src/main/java/tw/nekomimi/nekogram/database/DbPref.kt:119-137 | per key: the pending entry if there is one; else absent if cleared or removed; else the old document |
| `Batch.ReplayTracks` | TMessagesProj/src/main/java/tw/nekomimi/nekogram/database/DbPref.kt:74-117 | after a batch of calls: `clear` iff a clear was called; key in `toRemove` iff removed at some point; key pending iff its last naming call was a put, with that put's value |
| `Batch.CommitOfReplay` | TMessagesProj/src/main/java/tw/nekomimi/nekogram/database/DbPref.kt:72-137 | committing a batch agrees on every key with the last-call-decides reading `Expected` |
| `Batch.LastPutWins` | TMessagesProj/src/main/java/tw/nekomimi/nekogram/database/DbPref.kt:83-117 | the last put of a key decides its committed value, whatever came earlier and whatever later calls name other keys; a null put leaves it absent |
| `Batch.RemoveCancelsPut` | TMessagesProj/src/main/java/tw/nekomimi/nekogram/database/DbPref.kt:93-96 | a key removed after any earlier puts is absent after commit |
| `Batch.PutAfterRemoveSurvives` | TMessagesProj/src/main/java/tw/nekomimi/nekogram/database/DbPref.kt:124-137 | after remove then put of a key, the key is still in `toRemove` and yet holds the put value after commit |
| `Batch.ClearKeepsPuts` | TMessagesProj/src/main/java/tw/nekomimi/nekogram/database/DbPref.kt:78-81 | a clear anywhere in a batch gives the same pending state as a clear at its end, so no put is discarded |
| `Batch.ClearCommitHoldsExactlyPending` | TMessagesProj/src/main/java/tw/nekomimi/nekogram/database/DbPref.kt:121-137 | with `clear` set, the committed keys are exactly the pending non-null keys, each holding its pending value |
| `Batch.NullPutDeletes` | TMessagesProj/src/main/java/tw/nekomimi/nekogram/database/DbPref.kt:128-130 | a pending null entry leaves its key absent after commit |
| `Batch.UntouchedKeyPreserved` | TMessagesProj/src/main/java/tw/nekomimi/nekogram/database/DbPref.kt:124-137 | without `clear`, a key neither removed nor pending keeps its document or stays absent |
| `Batch.CommitIdempotent` | TMessagesProj/src/main/java/tw/nekomimi/nekogram/database/DbPref.kt:119-143 | committing the same pending state a second time leaves the collection as the first commit did |
| `Batch.RecommitReapplies` | TMessagesProj/src/main/java/tw/nekomimi/nekogram/database/DbPref.kt:119-143 | since the pending state is never reset, re-committing onto a collection changed by other commits restores every pending entry of this editor, and with `clear` kept set gives the same collection whatever it held before |
| `Batch.ReadAfterPut` | TMessagesProj/src/main/java/tw/nekomimi/nekogram/database/DbPref.kt:128-137 | a value put last and committed reads back through the getter of its own type |
| `Batch.ReadAfterRemove` | TMessagesProj/src/main/java/tw/nekomimi/nekogram/database/DbPref.kt:93-96 | after a committed remove every getter of that key returns its default |
| `Batch.ReadAfterClear` | TMessagesProj/src/main/java/tw/nekomimi/nekogram/database/DbPref.kt:121-123 | after a committed clear every getter of a key that the batch never names returns its default |

## Left out

- Index creation: the check for, and creation of, the unique index on `key` (DbPref.kt:17-20) is engine work. The map's unique keys stand for it.
- Query engine: Nitrite's filter evaluation, document creation and the internals of upsert are external. The model does lookup, delete and upsert directly on the map.
- `apply`: it hands `commit` to a background I/O queue and drops the result. The asynchrony, and any ordering between overlapping commits, are not modelled.
- Commit failure: an engine exception makes `commit` log the error and return false. Only the engine can throw, so `Commit` always succeeds and returns true.
- Listeners: registering and unregistering listeners only changes a set that is never read, so nothing about it is stated.
- Floats: a float is an opaque 32-bit pattern. No float arithmetic or comparison beyond equality is modelled.
- Java casts: a successful cast is a type-tag match. Java class boxing, and how the engine stores and reads back a string set, are not modelled.
- Iteration order: `HashSet`/`HashMap` order is not modelled. The loops in `Commit` and `GetAll` take keys in any order, and the result is proved the same for every order.
- Prefs.PrefEditor.PutStringSet: the model pends a snapshot of the set's value at the time of the call. The source pends a reference to the caller's mutable set, so changes the caller makes to that set before `commit` are what gets committed. This aliasing is not modelled.
