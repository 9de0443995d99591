/**
 * The pruning watermark: the oldest session whose entries are not pruned yet,
 * kept under its own fixed key.
 */
module Watermark {
  import opened Wrappers
  import opened KeySchema
  import opened KvStore

  /** The watermark stored in `d`; 0 when none was ever written. */
  function StoredWatermark(d: map<Key, Value>): (w: SessionIndex)
    ensures WatermarkKey !in d ==> w == 0
    ensures WatermarkKey in d && d[WatermarkKey].SessionEntry? ==> w == d[WatermarkKey].session
  {
    if WatermarkKey in d && d[WatermarkKey].SessionEntry? then d[WatermarkKey].session else 0
  }

  /** A missing watermark reads as 0, and a written one reads back as written. */
  lemma WatermarkReadBack(d: map<Key, Value>, w: SessionIndex)
    ensures WatermarkKey !in d ==> StoredWatermark(d) == 0
    ensures StoredWatermark(d[WatermarkKey := SessionEntry(w)]) == w
  {
  }

  /** Subtraction on unsigned integers that stops at 0. */
  function SaturatingSub(a: nat, b: nat): (r: nat)
    ensures b <= a ==> r + b == a
    ensures a < b ==> r == 0
  {
    if b <= a then a - b else 0
  }

  /** The watermark update as the source computes it: max(current, new - 1). */
  function UpdatedWaterlevelAsWritten(current: SessionIndex, newOldest: SessionIndex): (w: SessionIndex)
    ensures current <= w && SaturatingSub(newOldest, 1) <= w
    ensures w == current || w == SaturatingSub(newOldest, 1)
  {
    var lowered := SaturatingSub(newOldest, 1);
    if current < lowered then lowered else current
  }

  /**
   * The watermark update as its meaning requires: once every session below
   * `newOldest` is pruned, `newOldest` is the oldest session not pruned yet.
   */
  function UpdatedWaterlevel(current: SessionIndex, newOldest: SessionIndex): (w: SessionIndex)
    ensures current <= w && newOldest <= w
    ensures w == current || w == newOldest
  {
    if current < newOldest then newOldest else current
  }

  /**
   * The as-written update leaves the watermark one below the pruning target,
   * on a session that was pruned: a later store for that session is not
   * rejected as obsolete. The corrected update lands on the target.
   */
  lemma AsWrittenWaterlevelLagsTarget(current: SessionIndex, target: SessionIndex)
    requires current < target
    ensures UpdatedWaterlevelAsWritten(current, target) == target - 1
    ensures !(target - 1 < UpdatedWaterlevelAsWritten(current, target))
    ensures UpdatedWaterlevel(current, target) == target && target - 1 < UpdatedWaterlevel(current, target)
  {
  }

  /** Reads the watermark. */
  method OldestSessionWaterlevel(db: Database) returns (w: SessionIndex)
    ensures w == StoredWatermark(db.data)
  {
    var entry := db.Get(WatermarkKey);
    w := if entry.Some? && entry.value.SessionEntry? then entry.value.session else 0;
  }

  /** Writes one value under `key`, as a transaction of its own. */
  method WriteDb(db: Database, key: Key, value: Value)
    modifies db
    ensures db.data == old(db.data)[key := value]
    ensures db.log == old(db.log) + [[Put(key, value)]] && db.states == old(db.states) + [db.data]
  {
    db.WriteTransaction([Put(key, value)]);
  }

  /** Raises the stored watermark to `newOldest` unless it is already higher, and returns it. */
  method UpdateOldestSessionWaterlevel(db: Database, current: SessionIndex, newOldest: SessionIndex) returns (w: SessionIndex)
    modifies db
    ensures w == UpdatedWaterlevel(current, newOldest)
    ensures db.data == old(db.data)[WatermarkKey := SessionEntry(w)] && StoredWatermark(db.data) == w
    ensures db.log == old(db.log) + [[Put(WatermarkKey, SessionEntry(w))]] && db.states == old(db.states) + [db.data]
  {
    w := UpdatedWaterlevel(current, newOldest);
    WriteDb(db, WatermarkKey, SessionEntry(w));
  }

  /** Every session below the stored watermark is absent from `d`. */
  ghost predicate WatermarkSound(d: map<Key, Value>) {
    forall k | k in d && KeySession(k).Some? :: StoredWatermark(d) <= KeySession(k).value
  }

  /** Under a sound watermark, no key lies under the prefix of a session below it. */
  lemma SoundWatermarkEmptiesOlderSessions(d: map<Key, Value>, s: SessionIndex, k: Key)
    requires WatermarkSound(d) && s < StoredWatermark(d) && k in d
    ensures !(SessionPrefix(s) <= k)
  {
    SessionPrefixIff(s, k);
  }
}
