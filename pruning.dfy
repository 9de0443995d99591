/**
 * Pruning: erasing every key of the sessions older than a target session, in
 * transactions of bounded size, with the watermark advanced at each
 * checkpoint.
 */
module Pruning {
  import opened Wrappers
  import opened KeySchema
  import opened KvStore
  import opened Watermark

  /** Erasures staged before a checkpoint commit; the commit happens once the count exceeds it. */
  const MaxItemsPerDbTransaction: nat := 1024

  /** `k` belongs to one of the sessions lo .. hi - 1. */
  predicate InSessionRange(k: Key, lo: SessionIndex, hi: SessionIndex) {
    KeySession(k).Some? && lo <= KeySession(k).value < hi
  }

  /** The contents of `d` once every key of the sessions lo .. hi - 1 is erased. */
  function PrunedView(d: map<Key, Value>, lo: SessionIndex, hi: SessionIndex): map<Key, Value> {
    map k | k in d && !InSessionRange(k, lo, hi) :: d[k]
  }

  /** After pruning sessions lo .. hi - 1, no key lies under the prefix of any of them. */
  lemma PrunedViewEmptiesRange(d: map<Key, Value>, lo: SessionIndex, hi: SessionIndex, s: SessionIndex, k: Key)
    requires lo <= s < hi && k in PrunedView(d, lo, hi)
    ensures !(SessionPrefix(s) <= k)
  {
    SessionPrefixIff(s, k);
  }

  /** A key under the prefix of none of the sessions lo .. hi - 1 keeps its entry. */
  lemma PrunedViewKeepsOthers(d: map<Key, Value>, lo: SessionIndex, hi: SessionIndex, k: Key)
    requires k in d && forall s | lo <= s < hi :: !(SessionPrefix(s) <= k)
    ensures k in PrunedView(d, lo, hi) && PrunedView(d, lo, hi)[k] == d[k]
  {
    if KeySession(k).Some? {
      SessionPrefixIff(KeySession(k).value, k);
    }
  }

  /** The keys of session `s` in `d`. */
  function SessionKeys(d: map<Key, Value>, s: SessionIndex): set<Key> {
    set k | k in d && KeySession(k) == Some(s)
  }

  /** Erasing the keys of session `c` extends the pruned range by one session. */
  lemma PrunedViewStep(d: map<Key, Value>, lo: SessionIndex, c: SessionIndex)
    requires lo <= c
    ensures PrunedView(d, lo, c) - SessionKeys(d, c) == PrunedView(d, lo, c + 1)
  {
  }

  /** A committed cleanup transaction: at most one over the limit, erasures only; or a watermark write. */
  predicate BoundedCleanup(t: Transaction) {
    || (AllErasures(t) && |t| <= MaxItemsPerDbTransaction + 1)
    || (|t| == 1 && t[0].Put? && t[0].key == WatermarkKey && t[0].value.SessionEntry?)
  }

  /** `m` without the watermark entry. */
  function Strip(m: map<Key, Value>): map<Key, Value> {
    m - {WatermarkKey}
  }

  /** What is left of the original contents `d0` after erasing sessions lo .. c - 1 and the keys `done`. */
  function Remaining(d0: map<Key, Value>, lo: SessionIndex, c: SessionIndex, done: set<Key>): map<Key, Value> {
    Strip(PrunedView(d0, lo, c) - done)
  }

  lemma StripIgnoresWatermark(m: map<Key, Value>, v: Value)
    ensures Strip(m[WatermarkKey := v]) == Strip(m)
  {
  }

  lemma RestoreWatermark(m: map<Key, Value>, m': map<Key, Value>, v: Value)
    requires Strip(m) == Strip(m')
    ensures m[WatermarkKey := v] == m'[WatermarkKey := v]
  {
    forall k | k != WatermarkKey
      ensures (k in m <==> k in m') && (k in m ==> m[k] == m'[k])
    {
      assert k in m <==> k in Strip(m);
      assert k in m' <==> k in Strip(m');
      if k in m {
        assert m[k] == Strip(m)[k];
        assert m'[k] == Strip(m')[k];
      }
    }
  }

  /** Staging the erasure of one more key of session `c`. */
  lemma EraseStep(data: map<Key, Value>, cleanup: Transaction, d0: map<Key, Value>,
                  lo: SessionIndex, c: SessionIndex, done: set<Key>, key: Key)
    requires Strip(Apply(data, cleanup)) == Remaining(d0, lo, c, done)
    ensures Strip(Apply(data, cleanup + [Erase(key)])) == Remaining(d0, lo, c, done + {key})
  {
    ApplyAppend(data, cleanup, Erase(key));
    var a, r := Apply(data, cleanup), Remaining(d0, lo, c, done);
    var a', r' := Apply(data, cleanup + [Erase(key)]), Remaining(d0, lo, c, done + {key});
    assert a' == a - {key};
    forall k
      ensures (k in Strip(a') <==> k in r') && (k in r' ==> Strip(a')[k] == r'[k])
    {
      assert k in Strip(a') <==> k in Strip(a) && k != key;
      assert k in r' <==> k in r && k != key;
      if k in r' {
        assert Strip(a')[k] == a[k] == Strip(a)[k];
      }
    }
  }

  /** `t` only erases, and only keys of the sessions lo .. hi - 1. */
  predicate ErasesWithin(t: Transaction, lo: SessionIndex, hi: SessionIndex) {
    AllErasures(t) && forall i | 0 <= i < |t| :: InSessionRange(t[i].key, lo, hi)
  }

  lemma ErasesWithinAppend(t: Transaction, lo: SessionIndex, hi: SessionIndex, key: Key)
    requires ErasesWithin(t, lo, hi) && InSessionRange(key, lo, hi)
    ensures ErasesWithin(t + [Erase(key)], lo, hi)
  {
  }

  lemma ErasesWithinWiden(t: Transaction, lo: SessionIndex, hi: SessionIndex, hi': SessionIndex)
    requires ErasesWithin(t, lo, hi) && hi <= hi'
    ensures ErasesWithin(t, lo, hi')
  {
  }

  /** Every transaction of `log` from position `from` on is a bounded cleanup. */
  predicate LogBounded(log: seq<Transaction>, from: nat) {
    forall i | from <= i < |log| :: BoundedCleanup(log[i])
  }

  /** Every state of `states` from position `from` on has a sound watermark. */
  ghost predicate StatesSound(states: seq<map<Key, Value>>, from: nat) {
    forall i | from <= i < |states| :: WatermarkSound(states[i])
  }

  lemma LogBoundedAppend(log: seq<Transaction>, from: nat, t: Transaction)
    requires LogBounded(log, from) && BoundedCleanup(t) && from <= |log|
    ensures LogBounded(log + [t], from)
  {
  }

  lemma StatesSoundAppend(states: seq<map<Key, Value>>, from: nat, d: map<Key, Value>)
    requires StatesSound(states, from) && WatermarkSound(d) && from <= |states|
    ensures StatesSound(states + [d], from)
  {
  }

  /** Prefix iteration over the committed data sees the keys of session `c` the original contents had. */
  lemma SessionSnapshot(data: map<Key, Value>, cleanup: Transaction, d0: map<Key, Value>, lo: SessionIndex, c: SessionIndex)
    requires ErasesWithin(cleanup, lo, c)
    requires Strip(Apply(data, cleanup)) == Remaining(d0, lo, c, {})
    ensures KeysWithPrefix(data, SessionPrefix(c)) == SessionKeys(d0, c)
  {
    WatermarkKeyOutsideSessions(0, 0, "");
    forall k
      ensures (k in data && SessionPrefix(c) <= k) <==> k in SessionKeys(d0, c)
    {
      SessionPrefixIff(c, k);
      if KeySession(k) == Some(c) {
        ApplyUntouched(data, cleanup, k);
        assert k in Apply(data, cleanup) <==> k in Strip(Apply(data, cleanup));
        assert k in PrunedView(d0, lo, c) <==> k in Remaining(d0, lo, c, {});
      }
    }
  }

  /** Once session `c` is fully erased, what remains is the original contents pruned up to c + 1. */
  lemma SessionDone(d0: map<Key, Value>, lo: SessionIndex, c: SessionIndex)
    requires lo <= c
    ensures Remaining(d0, lo, c, SessionKeys(d0, c)) == Remaining(d0, lo, c + 1, {})
  {
    PrunedViewStep(d0, lo, c);
    assert PrunedView(d0, lo, c + 1) - {} == PrunedView(d0, lo, c + 1);
  }

  /** Committing erasures that spare the watermark key keeps a sound watermark sound. */
  lemma CommitKeepsSound(d: map<Key, Value>, t: Transaction)
    requires AllErasures(t) && forall i | 0 <= i < |t| :: t[i].key != WatermarkKey
    ensures StoredWatermark(Apply(d, t)) == StoredWatermark(d)
    ensures WatermarkSound(d) ==> WatermarkSound(Apply(d, t))
  {
    ApplyUntouched(d, t, WatermarkKey);
    ApplyErasuresShrinks(d, t);
  }

  /**
   * When the original contents had a sound watermark `lo` and everything of
   * sessions lo .. c - 1 is erased, watermark `w` <= c is sound.
   */
  lemma CheckpointSound(m: map<Key, Value>, d0: map<Key, Value>, lo: SessionIndex, c: SessionIndex,
                        done: set<Key>, w: SessionIndex)
    requires WatermarkSound(d0) && StoredWatermark(d0) == lo && w <= c
    requires Strip(m) == Remaining(d0, lo, c, done)
    ensures WatermarkSound(m[WatermarkKey := SessionEntry(w)])
  {
    WatermarkKeyOutsideSessions(0, 0, "");
    var m' := m[WatermarkKey := SessionEntry(w)];
    forall k | k in m' && KeySession(k).Some?
      ensures w <= KeySession(k).value
    {
      assert k in Strip(m);
      assert k in d0 && !InSessionRange(k, lo, c);
    }
  }

  /**
   * Commits the staged erasures and raises the watermark to `cursor`: every
   * session below `cursor` is then gone from the committed data.
   */
  method CommitCheckpoint(db: Database, cleanup: Transaction, oldest: SessionIndex, cursor: SessionIndex,
                          ghost d0: map<Key, Value>, ghost start: SessionIndex, ghost done: set<Key>,
                          ghost logFrom: nat, ghost statesFrom: nat)
    returns (newOldest: SessionIndex)
    requires ErasesWithin(cleanup, start, cursor + 1) && |cleanup| <= MaxItemsPerDbTransaction + 1
    requires Strip(Apply(db.data, cleanup)) == Remaining(d0, start, cursor, done)
    requires StoredWatermark(db.data) == oldest && start <= oldest <= cursor
    requires logFrom <= |db.log| && LogBounded(db.log, logFrom) && statesFrom <= |db.states|
    modifies db
    ensures newOldest == UpdatedWaterlevel(oldest, cursor) && newOldest == cursor
    ensures Strip(db.data) == Remaining(d0, start, cursor, done)
    ensures db.data == Apply(old(db.data), cleanup)[WatermarkKey := SessionEntry(cursor)]
    ensures StoredWatermark(db.data) == newOldest
    ensures |old(db.log)| <= |db.log| && LogBounded(db.log, logFrom) && |old(db.states)| <= |db.states|
    ensures (WatermarkSound(d0) && StoredWatermark(d0) == start && WatermarkSound(old(db.data)) &&
             StatesSound(old(db.states), statesFrom)) ==>
      WatermarkSound(db.data) && StatesSound(db.states, statesFrom)
  {
    ghost var before, log1, states1 := db.data, db.log, db.states;
    WatermarkKeyOutsideSessions(0, 0, "");
    db.WriteTransaction(cleanup);
    CommitKeepsSound(before, cleanup);
    ghost var committed := db.data;
    newOldest := UpdateOldestSessionWaterlevel(db, oldest, cursor);
    StripIgnoresWatermark(committed, SessionEntry(newOldest));
    LogBoundedAppend(log1, logFrom, cleanup);
    LogBoundedAppend(log1 + [cleanup], logFrom, [Put(WatermarkKey, SessionEntry(newOldest))]);
    if WatermarkSound(d0) && StoredWatermark(d0) == start && WatermarkSound(before) && StatesSound(states1, statesFrom) {
      CheckpointSound(committed, d0, start, cursor, done, newOldest);
      StatesSoundAppend(states1, statesFrom, committed);
      StatesSoundAppend(states1 + [committed], statesFrom, db.data);
    }
  }

  /**
   * Stages the erasure of `key`, a key of session `cursor`, and commits a
   * checkpoint once more than MaxItemsPerDbTransaction erasures are staged.
   */
  method StageErasure(db: Database, key: Key, cursor: SessionIndex, cleanup: Transaction, n: nat, oldest: SessionIndex,
                      ghost d0: map<Key, Value>, ghost start: SessionIndex, ghost done: set<Key>,
                      ghost logFrom: nat, ghost statesFrom: nat)
    returns (cleanup': Transaction, n': nat, oldest': SessionIndex)
    requires InSessionRange(key, start, cursor + 1)
    requires ErasesWithin(cleanup, start, cursor + 1) && |cleanup| == n <= MaxItemsPerDbTransaction
    requires Strip(Apply(db.data, cleanup)) == Remaining(d0, start, cursor, done)
    requires StoredWatermark(db.data) == oldest && start <= oldest <= cursor
    requires logFrom <= |db.log| && LogBounded(db.log, logFrom) && statesFrom <= |db.states|
    modifies db
    ensures ErasesWithin(cleanup', start, cursor + 1) && |cleanup'| == n' <= MaxItemsPerDbTransaction
    ensures Strip(Apply(db.data, cleanup')) == Remaining(d0, start, cursor, done + {key})
    ensures StoredWatermark(db.data) == oldest' && start <= oldest' <= cursor
    ensures |old(db.log)| <= |db.log| && LogBounded(db.log, logFrom) && |old(db.states)| <= |db.states|
    ensures (WatermarkSound(d0) && StoredWatermark(d0) == start && WatermarkSound(old(db.data)) &&
             StatesSound(old(db.states), statesFrom)) ==>
      WatermarkSound(db.data) && StatesSound(db.states, statesFrom)
  {
    EraseStep(db.data, cleanup, d0, start, cursor, done, key);
    ErasesWithinAppend(cleanup, start, cursor + 1, key);
    cleanup', n', oldest' := cleanup + [Erase(key)], n + 1, oldest;
    if n' > MaxItemsPerDbTransaction {
      oldest' := CommitCheckpoint(db, cleanup', oldest, cursor, d0, start, done + {key}, logFrom, statesFrom);
      cleanup', n' := [], 0;
    }
  }

  /**
   * Stages the erasure of every key of `keys`, keys of session `cursor`,
   * committing a checkpoint whenever more than MaxItemsPerDbTransaction
   * erasures are staged.
   */
  method EraseSessionKeys(db: Database, keys: set<Key>, cursor: SessionIndex, cleanup: Transaction, n: nat,
                          oldest: SessionIndex, ghost d0: map<Key, Value>, ghost start: SessionIndex,
                          ghost logFrom: nat, ghost statesFrom: nat)
    returns (cleanup': Transaction, n': nat, oldest': SessionIndex)
    requires forall k | k in keys :: InSessionRange(k, start, cursor + 1)
    requires ErasesWithin(cleanup, start, cursor + 1) && |cleanup| == n <= MaxItemsPerDbTransaction
    requires Strip(Apply(db.data, cleanup)) == Remaining(d0, start, cursor, {})
    requires StoredWatermark(db.data) == oldest && start <= oldest <= cursor
    requires logFrom <= |db.log| && LogBounded(db.log, logFrom) && statesFrom <= |db.states|
    modifies db
    ensures ErasesWithin(cleanup', start, cursor + 1) && |cleanup'| == n' <= MaxItemsPerDbTransaction
    ensures Strip(Apply(db.data, cleanup')) == Remaining(d0, start, cursor, keys)
    ensures StoredWatermark(db.data) == oldest' && start <= oldest' <= cursor
    ensures |old(db.log)| <= |db.log| && LogBounded(db.log, logFrom) && |old(db.states)| <= |db.states|
    ensures (WatermarkSound(d0) && StoredWatermark(d0) == start && WatermarkSound(old(db.data)) &&
             StatesSound(old(db.states), statesFrom)) ==>
      WatermarkSound(db.data) && StatesSound(db.states, statesFrom)
  {
    ghost var sound := WatermarkSound(d0) && StoredWatermark(d0) == start && WatermarkSound(db.data) &&
                       StatesSound(db.states, statesFrom);
    ghost var log0, states0 := db.log, db.states;
    cleanup', n', oldest' := cleanup, n, oldest;
    var pending := keys;
    ghost var done: set<Key> := {};
    while pending != {}
      invariant pending <= keys && done == keys - pending
      invariant ErasesWithin(cleanup', start, cursor + 1) && |cleanup'| == n' <= MaxItemsPerDbTransaction
      invariant Strip(Apply(db.data, cleanup')) == Remaining(d0, start, cursor, done)
      invariant StoredWatermark(db.data) == oldest' && start <= oldest' <= cursor
      invariant |log0| <= |db.log| && LogBounded(db.log, logFrom) && |states0| <= |db.states|
      invariant sound ==> WatermarkSound(db.data) && StatesSound(db.states, statesFrom)
      decreases |pending|
    {
      var key :| key in pending;
      pending := pending - {key};
      cleanup', n', oldest' := StageErasure(db, key, cursor, cleanup', n', oldest', d0, start, done, logFrom, statesFrom);
      done := done + {key};
    }
  }

  /**
   * Stages the erasure of every key under the prefix of session `cursor`
   * in the committed data.
   */
  method PruneSession(db: Database, cursor: SessionIndex, cleanup: Transaction, n: nat, oldest: SessionIndex,
                      ghost d0: map<Key, Value>, ghost start: SessionIndex, ghost logFrom: nat, ghost statesFrom: nat)
    returns (cleanup': Transaction, n': nat, oldest': SessionIndex)
    requires start <= cursor
    requires ErasesWithin(cleanup, start, cursor) && |cleanup| == n <= MaxItemsPerDbTransaction
    requires Strip(Apply(db.data, cleanup)) == Remaining(d0, start, cursor, {})
    requires StoredWatermark(db.data) == oldest && start <= oldest <= cursor
    requires logFrom <= |db.log| && LogBounded(db.log, logFrom) && statesFrom <= |db.states|
    modifies db
    ensures ErasesWithin(cleanup', start, cursor + 1) && |cleanup'| == n' <= MaxItemsPerDbTransaction
    ensures Strip(Apply(db.data, cleanup')) == Remaining(d0, start, cursor + 1, {})
    ensures StoredWatermark(db.data) == oldest' && start <= oldest' <= cursor + 1
    ensures |old(db.log)| <= |db.log| && LogBounded(db.log, logFrom) && |old(db.states)| <= |db.states|
    ensures (WatermarkSound(d0) && StoredWatermark(d0) == start && WatermarkSound(old(db.data)) &&
             StatesSound(old(db.states), statesFrom)) ==>
      WatermarkSound(db.data) && StatesSound(db.states, statesFrom)
  {
    var keys := db.IterWithPrefix(SessionPrefix(cursor));
    SessionSnapshot(db.data, cleanup, d0, start, cursor);
    ErasesWithinWiden(cleanup, start, cursor, cursor + 1);
    cleanup', n', oldest' := EraseSessionKeys(db, keys, cursor, cleanup, n, oldest, d0, start, logFrom, statesFrom);
    SessionDone(d0, start, cursor);
  }

  /**
   * Removes every vote stored for a session older than `session`, walking
   * the sessions from the stored watermark upwards, committing every time
   * more than MaxItemsPerDbTransaction erasures are staged and advancing
   * the watermark at each such checkpoint and at the end.
   */
  method PruneVotesOlderThanSession(db: Database, session: SessionIndex)
    modifies db
    ensures StoredWatermark(old(db.data)) >= session ==>
      db.data == old(db.data) && db.log == old(db.log) && db.states == old(db.states)
    ensures StoredWatermark(old(db.data)) < session ==>
      db.data == PrunedView(old(db.data), StoredWatermark(old(db.data)), session)[WatermarkKey := SessionEntry(session)]
    ensures StoredWatermark(db.data) == UpdatedWaterlevel(StoredWatermark(old(db.data)), session)
    ensures LogBounded(db.log, |old(db.log)|)
    ensures WatermarkSound(old(db.data)) ==> StatesSound(db.states, |old(db.states)|)
  {
    var oldest := OldestSessionWaterlevel(db);
    if oldest >= session {
      return;
    }
    ghost var d0, log0, states0 := db.data, db.log, db.states;
    ghost var sound := WatermarkSound(d0);
    var start := oldest;
    var cleanup: Transaction := [];
    var n: nat := 0;
    assert PrunedView(d0, start, start) - {} == d0;
    for cursor := start to session
      invariant ErasesWithin(cleanup, start, cursor) && |cleanup| == n <= MaxItemsPerDbTransaction
      invariant Strip(Apply(db.data, cleanup)) == Remaining(d0, start, cursor, {})
      invariant StoredWatermark(db.data) == oldest && start <= oldest <= cursor
      invariant |log0| <= |db.log| && LogBounded(db.log, |log0|) && |states0| <= |db.states|
      invariant sound ==> WatermarkSound(db.data) && StatesSound(db.states, |states0|)
    {
      cleanup, n, oldest := PruneSession(db, cursor, cleanup, n, oldest, d0, start, |log0|, |states0|);
    }
    ghost var before := db.data;
    ErasesWithinWiden(cleanup, start, session, session + 1);
    var _ := CommitCheckpoint(db, cleanup, oldest, session, d0, start, {}, |log0|, |states0|);
    assert Strip(PrunedView(d0, start, session)) == Remaining(d0, start, session, {}) by {
      assert PrunedView(d0, start, session) - {} == PrunedView(d0, start, session);
    }
    RestoreWatermark(Apply(before, cleanup), PrunedView(d0, start, session), SessionEntry(session));
  }
}
