/**
 * The key-value database the votes database sits on: point reads, prefix
 * iteration, and atomic transactions of puts and erasures. Stored values are
 * kept decoded.
 */
module KvStore {
  import opened Wrappers
  import opened KeySchema
  import opened Votes

  /** A stored value: a vote, a per-validator marker, or the watermark session. */
  datatype Value = VoteEntry(vote: Vote) | Marker | SessionEntry(session: SessionIndex)

  datatype Op = Put(key: Key, value: Value) | Erase(key: Key)

  /** Staged operations, applied in order when committed. */
  type Transaction = seq<Op>

  function ApplyOp(d: map<Key, Value>, op: Op): map<Key, Value> {
    match op
    case Put(k, v) => d[k := v]
    case Erase(k) => d - {k}
  }

  /** The contents after committing `t` on top of `d`. */
  function Apply(d: map<Key, Value>, t: Transaction): map<Key, Value>
    decreases |t|
  {
    if t == [] then d else ApplyOp(Apply(d, t[..|t| - 1]), t[|t| - 1])
  }

  lemma ApplyAppend(d: map<Key, Value>, t: Transaction, op: Op)
    ensures Apply(d, t + [op]) == ApplyOp(Apply(d, t), op)
  {
    assert (t + [op])[..|t|] == t;
  }

  predicate AllErasures(t: Transaction) {
    forall i | 0 <= i < |t| :: t[i].Erase?
  }

  /** A key no operation of `t` names keeps its entry. */
  lemma {:induction false} ApplyUntouched(d: map<Key, Value>, t: Transaction, k: Key)
    requires forall i | 0 <= i < |t| :: t[i].key != k
    ensures k in Apply(d, t) <==> k in d
    ensures k in d ==> Apply(d, t)[k] == d[k]
    decreases |t|
  {
    if t != [] {
      ApplyUntouched(d, t[..|t| - 1], k);
    }
  }

  /** Committing erasures only ever removes entries. */
  lemma {:induction false} ApplyErasuresShrinks(d: map<Key, Value>, t: Transaction)
    requires AllErasures(t)
    ensures forall k | k in Apply(d, t) :: k in d && Apply(d, t)[k] == d[k]
    decreases |t|
  {
    if t != [] {
      ApplyErasuresShrinks(d, t[..|t| - 1]);
    }
  }

  /** The keys of `d` that start with `prefix`. */
  function KeysWithPrefix(d: map<Key, Value>, prefix: string): set<Key> {
    set k | k in d && prefix <= k
  }

  /** The database handle. */
  class Database {
    var data: map<Key, Value>
    /** Every transaction committed so far, oldest first. */
    ghost var log: seq<Transaction>
    /** The committed contents after each of them. */
    ghost var states: seq<map<Key, Value>>

    constructor (initial: map<Key, Value>)
      ensures data == initial && log == [] && states == []
    {
      data := initial;
      log := [];
      states := [];
    }

    /** A point read of committed data. */
    method Get(k: Key) returns (r: Option<Value>)
      ensures k in data ==> r == Some(data[k])
      ensures k !in data ==> r == None
    {
      r := if k in data then Some(data[k]) else None;
    }

    /** The committed keys that start with `prefix`. */
    method IterWithPrefix(prefix: string) returns (keys: set<Key>)
      ensures keys == KeysWithPrefix(data, prefix)
    {
      keys := set k | k in data && prefix <= k;
    }

    /** Commits `t` atomically. */
    method WriteTransaction(t: Transaction)
      modifies this
      ensures data == Apply(old(data), t)
      ensures log == old(log) + [t] && states == old(states) + [data]
    {
      data := Apply(data, t);
      log := log + [t];
      states := states + [data];
    }
  }
}
