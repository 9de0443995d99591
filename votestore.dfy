/**
 * Storing a batch of votes for one session: every vote goes under its
 * per-hash key unless a vote is already recorded there, and each vote
 * yields an event saying what happened to it. All writes of a batch go out
 * in one transaction.
 */
module VoteStore {
  import opened Wrappers
  import opened KeySchema
  import opened Votes
  import opened KvStore
  import opened Watermark

  /**
   * The supermajority decision reached once a vote is recorded. How it
   * counts votes is not part of this model; it is given by the caller.
   */
  type SupermajorityCheck = (SessionIndex, Vote) -> Option<CandidateQuorum>

  /** The key a vote is stored under: its session, candidate and validator. */
  function VoteKey(session: SessionIndex, vote: Vote): Key {
    KeyPerHash(session, vote.Validator(), vote.Candidate())
  }

  /** Two votes share a key exactly when they are cast in one session by one validator on one candidate. */
  lemma VoteKeysCollide(s: SessionIndex, a: Vote, s': SessionIndex, b: Vote)
    ensures VoteKey(s, a) == VoteKey(s', b) <==> s == s' && a.Validator() == b.Validator() && a.Candidate() == b.Candidate()
  {
    KeyPerHashInjective(s, a.Validator(), a.Candidate(), s', b.Validator(), b.Candidate());
  }

  /** The vote recorded under `k` in `view`; an entry that is not a vote reads as none. */
  function StoredVote(view: map<Key, Value>, k: Key): (r: Option<Vote>)
    ensures r.Some? <==> k in view && view[k].VoteEntry?
    ensures r.Some? ==> view[k] == VoteEntry(r.value)
  {
    if k in view && view[k].VoteEntry? then Some(view[k].vote) else None
  }

  /** The event for `vote` when `prior` is what is already recorded under its key. */
  function Verdict(prior: Option<Vote>, session: SessionIndex, vote: Vote, check: SupermajorityCheck): (e: VoteEvent)
    ensures e == Success <==> prior == Some(vote)
    ensures e.DoubleVote? <==> prior.Some? && prior.value != vote
    ensures e.DoubleVote? ==> e == DoubleVote(vote.Candidate(), vote.Validator(), [prior.value, vote])
    ensures (e.Stored? || e.SupermajorityReached?) <==> prior.None?
    ensures e.SupermajorityReached? <==> prior.None? && check(session, vote).Some?
  {
    match prior
    case Some(previous) =>
      if previous != vote then DoubleVote(vote.Candidate(), vote.Validator(), [previous, vote]) else Success
    case None =>
      match check(session, vote)
      case Some(quorum) => SupermajorityReached(quorum)
      case None => Stored
  }

  /** The write a vote needs: a put when nothing is recorded under its key, none otherwise. */
  function Stage(prior: Option<Vote>, session: SessionIndex, vote: Vote): (t: Transaction)
    ensures |t| <= 1 && (t != [] <==> prior.None?)
    ensures t != [] ==> t[0].Put? && t[0].key == VoteKey(session, vote) && t[0].value == VoteEntry(vote)
  {
    if prior.None? then [Put(VoteKey(session, vote), VoteEntry(vote))] else []
  }

  /** Every staged operation records a vote of `votes` under that vote's key in `session`. */
  predicate StagesVotes(t: Transaction, session: SessionIndex, votes: seq<Vote>) {
    forall i | 0 <= i < |t| ::
      && t[i].Put?
      && t[i].value.VoteEntry?
      && t[i].value.vote in votes
      && t[i].key == VoteKey(session, t[i].value.vote)
  }

  /**
   * The events and the staged transaction of a batch stored on top of the
   * committed contents `d`. Each vote is looked up in the committed contents
   * with the writes staged for the votes before it applied, so the first
   * vote for a key within the batch is the one recorded.
   */
  function StoreBatch(d: map<Key, Value>, session: SessionIndex, votes: seq<Vote>, check: SupermajorityCheck)
    : (r: (seq<VoteEvent>, Transaction))
    ensures |r.0| == |votes| && |r.1| <= |votes|
    decreases |votes|
  {
    if votes == [] then ([], [])
    else
      var vote := votes[|votes| - 1];
      var before := StoreBatch(d, session, votes[..|votes| - 1], check);
      var prior := StoredVote(Apply(d, before.1), VoteKey(session, vote));
      (before.0 + [Verdict(prior, session, vote, check)], before.1 + Stage(prior, session, vote))
  }

  /**
   * The batch as the draft stores it: every vote is looked up in the
   * committed contents only, so the writes staged within the batch are not
   * seen and a later vote for the same key overwrites an earlier one.
   */
  function StoreBatchAsWritten(d: map<Key, Value>, session: SessionIndex, votes: seq<Vote>, check: SupermajorityCheck)
    : (r: (seq<VoteEvent>, Transaction))
    ensures |r.0| == |votes| && |r.1| <= |votes|
    decreases |votes|
  {
    if votes == [] then ([], [])
    else
      var vote := votes[|votes| - 1];
      var before := StoreBatchAsWritten(d, session, votes[..|votes| - 1], check);
      var prior := StoredVote(d, VoteKey(session, vote));
      (before.0 + [Verdict(prior, session, vote, check)], before.1 + Stage(prior, session, vote))
  }

  /** A batch only ever puts votes of the batch, each under its own key. */
  lemma {:induction false} StoreBatchStagesVotes(d: map<Key, Value>, session: SessionIndex, votes: seq<Vote>,
                                                 check: SupermajorityCheck)
    ensures StagesVotes(StoreBatch(d, session, votes, check).1, session, votes)
    decreases |votes|
  {
    if votes != [] {
      var init := votes[..|votes| - 1];
      StoreBatchStagesVotes(d, session, init, check);
      var t := StoreBatch(d, session, votes, check).1;
      forall i | 0 <= i < |t|
        ensures t[i].Put? && t[i].value.VoteEntry? && t[i].value.vote in votes
      {
        var before := StoreBatch(d, session, init, check).1;
        if i < |before| {
          assert t[i] == before[i];
          assert before[i].value.vote in init;
        }
      }
    }
  }

  /** The first vote of `votes` whose key in `session` is `k`. */
  function FirstVote(votes: seq<Vote>, session: SessionIndex, k: Key): (r: Option<Vote>)
    ensures r.Some? ==> r.value in votes && VoteKey(session, r.value) == k
    ensures r.None? ==> forall i | 0 <= i < |votes| :: VoteKey(session, votes[i]) != k
  {
    if votes == [] then None
    else if VoteKey(session, votes[0]) == k then Some(votes[0])
    else FirstVote(votes[1..], session, k)
  }

  /** What a key holds once `votes` are recorded on top of `d`: the vote already there, else the first one for it. */
  function Recorded(d: map<Key, Value>, votes: seq<Vote>, session: SessionIndex, k: Key): Option<Vote> {
    if StoredVote(d, k).Some? then StoredVote(d, k) else FirstVote(votes, session, k)
  }

  lemma {:induction false} FirstVoteSnoc(votes: seq<Vote>, vote: Vote, session: SessionIndex, k: Key)
    ensures FirstVote(votes + [vote], session, k) ==
      if FirstVote(votes, session, k).Some? then FirstVote(votes, session, k)
      else if VoteKey(session, vote) == k then Some(vote) else None
    decreases |votes|
  {
    if votes != [] {
      assert (votes + [vote])[1..] == votes[1..] + [vote];
      FirstVoteSnoc(votes[1..], vote, session, k);
    }
  }

  /** Staging one vote records it under its key when that key holds no vote yet, and changes nothing else. */
  lemma StageStep(d: map<Key, Value>, t: Transaction, session: SessionIndex, vote: Vote, k: Key)
    ensures var prior := StoredVote(Apply(d, t), VoteKey(session, vote));
      StoredVote(Apply(d, t + Stage(prior, session, vote)), k) ==
        if StoredVote(Apply(d, t), k).Some? then StoredVote(Apply(d, t), k)
        else if VoteKey(session, vote) == k then Some(vote) else None
  {
    var key := VoteKey(session, vote);
    var prior := StoredVote(Apply(d, t), key);
    if prior.None? {
      ApplyAppend(d, t, Put(key, VoteEntry(vote)));
    } else {
      assert t + Stage(prior, session, vote) == t;
    }
  }

  /**
   * First writer wins: after the staged writes of a batch, every key holds
   * the vote the committed contents already had, or else the first vote of
   * the batch for that key; in particular no recorded vote is overwritten.
   */
  lemma {:induction false} StoreBatchRecords(d: map<Key, Value>, session: SessionIndex, votes: seq<Vote>,
                                             check: SupermajorityCheck, k: Key)
    ensures StoredVote(Apply(d, StoreBatch(d, session, votes, check).1), k) == Recorded(d, votes, session, k)
    decreases |votes|
  {
    if votes != [] {
      var vote, init := votes[|votes| - 1], votes[..|votes| - 1];
      assert votes == init + [vote];
      var before := StoreBatch(d, session, init, check).1;
      StoreBatchRecords(d, session, init, check, k);
      FirstVoteSnoc(init, vote, session, k);
      StageStep(d, before, session, vote, k);
    }
  }

  /**
   * The event of every vote of a batch, stated without the staged
   * transaction: it compares the vote with what the committed contents and
   * the earlier votes of the batch recorded under its key.
   */
  lemma {:induction false} StoreBatchEvents(d: map<Key, Value>, session: SessionIndex, votes: seq<Vote>,
                                            check: SupermajorityCheck, i: nat)
    requires i < |votes|
    ensures StoreBatch(d, session, votes, check).0[i] ==
      Verdict(Recorded(d, votes[..i], session, VoteKey(session, votes[i])), session, votes[i], check)
    decreases |votes|
  {
    var init, vote := votes[..|votes| - 1], votes[|votes| - 1];
    var before := StoreBatch(d, session, init, check);
    var prior := StoredVote(Apply(d, before.1), VoteKey(session, vote));
    var events := StoreBatch(d, session, votes, check).0;
    assert events == before.0 + [Verdict(prior, session, vote, check)];
    if i == |votes| - 1 {
      assert init == votes[..i];
      StoreBatchRecords(d, session, init, check, VoteKey(session, vote));
    } else {
      assert events[i] == before.0[i];
      StoreBatchEvents(d, session, init, check, i);
      assert init[..i] == votes[..i];
    }
  }

  /** A batch whose every key already holds a vote stages nothing. */
  lemma {:induction false} StoreBatchWritesNothing(d: map<Key, Value>, session: SessionIndex, votes: seq<Vote>,
                                                   check: SupermajorityCheck)
    requires forall i | 0 <= i < |votes| :: StoredVote(d, VoteKey(session, votes[i])).Some?
    ensures StoreBatch(d, session, votes, check).1 == []
    decreases |votes|
  {
    if votes != [] {
      StoreBatchWritesNothing(d, session, votes[..|votes| - 1], check);
    }
  }

  /**
   * Storing the same batch again writes nothing and reports no vote as newly
   * stored: each vote either matches what is recorded or is a double vote.
   */
  lemma StoreBatchReplay(d: map<Key, Value>, session: SessionIndex, votes: seq<Vote>, check: SupermajorityCheck)
    ensures var d' := Apply(d, StoreBatch(d, session, votes, check).1);
      && StoreBatch(d', session, votes, check).1 == []
      && forall i | 0 <= i < |votes| ::
           StoreBatch(d', session, votes, check).0[i] == Verdict(StoredVote(d', VoteKey(session, votes[i])), session, votes[i], check)
           && StoredVote(d', VoteKey(session, votes[i])).Some?
  {
    var d' := Apply(d, StoreBatch(d, session, votes, check).1);
    forall i | 0 <= i < |votes|
      ensures StoredVote(d', VoteKey(session, votes[i])).Some?
    {
      StoreBatchRecords(d, session, votes, check, VoteKey(session, votes[i]));
      assert FirstVote(votes, session, VoteKey(session, votes[i])).Some?;
    }
    StoreBatchWritesNothing(d', session, votes, check);
    forall i | 0 <= i < |votes|
      ensures StoreBatch(d', session, votes, check).0[i] == Verdict(StoredVote(d', VoteKey(session, votes[i])), session, votes[i], check)
    {
      StoreBatchEvents(d', session, votes, check, i);
    }
  }

  /** Keys under no session are untouched by a batch, and every key it adds lies in `session`. */
  lemma {:induction false} ApplyStagedVotes(d: map<Key, Value>, t: Transaction, session: SessionIndex, votes: seq<Vote>)
    requires StagesVotes(t, session, votes)
    ensures forall k | k in Apply(d, t) :: k in d || KeySession(k) == Some(session)
    ensures forall k | k in d :: k in Apply(d, t)
    ensures forall k | k in d && KeySession(k) != Some(session) :: Apply(d, t)[k] == d[k]
    decreases |t|
  {
    if t != [] {
      var init := t[..|t| - 1];
      assert StagesVotes(init, session, votes);
      ApplyStagedVotes(d, init, session, votes);
      var vote := t[|t| - 1].value.vote;
      KeysUnderSession(session, vote.Validator(), vote.Candidate());
    }
  }

  /**
   * Storing votes for a session the watermark does not exclude keeps the
   * watermark where it is and keeps it sound: no key below it appears.
   */
  lemma StoreBatchKeepsWatermark(d: map<Key, Value>, session: SessionIndex, votes: seq<Vote>, check: SupermajorityCheck)
    requires StoredWatermark(d) <= session
    ensures StoredWatermark(Apply(d, StoreBatch(d, session, votes, check).1)) == StoredWatermark(d)
    ensures WatermarkSound(d) ==> WatermarkSound(Apply(d, StoreBatch(d, session, votes, check).1))
  {
    var t := StoreBatch(d, session, votes, check).1;
    StoreBatchStagesVotes(d, session, votes, check);
    WatermarkKeyOutsideSessions(0, 0, "");
    ApplyStagedVotes(d, t, session, votes);
  }

  /**
   * Two different votes by one validator on one candidate in one batch, for
   * a key that holds no vote yet (for instance a dispute-positive and then a
   * dispute-negative vote by validator 3 on candidate "C" in session 5 of an
   * empty store): the draft reports both as stored and keeps the second,
   * while the corrected batch keeps the first and reports the second as a
   * double vote.
   */
  lemma AsWrittenMissesDoubleVoteInBatch(d: map<Key, Value>, session: SessionIndex, first: Vote, second: Vote,
                                         check: SupermajorityCheck)
    requires first != second && first.Validator() == second.Validator() && first.Candidate() == second.Candidate()
    requires StoredVote(d, VoteKey(session, first)) == None
    requires check(session, first) == None && check(session, second) == None
    ensures var written := StoreBatchAsWritten(d, session, [first, second], check);
      && written.0 == [Stored, Stored]
      && StoredVote(Apply(d, written.1), VoteKey(session, first)) == Some(second)
    ensures var corrected := StoreBatch(d, session, [first, second], check);
      && corrected.0 == [Stored, DoubleVote(first.Candidate(), first.Validator(), [first, second])]
      && StoredVote(Apply(d, corrected.1), VoteKey(session, first)) == Some(first)
  {
    var k := VoteKey(session, first);
    assert VoteKey(session, second) == k;
    AsWrittenPairOverwrites(d, session, first, second, check, k);
    PairKeepsFirst(d, session, first, second, check, k);
  }

  /** The as-written half: both votes are put under `k`, the second overwriting the first. */
  lemma AsWrittenPairOverwrites(d: map<Key, Value>, session: SessionIndex, first: Vote, second: Vote,
                                check: SupermajorityCheck, k: Key)
    requires k == VoteKey(session, first) == VoteKey(session, second) && StoredVote(d, k) == None
    requires check(session, first) == None && check(session, second) == None
    ensures var written := StoreBatchAsWritten(d, session, [first, second], check);
      written.0 == [Stored, Stored] && StoredVote(Apply(d, written.1), k) == Some(second)
  {
    var put1, put2 := Put(k, VoteEntry(first)), Put(k, VoteEntry(second));
    assert [first, second][..1] == [first];
    assert [first][..0] == [];
    var w1 := StoreBatchAsWritten(d, session, [first], check);
    assert w1 == ([] + [Stored], [] + [put1]);
    var written := StoreBatchAsWritten(d, session, [first, second], check);
    assert written.1 == [put1] + [put2];
    ApplyAppend(d, [put1], put2);
  }

  /** The corrected half: the first vote is put under `k` and the second is reported against it. */
  lemma PairKeepsFirst(d: map<Key, Value>, session: SessionIndex, first: Vote, second: Vote,
                       check: SupermajorityCheck, k: Key)
    requires first != second && first.Validator() == second.Validator() && first.Candidate() == second.Candidate()
    requires k == VoteKey(session, first) == VoteKey(session, second) && StoredVote(d, k) == None
    requires check(session, first) == None
    ensures var corrected := StoreBatch(d, session, [first, second], check);
      && corrected.0 == [Stored, DoubleVote(first.Candidate(), first.Validator(), [first, second])]
      && StoredVote(Apply(d, corrected.1), k) == Some(first)
  {
    var put1 := Put(k, VoteEntry(first));
    assert [first, second][..1] == [first];
    assert [first][..0] == [];
    assert [put1][..0] == [];
    assert Apply(d, [put1]) == d[k := VoteEntry(first)];
    var c1 := StoreBatch(d, session, [first], check);
    assert Apply(d, []) == d;
    assert c1 == ([] + [Stored], [] + [put1]);
    var corrected := StoreBatch(d, session, [first, second], check);
    assert corrected.1 == [put1] + [];
  }

  /**
   * A dispute-positive vote by validator 3 on candidate "C" in session 5,
   * stored into an empty store, then a dispute-negative vote by the same
   * validator on the same candidate in a later call: the second call reports
   * a double vote carrying both votes and leaves the first one stored.
   */
  lemma OpposingVotesAcrossCalls(check: SupermajorityCheck)
    ensures var first := DisputePositive(SignedFullStatement(3, "C", []));
      var second := DisputeNegative(SignedFullStatement(3, "C", []));
      var d1 := Apply(map[], StoreBatch(map[], 5, [first], check).1);
      var r := StoreBatch(d1, 5, [second], check);
      && r.0 == [DoubleVote("C", 3, [first, second])]
      && StoredVote(Apply(d1, r.1), VoteKey(5, first)) == Some(first)
  {
    var first := DisputePositive(SignedFullStatement(3, "C", []));
    var second := DisputeNegative(SignedFullStatement(3, "C", []));
    var k := VoteKey(5, first);
    assert VoteKey(5, second) == k;
    var empty: map<Key, Value> := map[];
    var d1 := Apply(empty, StoreBatch(empty, 5, [first], check).1);
    StoreBatchRecords(empty, 5, [first], check, k);
    assert StoredVote(d1, k) == Some(first);
    StoreBatchEvents(d1, 5, [second], check, 0);
    assert [second][..0] == [];
    StoreBatchRecords(d1, 5, [second], check, k);
  }

  /** One more vote of the batch: its event and its write come after those of the votes before it. */
  lemma StoreBatchSnoc(d: map<Key, Value>, session: SessionIndex, votes: seq<Vote>, check: SupermajorityCheck, i: nat)
    requires i < |votes|
    ensures var before := StoreBatch(d, session, votes[..i], check);
      var prior := StoredVote(Apply(d, before.1), VoteKey(session, votes[i]));
      StoreBatch(d, session, votes[..i + 1], check) ==
        (before.0 + [Verdict(prior, session, votes[i], check)], before.1 + Stage(prior, session, votes[i]))
  {
    assert votes[..i + 1][..i] == votes[..i];
  }

  lemma OverlayPut(d: map<Key, Value>, pending: map<Key, Value>, k: Key, v: Value)
    ensures (d + pending)[k := v] == d + pending[k := v]
  {
  }

  /** Reads the vote under `k` as the staged writes `pending` leave it on top of the committed data. */
  method ReadThrough(db: Database, pending: map<Key, Value>, k: Key) returns (prior: Option<Vote>)
    ensures prior == StoredVote(db.data + pending, k)
  {
    if k in pending {
      prior := if pending[k].VoteEntry? then Some(pending[k].vote) else None;
    } else {
      var entry := db.Get(k);
      prior := if entry.Some? && entry.value.VoteEntry? then Some(entry.value.vote) else None;
    }
  }

  /**
   * Handles the `i`-th vote of a batch: looks it up through the writes
   * staged so far, reports its event, and stages its write if it needs one.
   */
  method StoreOne(db: Database, session: SessionIndex, votes: seq<Vote>, check: SupermajorityCheck, i: nat,
                  events: seq<VoteEvent>, transaction: Transaction, pending: map<Key, Value>)
    returns (events': seq<VoteEvent>, transaction': Transaction, pending': map<Key, Value>)
    requires i < |votes|
    requires (events, transaction) == StoreBatch(db.data, session, votes[..i], check)
    requires Apply(db.data, transaction) == db.data + pending
    ensures (events', transaction') == StoreBatch(db.data, session, votes[..i + 1], check)
    ensures Apply(db.data, transaction') == db.data + pending'
  {
    var vote := votes[i];
    var k := VoteKey(session, vote);
    var prior := ReadThrough(db, pending, k);
    StoreBatchSnoc(db.data, session, votes, check, i);
    events' := events + [Verdict(prior, session, vote, check)];
    if prior.None? {
      ApplyAppend(db.data, transaction, Put(k, VoteEntry(vote)));
      OverlayPut(db.data, pending, k, VoteEntry(vote));
      transaction' := transaction + [Put(k, VoteEntry(vote))];
      pending' := pending[k := VoteEntry(vote)];
    } else {
      assert transaction + Stage(prior, session, vote) == transaction;
      transaction', pending' := transaction, pending;
    }
  }

  /**
   * Looks up every vote of a batch through the writes staged for the votes
   * before it, collecting the events and the transaction; nothing is
   * written to the store.
   */
  method StageBatch(db: Database, session: SessionIndex, votes: seq<Vote>, check: SupermajorityCheck)
    returns (events: seq<VoteEvent>, transaction: Transaction)
    ensures (events, transaction) == StoreBatch(db.data, session, votes, check)
  {
    events, transaction := [], [];
    var pending: map<Key, Value> := map[];
    assert votes[..0] == [];
    assert db.data + pending == db.data;
    for i := 0 to |votes|
      invariant (events, transaction) == StoreBatch(db.data, session, votes[..i], check)
      invariant Apply(db.data, transaction) == db.data + pending
    {
      events, transaction, pending := StoreOne(db, session, votes, check, i, events, transaction, pending);
    }
    assert votes[..|votes|] == votes;
  }

  /**
   * Stores a batch of votes for `session`: refused as obsolete when the
   * session lies below the watermark, otherwise each vote is recorded under
   * its key unless one is already recorded there, and all writes are
   * committed in one transaction.
   */
  method StoreVotes(db: Database, session: SessionIndex, votes: seq<Vote>, check: SupermajorityCheck)
    returns (r: Result<seq<VoteEvent>, Error>)
    modifies db
    ensures session < StoredWatermark(old(db.data)) ==>
      r == Err(ObsoleteVote) && db.data == old(db.data) && db.log == old(db.log) && db.states == old(db.states)
    ensures StoredWatermark(old(db.data)) <= session ==>
      && r == Ok(StoreBatch(old(db.data), session, votes, check).0)
      && db.data == Apply(old(db.data), StoreBatch(old(db.data), session, votes, check).1)
      && db.log == old(db.log) + [StoreBatch(old(db.data), session, votes, check).1]
      && db.states == old(db.states) + [db.data]
  {
    var pivot := OldestSessionWaterlevel(db);
    if session < pivot {
      return Err(ObsoleteVote);
    }
    var events, transaction := StageBatch(db, session, votes, check);
    db.WriteTransaction(transaction);
    r := Ok(events);
  }
}
