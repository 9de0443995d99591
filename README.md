# Votes database of the dispute subsystem — a Dafny model

This project models the core of the votes database of a parachain
validator's dispute subsystem (`node/core/dispute/votesdb/src/votesdb.rs`):
the persistent ledger of votes that validators cast on candidates.

- **Key schema.** Every entry lives under a string key:
  `vote/s_{session}/c_{candidate}/v_{validator}` (per candidate hash),
  `vote/s_{session}/v_{validator}/c_{candidate}` (per validator), and the
  fixed key `vote/prune/waterlevel` holding the pruning watermark. Indices
  are rendered in decimal; a candidate hash is rendered as a string without
  `/`. Module `KeySchema` proves each layout injective, the two layouts
  disjoint, the watermark key outside every session, and that the session
  prefix `vote/s_{session}/` selects exactly the keys of that session.
- **Votes.** A vote is a backing attestation, an approval check or an
  explicit dispute vote (positive or negative); its polarity, validator and
  candidate, and the conversion of a backed candidate into one backing vote
  per (validator index, attestation) pair (module `Votes`).
- **Store.** The key-value database is a class over a map with point reads,
  prefix iteration and atomic transactions of puts and erasures (module
  `KvStore`). Ghost fields record every committed transaction and the
  contents after it, so that properties of every commit can be stated.
- **Watermark.** The oldest session whose entries are not pruned yet; read
  with a default of 0 and only ever raised (module `Watermark`).
- **Pruning.** `PruneVotesOlderThanSession` walks the sessions from the
  watermark up to the target, erases every key under each session's
  prefix, commits a checkpoint and raises the watermark whenever more than
  1024 erasures are staged, and finally commits the rest and raises the
  watermark to the target (module `Pruning`). It is proved to leave exactly
  the original contents without the pruned sessions, to commit no
  transaction of more than 1025 erasures, and to keep at every commit the
  invariant that no key of a session below the stored watermark exists.
- **Storing votes.** `StoreVotes` rejects a session below the watermark as
  obsolete; otherwise it records each vote under its per-candidate key
  unless a vote is already recorded there, reports one event per vote
  (`Stored`, `SupermajorityReached`, `Success` for a replay, `DoubleVote`
  for a differing vote) and commits every write in one transaction (module
  `VoteStore`). The specification function `StoreBatch` is related to an
  independent reference (`Recorded`: the vote already stored, else the first
  vote of the batch for the key) by the lemmas `StoreBatchRecords` and
  `StoreBatchEvents`.

The source file is an unfinished draft that does not compile. The model
follows its evident intent at these places:

- the checkpoint's `session_cursor` (line 207) is the loop variable
  `cursor_session`; `backend_candidate` (line 225) is `backed_candidate`;
- the malformed `format!` of the prune prefix (line 168) renders
  `vote/s_{session}`, as its neighbours do;
- `derive_key(session, vote.validator())` (line 341) is the per-candidate
  key of lines 145-152, built from the vote's validator and candidate;
- `get_pivot()` (line 334) is the stored watermark (lines 173-175);
- `write_db` (lines 103-117) writes its value under its `key` argument,
  which the draft never passes on;
- the `unimplemented!` before the double-vote event (line 348) is a
  placeholder: the model reports the `DoubleVote` event the lines after it
  build, with the candidate the event type declares (lines 313-316);
- `VoteEvent::Success` (line 359), not declared in the enum, is the event
  of a replayed vote;
- `supermajority_reached` (line 364), never defined, is the decision of
  `check_for_supermajority` (lines 328-331), whose body is empty: it is a
  parameter of type `SupermajorityCheck`.

The model's `store_votes` writes the vote under the per-candidate key
only, and no operation emits `DisputeDetected` or `ObsoleteVoteDiscarded`
(both events exist in the model's `VoteEvent`).

## Model

| member | source | states |
|---|---|---|
| KeySchema.Dec | node/core/dispute/votesdb/src/votesdb.rs:145-152 | an index renders as a non-empty run of decimal digits |
| KeySchema.KeyPerHash | node/core/dispute/votesdb/src/votesdb.rs:145-152 | the per-candidate key of a vote is the session prefix `vote/s_{s}/` followed by `c_{candidate}/v_{validator}` |
| KeySchema.KeyPerVal | node/core/dispute/votesdb/src/votesdb.rs:156-163 | the per-validator key of a marker is the session prefix `vote/s_{s}/` followed by `v_{validator}/c_{candidate}` |
| KeySchema.PrunePrefixAsWritten | node/core/dispute/votesdb/src/votesdb.rs:165-169 | the draft's pruning prefix is `vote/s_` followed by a non-empty run of digits only, with nothing after them |
| KeySchema.SessionPrefix | node/core/dispute/votesdb/src/votesdb.rs:165-169 | the corrected pruning prefix is the draft's prefix extended by exactly one trailing '/' |
| KeySchema.ParseDecOfDec | node/core/dispute/votesdb/src/votesdb.rs:145-152 | the decimal rendering of an index parses back to that index |
| KeySchema.DecInjective | node/core/dispute/votesdb/src/votesdb.rs:145-152 | two indices render alike exactly when they are equal |
| KeySchema.KeyPerHashInjective | node/core/dispute/votesdb/src/votesdb.rs:145-152 | per-candidate keys are equal exactly when session, validator and candidate are |
| KeySchema.KeyPerValInjective | node/core/dispute/votesdb/src/votesdb.rs:156-163 | per-validator keys are equal exactly when session, validator and candidate are |
| KeySchema.LayoutsDisjoint | node/core/dispute/votesdb/src/votesdb.rs:145-163 | no per-candidate key equals any per-validator key |
| KeySchema.KeysUnderSession | node/core/dispute/votesdb/src/votesdb.rs:145-169 | both keys of session s start with the session prefix of s (with and without the trailing '/') and parse back to session s |
| KeySchema.SessionPrefixIff | node/core/dispute/votesdb/src/votesdb.rs:165-169 | a key starts with the prefix `vote/s_{s}/` exactly when it is a key of session s |
| KeySchema.SessionPrefixSelectsSession | node/core/dispute/votesdb/src/votesdb.rs:145-169 | the prefix of session s matches a key of session s' exactly when s == s', in both layouts |
| KeySchema.WatermarkKeyOutsideSessions | node/core/dispute/votesdb/src/votesdb.rs:141-169 | the watermark key is no session's key, matches no session prefix, and equals no vote key |
| KeySchema.AsWrittenPrefixReachesLaterSession | node/core/dispute/votesdb/src/votesdb.rs:165-169 | the prefix `vote/s_{s}` without a trailing '/' also matches the keys of session 10s+d, for s >= 1 |
| Votes.VotePolarity | node/core/dispute/votesdb/src/votesdb.rs:259-275 | a vote is positive exactly when it is a backing, approval or dispute-positive vote; negative is its negation and holds exactly for dispute-negative votes |
| Votes.Vote.Positive | node/core/dispute/votesdb/src/votesdb.rs:261-268 | a vote is positive exactly when it is not a dispute-negative vote |
| Votes.Vote.Negative | node/core/dispute/votesdb/src/votesdb.rs:272-274 | a vote is negative exactly when it is a dispute-negative vote |
| Votes.Vote.Validator | node/core/dispute/votesdb/src/votesdb.rs:277-284 | a backing vote yields its own validator index, every other vote the index of its signed statement |
| Votes.Vote.Candidate | node/core/dispute/votesdb/src/votesdb.rs:286-293 | a backing vote yields its own candidate hash, every other vote the hash of its signed statement |
| Votes.BackingVotes | node/core/dispute/votesdb/src/votesdb.rs:223-243 | zipping indices with attestations yields min of the two lengths backing votes, the i-th carrying the i-th index, the i-th attestation and the hash |
| Votes.VotesOfBackedCandidate | node/core/dispute/votesdb/src/votesdb.rs:223-243 | a backed candidate yields, in order, one positive backing vote per index/attestation pair for its candidate's hash |
| KvStore.Database.Get | node/core/dispute/votesdb/src/votesdb.rs:119-135 | a point read returns the committed entry, or none when the key is absent |
| KvStore.Database.IterWithPrefix | node/core/dispute/votesdb/src/votesdb.rs:198 | prefix iteration yields exactly the committed keys that start with the prefix |
| KvStore.Database.WriteTransaction | node/core/dispute/votesdb/src/votesdb.rs:205 | a commit applies the staged operations in order, atomically |
| Watermark.WatermarkReadBack | node/core/dispute/votesdb/src/votesdb.rs:172-175 | a missing watermark reads as 0, and a written one reads back as written |
| Watermark.OldestSessionWaterlevel | node/core/dispute/votesdb/src/votesdb.rs:172-175 | reading the watermark returns the stored session, 0 by default |
| Watermark.StoredWatermark | node/core/dispute/votesdb/src/votesdb.rs:173-175 | the watermark in a view of the store is 0 when its key is absent, and the stored session when a session entry is stored under it |
| Watermark.SaturatingSub | node/core/dispute/votesdb/src/votesdb.rs:179 | unsigned subtraction stops at 0 |
| Watermark.UpdatedWaterlevelAsWritten | node/core/dispute/votesdb/src/votesdb.rs:177-182 | the draft's update is max(current, new ⊖ 1): never below either |
| Watermark.UpdatedWaterlevel | node/core/dispute/votesdb/src/votesdb.rs:172-182 | the corrected update is max(current, new): the watermark never decreases and reaches the pruning target |
| Watermark.AsWrittenWaterlevelLagsTarget | node/core/dispute/votesdb/src/votesdb.rs:172-182 | after pruning below a target, the draft's watermark sits one below the target, on a pruned session that is not rejected as obsolete; the corrected one does not |
| Watermark.WriteDb | node/core/dispute/votesdb/src/votesdb.rs:103-117 | a single write puts the value under its key in a transaction of its own |
| Watermark.UpdateOldestSessionWaterlevel | node/core/dispute/votesdb/src/votesdb.rs:177-182 | persists and returns the raised watermark; nothing else changes (corrected, see Findings) |
| Watermark.SoundWatermarkEmptiesOlderSessions | node/core/dispute/votesdb/src/votesdb.rs:172-175 | under a sound watermark no key lies under the prefix of a session below it |
| Pruning.PrunedViewEmptiesRange | node/core/dispute/votesdb/src/votesdb.rs:195-200 | after pruning sessions lo..hi-1 no key remains under the prefix of any of them |
| Pruning.PrunedViewKeepsOthers | node/core/dispute/votesdb/src/votesdb.rs:195-200 | a key under none of those prefixes keeps its entry |
| Pruning.PrunedViewStep | node/core/dispute/votesdb/src/votesdb.rs:195-200 | erasing the keys of session c extends the pruned range by one session |
| Pruning.SessionSnapshot | node/core/dispute/votesdb/src/votesdb.rs:197-198 | prefix iteration over the committed data sees exactly the keys session c originally had, although earlier erasures are staged or committed |
| Pruning.CommitKeepsSound | node/core/dispute/votesdb/src/votesdb.rs:205 | committing erasures that spare the watermark key keeps the watermark and its soundness |
| Pruning.CheckpointSound | node/core/dispute/votesdb/src/votesdb.rs:204-207 | once all sessions below c are erased, a watermark up to c is sound |
| Pruning.CommitCheckpoint | node/core/dispute/votesdb/src/votesdb.rs:204-210 | a checkpoint commits the staged erasures and persists the watermark `cursor`; every commit stays bounded and every committed state sound |
| Pruning.StageErasure | node/core/dispute/votesdb/src/votesdb.rs:200-211 | staging one erasure keeps at most 1024 erasures pending and commits a checkpoint when the count passes 1024 |
| Pruning.EraseSessionKeys | node/core/dispute/votesdb/src/votesdb.rs:198-212 | erasing the iterated keys of one session leaves the original contents minus those keys, with every commit bounded |
| Pruning.PruneSession | node/core/dispute/votesdb/src/votesdb.rs:195-213 | one pass of the outer loop removes exactly the keys of session `cursor` (corrected, see Findings) |
| Pruning.PruneVotesOlderThanSession | node/core/dispute/votesdb/src/votesdb.rs:186-219 | no-op when the watermark is at or past the target; otherwise the contents become the original ones minus every key of the sessions watermark..target-1, with the watermark raised to the target, every committed cleanup of at most 1025 erasures, and every committed state with a sound watermark (corrected, see Findings) |
| VoteStore.Verdict | node/core/dispute/votesdb/src/votesdb.rs:343-369 | the event is Success exactly for an equal stored vote, DoubleVote carrying both votes exactly for a different one, and Stored or SupermajorityReached exactly when none is stored |
| VoteStore.VoteKeysCollide | node/core/dispute/votesdb/src/votesdb.rs:341 | two votes are stored under one key exactly when they share session, validator and candidate |
| VoteStore.StoredVote | node/core/dispute/votesdb/src/votesdb.rs:343-345 | a lookup yields a vote exactly when a vote entry is stored under the key, and then that entry's vote |
| VoteStore.Stage | node/core/dispute/votesdb/src/votesdb.rs:361-363 | a vote needs a write exactly when nothing is recorded under its key, and the write puts the vote under its key |
| VoteStore.StoreBatch | node/core/dispute/votesdb/src/votesdb.rs:338-374 | a batch yields exactly one event per vote and stages at most one write per vote |
| VoteStore.StoreBatchAsWritten | node/core/dispute/votesdb/src/votesdb.rs:338-374 | the draft's batch, looking up committed data only, also yields one event per vote |
| VoteStore.StoreBatchSnoc | node/core/dispute/votesdb/src/votesdb.rs:343-369 | the outcome of the first i+1 votes is that of the first i followed by the verdict and write of the next vote, looked up through the writes staged before it |
| VoteStore.StoreBatchStagesVotes | node/core/dispute/votesdb/src/votesdb.rs:361-363 | a batch stages only puts of its own votes, each under that vote's key |
| VoteStore.StoreBatchRecords | node/core/dispute/votesdb/src/votesdb.rs:343-369 | first writer wins: afterwards each key holds the vote already stored, else the batch's first vote for it |
| VoteStore.StoreBatchEvents | node/core/dispute/votesdb/src/votesdb.rs:343-369 | the event of the i-th vote compares it with what the store and the earlier votes of the batch recorded under its key |
| VoteStore.StoreBatchWritesNothing | node/core/dispute/votesdb/src/votesdb.rs:357-359 | a batch whose keys all hold votes stages nothing |
| VoteStore.StoreBatchReplay | node/core/dispute/votesdb/src/votesdb.rs:343-360 | storing a batch again writes nothing, and each vote is then reported against the vote recorded for it |
| VoteStore.StoreBatchKeepsWatermark | node/core/dispute/votesdb/src/votesdb.rs:333-374 | storing votes of a non-obsolete session keeps the watermark and its soundness |
| VoteStore.AsWrittenMissesDoubleVoteInBatch | node/core/dispute/votesdb/src/votesdb.rs:343-363 | two differing votes by one validator on one candidate in one batch, for a key holding no vote and neither reaching a supermajority: the draft reports both as stored and keeps the second; the corrected batch keeps the first and reports a double vote |
| VoteStore.AsWrittenPairOverwrites | node/core/dispute/votesdb/src/votesdb.rs:343-363 | the draft's half: both votes are reported stored and the second overwrites the first under their key |
| VoteStore.PairKeepsFirst | node/core/dispute/votesdb/src/votesdb.rs:343-363 | the corrected half: the first vote is stored and the second is reported as a double vote against it |
| VoteStore.OpposingVotesAcrossCalls | node/core/dispute/votesdb/src/votesdb.rs:343-353 | a dispute-negative vote after a stored dispute-positive one by the same validator on the same candidate is a double vote, and the first stays stored |
| VoteStore.ReadThrough | node/core/dispute/votesdb/src/votesdb.rs:343 | the lookup of a vote sees the writes staged earlier in the batch on top of the committed data (corrected, see Findings) |
| VoteStore.StoreOne | node/core/dispute/votesdb/src/votesdb.rs:338-369 | handling the next vote of a batch extends the batch's events and transaction by that vote's verdict and write, and keeps the staged overlay equal to the transaction applied to the committed data (corrected, see Findings) |
| VoteStore.StageBatch | node/core/dispute/votesdb/src/votesdb.rs:338-374 | the events and the transaction collected over a batch are exactly those of the batch, with nothing written (corrected, see Findings) |
| VoteStore.StoreVotes | node/core/dispute/votesdb/src/votesdb.rs:333-375 | a session below the watermark is refused as obsolete with nothing written; otherwise the events and the one committed transaction are those of the batch (corrected, see Findings) |

## Left out

- The request loop of the subsystem and its active-leaves bookkeeping (lines 429-475): message plumbing driven by the overseer.
- Opening the database on disk or in memory (lines 404-426): storage provisioning and path handling.
- `on_session_change`, `store_vote` and `query` (lines 378-395): their bodies are empty.
- Logging, tracing and metrics, and the unused `SESSION_COUNT_BEFORE_DROP`.
- Storage I/O errors: reads, writes and commits always succeed in the model; the error variants other than `ObsoleteVote` are not modelled.
- Encoding: values are stored decoded, so encoding and decoding are the identity.
- StoredVote: an entry under a vote key that is not a vote reads as absent, whereas the source panics on an entry that does not decode; no operation of the model writes such an entry.
- The supermajority threshold: `check_for_supermajority` has an empty body, so the decision is a caller-supplied function of the session and the vote.
- The internals of signed statements and validity attestations: only the validator index and candidate hash they carry matter here.
- Votes.BackedCandidate: the validator indices are a sequence of indices; the source holds them in a bitfield.
- Integer widths: session indices are unbounded; the source's `u32` cannot overflow here, since it is only compared, maximised and decremented with saturation, and the `u16` erasure counter never exceeds 1025.
- The order in which prefix iteration yields keys is left open: the model picks any remaining key.
- KvStore.Database.IterWithPrefix: the iteration over a session's keys is a snapshot taken when it starts; a commit made by a checkpoint in the middle of the iteration does not change which keys it yields.

## Findings

| source | as written | input that shows it | evidently intended | confidence | as-written member | corrected member |
|---|---|---|---|---|---|---|
| node/core/dispute/votesdb/src/votesdb.rs:165-169 | the prune prefix `vote/s_{s}` has no trailing '/' | pruning session 1 matches `vote/s_10/c_…/v_…`, a key of session 10 | prefix `vote/s_{s}/`, matching only session s | high (not executed) | KeySchema.AsWrittenPrefixReachesLaterSession | KeySchema.SessionPrefixIff |
| node/core/dispute/votesdb/src/votesdb.rs:177-182 | the watermark update stores max(current, new ⊖ 1) | pruning below session 5 from watermark 0 stores 4, so votes for the pruned session 4 are accepted again | max(current, new), the oldest session not pruned yet (line 172) | high (not executed) | Watermark.AsWrittenWaterlevelLagsTarget | Watermark.UpdatedWaterlevel |
| node/core/dispute/votesdb/src/votesdb.rs:343 | each vote is looked up in committed data only, not in the writes staged by the batch | one batch for session 5 with a dispute-positive then a dispute-negative vote by validator 3 on candidate C: both are reported stored and the second overwrites the first | look up the staged writes too: the first vote is kept and the second reported as a double vote | high (not executed) | VoteStore.AsWrittenMissesDoubleVoteInBatch | VoteStore.StoreBatchRecords |
