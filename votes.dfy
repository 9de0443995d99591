/**
 * Votes cast by validators on candidates, the conversion of a backed
 * candidate into backing votes, and the events the vote store reports.
 */
module Votes {
  import opened KeySchema

  type Signature = seq<bv8>

  /** A backing signature; only its identity matters to the votes database. */
  datatype ValidityAttestation = Implicit(signature: Signature) | Explicit(signature: Signature)

  /** A signed statement, seen only through the validator that signed it and the candidate it is about. */
  datatype SignedFullStatement = SignedFullStatement(validatorIndex: ValidatorIndex, candidateHash: CandidateHash, signature: Signature)

  /** A vote cast by a validator on a candidate. */
  datatype Vote =
    | Backing(attestation: ValidityAttestation, validatorIndex: ValidatorIndex, candidateHash: CandidateHash)
    | ApprovalCheck(sfs: SignedFullStatement)
    | DisputePositive(sfs: SignedFullStatement)
    | DisputeNegative(sfs: SignedFullStatement)
  {
    /** The vote supports the validity of the candidate. */
    predicate Positive()
      ensures Positive() <==> !DisputeNegative?
    {
      match this
      case Backing(_, _, _) => true
      case ApprovalCheck(_) => true
      case DisputePositive(_) => true
      case DisputeNegative(_) => false
    }

    /** The vote challenges the validity of the candidate. */
    predicate Negative()
      ensures Negative() <==> DisputeNegative?
    {
      !Positive()
    }

    /** The validator that cast the vote. */
    function Validator(): (v: ValidatorIndex)
      ensures Backing? ==> v == validatorIndex
      ensures !Backing? ==> v == sfs.validatorIndex
    {
      match this
      case Backing(_, validatorIndex, _) => validatorIndex
      case ApprovalCheck(sfs) => sfs.validatorIndex
      case DisputePositive(sfs) => sfs.validatorIndex
      case DisputeNegative(sfs) => sfs.validatorIndex
    }

    /** The candidate the vote is about. */
    function Candidate(): (c: CandidateHash)
      ensures Backing? ==> c == candidateHash
      ensures !Backing? ==> c == sfs.candidateHash
    {
      match this
      case Backing(_, _, candidateHash) => candidateHash
      case ApprovalCheck(sfs) => sfs.candidateHash
      case DisputePositive(sfs) => sfs.candidateHash
      case DisputeNegative(sfs) => sfs.candidateHash
    }
  }

  /** Every vote has exactly one polarity, and only a dispute-negative vote is negative. */
  lemma VotePolarity(v: Vote)
    ensures v.Positive() <==> v.Backing? || v.ApprovalCheck? || v.DisputePositive?
    ensures v.Negative() <==> !v.Positive()
    ensures v.Negative() <==> v.DisputeNegative?
  {
  }

  /** The receipt of a candidate, seen only through its hash. */
  datatype CommittedCandidateReceipt = CommittedCandidateReceipt(hash: CandidateHash, descriptor: seq<bv8>)

  /** A candidate together with the backing signatures and the indices of the validators who gave them. */
  datatype BackedCandidate = BackedCandidate(
    candidate: CommittedCandidateReceipt,
    validityVotes: seq<ValidityAttestation>,
    validatorIndices: seq<ValidatorIndex>)

  function Min(a: nat, b: nat): nat {
    if a <= b then a else b
  }

  /** Pairs indices with attestations, in order, into backing votes for one candidate; the longer list is cut short. */
  function BackingVotes(indices: seq<ValidatorIndex>, attestations: seq<ValidityAttestation>, hash: CandidateHash): (votes: seq<Vote>)
    ensures |votes| == Min(|indices|, |attestations|)
    ensures forall i | 0 <= i < |votes| :: votes[i] == Backing(attestations[i], indices[i], hash)
    decreases |indices|
  {
    if indices == [] || attestations == [] then []
    else [Backing(attestations[0], indices[0], hash)] + BackingVotes(indices[1..], attestations[1..], hash)
  }

  /** The votes a backed candidate stands for: one positive backing vote per (index, attestation) pair. */
  function VotesOfBackedCandidate(b: BackedCandidate): (votes: seq<Vote>)
    ensures |votes| == Min(|b.validatorIndices|, |b.validityVotes|)
    ensures forall i | 0 <= i < |votes| ::
      && votes[i].Backing?
      && votes[i].attestation == b.validityVotes[i]
      && votes[i].Validator() == b.validatorIndices[i]
      && votes[i].Candidate() == b.candidate.hash
      && votes[i].Positive()
  {
    BackingVotes(b.validatorIndices, b.validityVotes, b.candidate.hash)
  }

  /** The verdict of a supermajority. */
  datatype CandidateQuorum = Valid | Invalid

  /** What storing one vote produced. */
  datatype VoteEvent =
    | Stored
      /** The vote was already stored: a replay, nothing written. */
    | Success
    | DisputeDetected(candidate: CandidateHash, votes: seq<Vote>)
    | DoubleVote(candidate: CandidateHash, validator: ValidatorIndex, votes: seq<Vote>)
    | SupermajorityReached(quorum: CandidateQuorum)
    | ObsoleteVoteDiscarded(candidate: CandidateHash)

  /** The failures of the votes database that the model keeps. */
  datatype Error = ObsoleteVote
}
