/** An accepted proof of lock is a prevote certificate, so it shares signers with every other certificate. */
module ProofOfLock {
  import opened Types
  import opened Validators
  import opened VoteSets
  import opened Commits
  import opened Node

  lemma POLIsCertificate(cfg: Config, vals: ValidatorSet, p: Proposal) returns (votes: set<Vote>)
    requires vals.Valid() && POLAccepted(cfg, vals, p)
    ensures Certificate(cfg.verifyVote, vals, Prevote, p.height, p.polRound, BlockKey(Some(BlockHash(cfg, p.block))),
                        votes)
    ensures forall v :: v in votes ==> v in p.polVotes
  {
    hide VerifySignature, BlockKey, PowerOf, SumPower;
    votes := set i | 0 <= i < |p.polVotes| :: p.polVotes[i];
    var who := set v | v in votes :: v.index;
    forall k | k in POLVoters(p) ensures k in who {
      var i :| 0 <= i < |p.polVotes| && p.polVotes[i].index == k;
      assert p.polVotes[i] in votes;
    }
    PowerOfMonotone(vals.validators, POLVoters(p), who);
  }

  /**
   * Two proofs of lock accepted for different blocks in one round expose validators with more than a
   * third of the power, each of which signed both.
   */
  lemma ConflictingProofsOfLock(cfg: Config, vals: ValidatorSet, p: Proposal, q: Proposal)
    requires vals.Valid() && POLAccepted(cfg, vals, p) && POLAccepted(cfg, vals, q)
    requires p.height == q.height && p.polRound == q.polRound
    requires BlockKey(Some(BlockHash(cfg, p.block))) != BlockKey(Some(BlockHash(cfg, q.block)))
    ensures 3 * PowerOf(vals.validators, POLVoters(p) * POLVoters(q)) > vals.totalPower
  {
    hide POLAccepted, BlockKey, PowerOf, SumPower, Certificate, Signed, BlockHash;
    var a := POLIsCertificate(cfg, vals, p);
    var b := POLIsCertificate(cfg, vals, q);
    CertificatesIntersect(cfg.verifyVote, vals, Prevote, p.height, p.polRound,
                          BlockKey(Some(BlockHash(cfg, p.block))), a, BlockKey(Some(BlockHash(cfg, q.block))), b);
    PowerOfMonotone(vals.validators, SignedBoth(a, b), POLVoters(p) * POLVoters(q));
  }
}
