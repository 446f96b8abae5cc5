/**
 * Completeness of verification: a ceremony whose powers form a geometric
 * progression, updated by ceremony.go's contribution engine, passes every
 * check VerifySubmission runs against the ceremony it came from.
 */
module Honest {
  import opened Wrappers
  import opened Scalars
  import opened Groups
  import opened Schema
  import opened Contribute
  import opened Verify

  /**
   * The powers are g^(tau^(i+offset)) in G1 and h^(tau^(i+offset)) in G2
   * for one accumulated secret tau.
   */
  ghost predicate Structured(curve: Curve, g: G1, pot: PowersOfTau, tau: Scalar, offset: nat)
  {
    && (forall i :: 0 <= i < |pot.g1Powers| ==> pot.g1Powers[i] == curve.g1Mult(g, Pow(tau, i + offset)))
    && (forall i :: 0 <= i < |pot.g2Powers| ==> pot.g2Powers[i] == curve.g2Mult(curve.g2Generator, Pow(tau, i + offset)))
  }

  /**
   * Scaling every power by sec^(i+offset) turns a progression in tau into
   * a progression in tau*sec.
   */
  lemma {:induction false} ScalingKeepsProgression(curve: Curve, g: G1, e: Scalar -> GT, pot: PowersOfTau,
                                                   numG1: int, numG2: int, tau: Scalar, sec: Scalar, offset: nat)
    requires GroupLaws(curve, g, e)
    requires Structured(curve, g, pot, tau, offset)
    requires numG1 >= |pot.g1Powers| && numG1 >= |pot.g2Powers| && numG2 >= |pot.g2Powers|
    ensures Structured(curve, g, ScalePowers(curve, pot, numG1, numG2, sec, offset), Mul(tau, sec), offset)
  {
    var r := ScalePowers(curve, pot, numG1, numG2, sec, offset);
    forall i | 0 <= i < |r.g1Powers|
      ensures r.g1Powers[i] == curve.g1Mult(g, Pow(Mul(tau, sec), i + offset))
    {
      assert r.g1Powers[i] == curve.g1Mult(pot.g1Powers[i], Pow(sec, i + offset));
      ScaledPower(curve, g, e, pot.g1Powers[i], tau, sec, i + offset);
    }
    forall i | 0 <= i < |r.g2Powers|
      ensures r.g2Powers[i] == curve.g2Mult(curve.g2Generator, Pow(Mul(tau, sec), i + offset))
    {
      assert r.g2Powers[i] == curve.g2Mult(pot.g2Powers[i], Pow(sec, i + offset));
      ScaledPowerG2(curve, g, e, pot.g2Powers[i], tau, sec, i + offset);
    }
  }

  /** g^(tau^k) scaled by sec^k is g^((tau*sec)^k). */
  lemma ScaledPower(curve: Curve, g: G1, e: Scalar -> GT, p: G1, tau: Scalar, sec: Scalar, k: nat)
    requires GroupLaws(curve, g, e)
    requires p == curve.g1Mult(g, Pow(tau, k))
    ensures curve.g1Mult(p, Pow(sec, k)) == curve.g1Mult(g, Pow(Mul(tau, sec), k))
  {
    PowMul(tau, sec, k);
  }

  lemma ScaledPowerG2(curve: Curve, g: G1, e: Scalar -> GT, q: G2, tau: Scalar, sec: Scalar, k: nat)
    requires GroupLaws(curve, g, e)
    requires q == curve.g2Mult(curve.g2Generator, Pow(tau, k))
    ensures curve.g2Mult(q, Pow(sec, k)) == curve.g2Mult(curve.g2Generator, Pow(Mul(tau, sec), k))
  {
    PowMul(tau, sec, k);
  }

  /** A progression with at least two powers in each group passes verifyPairing. */
  lemma {:induction false} ProgressionPassesPairing(curve: Curve, g: G1, e: Scalar -> GT, pot: PowersOfTau, tau: Scalar, offset: nat)
    requires GroupLaws(curve, g, e)
    requires Structured(curve, g, pot, tau, offset)
    requires |pot.g1Powers| >= 2 && |pot.g2Powers| >= 2
    ensures PairingHolds(curve, pot)
  {
    forall i | 0 <= i < |pot.g1Powers| - 1
      ensures curve.pairing(pot.g1Powers[i], pot.g2Powers[1]) == curve.pairing(pot.g1Powers[i + 1], pot.g2Powers[0])
    {
      PairOfPowers(curve, g, e, pot, tau, offset, i, 1, i + 1 + 2 * offset);
      PairOfPowers(curve, g, e, pot, tau, offset, i + 1, 0, i + 1 + 2 * offset);
    }
    forall i | 0 <= i < |pot.g2Powers| - 1
      ensures curve.pairing(pot.g1Powers[1], pot.g2Powers[i]) == curve.pairing(pot.g1Powers[0], pot.g2Powers[i + 1])
    {
      PairOfPowers(curve, g, e, pot, tau, offset, 1, i, i + 1 + 2 * offset);
      PairOfPowers(curve, g, e, pot, tau, offset, 0, i + 1, i + 1 + 2 * offset);
    }
  }

  /** The pairing of G1 power j with G2 power k depends only on j + k. */
  lemma {:induction false} PairOfPowers(curve: Curve, g: G1, e: Scalar -> GT, pot: PowersOfTau, tau: Scalar, offset: nat,
                                        j: nat, k: nat, n: nat)
    requires GroupLaws(curve, g, e)
    requires Structured(curve, g, pot, tau, offset)
    requires j < |pot.g1Powers| && k < |pot.g2Powers| && n == j + k + 2 * offset
    ensures curve.pairing(pot.g1Powers[j], pot.g2Powers[k]) == e(Pow(tau, n))
  {
    assert pot.g1Powers[j] == curve.g1Mult(g, Pow(tau, j + offset));
    assert pot.g2Powers[k] == curve.g2Mult(curve.g2Generator, Pow(tau, k + offset));
    PairingOfPowers(curve, g, e, tau, j + offset, k + offset, n);
  }

  lemma PairingOfPowers(curve: Curve, g: G1, e: Scalar -> GT, tau: Scalar, a: nat, b: nat, n: nat)
    requires GroupLaws(curve, g, e)
    requires n == a + b
    ensures curve.pairing(curve.g1Mult(g, Pow(tau, a)), curve.g2Mult(curve.g2Generator, Pow(tau, b))) == e(Pow(tau, n))
  {
    PowAdd(tau, a, b);
  }

  /** What an honest coordinator's ceremony looks like, one accumulated secret per transcript. */
  ghost predicate WellFormed(curve: Curve, g: G1, c: Ceremony, taus: seq<Scalar>)
  {
    && |taus| == |c.transcripts|
    && forall i :: 0 <= i < |c.transcripts| ==>
         var t := c.transcripts[i];
         && t.numG1Powers == |t.powersOfTau.g1Powers| >= 2
         && t.numG2Powers == |t.powersOfTau.g2Powers| >= 2
         && t.numG2Powers <= t.numG1Powers
         && |t.witnessChain.runningProducts| > 0
         && CoordinatorSubgroupsOf(curve, t)
         && Structured(curve, g, t.powersOfTau, taus[i], 1)
  }

  /** An honest contribution continues the witness chain of every transcript. */
  lemma {:induction false} ContributionContinuesWitness(curve: Curve, prev: Ceremony, secs: seq<Scalar>)
    requires |secs| == |prev.transcripts|
    requires forall i :: 0 <= i < |prev.transcripts| ==> |prev.transcripts[i].witnessChain.runningProducts| > 0
    ensures ContinuityHolds(prev, ContributeCeremony(curve, prev, secs))
  {
    var next := ContributeCeremony(curve, prev, secs);
    forall i | 0 <= i < |prev.transcripts|
      ensures ExtendsByOne(prev.transcripts[i].witnessChain.runningProducts, next.transcripts[i].witnessChain.runningProducts)
      ensures ExtendsByOne(prev.transcripts[i].witnessChain.potPubkeys, next.transcripts[i].witnessChain.potPubkeys)
    {
      var w := prev.transcripts[i].witnessChain;
      var w' := AppendWitness(curve, w, secs[i]);
      assert next.transcripts[i].witnessChain == w';
    }
  }

  /** The contributed ceremony is well formed again, with tau_i * sec_i. */
  lemma {:induction false} ContributionKeepsWellFormed(curve: Curve, g: G1, e: Scalar -> GT, prev: Ceremony,
                                                       taus: seq<Scalar>, secs: seq<Scalar>)
    requires GroupLaws(curve, g, e) && SubgroupsClosed(curve)
    requires WellFormed(curve, g, prev, taus) && |secs| == |prev.transcripts|
    ensures WellFormed(curve, g, ContributeCeremony(curve, prev, secs),
                       seq(|taus|, i requires 0 <= i < |taus| => Mul(taus[i], secs[i])))
  {
    var next := ContributeCeremony(curve, prev, secs);
    var taus' := seq(|taus|, i requires 0 <= i < |taus| => Mul(taus[i], secs[i]));
    forall i | 0 <= i < |prev.transcripts|
      ensures var t := next.transcripts[i];
        && t.numG1Powers == |t.powersOfTau.g1Powers| >= 2
        && t.numG2Powers == |t.powersOfTau.g2Powers| >= 2
        && t.numG2Powers <= t.numG1Powers
        && |t.witnessChain.runningProducts| > 0
        && CoordinatorSubgroupsOf(curve, t)
        && Structured(curve, g, t.powersOfTau, taus'[i], 1)
    {
      var t := prev.transcripts[i];
      var t' := next.transcripts[i];
      ScalingKeepsProgression(curve, g, e, t.powersOfTau, t.numG1Powers, t.numG2Powers, taus[i], secs[i], 1);
      var w' := AppendWitness(curve, t.witnessChain, secs[i]);
      assert t'.witnessChain == w';
      assert AllInG1(curve, w'.runningProducts) by {
        assert w'.runningProducts == t.witnessChain.runningProducts + [curve.g1Mult(t.witnessChain.runningProducts[|t.witnessChain.runningProducts| - 1], secs[i])];
      }
      assert AllInG2(curve, w'.potPubkeys) by {
        assert w'.potPubkeys == t.witnessChain.potPubkeys + [PublicKey(curve, secs[i])];
      }
      assert AllInG1(curve, t'.powersOfTau.g1Powers);
      assert AllInG2(curve, t'.powersOfTau.g2Powers);
    }
  }

  /**
   * VerifySubmission accepts an honest contribution: a well-formed ceremony,
   * every transcript updated with a valid secret by ContributeTranscript,
   * passes the subgroup, non-zero, continuity and pairing checks.
   */
  lemma {:induction false} HonestContributionAccepted(curve: Curve, g: G1, e: Scalar -> GT, prev: Ceremony,
                                                      taus: seq<Scalar>, secs: seq<Scalar>)
    requires GroupLaws(curve, g, e) && SubgroupsClosed(curve)
    requires WellFormed(curve, g, prev, taus) && |secs| == |prev.transcripts|
    ensures SubmissionVerdict(curve, prev, ContributeCeremony(curve, prev, secs)) == Returned(None)
  {
    var next := ContributeCeremony(curve, prev, secs);
    var taus' := seq(|taus|, i requires 0 <= i < |taus| => Mul(taus[i], secs[i]));
    ContributionKeepsWellFormed(curve, g, e, prev, taus, secs);
    ContributionContinuesWitness(curve, prev, secs);
    forall i | 0 <= i < |next.transcripts|
      ensures PairingHolds(curve, next.transcripts[i].powersOfTau)
    {
      ProgressionPassesPairing(curve, g, e, next.transcripts[i].powersOfTau, taus'[i], 1);
    }
  }
}
