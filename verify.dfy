/**
 * The verification engine of ceremony.go: the checks a coordinator runs on
 * a submitted ceremony against the previous one, and the order in which
 * VerifySubmission runs them.
 */
module Verify {
  import opened Wrappers
  import opened Groups
  import opened Schema

  /** The error a failing VerifySubmission returns, one per check. */
  datatype VerifyError = SubgroupCheckFailed | NonZeroCheckFailed | ContinuityCheckFailed | PairingCheckFailed

  // ---------------------------------------------------------------- subgroups

  predicate AllInG1(curve: Curve, ps: seq<G1>)
  {
    forall i :: 0 <= i < |ps| ==> curve.inG1(ps[i])
  }

  predicate AllInG2(curve: Curve, qs: seq<G2>)
  {
    forall i :: 0 <= i < |qs| ==> curve.inG2(qs[i])
  }

  /** What the participant checks of one transcript: powers and running products. */
  predicate ParticipantSubgroupsOf(curve: Curve, t: TranscriptValue)
  {
    && AllInG1(curve, t.powersOfTau.g1Powers)
    && AllInG2(curve, t.powersOfTau.g2Powers)
    && AllInG1(curve, t.witnessChain.runningProducts)
  }

  /** What the coordinator checks of one transcript: the above and the public keys. */
  predicate CoordinatorSubgroupsOf(curve: Curve, t: TranscriptValue)
  {
    ParticipantSubgroupsOf(curve, t) && AllInG2(curve, t.witnessChain.potPubkeys)
  }

  method AllPointsInG1(curve: Curve, ps: seq<G1>) returns (ok: bool)
    ensures ok == AllInG1(curve, ps)
  {
    for i := 0 to |ps|
      invariant forall k :: 0 <= k < i ==> curve.inG1(ps[k])
    {
      if !curve.inG1(ps[i]) {
        return false;
      }
    }
    return true;
  }

  method AllPointsInG2(curve: Curve, qs: seq<G2>) returns (ok: bool)
    ensures ok == AllInG2(curve, qs)
  {
    for i := 0 to |qs|
      invariant forall k :: 0 <= k < i ==> curve.inG2(qs[k])
    {
      if !curve.inG2(qs[i]) {
        return false;
      }
    }
    return true;
  }

  /** SubgroupChecksParticipant: every power and running product is in its subgroup. */
  method SubgroupChecksParticipant(curve: Curve, c: Ceremony) returns (ok: bool)
    ensures ok <==> forall i :: 0 <= i < |c.transcripts| ==> ParticipantSubgroupsOf(curve, c.transcripts[i])
  {
    for i := 0 to |c.transcripts|
      invariant forall k :: 0 <= k < i ==> ParticipantSubgroupsOf(curve, c.transcripts[k])
    {
      var t := c.transcripts[i];
      ok := AllPointsInG1(curve, t.powersOfTau.g1Powers);
      if !ok { return; }
      ok := AllPointsInG2(curve, t.powersOfTau.g2Powers);
      if !ok { return; }
      ok := AllPointsInG1(curve, t.witnessChain.runningProducts);
      if !ok { return; }
    }
    return true;
  }

  /** SubgroupChecksCoordinator: the participant's checks and every public key. */
  method SubgroupChecksCoordinator(curve: Curve, c: Ceremony) returns (ok: bool)
    ensures ok <==> forall i :: 0 <= i < |c.transcripts| ==> CoordinatorSubgroupsOf(curve, c.transcripts[i])
  {
    for i := 0 to |c.transcripts|
      invariant forall k :: 0 <= k < i ==> CoordinatorSubgroupsOf(curve, c.transcripts[k])
    {
      var t := c.transcripts[i];
      ok := AllPointsInG1(curve, t.powersOfTau.g1Powers);
      if !ok { return; }
      ok := AllPointsInG2(curve, t.powersOfTau.g2Powers);
      if !ok { return; }
      ok := AllPointsInG1(curve, t.witnessChain.runningProducts);
      if !ok { return; }
      ok := AllPointsInG2(curve, t.witnessChain.potPubkeys);
      if !ok { return; }
    }
    return true;
  }

  // ---------------------------------------------------------------- non-zero

  /**
   * NonZeroCheck: the comparison with the point at infinity is commented out
   * in the source, so every ceremony passes.
   */
  function NonZeroCheck(c: Ceremony): (ok: bool)
    ensures ok
  {
    true
  }

  // ---------------------------------------------------------------- equality

  /** p1ArrayEquals / p2ArrayEquals: equal lengths, then equal element by element. */
  method ArrayEquals<P(==)>(a: seq<P>, b: seq<P>) returns (ok: bool)
    ensures ok <==> a == b
  {
    if |a| != |b| {
      return false;
    }
    for idx := 0 to |a|
      invariant a[..idx] == b[..idx]
    {
      if a[idx] != b[idx] {
        return false;
      }
    }
    assert a == a[..|a|] && b == b[..|b|];
    return true;
  }

  // ---------------------------------------------------------------- uniqueness

  predicate Distinct<T(==)>(s: seq<T>)
  {
    forall i, j :: 0 <= i < j < |s| ==> s[i] != s[j]
  }

  /** Every public key of every transcript, in transcript order. */
  function AllPubkeys(ts: seq<TranscriptValue>): (keys: seq<G2>)
  {
    if ts == [] then [] else AllPubkeys(ts[..|ts| - 1]) + ts[|ts| - 1].witnessChain.potPubkeys
  }

  lemma DistinctSnoc<T>(s: seq<T>, x: T)
    ensures Distinct(s + [x]) <==> Distinct(s) && x !in s
  {
    var t := s + [x];
    assert forall i :: 0 <= i < |s| ==> t[i] == s[i];
    assert t[|s|] == x;
  }

  /**
   * PubkeyUniquenessCheck: collects every public key into a set and compares
   * the set's size with the number of keys seen.
   */
  method PubkeyUniquenessCheck(c: Ceremony) returns (ok: bool)
    ensures ok <==> Distinct(AllPubkeys(c.transcripts))
  {
    var keys: set<G2> := {};
    var numKeys: nat := 0;
    ghost var seen: seq<G2> := [];
    for i := 0 to |c.transcripts|
      invariant seen == AllPubkeys(c.transcripts[..i])
      invariant forall x :: x in keys <==> x in seen
      invariant numKeys == |seen| && |keys| <= numKeys
      invariant |keys| == numKeys <==> Distinct(seen)
    {
      var pks := c.transcripts[i].witnessChain.potPubkeys;
      for j := 0 to |pks|
        invariant seen == AllPubkeys(c.transcripts[..i]) + pks[..j]
        invariant forall x :: x in keys <==> x in seen
        invariant numKeys == |seen| && |keys| <= numKeys
        invariant |keys| == numKeys <==> Distinct(seen)
      {
        DistinctSnoc(seen, pks[j]);
        if pks[j] !in keys {
          assert |keys + {pks[j]}| == |keys| + 1;
        } else {
          assert keys + {pks[j]} == keys;
        }
        keys := keys + {pks[j]};
        numKeys := numKeys + 1;
        seen := seen + [pks[j]];
        assert pks[..j + 1] == pks[..j] + [pks[j]];
      }
      assert pks[..|pks|] == pks;
      assert c.transcripts[..i + 1][..i] == c.transcripts[..i];
    }
    assert c.transcripts[..|c.transcripts|] == c.transcripts;
    return |keys| == numKeys;
  }

  // ---------------------------------------------------------------- continuity

  /** `s` is `prefix` with exactly one more element at the end. */
  predicate ExtendsByOne<T(==)>(prefix: seq<T>, s: seq<T>)
  {
    |s| > 0 && prefix == s[..|s| - 1]
  }

  /**
   * Every transcript of `prev` has a counterpart in `next` whose running
   * products and public keys are those of `prev` plus one trailing entry.
   */
  predicate ContinuityHolds(prev: Ceremony, next: Ceremony)
  {
    && |next.transcripts| >= |prev.transcripts|
    && forall i :: 0 <= i < |prev.transcripts| ==>
         && ExtendsByOne(prev.transcripts[i].witnessChain.runningProducts, next.transcripts[i].witnessChain.runningProducts)
         && ExtendsByOne(prev.transcripts[i].witnessChain.potPubkeys, next.transcripts[i].witnessChain.potPubkeys)
  }

  /**
   * WitnessContinuityCheck never returns false: a mismatch reaches an
   * explicit panic, and a `next` with fewer transcripts or an empty witness
   * list panics on the index or the slice expression before that.
   */
  method WitnessContinuityCheck(prev: Ceremony, next: Ceremony) returns (r: Run<bool>)
    ensures r == if ContinuityHolds(prev, next) then Returned(true) else Panicked
  {
    for index := 0 to |prev.transcripts|
      invariant index <= |next.transcripts| || index == 0
      invariant forall i :: 0 <= i < index ==>
         && ExtendsByOne(prev.transcripts[i].witnessChain.runningProducts, next.transcripts[i].witnessChain.runningProducts)
         && ExtendsByOne(prev.transcripts[i].witnessChain.potPubkeys, next.transcripts[i].witnessChain.potPubkeys)
    {
      if index >= |next.transcripts| {
        return Panicked;
      }
      var oldWitness := prev.transcripts[index].witnessChain;
      var newWitness := next.transcripts[index].witnessChain;
      if |newWitness.runningProducts| == 0 {
        return Panicked;
      }
      var same := ArrayEquals(oldWitness.runningProducts, newWitness.runningProducts[..|newWitness.runningProducts| - 1]);
      if !same {
        return Panicked;
      }
      if |newWitness.potPubkeys| == 0 {
        return Panicked;
      }
      same := ArrayEquals(oldWitness.potPubkeys, newWitness.potPubkeys[..|newWitness.potPubkeys| - 1]);
      if !same {
        return Panicked;
      }
    }
    return Returned(true);
  }

  // ---------------------------------------------------------------- pairing

  /**
   * The pairing equations of verifyPairing: at least two powers in each
   * group, consecutive G1 powers related by the ratio g2Powers[1]/g2Powers[0],
   * and consecutive G2 powers by g1Powers[1]/g1Powers[0].
   */
  predicate PairingHolds(curve: Curve, pot: PowersOfTau)
  {
    && |pot.g1Powers| >= 2 && |pot.g2Powers| >= 2
    && (forall i :: 0 <= i < |pot.g1Powers| - 1 ==>
          curve.pairing(pot.g1Powers[i], pot.g2Powers[1]) == curve.pairing(pot.g1Powers[i + 1], pot.g2Powers[0]))
    && (forall i :: 0 <= i < |pot.g2Powers| - 1 ==>
          curve.pairing(pot.g1Powers[1], pot.g2Powers[i]) == curve.pairing(pot.g1Powers[0], pot.g2Powers[i + 1]))
  }

  /**
   * verifyPairing: every equation is evaluated (the source's workers never
   * stop early) and failures are counted; the result is "no failure".
   */
  method VerifyPowersPairing(curve: Curve, pot: PowersOfTau) returns (ok: bool)
    ensures ok == PairingHolds(curve, pot)
  {
    if |pot.g1Powers| < 2 || |pot.g2Powers| < 2 {
      return false;
    }
    var g2_0, g2_1 := pot.g2Powers[0], pot.g2Powers[1];
    var g1_0, g1_1 := pot.g1Powers[0], pot.g1Powers[1];
    var failed: nat := 0;
    for i := 0 to |pot.g1Powers| - 1
      invariant failed == 0 <==> forall k :: 0 <= k < i ==>
        curve.pairing(pot.g1Powers[k], g2_1) == curve.pairing(pot.g1Powers[k + 1], g2_0)
    {
      var pair1 := curve.pairing(pot.g1Powers[i], g2_1);
      var pair2 := curve.pairing(pot.g1Powers[i + 1], g2_0);
      if pair1 != pair2 {
        failed := failed + 1;
      }
    }
    ghost var g1Failed := failed;
    for i := 0 to |pot.g2Powers| - 1
      invariant failed >= g1Failed
      invariant failed == 0 <==> g1Failed == 0 && forall k :: 0 <= k < i ==>
        curve.pairing(g1_1, pot.g2Powers[k]) == curve.pairing(g1_0, pot.g2Powers[k + 1])
    {
      var pair1 := curve.pairing(g1_1, pot.g2Powers[i]);
      var pair2 := curve.pairing(g1_0, pot.g2Powers[i + 1]);
      if pair1 != pair2 {
        failed := failed + 1;
      }
    }
    return failed == 0;
  }

  /** VerifyPairing: verifyPairing on every transcript, stopping at the first failure. */
  method VerifyPairing(curve: Curve, c: Ceremony) returns (ok: bool)
    ensures ok <==> forall i :: 0 <= i < |c.transcripts| ==> PairingHolds(curve, c.transcripts[i].powersOfTau)
  {
    for i := 0 to |c.transcripts|
      invariant forall k :: 0 <= k < i ==> PairingHolds(curve, c.transcripts[k].powersOfTau)
    {
      ok := VerifyPowersPairing(curve, c.transcripts[i].powersOfTau);
      if !ok {
        return;
      }
    }
    return true;
  }

  // ---------------------------------------------------------------- submission

  /**
   * The verdict of VerifySubmission: subgroup check, then the non-zero check,
   * then continuity (which panics rather than failing), then pairing; the
   * first failing check decides. Pubkey uniqueness is not consulted.
   */
  function SubmissionVerdict(curve: Curve, prev: Ceremony, next: Ceremony): (r: Run<Option<VerifyError>>)
    ensures r == Returned(None) <==>
      && (forall i :: 0 <= i < |next.transcripts| ==> CoordinatorSubgroupsOf(curve, next.transcripts[i]))
      && ContinuityHolds(prev, next)
      && (forall i :: 0 <= i < |next.transcripts| ==> PairingHolds(curve, next.transcripts[i].powersOfTau))
    ensures r != Returned(Some(ContinuityCheckFailed)) && r != Returned(Some(NonZeroCheckFailed))
  {
    if !(forall i :: 0 <= i < |next.transcripts| ==> CoordinatorSubgroupsOf(curve, next.transcripts[i])) then
      Returned(Some(SubgroupCheckFailed))
    else if !NonZeroCheck(next) then
      Returned(Some(NonZeroCheckFailed))
    else if !ContinuityHolds(prev, next) then
      Panicked
    else if !(forall i :: 0 <= i < |next.transcripts| ==> PairingHolds(curve, next.transcripts[i].powersOfTau)) then
      Returned(Some(PairingCheckFailed))
    else
      Returned(None)
  }

  method VerifySubmission(curve: Curve, prev: Ceremony, next: Ceremony) returns (r: Run<Option<VerifyError>>)
    ensures r == SubmissionVerdict(curve, prev, next)
  {
    var ok := SubgroupChecksCoordinator(curve, next);
    if !ok {
      return Returned(Some(SubgroupCheckFailed));
    }
    if !NonZeroCheck(next) {
      return Returned(Some(NonZeroCheckFailed));
    }
    var continuity := WitnessContinuityCheck(prev, next);
    if continuity.Panicked? {
      return Panicked;
    }
    if !continuity.value {
      return Returned(Some(ContinuityCheckFailed));
    }
    ok := VerifyPairing(curve, next);
    if !ok {
      return Returned(Some(PairingCheckFailed));
    }
    return Returned(None);
  }
}
