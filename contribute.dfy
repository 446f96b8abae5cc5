/**
 * The contribution engine of ceremony.go: folding one participant's secret
 * into a transcript's powers of tau and appending to its witness chain.
 */
module Contribute {
  import opened Wrappers
  import opened Scalars
  import opened Groups
  import opened Schema

  datatype UpdateError = InvalidSecret

  /**
   * The powers after a contribution with secret `sec`: for every index i
   * below `numG1`, G1 point i is multiplied by sec^(i + offset), and so is
   * G2 point i when i is also below `numG2`. Every other point is kept.
   * ceremony.go uses offset 1, contribution.go offset 0.
   */
  function ScalePowers(curve: Curve, pot: PowersOfTau, numG1: int, numG2: int, sec: Scalar, offset: nat): (r: PowersOfTau)
    ensures |r.g1Powers| == |pot.g1Powers| && |r.g2Powers| == |pot.g2Powers|
    ensures forall i :: 0 <= i < |pot.g1Powers| && numG1 <= i ==> r.g1Powers[i] == pot.g1Powers[i]
    ensures forall i :: 0 <= i < |pot.g2Powers| && (numG1 <= i || numG2 <= i) ==> r.g2Powers[i] == pot.g2Powers[i]
  {
    PowersOfTau(
      seq(|pot.g1Powers|, i requires 0 <= i < |pot.g1Powers| =>
        if i < numG1 then curve.g1Mult(pot.g1Powers[i], Pow(sec, i + offset)) else pot.g1Powers[i]),
      seq(|pot.g2Powers|, i requires 0 <= i < |pot.g2Powers| =>
        if i < numG1 && i < numG2 then curve.g2Mult(pot.g2Powers[i], Pow(sec, i + offset)) else pot.g2Powers[i]))
  }

  /** A secret's effect on a transcript's powers (ceremony.go's offset: sec^(i+1)). */
  function ContributePowers(curve: Curve, t: TranscriptValue, sec: Scalar): TranscriptValue
  {
    t.(powersOfTau := ScalePowers(curve, t.powersOfTau, t.numG1Powers, t.numG2Powers, sec, 1))
  }

  /**
   * The witness after a contribution: the last running product times the
   * secret, and the secret's public key, each appended once.
   */
  function AppendWitness(curve: Curve, w: Witness, sec: Scalar): (r: Witness)
    requires |w.runningProducts| > 0
    ensures |r.runningProducts| == |w.runningProducts| + 1 && |r.potPubkeys| == |w.potPubkeys| + 1
    ensures r.runningProducts[..|w.runningProducts|] == w.runningProducts
    ensures r.potPubkeys[..|w.potPubkeys|] == w.potPubkeys
    ensures r.runningProducts[|w.runningProducts|] == curve.g1Mult(w.runningProducts[|w.runningProducts| - 1], sec)
    ensures r.potPubkeys[|w.potPubkeys|] == PublicKey(curve, sec)
  {
    Witness(
      w.runningProducts + [curve.g1Mult(w.runningProducts[|w.runningProducts| - 1], sec)],
      w.potPubkeys + [PublicKey(curve, sec)])
  }

  /** A full contribution to one transcript: powers, then witness. */
  function ContributeTranscript(curve: Curve, t: TranscriptValue, sec: Scalar): TranscriptValue
    requires |t.witnessChain.runningProducts| > 0
  {
    ContributePowers(curve, t, sec).(witnessChain := AppendWitness(curve, t.witnessChain, sec))
  }

  /** What the index loops read: the count never exceeds the list it indexes. */
  predicate CountsFit(pot: PowersOfTau, numG1: int, numG2: int)
  {
    && numG1 <= |pot.g1Powers|
    && Min(numG1, numG2) <= |pot.g2Powers|
  }

  predicate PowersIndexable(t: TranscriptValue)
  {
    CountsFit(t.powersOfTau, t.numG1Powers, t.numG2Powers)
  }

  /** One step of the update loops: scaling index i extends the scaled prefix by one. */
  lemma ScaleStep(curve: Curve, pot: PowersOfTau, i: nat, numG2: int, sec: Scalar, offset: nat)
    requires i < |pot.g1Powers| && (i < numG2 ==> i < |pot.g2Powers|)
    ensures var p := ScalePowers(curve, pot, i, numG2, sec, offset);
      var g2 := if i < numG2 then p.g2Powers[i := curve.g2Mult(pot.g2Powers[i], Pow(sec, i + offset))] else p.g2Powers;
      ScalePowers(curve, pot, i + 1, numG2, sec, offset)
        == PowersOfTau(p.g1Powers[i := curve.g1Mult(pot.g1Powers[i], Pow(sec, i + offset))], g2)
  {
  }

  /** Scaling with a count of zero or below changes nothing. */
  lemma ScaleNone(curve: Curve, pot: PowersOfTau, numG1: int, numG2: int, sec: Scalar, offset: nat)
    requires numG1 <= 0
    ensures ScalePowers(curve, pot, numG1, numG2, sec, offset) == pot
  {
    var r := ScalePowers(curve, pot, numG1, numG2, sec, offset);
    assert r.g1Powers == pot.g1Powers;
    assert r.g2Powers == pot.g2Powers;
  }

  /**
   * UpdatePowersOfTau: the sequential variant, carrying one accumulator
   * that is multiplied by the secret after each index.
   */
  method UpdatePowersOfTau(curve: Curve, t: Transcript, secret: seq<Byte>) returns (err: Option<UpdateError>)
    requires Deserialize(secret).Some? ==> PowersIndexable(t.Value())
    modifies t
    ensures err.Some? <==> Deserialize(secret).None?
    ensures t.Value() == if err.Some? then old(t.Value())
                         else ContributePowers(curve, old(t.Value()), Deserialize(secret).value)
  {
    var sec := Deserialize(secret);
    if sec.None? {
      return Some(InvalidSecret);
    }
    t.powersOfTau := ScaleSequentially(curve, t.powersOfTau, t.numG1Powers, t.numG2Powers, sec.value);
    return None;
  }

  /** UpdatePowersOfTau's loop: the accumulator holds sec^(i+1) when index i is scaled. */
  method ScaleSequentially(curve: Curve, pot: PowersOfTau, numG1: int, numG2: int, s: Scalar) returns (r: PowersOfTau)
    requires CountsFit(pot, numG1, numG2)
    ensures r == ScalePowers(curve, pot, numG1, numG2, s, 1)
  {
    r := pot;
    var scalar := s;
    var i := 0;
    while i < numG1
      invariant 0 <= i && (i <= numG1 || i == 0)
      invariant scalar == Pow(s, i + 1)
      invariant r == ScalePowers(curve, pot, i, numG2, s, 1)
    {
      ScaleStep(curve, pot, i, numG2, s, 1);
      var g2 := r.g2Powers;
      if i < numG2 {
        g2 := g2[i := curve.g2Mult(g2[i], scalar)];
      }
      r := PowersOfTau(r.g1Powers[i := curve.g1Mult(r.g1Powers[i], scalar)], g2);
      scalar := Mul(scalar, s);
      i := i + 1;
    }
    if numG1 <= 0 {
      ScaleNone(curve, pot, 0, numG2, s, 1);
      ScaleNone(curve, pot, numG1, numG2, s, 1);
    }
  }

  /**
   * UpdatePowersOfTauFast: first all scalars sec^1 .. sec^numG1Powers, then
   * one independent multiplication per index (the Go code runs these in
   * goroutines; they touch disjoint indices, so any order gives this result).
   */
  method UpdatePowersOfTauFast(curve: Curve, t: Transcript, secret: seq<Byte>) returns (err: Option<UpdateError>)
    requires Deserialize(secret).Some? ==> PowersIndexable(t.Value()) && t.numG1Powers >= 0
    modifies t
    ensures err.Some? <==> Deserialize(secret).None?
    ensures t.Value() == if err.Some? then old(t.Value())
                         else ContributePowers(curve, old(t.Value()), Deserialize(secret).value)
  {
    var sec := Deserialize(secret);
    if sec.None? {
      return Some(InvalidSecret);
    }
    var s := sec.value;
    PowOne(s);
    var scalars := ScalarPowers(s, t.numG1Powers, s, 1);
    t.powersOfTau := ApplyScalars(curve, t.powersOfTau, t.numG1Powers, t.numG2Powers, scalars, s, 1);
    return None;
  }

  /**
   * The scalar loop of the fast variants: `n` scalars, the first one given,
   * each next one the previous times the secret, so scalar k is
   * sec^(k + offset).
   */
  method ScalarPowers(s: Scalar, n: nat, first: Scalar, offset: nat) returns (scalars: array<Scalar>)
    requires first == Pow(s, offset)
    ensures fresh(scalars) && scalars.Length == n
    ensures forall k :: 0 <= k < n ==> scalars[k] == Pow(s, k + offset)
  {
    var scalar := first;
    scalars := new Scalar[n];
    for i := 0 to n
      invariant scalar == Pow(s, i + offset)
      invariant forall k :: 0 <= k < i ==> scalars[k] == Pow(s, k + offset)
    {
      scalars[i] := scalar;
      scalar := Mul(scalar, s);
    }
  }

  /**
   * The multiplication loop of the fast variants: G1 point i times
   * scalar i for every i below numG1, and G2 point i too when i is below
   * numG2. The points are written to a copy that replaces the old powers.
   */
  method ApplyScalars(curve: Curve, pot: PowersOfTau, numG1: nat, numG2: int, scalars: array<Scalar>, s: Scalar, offset: nat)
    returns (r: PowersOfTau)
    requires CountsFit(pot, numG1, numG2) && scalars.Length == numG1
    requires forall k :: 0 <= k < numG1 ==> scalars[k] == Pow(s, k + offset)
    ensures r == ScalePowers(curve, pot, numG1, numG2, s, offset)
  {
    r := pot;
    for i := 0 to numG1
      invariant r == ScalePowers(curve, pot, i, numG2, s, offset)
    {
      ScaleStep(curve, pot, i, numG2, s, offset);
      var g2 := r.g2Powers;
      if i < numG2 {
        g2 := g2[i := curve.g2Mult(g2[i], scalars[i])];
      }
      r := PowersOfTau(r.g1Powers[i := curve.g1Mult(r.g1Powers[i], scalars[i])], g2);
    }
    if numG1 == 0 {
      ScaleNone(curve, pot, 0, numG2, s, offset);
    }
  }

  /**
   * UpdateWitness: reads the last running product first (a transcript with
   * no running product makes that read panic), then appends.
   */
  method UpdateWitness(curve: Curve, t: Transcript, secret: seq<Byte>) returns (err: Option<UpdateError>)
    requires |t.witnessChain.runningProducts| > 0
    modifies t
    ensures err.Some? <==> Deserialize(secret).None?
    ensures t.Value() == if err.Some? then old(t.Value())
                         else old(t.Value()).(witnessChain := AppendWitness(curve, old(t.witnessChain), Deserialize(secret).value))
  {
    var newProduct := t.witnessChain.runningProducts[|t.witnessChain.runningProducts| - 1];
    var sec := Deserialize(secret);
    if sec.None? {
      return Some(InvalidSecret);
    }
    newProduct := curve.g1Mult(newProduct, sec.value);
    t.witnessChain := t.witnessChain.(runningProducts := t.witnessChain.runningProducts + [newProduct]);
    var newPk := PublicKey(curve, sec.value);
    t.witnessChain := t.witnessChain.(potPubkeys := t.witnessChain.potPubkeys + [newPk]);
    return None;
  }

  /** Index of the first secret that does not deserialise, or |secrets|. */
  function FirstInvalid(secrets: seq<seq<Byte>>): (k: nat)
    ensures k <= |secrets|
    ensures forall i :: 0 <= i < k ==> Deserialize(secrets[i]).Some?
    ensures k < |secrets| ==> Deserialize(secrets[k]).None?
  {
    if secrets == [] then 0
    else if Deserialize(secrets[0]).None? then 0
    else 1 + FirstInvalid(secrets[1..])
  }

  /**
   * UpdateTranscript: each transcript in turn receives its own secret
   * (`secrets[i]`, drawn fresh per transcript in the source); the first
   * invalid secret stops the walk, leaving earlier transcripts updated.
   */
  method UpdateTranscript(curve: Curve, ts: seq<Transcript>, secrets: seq<seq<Byte>>) returns (err: Option<UpdateError>)
    requires |secrets| == |ts|
    requires forall i, j :: 0 <= i < j < |ts| ==> ts[i] != ts[j]
    requires forall i :: 0 <= i < FirstInvalid(secrets) ==>
      PowersIndexable(ts[i].Value()) && ts[i].numG1Powers >= 0 && |ts[i].witnessChain.runningProducts| > 0
    modifies ts
    ensures err.Some? <==> FirstInvalid(secrets) < |ts|
    ensures forall i :: 0 <= i < |ts| ==>
      ts[i].Value() == if i < FirstInvalid(secrets)
                       then ContributeTranscript(curve, old(ts[i].Value()), Deserialize(secrets[i]).value)
                       else old(ts[i].Value())
  {
    ghost var n := FirstInvalid(secrets);
    var k := 0;
    while k < |ts|
      invariant 0 <= k <= n
      invariant forall i :: 0 <= i < k ==>
        ts[i].Value() == ContributeTranscript(curve, old(ts[i].Value()), Deserialize(secrets[i]).value)
      invariant forall i :: k <= i < |ts| ==> unchanged(ts[i])
    {
      err := ContributeOne(curve, ts[k], secrets[k]);
      if err.Some? {
        return;
      }
      k := k + 1;
    }
    return None;
  }

  /** The body of UpdateTranscript's loop for one transcript: powers, then witness. */
  method ContributeOne(curve: Curve, t: Transcript, secret: seq<Byte>) returns (err: Option<UpdateError>)
    requires Deserialize(secret).Some? ==>
      PowersIndexable(t.Value()) && t.numG1Powers >= 0 && |t.witnessChain.runningProducts| > 0
    modifies t
    ensures err.Some? <==> Deserialize(secret).None?
    ensures t.Value() == if err.Some? then old(t.Value())
                         else ContributeTranscript(curve, old(t.Value()), Deserialize(secret).value)
  {
    err := UpdatePowersOfTauFast(curve, t, secret);
    if err.Some? {
      return;
    }
    err := UpdateWitness(curve, t, secret);
  }

  /** The ceremony that results when transcript i receives secret `secs[i]`. */
  function ContributeCeremony(curve: Curve, c: Ceremony, secs: seq<Scalar>): (r: Ceremony)
    requires |secs| == |c.transcripts|
    requires forall i :: 0 <= i < |c.transcripts| ==> |c.transcripts[i].witnessChain.runningProducts| > 0
    ensures |r.transcripts| == |c.transcripts|
  {
    Ceremony(seq(|c.transcripts|, i requires 0 <= i < |c.transcripts| =>
      ContributeTranscript(curve, c.transcripts[i], secs[i])))
  }
}
