/**
 * contribution.go: the per-contribution variant of the ceremony. A batch
 * holds contributions, each with its own powers of tau and the public key
 * of the last secret folded into it; points travel as "0x"-prefixed hex
 * of their compressed encoding.
 */
module Contributions {
  import opened Wrappers
  import opened Scalars
  import opened Groups
  import opened Schema
  import opened Hex
  import opened Contribute
  import opened Verify
  import opened Honest

  /** The value held by a contribution at one moment. */
  datatype ContributionValue = ContributionValue(
    numG1Powers: int,
    numG2Powers: int,
    powersOfTau: PowersOfTau,
    potPubKey: G2)

  /** A contribution whose powers and public key are updated in place. */
  class Contribution {
    var numG1Powers: int
    var numG2Powers: int
    var powersOfTau: PowersOfTau
    var potPubKey: G2

    constructor (v: ContributionValue)
      ensures State() == v
    {
      numG1Powers := v.numG1Powers;
      numG2Powers := v.numG2Powers;
      powersOfTau := v.powersOfTau;
      potPubKey := v.potPubKey;
    }

    function State(): ContributionValue
      reads this
    {
      ContributionValue(numG1Powers, numG2Powers, powersOfTau, potPubKey)
    }

    /** Copy: a new contribution with the same counts, points and public key. */
    method Copy() returns (c: Contribution)
      ensures fresh(c) && c.State() == State()
    {
      c := new Contribution(State());
    }

    /**
     * UnmarshalJSON on an already-parsed JSON object: the counts, then the
     * G1 texts, the G2 texts and the public key, each decoded in turn.
     * The outcome is the one ParseContribution describes; on success the
     * receiver holds the decoded contribution.
     */
    method UnmarshalJSON(curve: Curve, data: JsonContribution) returns (r: Run<Option<ParseError>>)
      modifies this
      ensures r == Outcome(ParseContribution(curve, data))
      ensures ParseContribution(curve, data).Returned? && ParseContribution(curve, data).value.Ok? ==>
        State() == ParseContribution(curve, data).value.value
    {
      numG1Powers := data.numG1Powers;
      numG2Powers := data.numG2Powers;
      if data.numG1Powers < 0 {
        return Panicked;
      }
      var texts1 := DecodeTextList(data.powersOfTau.g1Powers, data.numG1Powers, G1Size);
      if texts1.Panicked? {
        return Panicked;
      } else if texts1.value.Err? {
        return Returned(Some(BadHex(texts1.value.error)));
      }
      var points1 := BatchUncompressG1(curve, WithNilBuffers(texts1.value.value, data.numG1Powers));
      if points1.Some? {
        powersOfTau := powersOfTau.(g1Powers := points1.value);
      }
      if data.numG2Powers < 0 {
        return Panicked;
      }
      var texts2 := DecodeTextList(data.powersOfTau.g2Powers, data.numG2Powers, G2Size);
      if texts2.Panicked? {
        return Panicked;
      } else if texts2.value.Err? {
        return Returned(Some(BadHex(texts2.value.error)));
      }
      var points2 := BatchUncompressG2(curve, WithNilBuffers(texts2.value.value, data.numG2Powers));
      if points2.Some? {
        powersOfTau := powersOfTau.(g2Powers := points2.value);
      }
      var pkBytes := DecodeInto(G2Size, TrimPrefix(data.potPubKey, Prefix));
      if pkBytes.Panicked? {
        return Panicked;
      } else if pkBytes.value.Err? {
        return Returned(Some(BadHex(pkBytes.value.error)));
      }
      var pk := UncompressG2(curve, pkBytes.value.value);
      if pk.None? {
        return Panicked;
      }
      potPubKey := pk.value;
      if points1.None? || points2.None? {
        return Returned(Some(NilPoints));
      }
      return Returned(None);
    }
  }

  /** A batch of contributions, one per transcript of the ceremony. */
  class BatchContribution {
    var contributions: seq<Contribution>

    constructor (cs: seq<Contribution>)
      ensures contributions == cs
    {
      contributions := cs;
    }

    /** Copy: a new batch of new contributions, each equal to its original. */
    method Copy() returns (b: BatchContribution)
      ensures fresh(b) && |b.contributions| == |contributions|
      ensures forall i :: 0 <= i < |contributions| ==>
        fresh(b.contributions[i]) && b.contributions[i].State() == contributions[i].State()
      ensures forall i, j :: 0 <= i < j < |b.contributions| ==> b.contributions[i] != b.contributions[j]
    {
      var copies: seq<Contribution> := [];
      for k := 0 to |contributions|
        invariant |copies| == k
        invariant forall i :: 0 <= i < k ==> fresh(copies[i]) && copies[i].State() == contributions[i].State()
        invariant forall i, j :: 0 <= i < j < k ==> copies[i] != copies[j]
      {
        var c := contributions[k].Copy();
        copies := copies + [c];
      }
      b := new BatchContribution(copies);
    }

    /** SubgroupChecks: every power and every public key lies in its subgroup. */
    method SubgroupChecks(curve: Curve) returns (ok: bool)
      ensures ok <==> forall i :: 0 <= i < |contributions| ==> InSubgroups(curve, contributions[i].State())
    {
      for k := 0 to |contributions|
        invariant forall i :: 0 <= i < k ==> InSubgroups(curve, contributions[i].State())
      {
        var c := contributions[k];
        ok := AllPointsInG1(curve, c.powersOfTau.g1Powers);
        if !ok {
          return;
        }
        ok := AllPointsInG2(curve, c.powersOfTau.g2Powers);
        if !ok {
          return;
        }
        if !curve.inG2(c.potPubKey) {
          return false;
        }
      }
      return true;
    }
  }

  predicate InSubgroups(curve: Curve, v: ContributionValue)
  {
    && AllInG1(curve, v.powersOfTau.g1Powers)
    && AllInG2(curve, v.powersOfTau.g2Powers)
    && curve.inG2(v.potPubKey)
  }

  // ------------------------------------------------------------- contributing

  /** The powers after UpdatePowersOfTauFastContribution: point i times sec^i. */
  function ScaleContribution(curve: Curve, v: ContributionValue, sec: Scalar): ContributionValue
  {
    v.(powersOfTau := ScalePowers(curve, v.powersOfTau, v.numG1Powers, v.numG2Powers, sec, 0))
  }

  /** A full contribution: powers, then the public key of the secret. */
  function Contributed(curve: Curve, v: ContributionValue, sec: Scalar): ContributionValue
  {
    ScaleContribution(curve, v, sec).(potPubKey := PublicKey(curve, sec))
  }

  /**
   * UpdatePowersOfTauFastContribution: the scalars sec^0 .. sec^(n-1),
   * starting from the scalar one, then one multiplication per index.
   */
  method UpdatePowersOfTauFastContribution(curve: Curve, t: Contribution, secret: seq<Byte>) returns (err: Option<UpdateError>)
    requires Deserialize(secret).Some? ==> CountsFit(t.powersOfTau, t.numG1Powers, t.numG2Powers) && t.numG1Powers >= 0
    modifies t
    ensures err.Some? <==> Deserialize(secret).None?
    ensures t.State() == if err.Some? then old(t.State())
                         else ScaleContribution(curve, old(t.State()), Deserialize(secret).value)
  {
    var sec := Deserialize(secret);
    if sec.None? {
      return Some(InvalidSecret);
    }
    var s := sec.value;
    OneDeserializes();
    var scalar := Deserialize(OneBytes()).value;
    var scalars := ScalarPowers(s, t.numG1Powers, scalar, 0);
    t.powersOfTau := ApplyScalars(curve, t.powersOfTau, t.numG1Powers, t.numG2Powers, scalars, s, 0);
    return None;
  }

  /** UpdatePotPubkey: the public key becomes the secret's, and nothing else changes. */
  method UpdatePotPubkey(curve: Curve, t: Contribution, secret: seq<Byte>) returns (err: Option<UpdateError>)
    modifies t
    ensures err.Some? <==> Deserialize(secret).None?
    ensures t.State() == if err.Some? then old(t.State())
                         else old(t.State()).(potPubKey := PublicKey(curve, Deserialize(secret).value))
  {
    var sec := Deserialize(secret);
    if sec.None? {
      return Some(InvalidSecret);
    }
    t.potPubKey := PublicKey(curve, sec.value);
    return None;
  }

  /**
   * UpdateContribution: each contribution in list order receives its own
   * secret; the first invalid secret stops the walk, leaving the earlier
   * contributions updated and the rest untouched.
   */
  method UpdateContribution(curve: Curve, batch: BatchContribution, secrets: seq<seq<Byte>>) returns (err: Option<UpdateError>)
    requires |secrets| == |batch.contributions|
    requires forall i, j :: 0 <= i < j < |batch.contributions| ==> batch.contributions[i] != batch.contributions[j]
    requires forall i :: 0 <= i < FirstInvalid(secrets) ==>
      CountsFit(batch.contributions[i].powersOfTau, batch.contributions[i].numG1Powers, batch.contributions[i].numG2Powers)
      && batch.contributions[i].numG1Powers >= 0
    modifies batch.contributions
    ensures err.Some? <==> FirstInvalid(secrets) < |batch.contributions|
    ensures forall i :: 0 <= i < |batch.contributions| ==>
      batch.contributions[i].State() == if i < FirstInvalid(secrets)
                                        then Contributed(curve, old(batch.contributions[i].State()), Deserialize(secrets[i]).value)
                                        else old(batch.contributions[i].State())
  {
    var cs := batch.contributions;
    ghost var n := FirstInvalid(secrets);
    var k := 0;
    while k < |cs|
      invariant 0 <= k <= n
      invariant forall i :: 0 <= i < k ==> cs[i].State() == Contributed(curve, old(cs[i].State()), Deserialize(secrets[i]).value)
      invariant forall i :: k <= i < |cs| ==> unchanged(cs[i])
    {
      err := ContributeOne(curve, cs[k], secrets[k]);
      if err.Some? {
        return;
      }
      k := k + 1;
    }
    return None;
  }

  /** The body of UpdateContribution's loop for one contribution: powers, then public key. */
  method ContributeOne(curve: Curve, t: Contribution, secret: seq<Byte>) returns (err: Option<UpdateError>)
    requires Deserialize(secret).Some? ==> CountsFit(t.powersOfTau, t.numG1Powers, t.numG2Powers) && t.numG1Powers >= 0
    modifies t
    ensures err.Some? <==> Deserialize(secret).None?
    ensures t.State() == if err.Some? then old(t.State())
                         else Contributed(curve, old(t.State()), Deserialize(secret).value)
  {
    err := UpdatePowersOfTauFastContribution(curve, t, secret);
    if err.Some? {
      return;
    }
    err := UpdatePotPubkey(curve, t, secret);
  }

  /**
   * An honest contribution keeps the powers a progression, now in tau*sec
   * from exponent 0, and installs the public key of its own secret; so it
   * also passes the pairing check whenever there are two powers per group.
   */
  lemma ContributionKeepsProgression(curve: Curve, g: G1, e: Scalar -> GT, v: ContributionValue, tau: Scalar, sec: Scalar)
    requires GroupLaws(curve, g, e)
    requires Structured(curve, g, v.powersOfTau, tau, 0)
    requires v.numG1Powers >= |v.powersOfTau.g1Powers| && v.numG1Powers >= |v.powersOfTau.g2Powers|
    requires v.numG2Powers >= |v.powersOfTau.g2Powers|
    ensures Structured(curve, g, Contributed(curve, v, sec).powersOfTau, Mul(tau, sec), 0)
    ensures Contributed(curve, v, sec).potPubKey == PublicKey(curve, sec)
    ensures |v.powersOfTau.g1Powers| >= 2 && |v.powersOfTau.g2Powers| >= 2 ==>
      PairingHolds(curve, Contributed(curve, v, sec).powersOfTau)
  {
    ScalingKeepsProgression(curve, g, e, v.powersOfTau, v.numG1Powers, v.numG2Powers, tau, sec, 0);
    var pot := Contributed(curve, v, sec).powersOfTau;
    if |v.powersOfTau.g1Powers| >= 2 && |v.powersOfTau.g2Powers| >= 2 {
      ProgressionPassesPairing(curve, g, e, pot, Mul(tau, sec), 0);
    }
  }

  // --------------------------------------------------------------- wire form

  /** The JSON shape of a contribution, its points as text. */
  datatype JsonPowersOfTau = JsonPowersOfTau(g1Powers: seq<string>, g2Powers: seq<string>)
  datatype JsonContribution = JsonContribution(
    numG1Powers: int,
    numG2Powers: int,
    powersOfTau: JsonPowersOfTau,
    potPubKey: string)

  /** A point's text: "0x" and the lower-case hex of its compressed bytes. */
  function PointText(b: seq<Byte>): (t: string)
    ensures Prefix <= t && |t| == 2 + 2 * |b|
    ensures DecodeInto(|b|, TrimPrefix(t, Prefix)) == Returned(Ok(b))
  {
    PrefixedRoundTrip(b);
    Prefix + Encode(b)
  }

  /**
   * MarshalJSON: the counts written are the list lengths (not the stored
   * counts), and every point, the public key included, becomes its text.
   */
  function MarshalJSON(curve: Curve, v: ContributionValue): (j: JsonContribution)
    ensures j.numG1Powers == |v.powersOfTau.g1Powers| == |j.powersOfTau.g1Powers|
    ensures j.numG2Powers == |v.powersOfTau.g2Powers| == |j.powersOfTau.g2Powers|
    ensures forall i :: 0 <= i < |j.powersOfTau.g1Powers| ==>
      Prefix <= j.powersOfTau.g1Powers[i] && |j.powersOfTau.g1Powers[i]| == 2 + 2 * |curve.compressG1(v.powersOfTau.g1Powers[i])|
    ensures forall i :: 0 <= i < |j.powersOfTau.g2Powers| ==>
      Prefix <= j.powersOfTau.g2Powers[i] && |j.powersOfTau.g2Powers[i]| == 2 + 2 * |curve.compressG2(v.powersOfTau.g2Powers[i])|
    ensures forall i :: 0 <= i < |j.powersOfTau.g1Powers| ==> j.powersOfTau.g1Powers[i] == PointText(curve.compressG1(v.powersOfTau.g1Powers[i]))
    ensures forall i :: 0 <= i < |j.powersOfTau.g2Powers| ==> j.powersOfTau.g2Powers[i] == PointText(curve.compressG2(v.powersOfTau.g2Powers[i]))
    ensures j.potPubKey == PointText(curve.compressG2(v.potPubKey))
    ensures Prefix <= j.potPubKey
  {
    JsonContribution(
      |v.powersOfTau.g1Powers|,
      |v.powersOfTau.g2Powers|,
      JsonPowersOfTau(G1Texts(curve, v.powersOfTau.g1Powers), G2Texts(curve, v.powersOfTau.g2Powers)),
      PointText(curve.compressG2(v.potPubKey)))
  }

  /** The texts of a G1 point list, in order. */
  function G1Texts(curve: Curve, g1: seq<G1>): (ts: seq<string>)
    ensures |ts| == |g1|
    ensures forall i :: 0 <= i < |g1| ==> ts[i] == PointText(curve.compressG1(g1[i]))
  {
    seq(|g1|, i requires 0 <= i < |g1| => PointText(curve.compressG1(g1[i])))
  }

  /** The texts of a G2 point list, in order. */
  function G2Texts(curve: Curve, g2: seq<G2>): (ts: seq<string>)
    ensures |ts| == |g2|
    ensures forall i :: 0 <= i < |g2| ==> ts[i] == PointText(curve.compressG2(g2[i]))
  {
    seq(|g2|, i requires 0 <= i < |g2| => PointText(curve.compressG2(g2[i])))
  }

  /**
   * What UnmarshalJSON reports. NilPoints is the case where a point list
   * fails to decompress: the source returns no error then, and leaves
   * nil points behind.
   */
  datatype ParseError = BadHex(err: HexError) | NilPoints

  /**
   * The hex loop over one point list: text i is stripped of "0x" and
   * decoded into a fresh buffer of `size` bytes, after the write into
   * buffer slot i, which panics once i reaches the declared count.
   */
  function DecodeTexts(texts: seq<string>, count: int, size: nat): (r: Run<Result<seq<seq<Byte>>, HexError>>)
    ensures r.Returned? && r.value.Ok? ==>
      && |r.value.value| == |texts|
      && (texts == [] || |texts| <= count)
      && forall i :: 0 <= i < |texts| ==> |r.value.value[i]| == size
    ensures r.Returned? && r.value.Ok? ==>
      forall i :: 0 <= i < |texts| ==> DecodeInto(size, TrimPrefix(texts[i], Prefix)) == Returned(Ok(r.value.value[i]))
    ensures r.Returned? && r.value.Err? ==>
      exists k :: 0 <= k < |texts| && k < count && DecodeInto(size, TrimPrefix(texts[k], Prefix)) == Returned(Err(r.value.error))
    decreases |texts|
  {
    if texts == [] then Returned(Ok([]))
    else match DecodeTexts(texts[..|texts| - 1], count, size)
      case Returned(Ok(bufs)) =>
        if |texts| - 1 >= count then Panicked
        else (match DecodeInto(size, TrimPrefix(texts[|texts| - 1], Prefix))
          case Returned(Ok(b)) => Returned(Ok(bufs + [b]))
          case Returned(Err(e)) => Returned(Err(e))
          case Panicked => Panicked)
      case other => other
  }

  /** The buffer list handed to BatchUncompress: `count` slots, those beyond the texts left nil. */
  function WithNilBuffers(bufs: seq<seq<Byte>>, count: int): (r: seq<seq<Byte>>)
    ensures |r| == if count > |bufs| then count else |bufs|
    ensures forall i :: 0 <= i < |r| ==> r[i] == if i < |bufs| then bufs[i] else []
  {
    if count > |bufs| then bufs + seq(count - |bufs|, i => []) else bufs
  }

  /**
   * UnmarshalJSON on a parsed object. A negative count panics (make), more
   * texts than the count panic (an index past the buffer list), a hex
   * error is returned as it stands, and a public key that does not
   * decompress panics (a nil point is dereferenced).
   */
  function ParseContribution(curve: Curve, data: JsonContribution): (r: Run<Result<ContributionValue, ParseError>>)
    ensures r.Returned? && r.value.Ok? ==>
      && r.value.value.numG1Powers == data.numG1Powers == |r.value.value.powersOfTau.g1Powers| == |data.powersOfTau.g1Powers|
      && r.value.value.numG2Powers == data.numG2Powers == |r.value.value.powersOfTau.g2Powers| == |data.powersOfTau.g2Powers|
  {
    if data.numG1Powers < 0 then Panicked
    else match DecodeTexts(data.powersOfTau.g1Powers, data.numG1Powers, G1Size)
      case Panicked => Panicked
      case Returned(Err(e)) => Returned(Err(BadHex(e)))
      case Returned(Ok(bufs1)) =>
        var points1 := BatchUncompressG1(curve, WithNilBuffers(bufs1, data.numG1Powers));
        if data.numG2Powers < 0 then Panicked
        else match DecodeTexts(data.powersOfTau.g2Powers, data.numG2Powers, G2Size)
          case Panicked => Panicked
          case Returned(Err(e)) => Returned(Err(BadHex(e)))
          case Returned(Ok(bufs2)) =>
            var points2 := BatchUncompressG2(curve, WithNilBuffers(bufs2, data.numG2Powers));
            match DecodeInto(G2Size, TrimPrefix(data.potPubKey, Prefix))
            case Panicked => Panicked
            case Returned(Err(e)) => Returned(Err(BadHex(e)))
            case Returned(Ok(pkBytes)) =>
              var pk := UncompressG2(curve, pkBytes);
              if pk.None? then Panicked
              else if points1.None? || points2.None? then Returned(Err(NilPoints))
              else
                NilBufferFailsG1(curve, bufs1, data.numG1Powers);
                NilBufferFailsG2(curve, bufs2, data.numG2Powers);
                Returned(Ok(ContributionValue(data.numG1Powers, data.numG2Powers,
                                              PowersOfTau(points1.value, points2.value), pk.value)))
  }

  /** Batch decompression succeeds only when no slot was left nil, so the count equals the text count. */
  lemma NilBufferFailsG1(curve: Curve, bufs: seq<seq<Byte>>, count: int)
    ensures BatchUncompressG1(curve, WithNilBuffers(bufs, count)).Some? ==> count <= |bufs|
  {
    if count > |bufs| {
      assert UncompressG1(curve, WithNilBuffers(bufs, count)[|bufs|]).None?;
    }
  }

  lemma NilBufferFailsG2(curve: Curve, bufs: seq<seq<Byte>>, count: int)
    ensures BatchUncompressG2(curve, WithNilBuffers(bufs, count)).Some? ==> count <= |bufs|
  {
    if count > |bufs| {
      assert UncompressG2(curve, WithNilBuffers(bufs, count)[|bufs|]).None?;
    }
  }

  /** The error (or success) UnmarshalJSON returns for a parse outcome. */
  function Outcome(p: Run<Result<ContributionValue, ParseError>>): (r: Run<Option<ParseError>>)
    ensures r.Panicked? <==> p.Panicked?
    ensures r.Returned? ==> (r.value.None? <==> p.value.Ok?)
  {
    match p
    case Panicked => Panicked
    case Returned(Ok(_)) => Returned(None)
    case Returned(Err(e)) => Returned(Some(e))
  }

  /** The hex loop of UnmarshalJSON over one point list. */
  method DecodeTextList(texts: seq<string>, count: int, size: nat) returns (r: Run<Result<seq<seq<Byte>>, HexError>>)
    ensures r == DecodeTexts(texts, count, size)
  {
    var bufs: seq<seq<Byte>> := [];
    for i := 0 to |texts|
      invariant DecodeTexts(texts[..i], count, size) == Returned(Ok(bufs))
    {
      assert texts[..i + 1][..i] == texts[..i];
      if i >= count {
        DecodeTextsStops(texts, i + 1, count, size);
        return Panicked;
      }
      var b := DecodeInto(size, TrimPrefix(texts[i], Prefix));
      if b.Panicked? {
        DecodeTextsStops(texts, i + 1, count, size);
        return Panicked;
      } else if b.value.Err? {
        DecodeTextsStops(texts, i + 1, count, size);
        return Returned(Err(b.value.error));
      }
      bufs := bufs + [b.value.value];
    }
    assert texts[..|texts|] == texts;
    return Returned(Ok(bufs));
  }

  /** The loop stops at its first failure: later texts do not change the outcome. */
  lemma {:induction false} DecodeTextsStops(texts: seq<string>, i: nat, count: int, size: nat)
    requires i <= |texts|
    requires !(DecodeTexts(texts[..i], count, size).Returned? && DecodeTexts(texts[..i], count, size).value.Ok?)
    ensures DecodeTexts(texts, count, size) == DecodeTexts(texts[..i], count, size)
    decreases |texts| - i
  {
    if i < |texts| {
      assert texts[..i + 1][..i] == texts[..i];
      DecodeTextsStops(texts, i + 1, count, size);
    } else {
      assert texts[..i] == texts;
    }
  }

  /** Every text written as "0x" + hex of a `size`-byte buffer decodes back to that buffer. */
  lemma {:induction false} DecodeWrittenTexts(texts: seq<string>, bufs: seq<seq<Byte>>, count: int, size: nat)
    requires |texts| == |bufs| <= count
    requires forall i :: 0 <= i < |bufs| ==> |bufs[i]| == size && texts[i] == PointText(bufs[i])
    ensures DecodeTexts(texts, count, size) == Returned(Ok(bufs))
  {
    if texts != [] {
      var n := |texts| - 1;
      DecodeWrittenTexts(texts[..n], bufs[..n], count, size);
      PrefixedRoundTrip(bufs[n]);
      var last := DecodeInto(size, TrimPrefix(texts[n], Prefix));
      assert last == Returned(Ok(bufs[n]));
      assert DecodeTexts(texts, count, size) == Returned(Ok(bufs[..n] + [bufs[n]]));
      FrontAndLast(bufs);
    }
  }

  /** A non-empty list is its front followed by its last element. */
  lemma FrontAndLast<T>(s: seq<T>)
    requires s != []
    ensures s[..|s| - 1] + [s[|s| - 1]] == s
  {
  }

  /**
   * The wire round trip: unmarshalling what MarshalJSON wrote gives the
   * contribution back, with its counts replaced by the list lengths.
   */
  lemma MarshalRoundTrip(curve: Curve, v: ContributionValue)
    requires CompressionInvertible(curve)
    ensures ParseContribution(curve, MarshalJSON(curve, v)) ==
      Returned(Ok(v.(numG1Powers := |v.powersOfTau.g1Powers|, numG2Powers := |v.powersOfTau.g2Powers|)))
  {
    var j := MarshalJSON(curve, v);
    var g1, g2 := v.powersOfTau.g1Powers, v.powersOfTau.g2Powers;
    var bufs1 := G1TextsRoundTrip(curve, g1, j.powersOfTau.g1Powers);
    var bufs2 := G2TextsRoundTrip(curve, g2, j.powersOfTau.g2Powers);
    PrefixedRoundTrip(curve.compressG2(v.potPubKey));
  }

  lemma G1TextsRoundTrip(curve: Curve, g1: seq<G1>, texts: seq<string>) returns (bufs: seq<seq<Byte>>)
    requires CompressionInvertible(curve)
    requires |texts| == |g1| && forall i :: 0 <= i < |g1| ==> texts[i] == PointText(curve.compressG1(g1[i]))
    ensures DecodeTexts(texts, |g1|, G1Size) == Returned(Ok(bufs))
    ensures BatchUncompressG1(curve, WithNilBuffers(bufs, |g1|)) == Some(g1)
  {
    bufs := seq(|g1|, i requires 0 <= i < |g1| => curve.compressG1(g1[i]));
    DecodeWrittenTexts(texts, bufs, |g1|, G1Size);
    assert WithNilBuffers(bufs, |g1|) == bufs;
    assert forall i :: 0 <= i < |g1| ==> UncompressG1(curve, bufs[i]) == Some(g1[i]);
    var r := BatchUncompressG1(curve, bufs);
    assert r.Some?;
    assert r.value == g1;
  }

  lemma G2TextsRoundTrip(curve: Curve, g2: seq<G2>, texts: seq<string>) returns (bufs: seq<seq<Byte>>)
    requires CompressionInvertible(curve)
    requires |texts| == |g2| && forall i :: 0 <= i < |g2| ==> texts[i] == PointText(curve.compressG2(g2[i]))
    ensures DecodeTexts(texts, |g2|, G2Size) == Returned(Ok(bufs))
    ensures BatchUncompressG2(curve, WithNilBuffers(bufs, |g2|)) == Some(g2)
  {
    bufs := seq(|g2|, i requires 0 <= i < |g2| => curve.compressG2(g2[i]));
    DecodeWrittenTexts(texts, bufs, |g2|, G2Size);
    assert WithNilBuffers(bufs, |g2|) == bufs;
    assert forall i :: 0 <= i < |g2| ==> UncompressG2(curve, bufs[i]) == Some(g2[i]);
    var r := BatchUncompressG2(curve, bufs);
    assert r.Some?;
    assert r.value == g2;
  }

  /** The text is valid hex, with or without "0x", of at most `size` bytes. */
  predicate TextDecodes(text: string, size: nat)
  {
    DecodeInto(size, TrimPrefix(text, Prefix)).Returned? && DecodeInto(size, TrimPrefix(text, Prefix)).value.Ok?
  }

  /** A declared count below the number of texts makes UnmarshalJSON panic, if no earlier text is malformed. */
  lemma {:induction false} CountBelowTextsPanics(texts: seq<string>, count: int, size: nat)
    requires 0 <= count < |texts|
    requires forall i :: 0 <= i < count ==> TextDecodes(texts[i], size)
    ensures DecodeTexts(texts, count, size) == Panicked
  {
    var n := |texts| - 1;
    if n > count {
      CountBelowTextsPanics(texts[..n], count, size);
    } else {
      DecodeAllOk(texts[..n], count, size);
    }
  }

  /** The first malformed text within the count makes the hex loop return that text's error. */
  lemma FirstBadTextFails(texts: seq<string>, i: nat, count: int, size: nat, e: HexError)
    requires i < |texts| && i < count
    requires forall j :: 0 <= j < i ==> TextDecodes(texts[j], size)
    requires DecodeInto(size, TrimPrefix(texts[i], Prefix)) == Returned(Err(e))
    ensures DecodeTexts(texts, count, size) == Returned(Err(e))
  {
    var upTo := texts[..i + 1];
    assert upTo[..i] == texts[..i] && upTo[i] == texts[i];
    DecodeAllOk(upTo[..i], count, size);
    assert DecodeTexts(upTo, count, size) == Returned(Err(e));
    DecodeTextsStops(texts, i + 1, count, size);
  }

  /** UnmarshalJSON returns the hex error of the first malformed G1 text as it stands. */
  lemma BadG1TextReported(curve: Curve, data: JsonContribution, i: nat, e: HexError)
    requires i < |data.powersOfTau.g1Powers| && i < data.numG1Powers
    requires forall j :: 0 <= j < i ==> TextDecodes(data.powersOfTau.g1Powers[j], G1Size)
    requires DecodeInto(G1Size, TrimPrefix(data.powersOfTau.g1Powers[i], Prefix)) == Returned(Err(e))
    ensures ParseContribution(curve, data) == Returned(Err(BadHex(e)))
  {
    FirstBadTextFails(data.powersOfTau.g1Powers, i, data.numG1Powers, G1Size, e);
  }

  lemma {:induction false} DecodeAllOk(texts: seq<string>, count: int, size: nat)
    requires |texts| <= count
    requires forall i :: 0 <= i < |texts| ==> TextDecodes(texts[i], size)
    ensures DecodeTexts(texts, count, size).Returned? && DecodeTexts(texts, count, size).value.Ok?
  {
    if texts != [] {
      DecodeAllOk(texts[..|texts| - 1], count, size);
    }
  }
}
