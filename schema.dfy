/**
 * The record types of a ceremony: powers of tau, the witness chain, a
 * transcript that owns both, and a ceremony made of transcripts.
 */
module Schema {
  import opened Groups

  datatype PowersOfTau = PowersOfTau(g1Powers: seq<G1>, g2Powers: seq<G2>)

  /** Append-only evidence: one running product and one public key per contribution. */
  datatype Witness = Witness(runningProducts: seq<G1>, potPubkeys: seq<G2>)

  /** The value held by a transcript at one moment. */
  datatype TranscriptValue = TranscriptValue(
    numG1Powers: int,
    numG2Powers: int,
    powersOfTau: PowersOfTau,
    witnessChain: Witness)

  /** A ceremony as the verifier and the coordinator see it. */
  datatype Ceremony = Ceremony(transcripts: seq<TranscriptValue>)

  /** A transcript that a contribution updates in place. */
  class Transcript {
    var numG1Powers: int
    var numG2Powers: int
    var powersOfTau: PowersOfTau
    var witnessChain: Witness

    function Value(): TranscriptValue
      reads this
    {
      TranscriptValue(numG1Powers, numG2Powers, powersOfTau, witnessChain)
    }
  }
}
