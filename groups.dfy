/**
 * The pairing-curve library, taken as an abstract group: point types with
 * no interpretation, and the library's operations passed in as a record of
 * functions. Affine and projective forms of a point are identified.
 */
module Groups {
  import opened Wrappers
  import opened Scalars

  /** A point of G1 (`blst.P1` / `blst.P1Affine`). */
  type G1(==, !new)
  /** A point of G2 (`blst.P2` / `blst.P2Affine`). */
  type G2(==, !new)
  /** An element of the target group, compared by its big-endian encoding. */
  type GT(==, !new)

  /** Compressed encoding sizes of a G1 and a G2 point. */
  const G1Size: nat := 48
  const G2Size: nat := 96

  /** The operations of the library that the core calls. */
  datatype Curve = Curve(
    g1Mult: (G1, Scalar) -> G1,              // P1.Mult
    g2Mult: (G2, Scalar) -> G2,              // P2.Mult
    g2Generator: G2,                         // base point used by P2Affine.From
    inG1: G1 -> bool,                        // P1Affine.InG1
    inG2: G2 -> bool,                        // P2Affine.InG2
    pairing: (G1, G2) -> GT,                 // Miller loop + final exponentiation
    compressG1: G1 -> seq<Byte>,             // P1.Compress
    compressG2: G2 -> seq<Byte>,             // P2.Compress
    decodeG1: seq<Byte> -> Option<G1>,       // P1Affine.Uncompress of a 48-byte input
    decodeG2: seq<Byte> -> Option<G2>)       // P2Affine.Uncompress of a 96-byte input

  /** `P2Affine.From(sec)`: the public key of a secret, the generator times it. */
  function PublicKey(curve: Curve, sec: Scalar): (pk: G2)
    ensures SubgroupsClosed(curve) ==> curve.inG2(pk)
  {
    curve.g2Mult(curve.g2Generator, sec)
  }

  /** `P1Affine.Uncompress`: an input of the wrong length is refused outright. */
  function UncompressG1(curve: Curve, b: seq<Byte>): (r: Option<G1>)
    ensures r.Some? ==> |b| == G1Size
    ensures |b| == G1Size ==> r == curve.decodeG1(b)
  {
    if |b| != G1Size then None else curve.decodeG1(b)
  }

  /** `P2Affine.Uncompress`: an input of the wrong length is refused outright. */
  function UncompressG2(curve: Curve, b: seq<Byte>): (r: Option<G2>)
    ensures r.Some? ==> |b| == G2Size
    ensures |b| == G2Size ==> r == curve.decodeG2(b)
  {
    if |b| != G2Size then None else curve.decodeG2(b)
  }

  /** `BatchUncompress`: all points, or nil as soon as one fails. */
  function BatchUncompressG1(curve: Curve, bs: seq<seq<Byte>>): (r: Option<seq<G1>>)
    ensures r.Some? ==> |r.value| == |bs|
    ensures r.Some? <==> forall i :: 0 <= i < |bs| ==> UncompressG1(curve, bs[i]).Some?
    ensures r.Some? ==> forall i :: 0 <= i < |bs| ==> UncompressG1(curve, bs[i]) == Some(r.value[i])
  {
    if forall i :: 0 <= i < |bs| ==> UncompressG1(curve, bs[i]).Some?
    then Some(seq(|bs|, i requires 0 <= i < |bs| => UncompressG1(curve, bs[i]).value))
    else None
  }

  function BatchUncompressG2(curve: Curve, bs: seq<seq<Byte>>): (r: Option<seq<G2>>)
    ensures r.Some? ==> |r.value| == |bs|
    ensures r.Some? <==> forall i :: 0 <= i < |bs| ==> UncompressG2(curve, bs[i]).Some?
    ensures r.Some? ==> forall i :: 0 <= i < |bs| ==> UncompressG2(curve, bs[i]) == Some(r.value[i])
  {
    if forall i :: 0 <= i < |bs| ==> UncompressG2(curve, bs[i]).Some?
    then Some(seq(|bs|, i requires 0 <= i < |bs| => UncompressG2(curve, bs[i]).value))
    else None
  }

  /**
   * Compression is canonical: it yields an encoding of the documented size
   * which decompresses to the same point.
   */
  ghost predicate CompressionInvertible(curve: Curve)
  {
    && (forall p :: |curve.compressG1(p)| == G1Size && curve.decodeG1(curve.compressG1(p)) == Some(p))
    && (forall q :: |curve.compressG2(q)| == G2Size && curve.decodeG2(curve.compressG2(q)) == Some(q))
  }

  /**
   * The algebraic laws of the prime-order groups that the verification
   * argument rests on, for a G1 generator `g` and an exponent map `e` of the
   * target group: multiplying a multiple of a generator again composes the
   * scalars modulo r, and the pairing of g^a with h^b (h the G2 generator)
   * depends only on a*b (bilinearity). Only multiples of the generators are
   * constrained, since points outside the prime-order subgroups (which the
   * subgroup checks reject) do not compose modulo r.
   */
  ghost predicate GroupLaws(curve: Curve, g: G1, e: Scalar -> GT)
  {
    && (forall a, b {:trigger curve.g1Mult(curve.g1Mult(g, a), b)} :: curve.g1Mult(curve.g1Mult(g, a), b) == curve.g1Mult(g, Mul(a, b)))
    && (forall a, b {:trigger curve.g2Mult(curve.g2Mult(curve.g2Generator, a), b)} ::
         curve.g2Mult(curve.g2Mult(curve.g2Generator, a), b) == curve.g2Mult(curve.g2Generator, Mul(a, b)))
    && (forall a, b {:trigger curve.pairing(curve.g1Mult(g, a), curve.g2Mult(curve.g2Generator, b))} ::
         curve.pairing(curve.g1Mult(g, a), curve.g2Mult(curve.g2Generator, b)) == e(Mul(a, b)))
  }

  /** Multiplication stays inside the subgroups, of which the G2 generator is a member. */
  ghost predicate SubgroupsClosed(curve: Curve)
  {
    && (forall p, a {:trigger curve.inG1(curve.g1Mult(p, a))} :: curve.inG1(p) ==> curve.inG1(curve.g1Mult(p, a)))
    && (forall q, a {:trigger curve.inG2(curve.g2Mult(q, a))} :: curve.inG2(q) ==> curve.inG2(curve.g2Mult(q, a)))
    && curve.inG2(curve.g2Generator)
  }
}
