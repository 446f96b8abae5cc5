/**
 * The textual encoding a contribution uses for its points: Go's
 * encoding/hex (lower-case encoding; decoding of either case into a
 * caller-supplied buffer) and strings.TrimPrefix for the optional "0x".
 */
module Hex {
  import opened Wrappers
  import opened Scalars

  /** The prefix MarshalJSON writes in front of every point. */
  const Prefix: string := "0x"

  /** The errors hex.Decode reports. */
  datatype HexError = InvalidByte(c: char) | OddLength

  /** The lower-case digit for a nibble, as in hex's "0123456789abcdef" table. */
  function Digit(k: nat): (c: char)
    requires k < 16
    ensures '0' <= c <= '9' || 'a' <= c <= 'f'
  {
    if k < 10 then ('0' as int + k) as char else ('a' as int + k - 10) as char
  }

  /** The nibble a digit stands for; upper- and lower-case letters are both accepted. */
  function DigitValue(c: char): (v: Option<nat>)
    ensures v.Some? ==> v.value < 16
    ensures v.Some? <==> ('0' <= c <= '9' || 'a' <= c <= 'f' || 'A' <= c <= 'F')
  {
    if '0' <= c <= '9' then Some(c as int - '0' as int)
    else if 'a' <= c <= 'f' then Some(c as int - 'a' as int + 10)
    else if 'A' <= c <= 'F' then Some(c as int - 'A' as int + 10)
    else None
  }

  /** hex.EncodeToString: two lower-case digits per byte, high nibble first. */
  function Encode(b: seq<Byte>): (s: string)
    ensures |s| == 2 * |b|
    ensures forall i :: 0 <= i < |s| ==> '0' <= s[i] <= '9' || 'a' <= s[i] <= 'f'
  {
    if b == [] then []
    else [Digit(b[0] as int / 16), Digit(b[0] as int % 16)] + Encode(b[1..])
  }

  /** strings.TrimPrefix: drops one leading occurrence of `p`, if there is one. */
  function TrimPrefix(s: string, p: string): (r: string)
    ensures p <= s ==> r == s[|p|..]
    ensures !(p <= s) ==> r == s
  {
    if p <= s then s[|p|..] else s
  }

  /**
   * The loop of hex.Decode over `src` with room for `n` more bytes in the
   * destination: each pair of digits is checked, then written; writing past
   * the destination panics; a lone trailing digit is reported as invalid if
   * it is not a digit and as an odd length otherwise.
   */
  function DecodePairs(n: nat, src: string): (r: Run<Result<seq<Byte>, HexError>>)
    ensures r.Returned? && r.value.Ok? ==> |src| % 2 == 0 && |r.value.value| == |src| / 2 <= n
    decreases |src|
  {
    if |src| >= 2 then
      var hi, lo := DigitValue(src[0]), DigitValue(src[1]);
      if hi.None? then Returned(Err(InvalidByte(src[0])))
      else if lo.None? then Returned(Err(InvalidByte(src[1])))
      else if n == 0 then Panicked
      else match DecodePairs(n - 1, src[2..])
        case Returned(Ok(rest)) => Returned(Ok([(hi.value * 16 + lo.value) as Byte] + rest))
        case other => other
    else if |src| == 1 then
      if DigitValue(src[0]).None? then Returned(Err(InvalidByte(src[0]))) else Returned(Err(OddLength))
    else Returned(Ok([]))
  }

  /** `k` zero bytes: the part of a fresh `make([]byte, n)` buffer nothing wrote. */
  function Zeros(k: nat): (z: seq<Byte>)
    ensures |z| == k && forall i :: 0 <= i < k ==> z[i] == 0
  {
    seq(k, i => 0)
  }

  /**
   * `hex.Decode(buf, src)` into a fresh zeroed buffer of `n` bytes: the
   * buffer's final content, or the error, or a panic when `src` holds more
   * than `n` bytes' worth of valid digits.
   */
  function DecodeInto(n: nat, src: string): (r: Run<Result<seq<Byte>, HexError>>)
    ensures r.Returned? && r.value.Ok? ==> |r.value.value| == n && |src| % 2 == 0 && |src| <= 2 * n
    ensures r.Returned? && r.value.Ok? ==> r.value.value[|src| / 2..] == Zeros(n - |src| / 2)
  {
    match DecodePairs(n, src)
    case Returned(Ok(b)) => Returned(Ok(b + Zeros(n - |b|)))
    case other => other
  }

  /** Decoding the digits of `b` gives `b` back, whenever the destination is large enough. */
  lemma {:induction false} DecodeEncoded(n: nat, b: seq<Byte>)
    requires |b| <= n
    ensures DecodePairs(n, Encode(b)) == Returned(Ok(b))
  {
    if b != [] {
      var s := Encode(b);
      var x := b[0] as int;
      assert s[2..] == Encode(b[1..]);
      assert DigitValue(s[0]) == Some(x / 16);
      assert DigitValue(s[1]) == Some(x % 16);
      DecodeEncoded(n - 1, b[1..]);
      assert [(x / 16 * 16 + x % 16) as Byte] + b[1..] == b;
    }
  }

  /**
   * The round trip of a point's text: "0x" + EncodeToString(b), stripped of
   * its prefix and decoded into a buffer of |b| bytes, is `b`.
   */
  lemma PrefixedRoundTrip(b: seq<Byte>)
    ensures DecodeInto(|b|, TrimPrefix(Prefix + Encode(b), Prefix)) == Returned(Ok(b))
  {
    assert TrimPrefix(Prefix + Encode(b), Prefix) == Encode(b);
    DecodeEncoded(|b|, b);
    assert b + Zeros(0) == b;
  }

  /** The prefix is optional: text without it decodes the same way. */
  lemma UnprefixedRoundTrip(b: seq<Byte>)
    ensures DecodeInto(|b|, TrimPrefix(Encode(b), Prefix)) == Returned(Ok(b))
  {
    if |b| > 0 {
      assert Encode(b)[1] != 'x';
    }
    assert TrimPrefix(Encode(b), Prefix) == Encode(b);
    DecodeEncoded(|b|, b);
    assert b + Zeros(0) == b;
  }

  /** A shorter text fills the front of the buffer and leaves the rest zero. */
  lemma ShortTextIsZeroPadded(n: nat, b: seq<Byte>)
    requires |b| <= n
    ensures DecodeInto(n, Encode(b)) == Returned(Ok(b + Zeros(n - |b|)))
  {
    DecodeEncoded(n, b);
  }

  /** More bytes' worth of valid digits than the buffer holds makes hex.Decode panic. */
  lemma {:induction false} OverlongTextPanics(n: nat, b: seq<Byte>)
    requires |b| > n
    ensures DecodePairs(n, Encode(b)) == Panicked
  {
    var s := Encode(b);
    var x := b[0] as int;
    assert DigitValue(s[0]) == Some(x / 16);
    assert DigitValue(s[1]) == Some(x % 16);
    if n > 0 {
      assert s[2..] == Encode(b[1..]);
      OverlongTextPanics(n - 1, b[1..]);
    }
  }
}
