/** The assumptions made of the cryptographic and text libraries can all hold at once: a
    stand-in for each library call that meets every clause of Encryption.Sound. */
module SoundWitness {

  import opened Results
  import opened Encryption

  function Zeros(n: nat): (z: Bytes)
    ensures |z| == n && forall i :: 0 <= i < n ==> z[i] == 0
  {
    seq(n, _ => 0 as Byte)
  }

  /** A key-derivation stand-in: `len` zero bytes, and an error for a negative length. */
  function FixedKdf(len: int): Option<Bytes>
  {
    if len >= 0 then Some(Zeros(len)) else None
  }

  /** A sealing stand-in: the message followed by an all-zero tag. */
  function ZeroTagSeal(k: Bytes, n: Bytes, m: Bytes): Option<Bytes>
  {
    if AesKeyLength(|k|) && |n| == GcmNonceLength && |m| <= GcmMaxDataLength then Some(m + Zeros(GcmTagLength))
    else None
  }

  function ZeroTagOpen(k: Bytes, n: Bytes, c: Bytes): Option<Bytes>
  {
    if AesKeyLength(|k|) && |n| == GcmNonceLength && |c| >= GcmTagLength
       && c[|c| - GcmTagLength..] == Zeros(GcmTagLength)
    then Some(c[..|c| - GcmTagLength])
    else None
  }

  /** The Unicode scalar values, which are exactly the values of `char`. */
  predicate IsScalar(v: int)
  {
    0 <= v < 0xD800 || 0xE000 <= v < 0x11_0000
  }

  function Ones(n: nat): (b: Bytes)
    ensures |b| == n && forall i :: 0 <= i < n ==> b[i] == 1
  {
    seq(n, _ => 1 as Byte)
  }

  /** A unary text encoding: each character as that many 1-bytes, closed by a 0-byte. */
  function EncodeChar(c: char): (b: Bytes)
    ensures |b| == c as int + 1
  {
    Ones(c as int) + [0]
  }

  function Encode(s: string): (b: Bytes)
    ensures |b| >= |s|
  {
    if s == [] then [] else EncodeChar(s[0]) + Encode(s[1..])
  }

  /** The number of 1-bytes `b` starts with. */
  function LeadingOnes(b: Bytes): (n: nat)
    ensures n <= |b| && (n < |b| ==> b[n] != 1)
    ensures forall i :: 0 <= i < n ==> b[i] == 1
  {
    if b == [] || b[0] != 1 then 0 else 1 + LeadingOnes(b[1..])
  }

  function Decode(b: Bytes): Option<string>
    decreases |b|
  {
    if b == [] then Some([])
    else
      var n := LeadingOnes(b);
      if n == |b| || b[n] != 0 || !IsScalar(n) then None
      else
        match Decode(b[n + 1..])
        case None => None
        case Some(t) => Some([n as char] + t)
  }

  lemma {:induction false} LeadingOnesOfChar(c: char, rest: Bytes)
    ensures LeadingOnes(EncodeChar(c) + rest) == c as int
  {
    var b := EncodeChar(c) + rest;
    assert b[c as int] == 0;
    assert forall i :: 0 <= i < c as int ==> b[i] == 1;
  }

  lemma {:induction false} DecodeEncode(s: string)
    ensures Decode(Encode(s)) == Some(s)
  {
    if s != [] {
      var e := Encode(s);
      var n := s[0] as int;
      LeadingOnesOfChar(s[0], Encode(s[1..]));
      assert e[n] == 0;
      assert e[n + 1..] == Encode(s[1..]);
      DecodeEncode(s[1..]);
      assert [n as char] + s[1..] == s;
    }
  }

  lemma {:induction false} EncodeDecode(b: Bytes)
    requires Decode(b).Some?
    ensures Encode(Decode(b).value) == b
    decreases |b|
  {
    if b != [] {
      var n := LeadingOnes(b);
      DecodeStep(b);
      EncodeDecode(b[n + 1..]);
      Reassemble(b, n, n as char, Decode(b[n + 1..]).value);
    }
  }

  lemma Reassemble(b: Bytes, n: nat, c: char, t: string)
    requires n < |b| && b[..n + 1] == EncodeChar(c) && Encode(t) == b[n + 1..]
    ensures Encode([c] + t) == b
  {
    EncodeCons(c, t);
    assert b == b[..n + 1] + b[n + 1..];
  }

  /** A non-empty decodable input is one encoded character followed by a decodable rest. */
  lemma DecodeStep(b: Bytes)
    requires b != [] && Decode(b).Some?
    ensures var n := LeadingOnes(b);
            && n < |b| && b[n] == 0 && IsScalar(n) && Decode(b[n + 1..]).Some?
            && Decode(b).value == [n as char] + Decode(b[n + 1..]).value
            && b[..n + 1] == EncodeChar(n as char)
  {
    var n := LeadingOnes(b);
    assert n < |b| && b[n] == 0 && IsScalar(n);
    assert Decode(b[n + 1..]).Some?;
    CharPrefix(b, n);
  }

  lemma CharPrefix(b: Bytes, n: nat)
    requires n < |b| && b[n] == 0 && IsScalar(n)
    requires forall i :: 0 <= i < n ==> b[i] == 1
    ensures b[..n + 1] == EncodeChar(n as char)
  {
  }

  lemma EncodeCons(c: char, t: string)
    ensures Encode([c] + t) == EncodeChar(c) + Encode(t)
  {
    assert ([c] + t)[1..] == t;
  }

  function WitnessPrimitives(): Primitives
  {
    Primitives(
      false,
      (secret, salt, t, m, par, len) => FixedKdf(len),
      (secret, salt, iterations, len) => FixedKdf(len),
      (k, n, m) => ZeroTagSeal(k, n, m),
      (k, n, c) => ZeroTagOpen(k, n, c),
      s => Encode(s),
      b => Decode(b))
  }

  /** Sound is not vacuous. */
  lemma SoundIsSatisfiable()
    ensures Sound(WitnessPrimitives())
  {
    var p := WitnessPrimitives();
    forall k: Bytes, n: Bytes, m: Bytes | AesKeyLength(|k|) && |n| == GcmNonceLength && |m| <= GcmMaxDataLength
      ensures p.gcmOpen(k, n, p.gcmSeal(k, n, m).value) == Some(m)
    {
      var c := m + Zeros(GcmTagLength);
      assert c[|c| - GcmTagLength..] == Zeros(GcmTagLength);
      assert c[..|c| - GcmTagLength] == m;
    }
    forall k: Bytes, n: Bytes, c: Bytes | p.gcmOpen(k, n, c).Some? && |p.gcmOpen(k, n, c).value| <= GcmMaxDataLength
      ensures p.gcmSeal(k, n, p.gcmOpen(k, n, c).value) == Some(c)
    {
      assert c == c[..|c| - GcmTagLength] + c[|c| - GcmTagLength..];
    }
    forall s: string
      ensures p.utf8Decode(p.utf8Encode(s)) == Some(s)
    {
      DecodeEncode(s);
    }
    forall b: Bytes | p.utf8Decode(b).Some?
      ensures p.utf8Encode(p.utf8Decode(b).value) == b
    {
      EncodeDecode(b);
    }
  }
}
