/**
 * The library calls the session codec relies on, kept abstract.
 *
 * AES-GCM (crypto/aes, crypto/cipher), base64 (encoding/base64) and the Gob
 * encoding of time.Time are not modelled internally. Each is a record of
 * functions, and what the codec needs from it is a law stated as a ghost
 * predicate. Lemmas that need a law take it as a precondition, so every
 * result holds for every implementation that obeys the laws.
 */
module Primitives {

  newtype byte = x: int | 0 <= x < 256

  type Bytes = seq<byte>

  /** Go's int64. */
  newtype int64 = x: int | -0x8000_0000_0000_0000 <= x < 0x8000_0000_0000_0000

  datatype Option<+T> = None | Some(value: T)

  /** gcm.NonceSize() of a GCM built by cipher.NewGCM (the standard 96-bit nonce). */
  const NonceSize: nat := 12

  /** The GCM authentication tag appended by Seal. */
  const TagSize: nat := 16

  /** aes.NewCipher accepts exactly AES-128, AES-192 and AES-256 keys; cipher.NewGCM
      never fails on an AES block. */
  predicate AesKeySizeOk(key: Bytes)
  {
    |key| == 16 || |key| == 24 || |key| == 32
  }

  /** Seal(key, nonce, plaintext) and Open(key, nonce, ciphertext) of AES-GCM,
      with no additional data, as the codec calls them. */
  datatype Gcm = Gcm(seal: (Bytes, Bytes, Bytes) -> Bytes, open: (Bytes, Bytes, Bytes) -> Option<Bytes>)

  /** base64.StdEncoding: EncodeToString and DecodeString. DecodeString returns
      the bytes it decoded together with whether it succeeded. */
  datatype Base64 = Base64(encode: Bytes -> Bytes, decode: Bytes -> (Bytes, bool))

  /** time.Time.GobEncode / GobDecode on instants measured in nanoseconds. */
  datatype TimeGob = TimeGob(encode: int -> Bytes, decode: Bytes -> Option<int>)

  datatype Foreign = Foreign(gcm: Gcm, b64: Base64, gob: TimeGob)

  /** What GCM guarantees functionally: Open inverts Seal; Seal adds exactly a tag;
      a ciphertext shorter than a tag never opens; and whatever opens is the seal
      of what it opens to (the tag is a function of key, nonce and plaintext). */
  ghost predicate GcmLaws(g: Gcm)
  {
    && (forall k, n, p :: AesKeySizeOk(k) && |n| == NonceSize ==> g.open(k, n, g.seal(k, n, p)) == Some(p))
    && (forall k, n, p :: |g.seal(k, n, p)| == |p| + TagSize)
    && (forall k, n, c :: |c| < TagSize ==> g.open(k, n, c) == None)
    && (forall k, n, c :: g.open(k, n, c).Some? ==> g.seal(k, n, g.open(k, n, c).value) == c)
  }

  ghost predicate Base64Laws(b: Base64)
  {
    && (forall x :: b.decode(b.encode(x)) == (x, true))
    && (forall x :: x != [] ==> b.encode(x) != [])
    && b.encode([]) == []
  }

  ghost predicate GobLaws(t: TimeGob)
  {
    forall x :: t.decode(t.encode(x)) == Some(x)
  }

  ghost predicate Lawful(f: Foreign)
  {
    GcmLaws(f.gcm) && Base64Laws(f.b64) && GobLaws(f.gob)
  }

  // A toy instance of the laws, showing that they can all hold together.
  // It has no cryptographic content.

  function Zeros(n: nat): (z: Bytes)
    ensures |z| == n && forall i :: 0 <= i < n ==> z[i] == 0
  {
    seq(n, _ => 0)
  }

  function Digits(n: nat): Bytes
  {
    if n == 0 then [] else [(n % 256) as byte] + Digits(n / 256)
  }

  function Undigits(b: Bytes): nat
  {
    if b == [] then 0 else b[0] as nat + 256 * Undigits(b[1..])
  }

  lemma {:induction false} UndigitsDigits(n: nat)
    ensures Undigits(Digits(n)) == n
  {
    if n != 0 {
      UndigitsDigits(n / 256);
      assert Digits(n)[1..] == Digits(n / 256);
    }
  }

  function Witness(): Foreign
  {
    Foreign(
      Gcm((k, n, p) => p + Zeros(TagSize),
          (k, n, c) => if |c| >= TagSize && c[|c| - TagSize..] == Zeros(TagSize) then Some(c[..|c| - TagSize]) else None),
      Base64(x => x, x => (x, true)),
      TimeGob(t => if t >= 0 then [0 as byte] + Digits(t) else [1 as byte] + Digits(-t),
              b => if b == [] then None else if b[0] == 0 then Some(Undigits(b[1..]) as int) else Some(-(Undigits(b[1..]) as int))))
  }

  lemma WitnessGcmLawful()
    ensures GcmLaws(Witness().gcm)
  {
    var g := Witness().gcm;
    forall k, n, p
      ensures g.open(k, n, g.seal(k, n, p)) == Some(p)
    {
      var c := p + Zeros(TagSize);
      assert c[|c| - TagSize..] == Zeros(TagSize);
      assert c[..|c| - TagSize] == p;
    }
    forall k, n, c | g.open(k, n, c).Some?
      ensures g.seal(k, n, g.open(k, n, c).value) == c
    {
      assert c == c[..|c| - TagSize] + c[|c| - TagSize..];
    }
  }

  lemma WitnessGobLawful()
    ensures GobLaws(Witness().gob)
  {
    var t := Witness().gob;
    forall x
      ensures t.decode(t.encode(x)) == Some(x)
    {
      if x >= 0 {
        UndigitsDigits(x);
        assert t.encode(x)[1..] == Digits(x);
      } else {
        UndigitsDigits(-x);
        assert t.encode(x)[1..] == Digits(-x);
      }
    }
  }

  lemma WitnessIsLawful()
    ensures Lawful(Witness())
  {
    WitnessGcmLawful();
    WitnessGobLawful();
  }
}
