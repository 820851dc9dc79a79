/**
 * The token codec of session.go: configuration check, the plaintext record
 * `sessionId ; expiry`, the `nonce ++ Seal(...)` framing, and packHeader /
 * unpackHeader with their expiry window. Instants are integers counting
 * nanoseconds; the current time is always a parameter.
 */
module Codec {
  import opened Primitives

  /** Size of AES-256-GCM keys in bytes. */
  const KeySize: nat := 32

  /** The record separator ';'. */
  const Semicolon: byte := 59

  /** time.Second, in nanoseconds. */
  const Second: int := 1_000_000_000

  /** The largest MaxAge whose conversion to a time.Duration does not wrap. */
  const MaxAgeNoWrap: int := 9_223_372_036

  const TwoTo63: int := 0x8000_0000_0000_0000

  datatype Options = Options(maxAge: int64, cryptKey: Bytes)

  datatype Session = Session(config: Options)

  /** NewSession panics (here: None) on a nil options pointer or a key that is not
      KeySize bytes long; a nil key has length 0 and fails the same test. */
  function NewSession(opt: Option<Options>): (r: Option<Session>)
    ensures r.Some? <==> opt.Some? && |opt.value.cryptKey| == KeySize
    ensures r.Some? ==> r.value.config == opt.value && AesKeySizeOk(r.value.config.cryptKey)
  {
    if opt.None? || |opt.value.cryptKey| != KeySize then None else Some(Session(opt.value))
  }

  /** Go's int64 arithmetic: the unique int64 congruent to x modulo 2^64. */
  function WrapInt64(x: int): (r: int64)
    ensures (x - r as int) % (2 * TwoTo63) == 0
    ensures -TwoTo63 <= x < TwoTo63 ==> r as int == x
  {
    ((x + TwoTo63) % (2 * TwoTo63) - TwoTo63) as int64
  }

  /** time.Now().Add(time.Duration(MaxAge) * time.Second): the product is an
      int64 count of nanoseconds and wraps. */
  function Expire(now: int, maxAge: int64): (t: int)
    ensures -MaxAgeNoWrap <= maxAge as int <= MaxAgeNoWrap ==> t == now + maxAge as int * Second
    ensures 0 < maxAge as int <= MaxAgeNoWrap ==> now < t
    ensures -TwoTo63 <= t - now < TwoTo63
  {
    now + WrapInt64(maxAge as int * Second) as int
  }

  /** The plaintext record: sessionId + ";" + GobEncode(expire). */
  function Record(sessionId: Bytes, expire: int, gob: TimeGob): (r: Bytes)
    ensures |r| == |sessionId| + 1 + |gob.encode(expire)|
    ensures r[..|sessionId|] == sessionId && r[|sessionId|] == Semicolon
    ensures r[|sessionId| + 1..] == gob.encode(expire)
  {
    sessionId + [Semicolon] + gob.encode(expire)
  }

  /** The first position of c in s (the search behind strings.SplitN). */
  function IndexByte(s: Bytes, c: byte): (r: Option<nat>)
    ensures r.Some? ==> r.value < |s| && s[r.value] == c && c !in s[..r.value]
    ensures r.None? ==> c !in s
  {
    if s == [] then None
    else if s[0] == c then Some(0)
    else match IndexByte(s[1..], c)
      case None => None
      case Some(i) => Some(i + 1)
  }

  /** strings.SplitN(header, ";", 2) followed by GobDecode of the second part.
      A header without a separator is rejected. */
  function ParseRecord(header: Bytes, gob: TimeGob): (r: Option<(Bytes, int)>)
    ensures r.Some? ==>
      var n := |r.value.0|;
      && n < |header| && header[..n] == r.value.0 && header[n] == Semicolon
      && Semicolon !in r.value.0
      && gob.decode(header[n + 1..]) == Some(r.value.1)
    ensures Semicolon !in header ==> r.None?
  {
    match IndexByte(header, Semicolon)
    case None => None
    case Some(i) =>
      match gob.decode(header[i + 1..])
      case None => None
      case Some(t) => Some((header[..i], t))
  }

  /** randBytes: io.ReadFull from the random source fills `size` bytes, or fails
      when the source delivers fewer. The source is the stream `entropy`. */
  function RandBytes(size: nat, entropy: Bytes): (r: Option<Bytes>)
    ensures r.Some? <==> size <= |entropy|
    ensures r.Some? ==> |r.value| == size && r.value == entropy[..size]
  {
    if |entropy| < size then None else Some(entropy[..size])
  }

  /** encryptSessionData: fails when the cipher cannot be built from the key or
      the nonce cannot be drawn; otherwise returns iv ++ Seal(iv, header). */
  function EncryptSessionData(key: Bytes, gcm: Gcm, header: Bytes, entropy: Bytes): (r: Option<Bytes>)
    ensures r.Some? <==> AesKeySizeOk(key) && NonceSize <= |entropy|
    ensures r.Some? ==>
      && NonceSize <= |r.value|
      && r.value[..NonceSize] == entropy[..NonceSize]
      && r.value[NonceSize..] == gcm.seal(key, entropy[..NonceSize], header)
  {
    if !AesKeySizeOk(key) then None
    else match RandBytes(NonceSize, entropy)
      case None => None
      case Some(iv) => Some(iv + gcm.seal(key, iv, header))
  }

  /** decryptSessionData: fails when the cipher cannot be built, when the input is
      shorter than a nonce, and (corrected, see AsWritten) when Open rejects. */
  function DecryptSessionData(key: Bytes, gcm: Gcm, data: Bytes): (r: Option<Bytes>)
    ensures !AesKeySizeOk(key) || |data| < NonceSize ==> r.None?
    ensures GcmLaws(gcm) && r.Some? ==> data[NonceSize..] == gcm.seal(key, data[..NonceSize], r.value)
  {
    if !AesKeySizeOk(key) || |data| < NonceSize then None
    else gcm.open(key, data[..NonceSize], data[NonceSize..])
  }

  /** packHeader at time `now`, drawing the nonce from `entropy`. */
  function PackHeader(s: Session, f: Foreign, sessionId: Bytes, now: int, entropy: Bytes): (token: Bytes)
    ensures sessionId == [] ==> token == []
    ensures !AesKeySizeOk(s.config.cryptKey) || |entropy| < NonceSize ==> token == []
    ensures Base64Laws(f.b64) && AesKeySizeOk(s.config.cryptKey) ==>
      (token != [] <==> sessionId != [] && NonceSize <= |entropy|)
  {
    if sessionId == [] then []
    else
      var header := Record(sessionId, Expire(now, s.config.maxAge), f.gob);
      match EncryptSessionData(s.config.cryptKey, f.gcm, header, entropy)
      case None => []
      case Some(sealed) => f.b64.encode(sealed)
  }

  /** unpackHeader at time `now`. The base64 error is discarded, as in the source;
      every failure collapses to the empty id. */
  function UnpackHeader(s: Session, f: Foreign, token: Bytes, now: int): (sessionId: Bytes)
    ensures Semicolon !in sessionId
  {
    var data := f.b64.decode(token).0;
    match DecryptSessionData(s.config.cryptKey, f.gcm, data)
    case None => []
    case Some(header) =>
      match ParseRecord(header, f.gob)
      case None => []
      case Some((id, expire)) => if now < expire then id else []
  }

  // ---------------------------------------------------------------------------
  // Properties

  /** decryptSessionData splits its input at exactly NonceSize: for any nonce and
      any ciphertext, it opens that ciphertext under that nonce. */
  lemma FramingOfDecrypt(key: Bytes, gcm: Gcm, iv: Bytes, c: Bytes)
    requires AesKeySizeOk(key) && |iv| == NonceSize
    ensures DecryptSessionData(key, gcm, iv + c) == gcm.open(key, iv, c)
  {
    assert (iv + c)[..NonceSize] == iv && (iv + c)[NonceSize..] == c;
  }

  /** The sealed bytes are nonce, ciphertext and tag: 12 + |header| + 16 bytes. */
  lemma SealedLength(key: Bytes, gcm: Gcm, header: Bytes, entropy: Bytes)
    requires GcmLaws(gcm)
    requires EncryptSessionData(key, gcm, header, entropy).Some?
    ensures |EncryptSessionData(key, gcm, header, entropy).value| == NonceSize + |header| + TagSize
  {
  }

  /** decryptSessionData inverts encryptSessionData. */
  lemma DecryptEncrypt(key: Bytes, gcm: Gcm, header: Bytes, entropy: Bytes)
    requires GcmLaws(gcm)
    requires EncryptSessionData(key, gcm, header, entropy).Some?
    ensures DecryptSessionData(key, gcm, EncryptSessionData(key, gcm, header, entropy).value) == Some(header)
  {
  }

  /** The first separator of a record is the one after the id, however many
      separators the encoded expiry contains. */
  lemma {:induction false} FirstSeparatorOfRecord(sessionId: Bytes, expire: int, gob: TimeGob)
    requires Semicolon !in sessionId
    ensures IndexByte(Record(sessionId, expire, gob), Semicolon) == Some(|sessionId|)
  {
  }

  /** ParseRecord inverts Record for ids without a separator. */
  lemma ParseRecordOfRecord(sessionId: Bytes, expire: int, gob: TimeGob)
    requires GobLaws(gob)
    requires Semicolon !in sessionId
    ensures ParseRecord(Record(sessionId, expire, gob), gob) == Some((sessionId, expire))
  {
  }

  /** Opening a packed token yields exactly the record built at packing time: its
      expiry is the issue time plus MaxAge, whatever the time of decoding. */
  lemma {:induction false} OpenPackedToken(s: Session, f: Foreign, sessionId: Bytes, issued: int, entropy: Bytes)
    requires Lawful(f)
    requires AesKeySizeOk(s.config.cryptKey)
    requires sessionId != [] && NonceSize <= |entropy|
    ensures DecryptSessionData(s.config.cryptKey, f.gcm, f.b64.decode(PackHeader(s, f, sessionId, issued, entropy)).0)
         == Some(Record(sessionId, Expire(issued, s.config.maxAge), f.gob))
  {
  }

  /** unpack(pack(id)) is id before the expiry and empty from the expiry on. */
  lemma UnpackPack(s: Session, f: Foreign, sessionId: Bytes, issued: int, entropy: Bytes, now: int)
    requires Lawful(f)
    requires AesKeySizeOk(s.config.cryptKey)
    requires sessionId != [] && Semicolon !in sessionId
    requires NonceSize <= |entropy|
    ensures UnpackHeader(s, f, PackHeader(s, f, sessionId, issued, entropy), now)
         == if now < Expire(issued, s.config.maxAge) then sessionId else []
  {
  }

  /** The round trip in the validity window [issued, issued + MaxAge seconds). */
  lemma RoundTripInWindow(s: Session, f: Foreign, sessionId: Bytes, issued: int, entropy: Bytes, now: int)
    requires Lawful(f)
    requires AesKeySizeOk(s.config.cryptKey)
    requires sessionId != [] && Semicolon !in sessionId
    requires NonceSize <= |entropy|
    requires 0 < s.config.maxAge as int <= MaxAgeNoWrap
    requires issued <= now < issued + s.config.maxAge as int * Second
    ensures UnpackHeader(s, f, PackHeader(s, f, sessionId, issued, entropy), now) == sessionId
  {
  }

  /** Expiry is strict: at the expiry instant itself the token is rejected. */
  lemma ExpiredAtBoundary(s: Session, f: Foreign, sessionId: Bytes, issued: int, entropy: Bytes)
    requires Lawful(f)
    requires AesKeySizeOk(s.config.cryptKey)
    requires sessionId != [] && Semicolon !in sessionId
    requires NonceSize <= |entropy|
    ensures UnpackHeader(s, f, PackHeader(s, f, sessionId, issued, entropy), Expire(issued, s.config.maxAge)) == []
  {
  }

  /** A session from NewSession issues a token for every non-empty id when the
      random source delivers a nonce, and that token opens to the id. */
  lemma ConfiguredSessionRoundTrip(opt: Options, f: Foreign, sessionId: Bytes, issued: int, entropy: Bytes, now: int)
    requires Lawful(f)
    requires NewSession(Some(opt)).Some?
    requires sessionId != [] && Semicolon !in sessionId
    requires NonceSize <= |entropy|
    requires now < Expire(issued, opt.maxAge)
    ensures var s := NewSession(Some(opt)).value;
      && PackHeader(s, f, sessionId, issued, entropy) != []
      && UnpackHeader(s, f, PackHeader(s, f, sessionId, issued, entropy), now) == sessionId
  {
  }

  /** The empty token unpacks to the empty id: it decodes to no bytes, which is
      shorter than a nonce. */
  lemma UnpackEmptyToken(s: Session, f: Foreign, now: int)
    requires Lawful(f)
    ensures UnpackHeader(s, f, [], now) == []
  {
    assert f.b64.decode(f.b64.encode([])) == ([], true);
  }

  /** The base64 error is ignored: a string whose decoding fails after yielding
      the bytes of a packed token (such as that token followed by "!") is
      accepted like the token itself. */
  lemma DecodeErrorIgnored(s: Session, f: Foreign, sessionId: Bytes, issued: int, entropy: Bytes,
                           now: int, garbled: Bytes)
    requires Lawful(f)
    requires AesKeySizeOk(s.config.cryptKey)
    requires sessionId != [] && Semicolon !in sessionId
    requires NonceSize <= |entropy|
    requires f.b64.decode(garbled) == (f.b64.decode(PackHeader(s, f, sessionId, issued, entropy)).0, false)
    requires now < Expire(issued, s.config.maxAge)
    ensures UnpackHeader(s, f, garbled, now) == sessionId
  {
    UnpackPack(s, f, sessionId, issued, entropy, now);
  }

  /** Packing never gives two sessions the same token, whatever the issue times
      and nonces: a token determines the one id it unpacks to. */
  lemma DistinctSessionsDistinctTokens(s: Session, f: Foreign, id1: Bytes, id2: Bytes,
                                       issued1: int, issued2: int, entropy1: Bytes, entropy2: Bytes)
    requires Lawful(f)
    requires AesKeySizeOk(s.config.cryptKey)
    requires id1 != [] && Semicolon !in id1 && NonceSize <= |entropy1|
    requires id2 != [] && Semicolon !in id2 && NonceSize <= |entropy2|
    requires id1 != id2
    ensures PackHeader(s, f, id1, issued1, entropy1) != PackHeader(s, f, id2, issued2, entropy2)
  {
  }

  /** Whatever token unpackHeader accepts carries a nonce followed by the seal,
      under the configured key, of `id ; e` where e decodes to an instant after now. */
  lemma AcceptedTokenIsSealed(s: Session, f: Foreign, token: Bytes, now: int)
    requires GcmLaws(f.gcm)
    requires UnpackHeader(s, f, token, now) != []
    ensures var data := f.b64.decode(token).0;
      var id := UnpackHeader(s, f, token, now);
      && AesKeySizeOk(s.config.cryptKey) && NonceSize <= |data|
      && exists rest ::
        && f.gob.decode(rest).Some? && now < f.gob.decode(rest).value
        && data[NonceSize..] == f.gcm.seal(s.config.cryptKey, data[..NonceSize], id + [Semicolon] + rest)
  {
    var data := f.b64.decode(token).0;
    var header := DecryptSessionData(s.config.cryptKey, f.gcm, data).value;
    var parsed := ParseRecord(header, f.gob).value;
    var n := |parsed.0|;
    var rest := header[n + 1..];
    assert header == parsed.0 + [Semicolon] + rest by {
      assert header == header[..n] + [header[n]] + header[n + 1..];
    }
  }

  /** A larger MaxAge can wrap to a short positive duration: MaxAge = 18446744074
      seconds is 2^64 + 290448384 nanoseconds, so the token lives 0.29 seconds. */
  lemma ExpireWrapsToShortSpan(now: int)
    ensures Expire(now, 18_446_744_074 as int64) == now + 290_448_384
  {
    assert 18_446_744_074 * Second == 18_446_744_074_000_000_000;
    assert WrapInt64(18_446_744_074_000_000_000) as int == 290_448_384;
  }

  /** A MaxAge one past MaxAgeNoWrap wraps to a negative duration: every token
      issued under it has already expired when it is issued. */
  lemma ExpireWrapsPastNoWrapBound(now: int)
    ensures Expire(now, (MaxAgeNoWrap + 1) as int64) == now - 9_223_372_036_709_551_616
    ensures Expire(now, (MaxAgeNoWrap + 1) as int64) < now
  {
  }
}
