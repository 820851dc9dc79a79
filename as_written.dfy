/**
 * Two paths of session.go modelled as they are written, next to the corrected
 * definitions in Codec that the rest of the model uses. Panicked stands for a
 * Go panic.
 */
module AsWritten {
  import opened Primitives
  import opened Codec

  datatype Outcome<+T> = Returned(value: T) | Panicked

  /** decryptSessionData as written: an Open failure panics instead of returning false. */
  function DecryptSessionDataAsWritten(key: Bytes, gcm: Gcm, data: Bytes): (r: Outcome<Option<Bytes>>)
    ensures r.Panicked? <==> AesKeySizeOk(key) && NonceSize <= |data| && gcm.open(key, data[..NonceSize], data[NonceSize..]).None?
    ensures r.Returned? ==> r.value == DecryptSessionData(key, gcm, data)
  {
    if !AesKeySizeOk(key) || |data| < NonceSize then Returned(None)
    else match gcm.open(key, data[..NonceSize], data[NonceSize..])
      case None => Panicked
      case Some(p) => Returned(Some(p))
  }

  /** strings.SplitN(header, ";", 2) then splitHeader[1]: out of range, and a
      panic, when the header has no separator. */
  function SplitHeaderAsWritten(header: Bytes): (r: Outcome<(Bytes, Bytes)>)
    ensures r.Panicked? <==> Semicolon !in header
    ensures r.Returned? ==> header == r.value.0 + [Semicolon] + r.value.1 && Semicolon !in r.value.0
  {
    match IndexByte(header, Semicolon)
    case None => Panicked
    case Some(i) =>
      assert header == header[..i] + [header[i]] + header[i + 1..];
      Returned((header[..i], header[i + 1..]))
  }

  /** unpackHeader as written, built from the two members above. */
  function UnpackHeaderAsWritten(s: Session, f: Foreign, token: Bytes, now: int): (r: Outcome<Bytes>)
    ensures r.Returned? ==> r.value == UnpackHeader(s, f, token, now)
    ensures var data := f.b64.decode(token).0;
      var plain := DecryptSessionData(s.config.cryptKey, f.gcm, data);
      r.Panicked? <==> DecryptSessionDataAsWritten(s.config.cryptKey, f.gcm, data).Panicked?
                       || (plain.Some? && Semicolon !in plain.value)
  {
    var data := f.b64.decode(token).0;
    match DecryptSessionDataAsWritten(s.config.cryptKey, f.gcm, data)
    case Panicked => Panicked
    case Returned(None) => Returned([])
    case Returned(Some(header)) =>
      match SplitHeaderAsWritten(header)
      case Panicked => Panicked
      case Returned((id, rest)) =>
        assert IndexByte(header, Semicolon) == Some(|id|) by {
          assert header[|id|] == Semicolon;
        }
        match f.gob.decode(rest)
        case None => Returned([])
        case Some(expire) => Returned(if now < expire then id else [])
  }

  /** Twelve zero bytes (base64 "AAAAAAAAAAAAAAAA"): a nonce and an empty
      ciphertext, shorter than a tag, so Open fails and the source panics. */
  lemma ShortCiphertextPanics(s: Session, f: Foreign, now: int)
    requires Lawful(f)
    requires AesKeySizeOk(s.config.cryptKey)
    ensures UnpackHeaderAsWritten(s, f, f.b64.encode(Zeros(NonceSize)), now) == Panicked
    ensures UnpackHeader(s, f, f.b64.encode(Zeros(NonceSize)), now) == []
  {
  }

  /** A token that authenticates but whose record is "a" (no separator): the
      source indexes past the end of SplitN's result. */
  lemma RecordWithoutSeparatorPanics(s: Session, f: Foreign, now: int)
    requires Lawful(f)
    requires AesKeySizeOk(s.config.cryptKey)
    ensures var token := f.b64.encode(Zeros(NonceSize) + f.gcm.seal(s.config.cryptKey, Zeros(NonceSize), [97 as byte]));
      && UnpackHeaderAsWritten(s, f, token, now) == Panicked
      && UnpackHeader(s, f, token, now) == []
  {
  }
}
