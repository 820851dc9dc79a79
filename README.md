# goETS session token codec, modelled in Dafny

goETS is a session middleware applying the Encrypted Token Pattern from the OWASP CSRF Prevention Cheat Sheet. It keeps no session state on the server. The session id and its expiry travel in the `Session` header as a token: base64 of `nonce ++ AES-256-GCM-Seal(nonce, sessionId ++ ";" ++ GobEncode(expire))`.

This project models `session.go` and proves properties of the model:

- `primitives.dfy` (module `Primitives`): bytes, Go's `int64`, and the library calls kept abstract. These are AES-GCM `Seal`/`Open`, base64 and the Gob encoding of `time.Time`. Each is a record of functions with its laws stated as a ghost predicate (`GcmLaws`, `Base64Laws`, `GobLaws`). The GCM laws are: Open inverts Seal; Seal adds a 16-byte tag; a ciphertext shorter than a tag never opens; whatever opens is the seal of its plaintext. The base64 laws are that decoding inverts encoding, that a non-empty input never encodes to empty, and that the empty input encodes to empty. The Gob law is that decoding inverts encoding. Lemmas take these laws as preconditions. `Witness` is a toy instance, and `WitnessIsLawful` proves the laws can all hold at once.
- `codec.dfy` (module `Codec`): `NewSession`, the expiry computation, the record, the framing, `packHeader` and `unpackHeader`, and the round-trip and expiry lemmas.
- `middleware.dfy` (module `Middleware`): `ServeHTTP`. The per-request store is a `RequestContext` object with a `map` field. The response writer is a `ResponseWriter` object with a header map. The next handler is a function over the store and the response header. `Serve` is the specification that `ServeHTTP` is proved against.
- `as_written.dfy` (module `AsWritten`): two failure paths exactly as the source has them (see Findings).

Instants are integers counting nanoseconds. The clock is a parameter: `now` for the codec, and `clockIn`/`clockOut` for the two readings `ServeHTTP` makes. The random source is a parameter `entropy`, the byte stream `io.ReadFull` would read. `MaxAge` is an `int64`. The conversion `time.Duration(MaxAge) * time.Second` wraps as Go's int64 arithmetic does (`WrapInt64`). Session ids and tokens are byte strings, as Go strings are.

The model follows session.go, with two exceptions besides those listed under "## Left out": the two panics listed under Findings. It replaces both with the empty result. The expiry is encoded with `time.Time.GobEncode`. Other behaviours of the code that the model keeps:
- The store is not always cleared. If the handler removes the entry, the type assertion at session.go:66 panics before `context.Clear`, since there is no `defer`. `Serve` returns `completed = false` for that path. The store is then left as the handler left it, and no token is added.
- A `Session` value is always added to the response header map, even when it is the empty string.
- `MaxAge` is not validated; zero and negative values are accepted. The duration is MaxAge·10^9 nanoseconds reduced to signed 64 bits, so a large MaxAge can wrap. The resulting duration can be negative, zero or a short positive span. `ExpireWrapsPastNoWrapBound` shows a wrap to before the issue time, and `ExpireWrapsToShortSpan` shows a wrap to 0.29 seconds.

## Model

| member | source | states |
|---|---|---|
| Codec.NewSession | session.go:42-47 | succeeds exactly when options are present and the key is 32 bytes; the session then holds exactly those options, and its key is one AES accepts |
| Codec.WrapInt64 | session.go:81 | the result is the int64 congruent to the input modulo 2^64, and equals it when it is already in range |
| Codec.Expire | session.go:81-82 | the expiry is issue time plus MaxAge seconds whenever \|MaxAge\| <= 9223372036 (the product fits in int64), and is after the issue time when 0 < MaxAge <= 9223372036; beyond that the duration wraps |
| Codec.Record | session.go:89 | the record is the id, then `;` at position \|id\|, then the encoded expiry |
| Codec.IndexByte | session.go:116 | the result is the first position of the byte, or None exactly when the byte does not occur |
| Codec.ParseRecord | session.go:116-121 | an accepted header splits at its first `;` into a separator-free id and a part decoding to the expiry; a header without `;` is rejected |
| Codec.RandBytes | session.go:191-198 | succeeds exactly when the source has `size` bytes, and returns those first `size` bytes |
| Codec.EncryptSessionData | session.go:134-154 | succeeds exactly when AES accepts the key and a nonce can be read; the output is that nonce followed by Seal(nonce, header) |
| Codec.DecryptSessionData | session.go:160-186 | rejects a bad key and input shorter than the nonce; whatever it returns is the plaintext whose seal follows the nonce |
| Codec.PackHeader | session.go:76-98 | the empty id gives the empty token; a bad key or failed nonce read gives the empty token; otherwise the token is non-empty |
| Codec.UnpackHeader | session.go:105-128 | a returned id never contains the separator |
| Codec.FramingOfDecrypt | session.go:173-181 | for any 12-byte nonce and any ciphertext, decryptSessionData opens exactly that ciphertext under exactly that nonce |
| Codec.SealedLength | session.go:146-153 | sealed bytes are nonce, ciphertext and tag: 12 + \|header\| + 16 bytes |
| Codec.DecryptEncrypt | session.go:134-186 | decryptSessionData inverts encryptSessionData |
| Codec.FirstSeparatorOfRecord | session.go:116 | the first `;` of a record is the one after the id, even if the encoded expiry contains `;` |
| Codec.ParseRecordOfRecord | session.go:116-121 | parsing a record recovers the id and the expiry for every id without `;` |
| Codec.OpenPackedToken | session.go:81-92 | opening a packed token gives exactly the record with expiry = issue time + MaxAge, independent of decode time |
| Codec.UnpackPack | session.go:105-128 | unpack(pack(id)) is id strictly before the expiry and empty from the expiry on |
| Codec.RoundTripInWindow | session.go:76-128 | for 0 < MaxAge without wrap, unpack at any time in [issue, issue + MaxAge s) returns the packed id |
| Codec.ExpiredAtBoundary | session.go:123-127 | at the expiry instant itself the token is rejected |
| Codec.ConfiguredSessionRoundTrip | session.go:42-47 | a session built by NewSession issues a non-empty token for a non-empty id, and that token unpacks to the id |
| Codec.UnpackEmptyToken | session.go:105-112 | the empty token unpacks to the empty id |
| Codec.DecodeErrorIgnored | session.go:108-109 | a string whose base64 decoding fails after yielding the bytes of a packed token unpacks to that token's id before its expiry |
| Codec.DistinctSessionsDistinctTokens | session.go:76-98 | two different ids never pack to the same token, whatever the issue times and nonces |
| Codec.AcceptedTokenIsSealed | session.go:105-128 | any accepted token carries a nonce and the seal of `id ; e` under the configured key, where e decodes to an instant after now |
| Codec.ExpireWrapsToShortSpan | session.go:81 | for MaxAge = 18446744074 the duration wraps to 290448384 ns, so the token lives only 0.29 seconds |
| Codec.ExpireWrapsPastNoWrapBound | session.go:81 | for MaxAge = 9223372037 the duration wraps and the expiry lies before the issue time |
| Middleware.HeaderGet | session.go:55 | returns the first value under the name, or empty when there is none |
| Middleware.HeaderAdd | session.go:66 | appends the value under the name and leaves the other names unchanged |
| Middleware.RequestContext.Set | session.go:57-59 | the store maps the key to the value, other entries unchanged |
| Middleware.RequestContext.Get | session.go:66 | returns the entry exactly when the key is present (None where the type assertion panics) |
| Middleware.RequestContext.Clear | session.go:69 | the store is empty afterwards |
| Middleware.ResponseWriter.AddHeader | session.go:66 | the response header gains the value under the name |
| Middleware.Inbound | session.go:55-60 | an empty Session header publishes the empty id; otherwise the published id is unpackHeader of the header |
| Middleware.Serve | session.go:53-70 | the handler sees the published id; if the entry survives, the packed token is appended and the store cleared, otherwise the state is left as the handler left it |
| Middleware.ServeHTTP | session.go:53-70 | the new store, response header and completion flag are those of Serve on the old state |
| Middleware.HandlerSeesInbound | session.go:53-70 | with a handler that changes nothing, the last Session value is the packed inbound id and the store is cleared |
| Middleware.NoHeaderNoSession | session.go:55-57 | a request without a Session header ends with an empty Session value appended |
| Middleware.SessionCarriesAcrossRequests | session.go:53-70 | a handler that sets an id yields a response header that publishes that id on the next request, before the expiry |
| AsWritten.DecryptSessionDataAsWritten | session.go:160-186 | panics exactly when Open fails on well-framed input; otherwise agrees with DecryptSessionData |
| AsWritten.SplitHeaderAsWritten | session.go:116-118 | panics exactly when the header has no `;`; otherwise splits it at the first `;` |
| AsWritten.UnpackHeaderAsWritten | session.go:105-128 | panics exactly when Open fails on well-framed input or the opened record has no `;`; whenever it returns, it agrees with UnpackHeader |
| AsWritten.ShortCiphertextPanics | session.go:181-184 | the token of twelve zero bytes makes the source panic, while the corrected unpack returns empty |
| AsWritten.RecordWithoutSeparatorPanics | session.go:116-118 | an authentic token whose record is "a" makes the source panic, while the corrected unpack returns empty |

## Left out

- AES-GCM, base64 and Gob time encoding are not modelled internally. They are abstract functions constrained only by the laws in `Primitives`.
- Tamper resistance rests on the unforgeability of GCM tags, which is a computational property. The model proves only the functional part (`AcceptedTokenIsSealed`): an accepted token is the seal of a well-formed, unexpired record under the key.
- GCM's panic on a nonce of the wrong length is not modelled. The nonce is always NonceSize bytes here.
- Nonce freshness and uniqueness are up to the random source. The model does not state them: the nonce is whatever the `entropy` parameter delivers.
- `randBytes` fills its freshly made buffer through `io.ReadFull`. The model states the outcome as a function of the input stream and does not model the buffer in place.
- The `GobEncode` error at session.go:84-87 is not modelled. `TimeGob.encode` is total; in Go it fails only for unusual zone offsets.
- Time arithmetic in `time.Time.Add` is modelled on unbounded integers. Only the int64 Duration product wraps.
- The monotonic clock reading is not modelled. Instants are wall-clock nanoseconds.
- Options are a value. The source's `*Options` pointer can be mutated by the caller after `NewSession`; that aliasing is not modelled.
- Concurrency is not modelled. The process-wide gorilla/context map is replaced by one store per request.
- Store values of a type other than string are not modelled; the type assertion's panic on them is outside the model. Only the missing entry is modelled.
- Header name canonicalisation in net/http is not modelled.
- net/http ignores header changes made after the handler's first `Write` or `WriteHeader`. The model does not capture that. session.go:66 adds `Session` only after `next` returns, so when the handler writes a body the token never reaches the client. The model's response header is the map as it stands after `ServeHTTP` returns, not the headers actually sent. `SessionCarriesAcrossRequests` therefore describes a handler that writes no body.
- A panic inside the next handler is not modelled.
- The unused constant `nonceSize = 24` (session.go:28) is not modelled. It disagrees with the 12-byte GCM nonce that is actually used, but no code reads it.
- The base64 decode error at session.go:108 is overwritten without being checked. The model keeps that behaviour: `UnpackHeader` uses the decoded bytes whatever the success flag says. A string that fails to decode is still accepted when the bytes decoded before the error form an authentic token, for example a valid token followed by `!` (`DecodeErrorIgnored`).
- The tests in example_test.go and session_test.go contain only wiring and assert nothing.

## Findings

| source | as written | input that shows it | evidently intended | confidence | as-written member | corrected member |
|---|---|---|---|---|---|---|
| session.go:181-184 | a failed `gcm.Open` calls `panic(err)` | the token base64 of twelve zero bytes (`AAAAAAAAAAAAAAAA`): a nonce with an empty ciphertext, shorter than a tag | return `(nil, false)`, so unpackHeader returns the empty id | high; not executed | AsWritten.ShortCiphertextPanics | Codec.DecryptSessionData |
| session.go:116-118 | `splitHeader[1]` is read without checking that SplitN found a `;` | an authentic token whose record is the byte string "a" | reject the record, so unpackHeader returns the empty id | high that it panics; only a key holder can produce such a token; not executed | AsWritten.RecordWithoutSeparatorPanics | Codec.ParseRecord |
