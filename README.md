# Utility packages: envelope encryption, error chains, response envelope, memory cache

A Dafny model of the logic in four small Go packages of a utility library:

- `encrypt`: AES-256-GCM envelopes. `Encrypt` checks that the key has 32
  bytes, draws a 12-byte nonce from the secure random reader, seals the
  plaintext, and returns `base64(nonce ++ ciphertext ++ tag)`. `Decrypt`
  undoes this. Its checks run in a fixed order: key length, base64 decoding,
  "too short", then open. `GenerateKey` draws 32 random bytes.
- `errors`: `Wrap` adds context to an error and keeps nil as nil. `Cause`
  follows the unwrap chain to its root.
- `response`: the JSON envelope `{code, message, request_id, data}`. An empty
  message gets a default chosen by code, a zero HTTP status becomes 200, and
  the request id comes from the request context. `Success`, `Warn` and
  `Error` are presets over it.
- `cache`: `MemoryCache`, a string-keyed map with `Get` and `Set`.

Modelling choices:

- `Aead.Aead` is the authenticated cipher that AES-256 in GCM mode provides.
  It is a parameter and is known only through `Aead.Lawful`:
  - sealing adds exactly a 16-byte tag;
  - opening what was sealed under the same key and nonce gives back the
    plaintext;
  - an open that succeeds had a tag to consume (GCM refuses input shorter
    than its tag).
- `Aead.ZeroTag` is a toy cipher that meets these laws. It shows the laws
  are consistent.
- The secure random reader is the parameter `entropy`: the bytes it delivers
  before it fails. `io.ReadFull` of `n` bytes succeeds exactly when at least
  `n` bytes are available.
- `Base64` is padded standard base64 (section 4 of RFC 4648), written out the
  way Go's `base64.StdEncoding` behaves. The decoder ignores `\r` and `\n`.
  It does not check the unused low bits of a padded final group, since the
  encoding is not in strict mode.
- A Go `error` is `Option<Errors.Error>`, with `None` for nil. Go's
  `interface{}` values are `Dynamic.Value`.
- The request context is the class `Response.Context`. It holds the
  request's key/value store and the log of `(status, body)` replies written
  by `c.JSON`.

Two facts about the Go code shape the error model:
- bad base64 and a too-short input give different errors
  (`Base64DecodeFailed`, `CiphertextTooShort`);
- `StdEncoding` skips `\r` and `\n` and accepts non-zero trailing bits in a
  padded final group.

## Model

| member | source | states |
|---|---|---|
| `Base64.Encode` | encrypt/encrypt.go:33 | the encoding has 4 characters per started group of 3 bytes |
| `Base64.Char` | encrypt/encrypt.go:33 | every 6-bit value maps to an alphabet character, and decoding that character gives the value back |
| `Base64.DecodeEncode` | encrypt/encrypt.go:33 | decoding the encoding of any bytes gives back those bytes |
| `Base64.Decode` | encrypt/encrypt.go:41-44 | decoding succeeds exactly when the input, with line breaks removed, is well padded: a multiple of 4 characters, all from the alphabet except the last two may be `=` (`x=` or `==`) |
| `Base64.DecodeGroupsSucceeds` | encrypt/encrypt.go:41-44 | the same as above for a string that has no line breaks, both directions |
| `Base64.StripLineBreaks` | encrypt/encrypt.go:41 | the decoder's input has no line breaks left, and a string without line breaks is passed through unchanged |
| `Base64.StripConcat` | encrypt/encrypt.go:41 | removing line breaks from a concatenation removes them from each part |
| `Base64.StripKeeps` | encrypt/encrypt.go:41 | a line break is dropped and any other character is kept, in its place |
| `Base64.DecodeIgnoresLineBreak` | encrypt/encrypt.go:41 | a carriage return or line feed anywhere in the input does not change what it decodes to |
| `Aead.ZeroTag` | encrypt/encrypt.go:31 | the AEAD laws (seal adds a 16-byte tag, open undoes seal, a successful open consumed a tag) can be met |
| `Encrypt.ReadFull` | encrypt/encrypt.go:27-30 | reading n random bytes succeeds exactly when n are available, and then yields the next n bytes |
| `Encrypt.Frame` | encrypt/encrypt.go:32 | the framed bytes are the nonce followed by the sealed plaintext, in that order and with nothing else |
| `Encrypt.Encrypt` | encrypt/encrypt.go:15-34 | the key error comes exactly when the key is not 32 bytes, whatever the plaintext; with a 32-byte key it fails with the nonce error exactly when randomness runs out; no other error is possible |
| `Encrypt.EncryptFrame` | encrypt/encrypt.go:27-33 | a successful envelope decodes to `nonce ++ Seal(key, nonce, plaintext)`, and its first 12 bytes are the nonce drawn |
| `Encrypt.EncryptLength` | encrypt/encrypt.go:27-33 | the decoded envelope has 12 + n + 16 bytes for a plaintext of n bytes, and the encoded string has 4 * ceil((12 + n + 16) / 3) characters |
| `Encrypt.Decrypt` | encrypt/encrypt.go:37-63 | the key check comes first: the key error comes exactly when the key is not 32 bytes; with a 32-byte key, the base64 error comes exactly for invalid base64 and the too-short error exactly for data under 12 bytes; otherwise the split (first 12 bytes as nonce, rest as sealed) is opened, and Decrypt returns exactly the plaintext open gives, or only the decryption error when open fails |
| `Encrypt.DecryptEncrypt` | encrypt/encrypt.go:31-33 | with a 32-byte key and enough randomness, decrypting the envelope gives back the plaintext, the empty one included |
| `Encrypt.DecryptNonceOnly` | encrypt/encrypt.go:53-61 | data of exactly 12 bytes passes the length check; its sealed part is empty, so open fails and Decrypt returns the decryption error |
| `Encrypt.DecryptLength` | encrypt/encrypt.go:57-62 | a returned plaintext is 28 bytes shorter than the decoded envelope |
| `Encrypt.GenerateKey` | encrypt/encrypt.go:66-72 | success exactly when 32 random bytes are available, and then the key is exactly those 32 bytes; otherwise only the key-generation error |
| `Encrypt.HelloScenario` | encrypt/encrypt.go:15-63 | with a zero key, "hello" gives a 44-character envelope that decrypts to "hello"; a 31-byte key is refused with the key error |
| `Errors.Unwrap` | errors/errors.go:18 | unwrapping nil gives nil; unwrapping shortens the chain by exactly one |
| `Errors.Chain` | errors/errors.go:17-25 | the unwrap chain has as many errors as the chain depth |
| `Errors.Wrap` | errors/errors.go:9-14 | nil stays nil for every message; otherwise the result unwraps to exactly the error given, its text is `msg + ": " + text of err`, and the chain grows by one |
| `Errors.Root` | errors/errors.go:17-25 | the root wraps nothing, is nil exactly for nil, and is the last error of the unwrap chain |
| `Errors.Cause` | errors/errors.go:17-25 | the loop terminates on every finite chain and returns the root |
| `Errors.RootOfUnwrapped` | errors/errors.go:19-21 | an error that wraps nothing is its own cause; the cause of nil is nil |
| `Errors.RootOfWrap` | errors/errors.go:9-25 | wrapping an error does not change its cause |
| `Errors.RootIdempotent` | errors/errors.go:17-25 | the cause of the cause is the cause |
| `Errors.RootOnChain` | errors/errors.go:17-25 | the cause is on the chain at the last position and at no other |
| `Response.RequestID` | response/response.go:34-41 | the "request_id" entry when it holds a string, "" when it is missing or holds anything else |
| `Response.DefaultMessage` | response/response.go:46-55 | a default message is never empty |
| `Response.DefaultMessages` | response/response.go:46-55 | the defaults are "success" for code 0, "warning" for 2, "error" for 1, and "info" for every other code |
| `Response.WithDefaults` | response/response.go:45-60 | an empty message gets the default for its code and a non-empty one is kept; status 0 becomes 200 and any other status is kept; code and data do not change |
| `Response.WithDefaultsIdempotent` | response/response.go:45-60 | filling in the defaults twice is the same as filling them in once |
| `Response.JSON` | response/response.go:44-67 | exactly one reply is written, and the context's store does not change; the body copies code and data, carries the defaulted message and the context's request id, and goes out with the defaulted status |
| `Response.Success` | response/response.go:70-77 | writes code 0 with status 200, and the message defaults to "success" |
| `Response.Warn` | response/response.go:80-87 | writes code 2 with status 200, and the message defaults to "warning" |
| `Response.Error` | response/response.go:90-101 | writes code 1, and the message defaults to "error"; the status is the first extra argument when one is given and is positive, otherwise 500 |
| `Cache.MemoryCache.New` | cache/cache.go:10-12 | a new cache holds no keys |
| `Cache.MemoryCache.Get` | cache/cache.go:14-19 | returns (value, true) for a stored key and (nil, false) for a missing one, and changes nothing |
| `Cache.MemoryCache.Set` | cache/cache.go:21-25 | the key now maps to the new value, replacing any old one; every other key keeps its entry, and no key appears or disappears except this one |
| `Cache.SetThenGet` | cache/cache.go:14-25 | after `Set(k, v)`, `Get(k)` returns (v, true) |
| `Cache.GetAfterNew` | cache/cache.go:10-19 | after `New`, `Get` returns (nil, false) for every key |

## Left out

- AES and GCM themselves. The cipher is the parameter `Aead.Aead`, limited by the laws in `Aead.Lawful`. So nothing here shows that tampering is detected. That is a computational property of GCM, not a law of the model.
- The errors from `aes.NewCipher` and `cipher.NewGCM`. Once the key is known to have 32 bytes they cannot happen, so those branches are dropped.
- `crypto/rand`. The random bytes are an input, and nonce or key uniqueness is not claimed, because it is probabilistic.
- The error texts of the encrypt package, and the library errors they wrap with `fmt.Errorf("...: %w", err)`. Errors are the enumeration `Encrypt.CryptoError`, one constructor per error return.
- `errors.Is` and `errors.As`. Go compares errors by interface identity (pointer equality for wrapped errors), calls `Is`/`As` methods and uses reflection, and none of that is modelled.
- Errors whose `Unwrap` returns several errors, and cyclic chains. The datatype holds only finite single chains.
- The `sync.RWMutex` in the cache. The model is single-threaded.
- The JSON serialisation done by gin's `c.JSON`, and its behaviour when headers were already written. A reply is recorded as `(status, body)`.
- The logger package (file and console output, a global singleton, request-timing and panic-recovery middleware), the HTTP client package (network, URL parsing, JSON and timeouts) and the environment lookup in the config package. They are I/O with no logic of their own to model.
