/**
 * AES-256-GCM envelopes: `base64(nonce ++ Seal(key, nonce, plaintext))`.
 * The cipher is a lawful Aead; the bytes the secure random reader would
 * deliver before failing are the parameter `entropy`.
 */
module Encrypt {
  import opened Wrappers
  import opened Bytes
  import opened Aead
  import Base64

  datatype CryptoError =
    | InvalidKeyLength
    | NonceGenerationFailed
    | Base64DecodeFailed
    | CiphertextTooShort
    | DecryptionFailed
    | KeyGenerationFailed

  /**
   * `io.ReadFull(rand.Reader, buf)` with `len(buf) == n`: either the buffer is
   * filled with the next n bytes of the source, or there is an error and no bytes.
   */
  function ReadFull(entropy: seq<byte>, n: nat): (r: Option<seq<byte>>)
    ensures r.Some? <==> n <= |entropy|
    ensures r.Some? ==> |r.value| == n && entropy == r.value + entropy[n..]
  {
    if |entropy| < n then None else Some(entropy[..n])
  }

  /** The framed bytes before encoding: the nonce, then the sealed plaintext with its tag. */
  function Frame(g: Aead, plaintext: seq<byte>, key: seq<byte>, nonce: seq<byte>): (f: seq<byte>)
    ensures |f| == |nonce| + |g.seal(key, nonce, plaintext)|
    ensures f[..|nonce|] == nonce && f[|nonce|..] == g.seal(key, nonce, plaintext)
  {
    nonce + g.seal(key, nonce, plaintext)
  }

  /** `Encrypt(plaintext, key)`. */
  function Encrypt(g: Aead, plaintext: seq<byte>, key: seq<byte>, entropy: seq<byte>): (r: Result<string, CryptoError>)
    ensures r == Failure(InvalidKeyLength) <==> |key| != KeySize
    ensures r == Failure(NonceGenerationFailed) <==> |key| == KeySize && |entropy| < NonceSize
    ensures r.Failure? ==> r.error == InvalidKeyLength || r.error == NonceGenerationFailed
  {
    if |key| != KeySize then Failure(InvalidKeyLength)
    else match ReadFull(entropy, NonceSize)
      case None => Failure(NonceGenerationFailed)
      case Some(nonce) => Success(Base64.Encode(Frame(g, plaintext, key, nonce)))
  }

  /** `Decrypt(ciphertextB64, key)`. */
  function Decrypt(g: Aead, ciphertextB64: string, key: seq<byte>): (r: Result<seq<byte>, CryptoError>)
    ensures r == Failure(InvalidKeyLength) <==> |key| != KeySize
    ensures r == Failure(Base64DecodeFailed) <==> |key| == KeySize && !Base64.IsValid(ciphertextB64)
    ensures r == Failure(CiphertextTooShort) <==>
      |key| == KeySize && Base64.Decode(ciphertextB64).Some? && |Base64.Decode(ciphertextB64).value| < NonceSize
    ensures (|key| == KeySize && Base64.Decode(ciphertextB64).Some? &&
             NonceSize <= |Base64.Decode(ciphertextB64).value|) ==>
      var data := Base64.Decode(ciphertextB64).value;
      match g.open(key, data[..NonceSize], data[NonceSize..])
      case Some(plaintext) => r == Success(plaintext)
      case None => r == Failure(DecryptionFailed)
    ensures r.Success? ==>
      |key| == KeySize && Base64.Decode(ciphertextB64).Some? &&
      var data := Base64.Decode(ciphertextB64).value;
      NonceSize <= |data| && g.open(key, data[..NonceSize], data[NonceSize..]) == Some(r.value)
    ensures r == Failure(DecryptionFailed) ==>
      |key| == KeySize && Base64.Decode(ciphertextB64).Some? &&
      var data := Base64.Decode(ciphertextB64).value;
      NonceSize <= |data| && g.open(key, data[..NonceSize], data[NonceSize..]).None?
    ensures r.Failure? ==> r.error != NonceGenerationFailed && r.error != KeyGenerationFailed
  {
    if |key| != KeySize then Failure(InvalidKeyLength)
    else match Base64.Decode(ciphertextB64)
      case None => Failure(Base64DecodeFailed)
      case Some(data) =>
        if |data| < NonceSize then Failure(CiphertextTooShort)
        else
          var nonce, sealed := data[..NonceSize], data[NonceSize..];
          match g.open(key, nonce, sealed)
          case None => Failure(DecryptionFailed)
          case Some(plaintext) => Success(plaintext)
  }

  /** `GenerateKey()`: 32 bytes from the secure random reader, or an error. */
  function GenerateKey(entropy: seq<byte>): (r: Result<seq<byte>, CryptoError>)
    ensures r.Success? <==> KeySize <= |entropy|
    ensures r.Success? ==> |r.value| == KeySize && r.value == entropy[..KeySize]
    ensures r.Failure? ==> r.error == KeyGenerationFailed
  {
    match ReadFull(entropy, KeySize)
    case None => Failure(KeyGenerationFailed)
    case Some(key) => Success(key)
  }

  /**
   * A successful Encrypt is the encoding of the nonce drawn followed by the
   * sealed plaintext, and its first NonceSize decoded bytes are that nonce.
   */
  lemma EncryptFrame(g: Aead, plaintext: seq<byte>, key: seq<byte>, entropy: seq<byte>)
    requires |key| == KeySize && NonceSize <= |entropy|
    ensures Encrypt(g, plaintext, key, entropy).Success?
    ensures Base64.Decode(Encrypt(g, plaintext, key, entropy).value) ==
      Some(entropy[..NonceSize] + g.seal(key, entropy[..NonceSize], plaintext))
    ensures Base64.Decode(Encrypt(g, plaintext, key, entropy).value).value[..NonceSize] == entropy[..NonceSize]
  {
    var nonce := entropy[..NonceSize];
    var framed := Frame(g, plaintext, key, nonce);
    Base64.DecodeEncode(framed);
    assert framed[..NonceSize] == nonce;
  }

  /** The envelope holds 12 + |plaintext| + 16 bytes, encoded in 4 characters per started 3. */
  lemma EncryptLength(g: Aead, plaintext: seq<byte>, key: seq<byte>, entropy: seq<byte>)
    requires Lawful(g)
    requires |key| == KeySize && NonceSize <= |entropy|
    ensures Encrypt(g, plaintext, key, entropy).Success?
    ensures Base64.Decode(Encrypt(g, plaintext, key, entropy).value).Some?
    ensures |Base64.Decode(Encrypt(g, plaintext, key, entropy).value).value| == NonceSize + |plaintext| + TagSize
    ensures |Encrypt(g, plaintext, key, entropy).value| == 4 * ((NonceSize + |plaintext| + TagSize + 2) / 3)
  {
    EncryptFrame(g, plaintext, key, entropy);
  }

  /** Decrypting what Encrypt produced under the same key gives the plaintext back. */
  lemma DecryptEncrypt(g: Aead, plaintext: seq<byte>, key: seq<byte>, entropy: seq<byte>)
    requires Lawful(g)
    requires |key| == KeySize && NonceSize <= |entropy|
    ensures Encrypt(g, plaintext, key, entropy).Success?
    ensures Decrypt(g, Encrypt(g, plaintext, key, entropy).value, key) == Success(plaintext)
  {
    var nonce := entropy[..NonceSize];
    var framed := Frame(g, plaintext, key, nonce);
    Base64.DecodeEncode(framed);
    assert framed[..NonceSize] == nonce;
    assert framed[NonceSize..] == g.seal(key, nonce, plaintext);
  }

  /**
   * A well-formed envelope that decodes to exactly the nonce size passes the
   * length check; its sealed part is empty, so opening it fails.
   */
  lemma DecryptNonceOnly(g: Aead, ciphertextB64: string, key: seq<byte>)
    requires Lawful(g)
    requires |key| == KeySize
    requires Base64.Decode(ciphertextB64).Some? && |Base64.Decode(ciphertextB64).value| == NonceSize
    ensures Decrypt(g, ciphertextB64, key) == Failure(DecryptionFailed)
  {
  }

  /** A plaintext Decrypt returns is 28 bytes shorter than the decoded envelope. */
  lemma DecryptLength(g: Aead, ciphertextB64: string, key: seq<byte>)
    requires Lawful(g)
    requires Decrypt(g, ciphertextB64, key).Success?
    ensures |Decrypt(g, ciphertextB64, key).value| + NonceSize + TagSize == |Base64.Decode(ciphertextB64).value|
  {
  }

  /** The bytes of "hello". */
  const Hello: seq<byte> := [104, 101, 108, 108, 111]

  /**
   * With a zero key, "hello" seals to a 44-character envelope whose decryption
   * is "hello", while a 31-byte zero key is refused.
   */
  lemma HelloScenario(g: Aead, entropy: seq<byte>)
    requires Lawful(g)
    requires NonceSize <= |entropy|
    ensures Encrypt(g, Hello, Zeros(KeySize), entropy).Success?
    ensures |Encrypt(g, Hello, Zeros(KeySize), entropy).value| == 44
    ensures Decrypt(g, Encrypt(g, Hello, Zeros(KeySize), entropy).value, Zeros(KeySize)) == Success(Hello)
    ensures Decrypt(g, Encrypt(g, Hello, Zeros(KeySize), entropy).value, Zeros(31)) == Failure(InvalidKeyLength)
  {
    EncryptLength(g, Hello, Zeros(KeySize), entropy);
    DecryptEncrypt(g, Hello, Zeros(KeySize), entropy);
  }
}
