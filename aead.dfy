/**
 * The authenticated cipher that `cipher.NewGCM(aes.NewCipher(key))` builds,
 * taken as a parameter: the model knows only the laws below, not AES or GCM.
 */
module Aead {
  import opened Wrappers
  import opened Bytes

  /** AES-256 key size, GCM's standard nonce size and its tag size, in bytes. */
  const KeySize: nat := 32
  const NonceSize: nat := 12
  const TagSize: nat := 16

  /**
   * `Seal(key, nonce, plaintext)` returns ciphertext followed by the tag;
   * `Open(key, nonce, sealed)` returns the plaintext, or None when the tag
   * does not verify. There is no additional data in this library.
   */
  datatype Aead = Aead(
    seal: (seq<byte>, seq<byte>, seq<byte>) -> seq<byte>,
    open: (seq<byte>, seq<byte>, seq<byte>) -> Option<seq<byte>>)

  /**
   * The laws of an authenticated cipher with a 16-byte tag: sealing adds
   * exactly the tag, opening what was sealed under the same key and nonce
   * gives the plaintext back, and an opening that succeeds consumed a tag.
   */
  ghost predicate Lawful(g: Aead)
  {
    (forall k, n, p :: |g.seal(k, n, p)| == |p| + TagSize) &&
    (forall k, n, p :: g.open(k, n, g.seal(k, n, p)) == Some(p)) &&
    (forall k, n, c :: g.open(k, n, c).Some? ==> |c| == |g.open(k, n, c).value| + TagSize)
  }

  /**
   * A cipher that satisfies the laws (its "tag" is sixteen zero bytes and it
   * hides nothing), so Lawful is not a contradiction.
   */
  function ZeroTag(): (g: Aead)
    ensures Lawful(g)
  {
    var g := Aead(
      (k: seq<byte>, n: seq<byte>, p: seq<byte>) => p + Zeros(TagSize),
      (k: seq<byte>, n: seq<byte>, c: seq<byte>) =>
        if |c| >= TagSize && c[|c| - TagSize..] == Zeros(TagSize) then Some(c[..|c| - TagSize]) else None);
    assert forall k, n, p :: g.open(k, n, g.seal(k, n, p)) == Some(p) by {
      forall k, n, p ensures g.open(k, n, g.seal(k, n, p)) == Some(p) {
        var c := p + Zeros(TagSize);
        assert c[|c| - TagSize..] == Zeros(TagSize);
        assert c[..|c| - TagSize] == p;
      }
    }
    g
  }
}
