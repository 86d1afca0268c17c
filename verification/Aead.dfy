/**
 The cryptographic primitives, taken as functions with the laws the stream
 format depends on.
 */
module Aead {
  import opened Bytes

  const TAG_SIZE: nat := 16
  const NONCE_SIZE: nat := 12
  const SALT_SIZE: nat := 16

  /** AES-256-GCM under one fixed key: arguments are the nonce and the text. */
  datatype Cipher = Cipher(seal: (Bytes, Bytes) -> Bytes, open: (Bytes, Bytes) -> Option<Bytes>) {

    /** Sections 7.1 and 7.2 of NIST SP 800-38D: the tag is 16 bytes, and opening what was sealed gives it back. */
    ghost predicate Sound() {
      forall nonce, text ::
        && |seal(nonce, text)| == |text| + TAG_SIZE
        && open(nonce, seal(nonce, text)) == Some(text)
    }
  }

  /** Argon2id under one master key: the cipher a salt selects (section 3 of RFC 9106). */
  type KeyDerivation = Bytes -> Cipher

  ghost predicate AllSound(derive: KeyDerivation) {
    forall salt :: derive(salt).Sound()
  }

  /** A concrete cipher meeting the laws, so that they are consistent. */
  const PADDING: Cipher := Cipher(
    (nonce, text) => text + seq(TAG_SIZE, _ => 0),
    (nonce, sealed) => if |sealed| < TAG_SIZE then None else Some(sealed[..|sealed| - TAG_SIZE]))

  lemma LawsAreConsistent()
    ensures AllSound(salt => PADDING)
  {
    forall nonce: Bytes, text: Bytes
      ensures |PADDING.seal(nonce, text)| == |text| + TAG_SIZE
      ensures PADDING.open(nonce, PADDING.seal(nonce, text)) == Some(text)
    {
      var sealed := PADDING.seal(nonce, text);
      assert sealed[..|sealed| - TAG_SIZE] == text;
    }
  }
}
