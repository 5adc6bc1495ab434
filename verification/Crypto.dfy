/** The cryptography, taken as ideal. An identity is its secret; a public key
    names the secret it belongs to; the exchange of section 6.1 of RFC 7748 is a
    symmetric function of the two; a sealed body opens only on an exact match. */
module Crypto {
  import opened Text

  datatype Identity = Identity(secret: nat) {
    function PublicHalf(): PublicKey { PublicKey(secret) }
  }

  datatype PublicKey = PublicKey(owner: nat)

  /** The message key two identities share. */
  datatype Key = Key(parties: set<nat>)

  /** What travels in a body: readable text, or a ciphertext. */
  datatype Payload =
    | Clear(text: string)
    | Cipher(key: Key, nonce: string, text: string, associated: string)

  function KeyFor(me: Identity, peer: PublicKey): Key {
    Key({me.secret, peer.owner})
  }

  function Seal(key: Key, text: string, associated: string, nonce: string): Payload {
    Cipher(key, nonce, text, associated)
  }

  /** Authenticated opening: the key, the nonce and the sender's name must all match. */
  function Open(key: Key, body: Payload, nonce: string, associated: string): Option<string> {
    if body.Cipher? && body.key == key && body.nonce == nonce && body.associated == associated
    then Some(body.text) else None
  }
}
