/**
 * Symbolic authenticated encryption: a ciphertext opens only under its own key and
 * associated data, a sealed box only with the recipient's private key, the sender's
 * public key and its own associated data. Keys are byte strings.
 */
module Crypto {
  import opened Prelude

  type Key = seq<bv8>

  /** The slot a ciphertext is bound to. */
  datatype Aad =
    | VaultKeyAad(vaultId: int, keyVersion: nat)
    | PreviousVaultKeyAad(vaultId: int, keyVersion: nat)
    | VaultKeySealAad(vaultId: int, keyVersion: nat)

  /** The public half of the keypair with this private key. */
  datatype PublicKey = PublicKey(privateKey: Key)

  datatype Cipher =
    | Aead(key: Key, aad: Aad, plain: Key)
    | Box(sender: PublicKey, recipient: PublicKey, aad: Aad, plain: Key)

  function Decrypt(key: Key, cipher: Cipher, aad: Aad): Option<Key> {
    if cipher.Aead? && cipher.key == key && cipher.aad == aad then Some(cipher.plain) else None
  }

  function Unseal(privateKey: Key, sender: PublicKey, cipher: Cipher, aad: Aad): Option<Key> {
    if cipher.Box? && cipher.recipient == PublicKey(privateKey) && cipher.sender == sender && cipher.aad == aad
    then Some(cipher.plain) else None
  }

  /** A member's own wrap of a vault key under their account key. */
  function WrapVaultKey(accountKey: Key, vaultKey: Key, vaultId: int, keyVersion: nat): Cipher {
    Aead(accountKey, VaultKeyAad(vaultId, keyVersion), vaultKey)
  }

  function UnwrapVaultKey(accountKey: Key, cipher: Cipher, vaultId: int, keyVersion: nat): Option<Key> {
    Decrypt(accountKey, cipher, VaultKeyAad(vaultId, keyVersion))
  }

  /** A vault's key `keyVersion` under the key that replaced it. */
  function WrapPreviousVaultKey(newKey: Key, previousKey: Key, vaultId: int, keyVersion: nat): Cipher {
    Aead(newKey, PreviousVaultKeyAad(vaultId, keyVersion), previousKey)
  }

  function UnwrapPreviousVaultKey(newerKey: Key, cipher: Cipher, vaultId: int, keyVersion: nat): Option<Key> {
    Decrypt(newerKey, cipher, PreviousVaultKeyAad(vaultId, keyVersion))
  }

  function SealVaultKey(senderPrivateKey: Key, recipient: PublicKey, vaultKey: Key, vaultId: int, keyVersion: nat): Cipher {
    Box(PublicKey(senderPrivateKey), recipient, VaultKeySealAad(vaultId, keyVersion), vaultKey)
  }

  function OpenSealedVaultKey(privateKey: Key, sender: PublicKey, cipher: Cipher, vaultId: int, keyVersion: nat): Option<Key> {
    Unseal(privateKey, sender, cipher, VaultKeySealAad(vaultId, keyVersion))
  }
}
