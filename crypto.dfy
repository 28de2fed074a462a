/** The cryptographic libraries (hdkey, ecpair/secp256k1, bitcoinjs-lib)
    are not modelled: the model receives them as given functions. */
module Crypto {
  import opened Common

  datatype KeyPair = KeyPair(publicKey: seq<Byte>, wif: string)

  datatype Suite = Suite(
    /** `HDKey.fromMasterSeed(seed)` accepts the seed. */
    masterOk: seq<Byte> -> bool,
    /** `hdkey.derive(path).privateKey`; None when derivation throws. */
    hdChild: (seq<Byte>, string) -> Option<seq<Byte>>,
    /** `ECPair.fromPrivateKey(key)`; None when the library rejects the key. */
    keyPair: seq<Byte> -> Option<KeyPair>,
    /** The P2PKH address of a public key on the bitcoin network. */
    p2pkh: seq<Byte> -> string)

  /** The private key at `path` below the master key of `seed`. */
  function ChildKey(c: Suite, seed: seq<Byte>, path: string): Option<seq<Byte>>
  {
    if c.masterOk(seed) then c.hdChild(seed, path) else None
  }

  /** The address a private key controls, or None if the key is rejected. */
  function AddressOfKey(c: Suite, key: seq<Byte>): Option<string>
  {
    match c.keyPair(key)
    case None => None
    case Some(kp) => Some(c.p2pkh(kp.publicKey))
  }

  /** The address at `path` for `seed`: derive, make the key pair, encode. */
  function AddressAt(c: Suite, seed: seq<Byte>, path: string): Option<string>
  {
    match ChildKey(c, seed, path)
    case None => None
    case Some(key) => AddressOfKey(c, key)
  }
}
