/** The private and the public side of key derivation name the same keys. */
module HdAgreement {
  import opened Wrappers
  import opened ByteStrings
  import opened KeyRefs
  import opened HdDerive

  /** The public state that belongs to a private one. */
  function Neuter<P>(c: Crypto<P>, s: KeyState): PublicState
    requires ValidKeyState(s)
  {
    PublicState(c.compress(c.baseMult(Number(s.key))), s.chainCode)
  }

  /** One normal level: deriving privately and then publishing equals publishing and then deriving. */
  lemma ChildCommutes<P(!new)>(c: Crypto<P>, s: KeyState, index: uint32)
    requires Lawful(c) && ValidKeyState(s) && index < HARDENED
    requires SecpChild(c, s, index).Success?
    ensures ValidKeyState(SecpChild(c, s, index).value)
    ensures SecpChildPublic(c, Neuter(c, s), index) == Success(Neuter(c, SecpChild(c, s, index).value))
  {
    var d := Number(s.key);
    var sum := c.hmac(s.chainCode, ChildData(c, s.key, d, index));
    var tweak := Number(sum[..32]);
    var child := (tweak + d) % N;
    ScalarBytesRoundTrip(child);
    assert c.decompress(c.compress(c.baseMult(d))) == Some(c.baseMult(d));
    assert c.add(c.baseMult(tweak), c.baseMult(d)) == Some(c.baseMult(child));
  }

  /** Two normal levels below an account. */
  lemma AccountChildCommutes<P(!new)>(c: Crypto<P>, account: KeyState, change: uint32, index: uint32)
    requires Lawful(c) && ValidKeyState(account) && change < HARDENED && index < HARDENED
    requires SecpWalk(c, account, [change, index]).Success?
    ensures var leaf := SecpWalk(c, account, [change, index]).value;
            && ValidKeyState(leaf)
            && ChildFromAccount(c, Neuter(c, account), change, index) ==
               Success(PublicHex(c, c.baseMult(Number(leaf.key))))
  {
    assert [change, index][1..] == [index] && [index][1..] == [];
    var mid := SecpChild(c, account, change).value;
    ChildCommutes(c, account, change);
    assert SecpWalk(c, account, [change, index]) == SecpWalk(c, mid, [index]);
    var leaf := SecpChild(c, mid, index).value;
    assert SecpWalk(c, mid, [index]) == SecpWalk(c, leaf, []);
    ChildCommutes(c, mid, index);
    assert c.compress(c.baseMult(Number(leaf.key))) != [];
  }

  /** The hex public key pair of a hex private key. */
  function PublicHexOf<P>(c: Crypto<P>, privateKeyHex: string): Option<(string, string)> {
    match HexDecode(privateKeyHex)
    case None => None
    case Some(key) =>
      match ToScalar(key)
      case None => None
      case Some(d) => Some(PublicHex(c, c.baseMult(d)))
  }

  lemma ScalarOfLeaf(s: KeyState)
    requires ValidKeyState(s)
    ensures ScalarBytes(Number(s.key)) == s.key
  {
    ScalarBytesRoundTrip(Number(s.key));
    NumberIsInjective(ScalarBytes(Number(s.key)), s.key);
  }

  /** The signing key is the key at the reference's path, in 64 hex digits. */
  lemma SigningKeyIsAtPath<P>(c: Crypto<P>, seed: Bytes, ref: KeyRef)
    requires ref.signType == "ecdsa" && DeriveSigningKey(c, seed, ref).Success?
    ensures FullPath(ref).Success? && SecpKeyState(c, seed, FullPath(ref).value).Success?
    ensures var leaf := SecpKeyState(c, seed, FullPath(ref).value).value;
            ValidKeyState(leaf) && HexDecode(DeriveSigningKey(c, seed, ref).value.privateKeyHex) == Some(leaf.key)
  {
    var path := FullPath(ref).value;
    WalkIsValid(c, SecpMaster(c, seed).value, path, |path|);
    assert path[..|path|] == path;
    var leaf := SecpKeyState(c, seed, path).value;
    ScalarOfLeaf(leaf);
    HexRoundTrip(leaf.key);
  }

  /**
   Whenever the signing key of an ecdsa reference derives, the address key derives
   exactly for change and address indexes below 2^31, and is then the public key of
   that signing key: its compressed point, and its uncompressed point as the alternative.
   The account index is free: the account level is private on both sides, so it agrees
   even where uint32 addition drops its hardening bit.
   */
  lemma SigningAndPublicKeysAgree<P(!new)>(c: Crypto<P>, seed: Bytes, ref: KeyRef)
    requires Lawful(c) && ref.signType == "ecdsa"
    requires DeriveSigningKey(c, seed, ref).Success?
    ensures var pk := DerivePublicKey(c, seed, ref); var sk := DeriveSigningKey(c, seed, ref).value;
            && (pk.Success? <==> ref.change < HARDENED && ref.index < HARDENED)
            && HexDecode(sk.privateKeyHex).Some?
            && (pk.Success? ==>
                  var point := c.baseMult(Number(HexDecode(sk.privateKeyHex).value));
                  && PublicHexOf(c, sk.privateKeyHex) == Some((pk.value.publicKeyHex, pk.value.alternatePublicKey))
                  && pk.value.publicKeyHex == HexEncode(c.compress(point))
                  && pk.value.alternatePublicKey == HexEncode(c.uncompressed(point))
                  && pk.value.keyID == sk.keyID == ref.ID() && pk.value.derivationPath == sk.derivationPath)
  {
    var full := FullPath(ref).value;
    var account := AccountPath(ref).value;
    var master := SecpMaster(c, seed).value;
    PathShapes(ref);
    SigningKeyIsAtPath(c, seed, ref);
    WalkIsValid(c, master, full, 3);
    var accountState := SecpWalk(c, master, account).value;
    if ref.change < HARDENED && ref.index < HARDENED {
      AccountChildCommutes(c, accountState, ref.change, ref.index);
    }
  }

  /** What is published about the account is the account path's public key and chain code. */
  lemma AccountIsPublished<P>(c: Crypto<P>, seed: Bytes, ref: KeyRef)
    requires ref.signType == "ecdsa" && DerivePublicKey(c, seed, ref).Success?
    ensures AccountPath(ref).Success? && SecpKeyState(c, seed, AccountPath(ref).value).Success?
    ensures var pk := DerivePublicKey(c, seed, ref).value;
            var account := SecpKeyState(c, seed, AccountPath(ref).value).value;
            && pk.publicDerivationSupported
            && pk.accountPublicKeyHex == HexEncode(c.compress(c.baseMult(Number(account.key))))
            && pk.accountAlternatePublicKey == HexEncode(c.uncompressed(c.baseMult(Number(account.key))))
            && pk.accountChainCodeHex == HexEncode(account.chainCode)
  {
  }

  lemma Ed25519PathDerives<P>(c: Crypto<P>, seed: Bytes, ref: KeyRef)
    requires ref.signType == "eddsa" && CoinType(ref.chain).Some?
    ensures FullPath(ref).Success?
    ensures EdWalk(c, EdMaster(c, seed), FullPath(ref).value).Success?
            <==> ref.account < HARDENED && ref.change < HARDENED && ref.index < HARDENED
  {
    PathShapes(ref);
    Ed25519PathIsHardened(ref);
    EdWalkSucceeds(c, EdMaster(c, seed), FullPath(ref).value);
  }

  /** Both ed25519 keys come from the key at the reference's path: the private one whole, the public one its tail. */
  lemma Ed25519KeysAreAtPath<P>(c: Crypto<P>, seed: Bytes, ref: KeyRef)
    requires ref.signType == "eddsa" && CoinType(ref.chain).Some?
    ensures var r := EdWalk(c, EdMaster(c, seed), FullPath(ref).value);
            var pk, sk := DerivePublicKey(c, seed, ref), DeriveSigningKey(c, seed, ref);
            && (pk.Success? <==> r.Success?) && (sk.Success? <==> r.Success?)
            && (r.Success? ==>
                  && sk.value.privateKeyHex == HexEncode(c.ed25519Key(r.value.key))
                  && pk.value.publicKeyHex == pk.value.alternatePublicKey == HexEncode(c.ed25519Key(r.value.key)[32..])
                  && pk.value.keyID == sk.value.keyID == ref.ID() && !pk.value.publicDerivationSupported)
  {
  }

  /** For ed25519 both sides succeed together, exactly below 2^31, and the public key is the tail of the private one. */
  lemma Ed25519KeysAgree<P>(c: Crypto<P>, seed: Bytes, ref: KeyRef)
    requires ref.signType == "eddsa" && CoinType(ref.chain).Some?
    ensures var pk := DerivePublicKey(c, seed, ref); var sk := DeriveSigningKey(c, seed, ref);
            && (pk.Success? <==> ref.account < HARDENED && ref.change < HARDENED && ref.index < HARDENED)
            && (sk.Success? <==> pk.Success?)
            && (pk.Success? ==>
                  && |sk.value.privateKeyHex| == 128
                  && sk.value.privateKeyHex[64..] == pk.value.publicKeyHex
                  && pk.value.keyID == sk.value.keyID)
  {
    Ed25519PathDerives(c, seed, ref);
    Ed25519KeysAreAtPath(c, seed, ref);
    var r := EdWalk(c, EdMaster(c, seed), FullPath(ref).value);
    if r.Success? {
      HexTail(c.ed25519Key(r.value.key), 32);
    }
  }

  lemma {:induction false} HexTail(b: Bytes, k: nat)
    requires k <= |b|
    ensures |HexEncode(b)| == 2 * |b|
    ensures HexEncode(b)[2 * k..] == HexEncode(b[k..])
  {
    HexRoundTrip(b);
    if k > 0 {
      HexTail(b[1..], k - 1);
      assert b[1..][k - 1..] == b[k..];
      assert HexEncode(b)[2 * k..] == HexEncode(b[1..])[2 * (k - 1)..];
    }
  }
}
