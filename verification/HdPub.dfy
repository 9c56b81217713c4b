/**
 The second implementation of public child derivation, inside wallet-core
 (services/wallet-core/internal/hdpub/ecdsa.go), and how it relates to the signer's.
 */
module HdPub {
  import opened Arithmetic
  import opened Wrappers
  import opened ByteStrings
  import opened KeyRefs
  import opened HdDerive
  import opened HdAgreement

  type int64 = x: int | -0x8000_0000_0000_0000 <= x < 0x8000_0000_0000_0000

  /** Go's uint32(x). */
  function ToUint32(x: int64): uint32 {
    x % 0x1_0000_0000
  }

  function SecpChildPublic<P>(c: Crypto<P>, parent: PublicState, index: uint32): Result<PublicState, HdError> {
    if parent.compressed == [] || |parent.chainCode| != 32 then Failure(BadParent)
    else
      var sum := c.hmac(parent.chainCode, parent.compressed + Uint32Bytes(index));
      var tweak := Number(sum[..32]);
      if tweak == 0 || tweak >= N then Failure(InvalidChild)
      else
        match ParsePublicKey(c, parent.compressed)
        case None => Failure(BadPoint)
        case Some(p) =>
          match c.add(c.baseMult(tweak), p)
          case None => Failure(InvalidChild)
          case Some(q) => Success(PublicState(c.compress(q), sum[32..]))
  }

  function ChildFromAccount<P>(c: Crypto<P>, account: PublicState, change: uint32, index: uint32)
    : Result<(string, string), HdError>
  {
    var changeState :- SecpChildPublic(c, account, change);
    var child :- SecpChildPublic(c, changeState, index);
    match ParsePublicKey(c, child.compressed)
    case None => Failure(BadPoint)
    case Some(p) => Success(PublicHex(c, p))
  }

  function DeriveECDSAChildPublic<P>(c: Crypto<P>, compressedHex: string, chainCodeHex: string, change: int64,
                                     index: int64)
    : Result<(string, string), HdError>
  {
    if change < 0 || index < 0 then Failure(NegativeIndex)
    else
      match DecodeAccount(compressedHex, chainCodeHex)
      case Some(account) => ChildFromAccount(c, account, ToUint32(change), ToUint32(index))
      case None => Failure(BadHex)
  }

  /**
   For every pair of strings and every pair of uint32 indexes: below 2^31 the two
   implementations return the same keys or the same error; from 2^31 on the signer
   derives nothing. So wherever wallet-core hands out keys, the signer hands out the
   same ones exactly when both indexes are below 2^31.
   */
  lemma ImplementationsAgree<P>(c: Crypto<P>, compressedHex: string, chainCodeHex: string, change: uint32,
                                index: uint32)
    ensures change < HARDENED && index < HARDENED ==>
              DeriveECDSAChildPublic(c, compressedHex, chainCodeHex, change, index) ==
              HdDerive.DeriveECDSAChildPublic(c, compressedHex, chainCodeHex, change, index)
    ensures change >= HARDENED || index >= HARDENED ==>
              HdDerive.DeriveECDSAChildPublic(c, compressedHex, chainCodeHex, change, index).Failure?
    ensures var keys := DeriveECDSAChildPublic(c, compressedHex, chainCodeHex, change, index);
            keys.Success? ==>
              (HdDerive.DeriveECDSAChildPublic(c, compressedHex, chainCodeHex, change, index) == keys
               <==> change < HARDENED && index < HARDENED)
  {
    assert ToUint32(change) == change && ToUint32(index) == index;
    var account := DecodeAccount(compressedHex, chainCodeHex);
    if account.Some? {
      AccountChildrenAgree(c, account.value, change, index);
    }
  }

  lemma AccountChildrenAgree<P>(c: Crypto<P>, account: PublicState, change: uint32, index: uint32)
    ensures change < HARDENED && index < HARDENED ==>
              ChildFromAccount(c, account, change, index) == HdDerive.ChildFromAccount(c, account, change, index)
    ensures change >= HARDENED || index >= HARDENED ==> HdDerive.ChildFromAccount(c, account, change, index).Failure?
  {
    ChildrenAgree(c, account, change);
    var changeState := SecpChildPublic(c, account, change);
    if changeState.Success? {
      ChildrenAgree(c, changeState.value, index);
    }
  }

  lemma ChildrenAgree<P>(c: Crypto<P>, parent: PublicState, index: uint32)
    ensures index < HARDENED ==> SecpChildPublic(c, parent, index) == HdDerive.SecpChildPublic(c, parent, index)
    ensures index >= HARDENED ==> HdDerive.SecpChildPublic(c, parent, index).Failure?
  {
  }

  /** Address indexes wrap: wallet-core hands out one key for all indexes that are equal modulo 2^32. */
  lemma IndexesWrap<P>(c: Crypto<P>, compressedHex: string, chainCodeHex: string, change: int64, index: int64)
    requires 0 <= change && 0 <= index
    ensures DeriveECDSAChildPublic(c, compressedHex, chainCodeHex, change, index) ==
            DeriveECDSAChildPublic(c, compressedHex, chainCodeHex, change % 0x1_0000_0000, index % 0x1_0000_0000)
  {
    assert ToUint32(change % 0x1_0000_0000) == ToUint32(change);
    assert ToUint32(index % 0x1_0000_0000) == ToUint32(index);
  }

  /** Negative indexes are refused before anything else is looked at, and only these. */
  lemma NegativeIndexesAreRefused<P>(c: Crypto<P>, compressedHex: string, chainCodeHex: string, change: int64,
                                     index: int64)
    ensures DeriveECDSAChildPublic(c, compressedHex, chainCodeHex, change, index) == Failure(NegativeIndex)
            <==> change < 0 || index < 0
  {
  }

  /**
   The account key and chain code that the signer publishes with a derived key lead
   wallet-core to the same child key, for every seed and every reference.
   */
  lemma PublishedAccountDerivesSameChild<P>(c: Crypto<P>, seed: Bytes, ref: KeyRef)
    requires ref.signType == "ecdsa" && DerivePublicKey(c, seed, ref).Success?
    ensures var pk := DerivePublicKey(c, seed, ref).value;
            DeriveECDSAChildPublic(c, pk.accountPublicKeyHex, pk.accountChainCodeHex, ref.change, ref.index) ==
            Success((pk.publicKeyHex, pk.alternatePublicKey))
  {
    var account, point := DerivedKeyOrigin(c, seed, ref);
    HexArguments(c, c.compress(point), account.chainCode, ref.change, ref.index);
  }

  lemma HexArguments<P>(c: Crypto<P>, pub: Bytes, code: Bytes, change: uint32, index: uint32)
    requires HdDerive.ChildFromAccount(c, PublicState(pub, code), change, index).Success?
    ensures DeriveECDSAChildPublic(c, HexEncode(pub), HexEncode(code), change, index) ==
            HdDerive.ChildFromAccount(c, PublicState(pub, code), change, index)
  {
    DecodeEncoded(pub, code);
    ImplementationsAgree(c, HexEncode(pub), HexEncode(code), change, index);
    AccountChildrenAgree(c, PublicState(pub, code), change, index);
  }

  lemma DecodeEncoded(pub: Bytes, code: Bytes)
    ensures DecodeAccount(HexEncode(pub), HexEncode(code)) == Some(PublicState(pub, code))
  {
    StrippedHexRoundTrip(pub);
    StrippedHexRoundTrip(code);
  }

  /** The account key behind a derived key, and how the published fields come from it. */
  lemma DerivedKeyOrigin<P>(c: Crypto<P>, seed: Bytes, ref: KeyRef) returns (account: KeyState, point: P)
    requires ref.signType == "ecdsa" && DerivePublicKey(c, seed, ref).Success?
    ensures var pk := DerivePublicKey(c, seed, ref).value;
            && pk.accountPublicKeyHex == HexEncode(c.compress(point))
            && pk.accountChainCodeHex == HexEncode(account.chainCode)
            && HdDerive.ChildFromAccount(c, PublicState(c.compress(point), account.chainCode), ref.change, ref.index) ==
               Success((pk.publicKeyHex, pk.alternatePublicKey))
  {
    account := SecpKeyState(c, seed, AccountPath(ref).value).value;
    point := c.baseMult(Number(account.key));
  }

  /** From the signing key to wallet-core: the watch-only child is the public key of the signer's private key. */
  lemma WatchOnlyKeyIsTheSigningKey<P(!new)>(c: Crypto<P>, seed: Bytes, ref: KeyRef)
    requires Lawful(c) && ref.signType == "ecdsa" && ref.change < HARDENED && ref.index < HARDENED
    requires DeriveSigningKey(c, seed, ref).Success?
    ensures DerivePublicKey(c, seed, ref).Success?
    ensures var pk := DerivePublicKey(c, seed, ref).value;
            var child := DeriveECDSAChildPublic(c, pk.accountPublicKeyHex, pk.accountChainCodeHex, ref.change,
                                                ref.index);
            child.Success? && PublicHexOf(c, DeriveSigningKey(c, seed, ref).value.privateKeyHex) == Some(child.value)
  {
    SigningAndPublicKeysAgree(c, seed, ref);
    PublishedAccountDerivesSameChild(c, seed, ref);
  }

  // ---------------------------------------------------------------- the laws have a model

  function ToyHash(key: Bytes, data: Bytes): Bytes64 {
    Zeros(31) + [1] + Zeros(32)
  }

  function ToyBytes(tag: byte, p: int): (r: Bytes)
    ensures 0 <= p ==> r == [tag] + ScalarBytes(p)
  {
    if p < 0 then [] else [tag] + ScalarBytes(p)
  }

  function ToyPoint(b: Bytes): Option<int> {
    if |b| == 33 then Some(Number(b[1..])) else None
  }

  function ToyMult(k: nat): int {
    k % N
  }

  function ToyAdd(a: int, b: int): Option<int> {
    Some((a + b) % N)
  }

  /** The integers modulo N as the curve. */
  function ToyCrypto(): Crypto<int> {
    Crypto(ToyHash, ToyMult, ToyAdd, p => ToyBytes(2, p), p => ToyBytes(4, p), ToyPoint, _ => None, _ => Zeros(64))
  }

  lemma ToyAddition(a: nat, b: nat)
    ensures ToyAdd(ToyMult(a), ToyMult(b)) == Some(ToyMult((a + b) % N))
  {
    ModSum(a, b, N);
    assert (a + b) % N % N == (a + b) % N;
  }

  lemma ToyPointRoundTrip(k: nat)
    requires 0 < k < N
    ensures ToyPoint(ToyBytes(2, k)) == Some(k) && ToyBytes(2, k) != []
  {
    ScalarBytesRoundTrip(k);
    assert ([2] + ScalarBytes(k))[1..] == ScalarBytes(k);
  }

  lemma ToyHashValue(key: Bytes, data: Bytes)
    ensures Number(ToyHash(key, data)[..32]) == 1 && ToyHash(key, data)[32..] == Zeros(32)
  {
    var sum: Bytes := ToyHash(key, data);
    assert sum[..32] == Zeros(31) + [1];
    assert sum[..32][..31] == Zeros(31) + [];
    LeadingZeros(31, []);
  }

  lemma ToySums()
    ensures var c := ToyCrypto();
            forall a: nat, b: nat {:trigger c.add(c.baseMult(a), c.baseMult(b))} ::
              0 < a < N && 0 < b < N && (a + b) % N != 0 ==>
                c.add(c.baseMult(a), c.baseMult(b)) == Some(c.baseMult((a + b) % N))
  {
    forall a: nat, b: nat ensures ToyAdd(ToyMult(a), ToyMult(b)) == Some(ToyMult((a + b) % N)) {
      ToyAddition(a, b);
    }
  }

  lemma ToyEncodings()
    ensures var c := ToyCrypto();
            forall a: nat {:trigger c.compress(c.baseMult(a))} :: 0 < a < N ==>
              c.compress(c.baseMult(a)) != [] && c.decompress(c.compress(c.baseMult(a))) == Some(c.baseMult(a))
  {
    forall a: nat | 0 < a < N ensures ToyPoint(ToyBytes(2, a)) == Some(a) && ToyBytes(2, a) != [] {
      ToyPointRoundTrip(a);
    }
  }

  lemma ToyCryptoIsLawful()
    ensures Lawful(ToyCrypto())
  {
    ToySums();
    ToyEncodings();
  }

  lemma ToyChild(k: nat, index: uint32)
    requires 0 < k < N - 1
    ensures SecpChildPublic(ToyCrypto(), PublicState(ToyBytes(2, k), Zeros(32)), index) ==
            Success(PublicState(ToyBytes(2, k + 1), Zeros(32)))
  {
    var c, parent := ToyCrypto(), PublicState(ToyBytes(2, k), Zeros(32));
    var sum: Bytes := c.hmac(parent.chainCode, parent.compressed + Uint32Bytes(index));
    ToyHashValue(parent.chainCode, parent.compressed + Uint32Bytes(index));
    ToyPointRoundTrip(k);
    assert ParsePublicKey(c, parent.compressed) == Some(k);
    assert c.add(c.baseMult(1), k) == Some(k + 1);
    assert c.compress(k + 1) == ToyBytes(2, k + 1);
  }

  /**
   Over any curve: where wallet-core's child exists, its entry point returns it, and the
   signer's refuses from 2^31 on.
   */
  lemma HardenedKeysDiffer<P>(c: Crypto<P>, compressedHex: string, chainCodeHex: string, change: uint32, index: uint32)
    requires var account := DecodeAccount(compressedHex, chainCodeHex);
             account.Some? && ChildFromAccount(c, account.value, change, index).Success?
    requires change >= HARDENED || index >= HARDENED
    ensures DeriveECDSAChildPublic(c, compressedHex, chainCodeHex, change, index).Success?
    ensures HdDerive.DeriveECDSAChildPublic(c, compressedHex, chainCodeHex, change, index).Failure?
  {
    assert ToUint32(change) == change && ToUint32(index) == index;
    ImplementationsAgree(c, compressedHex, chainCodeHex, change, index);
  }

  /**
   The implementations do part: an account key, a chain code and a hardened index where
   only wallet-core returns a key.
   */
  lemma HardenedIndexExample() returns (compressedHex: string, chainCodeHex: string)
    ensures DeriveECDSAChildPublic(ToyCrypto(), compressedHex, chainCodeHex, HARDENED, 0).Success?
    ensures HdDerive.DeriveECDSAChildPublic(ToyCrypto(), compressedHex, chainCodeHex, HARDENED, 0).Failure?
  {
    compressedHex, chainCodeHex := ToyAccount();
    HardenedKeysDiffer(ToyCrypto(), compressedHex, chainCodeHex, HARDENED, 0);
  }

  lemma ToyAccount() returns (compressedHex: string, chainCodeHex: string)
    ensures var account := DecodeAccount(compressedHex, chainCodeHex);
            account.Some? && ChildFromAccount(ToyCrypto(), account.value, HARDENED, 0).Success?
  {
    var pub, code := ToyBytes(2, 5), Zeros(32);
    compressedHex, chainCodeHex := HexEncode(pub), HexEncode(code);
    DecodeEncoded(pub, code);
    ToyGrandchild();
  }

  lemma ToyGrandchild()
    ensures ChildFromAccount(ToyCrypto(), PublicState(ToyBytes(2, 5), Zeros(32)), HARDENED, 0).Success?
  {
    ToyChild(5, HARDENED);
    ToyChild(6, 0);
    ToyPointRoundTrip(7);
  }
}
