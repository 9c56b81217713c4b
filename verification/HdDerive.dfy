/**
 Hierarchical key derivation of the sign service
 (services/sign-service/internal/hd/derive.go): BIP-32 over secp256k1 and SLIP-0010
 over ed25519. The hash and the curve are parameters.
 */
module HdDerive {
  import opened Wrappers
  import opened Text
  import opened ByteStrings
  import opened KeyRefs

  /** Order of the secp256k1 base point. */
  const N: nat := 0xFFFFFFFF_FFFFFFFF_FFFFFFFF_FFFFFFFE_BAAEDCE6_AF48A03B_BFD25E8C_D0364141

  /**
   The foreign operations: HMAC-SHA512, scalar multiplication of the base point, point
   addition (None where the library returns nil), the point encodings, and the 64-byte
   ed25519 private key grown from a seed.
   */
  datatype Crypto<!P> = Crypto(
    hmac: (Bytes, Bytes) -> Bytes64,
    baseMult: nat -> P,
    add: (P, P) -> Option<P>,
    compress: P -> Bytes,
    uncompressed: P -> Bytes,
    decompress: Bytes -> Option<P>,
    unmarshal: Bytes -> Option<P>,
    ed25519Key: Bytes -> Bytes64)

  /**
   What is assumed of the curve: multiples of the base point add up unless they cancel, and
   a compressed point decompresses.
   */
  ghost predicate Lawful<P(!new)>(c: Crypto<P>) {
    && (forall a: nat, b: nat {:trigger c.add(c.baseMult(a), c.baseMult(b))} ::
          0 < a < N && 0 < b < N && (a + b) % N != 0 ==>
            c.add(c.baseMult(a), c.baseMult(b)) == Some(c.baseMult((a + b) % N)))
    && (forall a: nat {:trigger c.compress(c.baseMult(a))} :: 0 < a < N ==>
          && c.compress(c.baseMult(a)) != []
          && c.decompress(c.compress(c.baseMult(a))) == Some(c.baseMult(a)))
  }

  datatype HdError = BadPath(path: PathError) | BadParent | InvalidKey | InvalidChild | ZeroChild
                   | HardenedPublic | NormalEd25519 | BadPoint | BadHex | NegativeIndex

  datatype KeyState = KeyState(key: Bytes, chainCode: Bytes)

  datatype DerivedKey = DerivedKey(
    keyID: string, derivationPath: string, publicKeyHex: string, alternatePublicKey: string,
    publicDerivationSupported: bool, accountPublicKeyHex: string, accountAlternatePublicKey: string,
    accountChainCodeHex: string, accountDerivationPath: string)

  datatype SigningKey = SigningKey(keyID: string, derivationPath: string, privateKeyHex: string)

  // ---------------------------------------------------------------- secp256k1, private side

  /** crypto.ToECDSA: exactly 32 bytes, a number in [1, N-1]. */
  function ToScalar(key: Bytes): (r: Option<nat>)
    ensures r.Some? <==> |key| == 32 && 0 < Number(key) < N
    ensures r.Some? ==> r.value == Number(key)
  {
    if |key| == 32 && 0 < Number(key) < N then Some(Number(key)) else None
  }

  /** crypto.FromECDSA */
  function ScalarBytes(d: nat): Bytes {
    LeftPad(Minimal(d), 32)
  }

  predicate ValidKeyState(s: KeyState) {
    ToScalar(s.key).Some? && |s.chainCode| == 32
  }

  function SecpMaster<P>(c: Crypto<P>, seed: Bytes): (r: Result<KeyState, HdError>)
    ensures r.Success? ==> ValidKeyState(r.value)
  {
    var sum := c.hmac(Ascii("Bitcoin seed"), seed);
    if ToScalar(sum[..32]).None? then Failure(InvalidKey) else Success(KeyState(sum[..32], sum[32..]))
  }

  function Ascii(s: string): Bytes {
    seq(|s|, i requires 0 <= i < |s| => s[i] as int % 256)
  }

  function ChildData<P>(c: Crypto<P>, key: Bytes, d: nat, index: uint32): Bytes {
    (if index >= HARDENED then [0] + key else c.compress(c.baseMult(d))) + Uint32Bytes(index)
  }

  function SecpChild<P>(c: Crypto<P>, parent: KeyState, index: uint32): Result<KeyState, HdError> {
    if |parent.key| != 32 || |parent.chainCode| != 32 then Failure(BadParent)
    else if index < HARDENED && ToScalar(parent.key).None? then Failure(InvalidKey)
    else
      var sum := c.hmac(parent.chainCode, ChildData(c, parent.key, Number(parent.key), index));
      var tweak := Number(sum[..32]);
      if tweak == 0 || tweak >= N then Failure(InvalidChild)
      else
        var child := (tweak + Number(parent.key)) % N;
        if child == 0 then Failure(ZeroChild)
        else Success(KeyState(ScalarBytes(child), sum[32..]))
  }

  function SecpWalk<P>(c: Crypto<P>, start: KeyState, path: seq<uint32>): Result<KeyState, HdError>
    decreases |path|
  {
    if path == [] then Success(start)
    else
      var next :- SecpChild(c, start, path[0]);
      SecpWalk(c, next, path[1..])
  }

  function SecpKeyState<P>(c: Crypto<P>, seed: Bytes, path: seq<uint32>): Result<KeyState, HdError> {
    var master :- SecpMaster(c, seed);
    SecpWalk(c, master, path)
  }

  /** deriveECDSAKeyState: the loop over the path. */
  method DeriveECDSAKeyState<P>(c: Crypto<P>, seed: Bytes, path: seq<uint32>) returns (r: Result<KeyState, HdError>)
    ensures r == SecpKeyState(c, seed, path)
    ensures r.Success? ==> ValidKeyState(r.value)
  {
    r := SecpMaster(c, seed);
    if r.Failure? {
      return;
    }
    var state := r.value;
    for i := 0 to |path|
      invariant ValidKeyState(state)
      invariant SecpKeyState(c, seed, path) == SecpWalk(c, state, path[i..])
    {
      SecpChildIsValid(c, state, path[i]);
      var next := SecpChild(c, state, path[i]);
      assert path[i..][1..] == path[i + 1..];
      if next.Failure? {
        return next;
      }
      state := next.value;
    }
    r := Success(state);
  }

  lemma OrderFitsIn32Bytes()
    ensures N < Pow256(32)
  {
    Pow256Words(0);
    Pow256Words(8);
    Pow256Words(16);
    Pow256Words(24);
  }

  lemma ScalarBytesRoundTrip(d: nat)
    requires 0 < d < N
    ensures ToScalar(ScalarBytes(d)) == Some(d)
  {
    OrderFitsIn32Bytes();
    PaddedNumber(d, 32);
  }

  lemma SecpChildIsValid<P>(c: Crypto<P>, parent: KeyState, index: uint32)
    ensures var r := SecpChild(c, parent, index); r.Success? ==> ValidKeyState(r.value)
  {
    var r := SecpChild(c, parent, index);
    if r.Success? {
      var sum := c.hmac(parent.chainCode, ChildData(c, parent.key, Number(parent.key), index));
      ScalarBytesRoundTrip((Number(sum[..32]) + Number(parent.key)) % N);
    }
  }

  /** Along a path that succeeds, every key on the way is 32 bytes and in [1, N-1]. */
  lemma {:induction false} WalkIsValid<P>(c: Crypto<P>, start: KeyState, path: seq<uint32>, k: nat)
    requires ValidKeyState(start) && SecpWalk(c, start, path).Success? && k <= |path|
    ensures SecpWalk(c, start, path[..k]).Success? && ValidKeyState(SecpWalk(c, start, path[..k]).value)
    ensures SecpWalk(c, SecpWalk(c, start, path[..k]).value, path[k..]) == SecpWalk(c, start, path)
    decreases |path|
  {
    if k > 0 {
      SecpChildIsValid(c, start, path[0]);
      WalkIsValid(c, SecpChild(c, start, path[0]).value, path[1..], k - 1);
      assert path[..k][1..] == path[1..][..k - 1] && path[1..][k - 1..] == path[k..];
    } else {
      assert path[..0] == [] && path[0..] == path;
    }
  }

  /** Every prefix of a derivable path derives, to a key in range. */
  lemma EveryLevelIsInRange<P>(c: Crypto<P>, seed: Bytes, path: seq<uint32>, k: nat)
    requires SecpKeyState(c, seed, path).Success? && k <= |path|
    ensures var r := SecpKeyState(c, seed, path[..k]);
            r.Success? && |r.value.key| == 32 && 1 <= Number(r.value.key) <= N - 1 && |r.value.chainCode| == 32
  {
    WalkIsValid(c, SecpMaster(c, seed).value, path, k);
  }

  // ---------------------------------------------------------------- secp256k1, public side

  function ParsePublicKey<P>(c: Crypto<P>, pub: Bytes): Option<P> {
    var p := c.decompress(pub);
    if p.Some? then p else c.unmarshal(pub)
  }

  datatype PublicState = PublicState(compressed: Bytes, chainCode: Bytes)

  function SecpChildPublic<P>(c: Crypto<P>, parent: PublicState, index: uint32): Result<PublicState, HdError> {
    if parent.compressed == [] || |parent.chainCode| != 32 then Failure(BadParent)
    else if index >= HARDENED then Failure(HardenedPublic)
    else
      var sum := c.hmac(parent.chainCode, parent.compressed + Uint32Bytes(index));
      var tweak := Number(sum[..32]);
      if tweak == 0 || tweak >= N then Failure(InvalidChild)
      else
        match ParsePublicKey(c, parent.compressed)
        case None => Failure(BadPoint)
        case Some(p) =>
          match c.add(c.baseMult(tweak), p)
          case None => Failure(InvalidChild)
          case Some(q) => Success(PublicState(c.compress(q), sum[32..]))
  }

  /** The hex forms of a public key: compressed, uncompressed. */
  function PublicHex<P>(c: Crypto<P>, p: P): (string, string) {
    (HexEncode(c.compress(p)), HexEncode(c.uncompressed(p)))
  }

  function ChildFromAccount<P>(c: Crypto<P>, account: PublicState, change: uint32, index: uint32)
    : Result<(string, string), HdError>
  {
    var changeState :- SecpChildPublic(c, account, change);
    var child :- SecpChildPublic(c, changeState, index);
    match ParsePublicKey(c, child.compressed)
    case None => Failure(BadPoint)
    case Some(p) => Success(PublicHex(c, p))
  }

  function DecodeAccount(compressedHex: string, chainCodeHex: string): Option<PublicState> {
    var pub := HexDecode(StripHex(compressedHex));
    var code := HexDecode(StripHex(chainCodeHex));
    if pub.Some? && code.Some? then Some(PublicState(pub.value, code.value)) else None
  }

  /** The exported entry point over hex strings. */
  function DeriveECDSAChildPublic<P>(c: Crypto<P>, compressedHex: string, chainCodeHex: string, change: uint32,
                                     index: uint32)
    : Result<(string, string), HdError>
  {
    match DecodeAccount(compressedHex, chainCodeHex)
    case Some(account) => ChildFromAccount(c, account, change, index)
    case None => Failure(BadHex)
  }

  // ---------------------------------------------------------------- ed25519

  function EdMaster<P>(c: Crypto<P>, seed: Bytes): KeyState {
    var sum := c.hmac(Ascii("ed25519 seed"), seed);
    KeyState(sum[..32], sum[32..])
  }

  function EdChild<P>(c: Crypto<P>, parent: KeyState, index: uint32): KeyState {
    var sum := c.hmac(parent.chainCode, [0] + parent.key + Uint32Bytes(index));
    KeyState(sum[..32], sum[32..])
  }

  function EdWalk<P>(c: Crypto<P>, start: KeyState, path: seq<uint32>): Result<KeyState, HdError>
    decreases |path|
  {
    if path == [] then Success(start)
    else if path[0] < HARDENED then Failure(NormalEd25519)
    else EdWalk(c, EdChild(c, start, path[0]), path[1..])
  }

  /** The loop that deriveEdDSAPublic and deriveEdDSAPrivate share. */
  method DeriveEdDSAKeyState<P>(c: Crypto<P>, seed: Bytes, path: seq<uint32>) returns (r: Result<KeyState, HdError>)
    ensures r == EdWalk(c, EdMaster(c, seed), path)
    ensures r.Success? <==> forall i :: 0 <= i < |path| ==> path[i] >= HARDENED
  {
    var state := EdMaster(c, seed);
    for i := 0 to |path|
      invariant EdWalk(c, EdMaster(c, seed), path) == EdWalk(c, state, path[i..])
      invariant forall j :: 0 <= j < i ==> path[j] >= HARDENED
    {
      assert path[i..][1..] == path[i + 1..];
      if path[i] < HARDENED {
        return Failure(NormalEd25519);
      }
      state := EdChild(c, state, path[i]);
    }
    r := Success(state);
  }

  lemma {:induction false} EdWalkSucceeds<P>(c: Crypto<P>, start: KeyState, path: seq<uint32>)
    ensures EdWalk(c, start, path).Success? <==> forall i :: 0 <= i < |path| ==> path[i] >= HARDENED
    decreases |path|
  {
    if path != [] && path[0] >= HARDENED {
      EdWalkSucceeds(c, EdChild(c, start, path[0]), path[1..]);
      assert forall i :: 0 < i < |path| ==> path[i] == path[1..][i - 1];
    }
  }

  // ---------------------------------------------------------------- entry points

  function DerivationPath(ref: KeyRef): Result<string, HdError> {
    match CoinType(ref.chain)
    case None => Failure(BadPath(UnsupportedChain))
    case Some(coin) =>
      var account := "m/44'/" + Decimal(coin) + "'/" + Decimal(ref.account) + "'/";
      if ref.signType == "ecdsa" then Success(account + Decimal(ref.change) + "/" + Decimal(ref.index))
      else if ref.signType == "eddsa" then Success(account + Decimal(ref.change) + "'/" + Decimal(ref.index) + "'")
      else Failure(BadPath(UnsupportedSignType))
  }

  function AccountDerivationPath(ref: KeyRef): Result<string, HdError> {
    match CoinType(ref.chain)
    case None => Failure(BadPath(UnsupportedChain))
    case Some(coin) =>
      if ref.signType == "ecdsa" || ref.signType == "eddsa" then
        Success("m/44'/" + Decimal(coin) + "'/" + Decimal(ref.account) + "'")
      else Failure(BadPath(UnsupportedSignType))
  }

  function Path(r: Result<seq<uint32>, PathError>): Result<seq<uint32>, HdError> {
    match r
    case Success(p) => Success(p)
    case Failure(e) => Failure(BadPath(e))
  }

  function DeriveECDSAPublic<P>(c: Crypto<P>, seed: Bytes, ref: KeyRef, derivationPath: string)
    : Result<DerivedKey, HdError>
  {
    var path :- Path(AccountPath(ref));
    var accountDerivationPath :- AccountDerivationPath(ref);
    var account :- SecpKeyState(c, seed, path);
    match ToScalar(account.key)
    case None => Failure(InvalidKey)
    case Some(d) =>
      var point := c.baseMult(d);
      var child :- ChildFromAccount(c, PublicState(c.compress(point), account.chainCode), ref.change, ref.index);
      Success(DerivedKey(ref.ID(), derivationPath, child.0, child.1, true,
                         PublicHex(c, point).0, PublicHex(c, point).1, HexEncode(account.chainCode),
                         accountDerivationPath))
  }

  function DerivePublicKey<P>(c: Crypto<P>, seed: Bytes, ref: KeyRef): Result<DerivedKey, HdError> {
    var derivationPath :- DerivationPath(ref);
    if ref.signType == "ecdsa" then DeriveECDSAPublic(c, seed, ref, derivationPath)
    else
      var path :- Path(FullPath(ref));
      var state :- EdWalk(c, EdMaster(c, seed), path);
      var pub := HexEncode(c.ed25519Key(state.key)[32..]);
      Success(DerivedKey(ref.ID(), derivationPath, pub, pub, false, "", "", "", ""))
  }

  function DeriveSigningKey<P>(c: Crypto<P>, seed: Bytes, ref: KeyRef): Result<SigningKey, HdError> {
    var path :- Path(FullPath(ref));
    var derivationPath :- DerivationPath(ref);
    if ref.signType == "ecdsa" then
      var state :- SecpKeyState(c, seed, path);
      match ToScalar(state.key)
      case None => Failure(InvalidKey)
      case Some(d) => Success(SigningKey(ref.ID(), derivationPath, HexEncode(ScalarBytes(d))))
    else
      var state :- EdWalk(c, EdMaster(c, seed), path);
      Success(SigningKey(ref.ID(), derivationPath, HexEncode(c.ed25519Key(state.key))))
  }
}
