/**
 What the standards say a child key is: BIP-32, "Child key derivation (CKD) functions" and
 "Master key generation", and SLIP-0010 for ed25519. The hash output is given as its two
 halves, and an index as a four-byte number.
 */
module HdStandard {
  import opened Wrappers
  import opened Text
  import opened ByteStrings
  import opened KeyRefs
  import opened HdDerive

  /** ser32: the data ends in the index as four bytes, most significant first, behind the head. */
  ghost predicate EndsInIndex(head: Bytes, i: int, data: Bytes) {
    |data| == |head| + 4 && data[..|head|] == head && Number(data[|head|..]) == i
  }

  /** Such data exists for every index, and tells its index. */
  lemma IndexDataExists(head: Bytes, i: uint32)
    ensures EndsInIndex(head, i, head + Uint32Bytes(i))
  {
    Uint32BytesIsBigEndian(i);
    assert (head + Uint32Bytes(i))[|head|..] == Uint32Bytes(i);
  }

  lemma IndexDataIsUnique(head: Bytes, i: uint32, data: Bytes)
    requires EndsInIndex(head, i, data)
    ensures data == head + Uint32Bytes(i)
  {
    Uint32BytesIsBigEndian(i);
    NumberIsInjective(data[|head|..], Uint32Bytes(i));
    assert data == data[..|head|] + data[|head|..];
  }

  /** Under one parent key the hashed data of different indexes on the same side of 2^31 differ. */
  lemma IndexesAreHashedApart<P>(c: Crypto<P>, key: Bytes, d: nat, i: uint32, j: uint32)
    requires i != j && (i < 0x8000_0000 <==> j < 0x8000_0000)
    ensures ChildData(c, key, d, i) != ChildData(c, key, d, j)
  {
    var head := if i >= 0x8000_0000 then [0] + key else c.compress(c.baseMult(d));
    IndexDataExists(head, i);
    IndexDataExists(head, j);
  }

  /** The two halves of a hash. */
  ghost predicate IsSplit(sum: Bytes, left: Bytes, right: Bytes) {
    |left| == 32 && |right| == 32 && sum == left + right
  }

  // ---------------------------------------------------------------- BIP-32

  /** The ASCII bytes of "Bitcoin seed". */
  const BITCOIN_SEED: Bytes := [0x42, 0x69, 0x74, 0x63, 0x6F, 0x69, 0x6E, 0x20, 0x73, 0x65, 0x65, 0x64]

  /**
   CKDpriv: the child key is the left half of the hash plus the parent key, modulo the
   order, and the child chain code is the right half. There is no child when the left half
   is not below the order or the sum is zero; the code also refuses a left half of zero.
   */
  lemma PrivateChildIsStandard<P>(c: Crypto<P>, s: KeyState, i: uint32, data: Bytes, left: Bytes, right: Bytes)
    requires ValidKeyState(s)
    requires EndsInIndex(if i >= 0x8000_0000 then [0] + s.key else c.compress(c.baseMult(Number(s.key))), i, data)
    requires IsSplit(c.hmac(s.chainCode, data), left, right)
    ensures var child := SecpChild(c, s, i); var sum := (Number(left) + Number(s.key)) % N;
            && (child.Success? <==> 0 < Number(left) < N && sum != 0)
            && (child.Success? ==>
                  |child.value.key| == 32 && Number(child.value.key) == sum && child.value.chainCode == right)
  {
    var head := if i >= 0x8000_0000 then [0] + s.key else c.compress(c.baseMult(Number(s.key)));
    IndexDataIsUnique(head, i, data);
    var whole: Bytes := c.hmac(s.chainCode, data);
    assert whole[..32] == left && whole[32..] == right;
    if 0 < Number(left) < N && (Number(left) + Number(s.key)) % N != 0 {
      ScalarBytesRoundTrip((Number(left) + Number(s.key)) % N);
    }
  }

  /** A public key in either of its encodings. */
  ghost predicate Encodes<P(!new)>(c: Crypto<P>, pub: Bytes, p: P) {
    c.decompress(pub) == Some(p) || (c.decompress(pub) == None && c.unmarshal(pub) == Some(p))
  }

  /**
   CKDpub, for normal indexes: the child point is the left half's multiple of the base
   point plus the parent point.
   */
  lemma PublicChildIsStandard<P(!new)>(c: Crypto<P>, s: PublicState, i: uint32, data: Bytes, left: Bytes,
                                       right: Bytes, p: P)
    requires s.compressed != [] && |s.chainCode| == 32 && i < 0x8000_0000 && Encodes(c, s.compressed, p)
    requires EndsInIndex(s.compressed, i, data) && IsSplit(c.hmac(s.chainCode, data), left, right)
    ensures var child := HdDerive.SecpChildPublic(c, s, i); var sum := c.add(c.baseMult(Number(left)), p);
            && (child.Success? <==> 0 < Number(left) < N && sum.Some?)
            && (child.Success? ==> child.value == PublicState(c.compress(sum.value), right))
  {
    IndexDataIsUnique(s.compressed, i, data);
    var whole: Bytes := c.hmac(s.chainCode, data);
    assert whole[..32] == left && whole[32..] == right;
  }

  /** The master key and chain code are the halves of the hash keyed with the ASCII bytes of "Bitcoin seed". */
  lemma MasterIsStandard<P>(c: Crypto<P>, seed: Bytes, left: Bytes, right: Bytes)
    requires IsSplit(c.hmac(BITCOIN_SEED, seed), left, right)
    ensures SecpMaster(c, seed).Success? <==> 0 < Number(left) < N
    ensures SecpMaster(c, seed).Success? ==> SecpMaster(c, seed).value == KeyState(left, right)
  {
    assert Ascii("Bitcoin seed") == BITCOIN_SEED;
    var whole: Bytes := c.hmac(BITCOIN_SEED, seed);
    assert whole[..32] == left && whole[32..] == right;
  }

  /** A longer path derives one more child. */
  lemma {:induction false} PathGrows<P>(c: Crypto<P>, s: KeyState, path: seq<uint32>, i: uint32)
    requires SecpWalk(c, s, path).Success?
    ensures SecpWalk(c, s, path + [i]) == SecpChild(c, SecpWalk(c, s, path).value, i)
    decreases |path|
  {
    if path == [] {
      assert path + [i] == [i] && [i][1..] == [];
      var next := SecpChild(c, s, i);
      assert next.Success? ==> SecpWalk(c, next.value, []) == next;
    } else {
      PathGrows(c, SecpChild(c, s, path[0]).value, path[1..], i);
      assert (path + [i])[1..] == path[1..] + [i];
    }
  }

  // ---------------------------------------------------------------- SLIP-0010 for ed25519

  /** The ASCII bytes of "ed25519 seed". */
  const ED25519_SEED: Bytes := [0x65, 0x64, 0x32, 0x35, 0x35, 0x31, 0x39, 0x20, 0x73, 0x65, 0x65, 0x64]

  lemma EdMasterIsStandard<P>(c: Crypto<P>, seed: Bytes, left: Bytes, right: Bytes)
    requires IsSplit(c.hmac(ED25519_SEED, seed), left, right)
    ensures EdMaster(c, seed) == KeyState(left, right)
  {
    assert Ascii("ed25519 seed") == ED25519_SEED;
    var whole: Bytes := c.hmac(ED25519_SEED, seed);
    assert whole[..32] == left && whole[32..] == right;
  }

  lemma EdChildIsStandard<P>(c: Crypto<P>, s: KeyState, i: uint32, data: Bytes, left: Bytes, right: Bytes)
    requires EndsInIndex([0] + s.key, i, data) && IsSplit(c.hmac(s.chainCode, data), left, right)
    ensures EdChild(c, s, i) == KeyState(left, right)
  {
    IndexDataIsUnique([0] + s.key, i, data);
    assert [0] + s.key + Uint32Bytes(i) == data;
    var whole: Bytes := c.hmac(s.chainCode, data);
    assert whole[..32] == left && whole[32..] == right;
  }

  // ---------------------------------------------------------------- paths in print

  lemma PathTextGrows(path: seq<uint32>, i: uint32)
    ensures PathText(path + [i]) == PathText(path) + "/" + IndexText(i)
  {
    assert (path + [i])[..|path|] == path;
  }

  lemma FortyFour()
    ensures IndexText(0x8000_002C) == "44'"
  {
    assert Decimal(44) == "44";
  }

  lemma AccountTexts(coin: string, account: string)
    ensures "m/44'/" + coin + "'/" + account + "'" == "m/" + "44'" + "/" + (coin + "'") + "/" + (account + "'")
  {
    assert "m/44'/" == "m/" + "44'" + "/";
    assert "'/" == "'" + "/";
  }

  lemma LeafTexts(head: string, change: string, index: string)
    ensures head + "'/" + change + "/" + index == head + "'" + "/" + change + "/" + index
    ensures head + "'/" + change + "'/" + index + "'" == head + "'" + "/" + (change + "'") + "/" + (index + "'")
  {
    assert "'/" == "'" + "/";
  }

  /** The account path a key is published with is the path its account key is derived along. */
  lemma AccountPathIsPrinted(ref: KeyRef)
    requires AccountPath(ref).Success? && ref.account < 0x8000_0000 && ref.signType in {"ecdsa", "eddsa"}
    ensures AccountDerivationPath(ref) == Success(PathText(AccountPath(ref).value))
  {
    var coin := CoinType(ref.chain).value;
    PathTextOfThree(AccountPath(ref).value);
    FortyFour();
    AccountTexts(Decimal(coin), Decimal(ref.account));
  }

  /** So is the whole path, whenever the three indexes are below 2^31. */
  lemma PathIsPrinted(ref: KeyRef)
    requires FullPath(ref).Success? && ref.account < 0x8000_0000 && ref.change < 0x8000_0000 && ref.index < 0x8000_0000
    ensures DerivationPath(ref) == Success(PathText(FullPath(ref).value))
  {
    PathShapes(ref);
    AccountPathIsPrinted(ref);
    FullPathText(ref);
    var head := "m/44'/" + Decimal(CoinType(ref.chain).value) + "'/" + Decimal(ref.account);
    LeafTexts(head, Decimal(ref.change), Decimal(ref.index));
  }

  lemma FullPathText(ref: KeyRef)
    requires FullPath(ref).Success?
    ensures var p := FullPath(ref).value;
            |p| == 5 && AccountPath(ref).Success? &&
            PathText(p) == PathText(AccountPath(ref).value) + "/" + IndexText(p[3]) + "/" + IndexText(p[4])
  {
    PathShapes(ref);
    var p, head := FullPath(ref).value, AccountPath(ref).value;
    PathTextGrows(head, p[3]);
    PathTextGrows(head + [p[3]], p[4]);
    assert p == head + [p[3]] + [p[4]];
  }
}
