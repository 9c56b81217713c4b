/**
 Key identifiers of the sign service and the BIP-44 paths they stand for
 (services/sign-service/internal/hd/keyref.go).
 */
module KeyRefs {
  import opened Wrappers
  import opened Text

  const HARDENED: uint32 := 0x8000_0000

  type uint32 = x: int | 0 <= x < 0x1_0000_0000

  datatype KeyRef = KeyRef(signType: string, chain: string, account: uint32, change: uint32, index: uint32) {
    function ID(): string {
      BuildKeyID(signType, chain, account, change, index)
    }
  }

  datatype KeyIDError = BadShape | BadPrefix | BadAccount | BadChange | BadIndex

  datatype PathError = UnsupportedChain | UnsupportedSignType

  function NormalizeSignType(raw: string): string {
    var s := Lower(Trim(raw));
    if s == "ecdsa" then "ecdsa"
    else if s == "eddsa" || s == "ed25519" then "eddsa"
    else ""
  }

  /** The ticker symbols accepted for a chain name. */
  function Alias(s: string): string {
    if s == "eth" then "ethereum"
    else if s == "bsc" then "binance"
    else if s == "sol" then "solana"
    else if s == "btc" then "bitcoin"
    else if s == "ltc" then "litecoin"
    else if s == "bch" then "bitcoincash"
    else if s == "doge" then "dogecoin"
    else if s == "xlm" then "stellar"
    else s
  }

  function NormalizeChain(raw: string): string {
    Alias(Lower(Trim(raw)))
  }

  function IDParts(signType: string, chain: string, account: uint32, change: uint32, index: uint32): seq<string> {
    ["hd", NormalizeSignType(signType), NormalizeChain(chain), Decimal(account), Decimal(change), Decimal(index)]
  }

  function BuildKeyID(signType: string, chain: string, account: uint32, change: uint32, index: uint32): string {
    Join(IDParts(signType, chain, account, change, index), ':')
  }

  function ParseKeyID(raw: string): Result<KeyRef, KeyIDError> {
    var parts := Split(Trim(raw), ':');
    if |parts| != 6 then Failure(BadShape) else ParseParts(parts)
  }

  function ParseParts(parts: seq<string>): Result<KeyRef, KeyIDError>
    requires |parts| == 6
  {
    if Lower(Trim(parts[0])) != "hd" then Failure(BadPrefix)
    else
      var signType := NormalizeSignType(parts[1]);
      var chain := NormalizeChain(parts[2]);
      if signType == "" || chain == "" then Failure(BadShape)
      else
        match ParseUint32(parts[3])
        case None => Failure(BadAccount)
        case Some(account) =>
          match ParseUint32(parts[4])
          case None => Failure(BadChange)
          case Some(change) =>
            match ParseUint32(parts[5])
            case None => Failure(BadIndex)
            case Some(index) => Success(KeyRef(signType, chain, account, change, index))
  }

  // ---------------------------------------------------------------- canonical identifiers

  predicate LowerWord(s: string) {
    forall i :: 0 <= i < |s| ==> 'a' <= s[i] <= 'z'
  }

  lemma LowerWordIsNormal(s: string)
    requires LowerWord(s)
    ensures Trimmed(s) && Lower(Trim(s)) == s && ':' !in s
  {
    TrimOfTrimmed(s);
    assert Lower(s) == s;
  }

  /** No alias stands for another alias, and aliases and their meanings are plain words. */
  lemma AliasIsIdempotent(s: string)
    ensures Alias(Alias(s)) == Alias(s)
    ensures Alias(s) != s ==> LowerWord(s) && LowerWord(Alias(s))
    ensures Alias(s) == "" <==> s == ""
  {
    AliasedNames(s);
    if Alias(s) != s {
      LongNamesStand(Alias(s));
    }
  }

  /** Ticker symbols are short and full names are long, so no name is taken twice. */
  lemma AliasedNames(s: string)
    ensures Alias(s) != s ==> 0 < |s| <= 4 && LowerWord(s) && |Alias(s)| > 4 && LowerWord(Alias(s))
  {
  }

  /** Each ticker stands for its own chain and no other. */
  lemma TickersOfChains(s: string)
    ensures Alias(s) == "ethereum" <==> s in ["eth", "ethereum"]
    ensures Alias(s) == "binance" <==> s in ["bsc", "binance"]
    ensures Alias(s) == "solana" <==> s in ["sol", "solana"]
    ensures Alias(s) == "bitcoin" <==> s in ["btc", "bitcoin"]
    ensures Alias(s) == "litecoin" <==> s in ["ltc", "litecoin"]
    ensures Alias(s) == "bitcoincash" <==> s in ["bch", "bitcoincash"]
    ensures Alias(s) == "dogecoin" <==> s in ["doge", "dogecoin"]
    ensures Alias(s) == "stellar" <==> s in ["xlm", "stellar"]
  {
  }

  lemma LongNamesStand(s: string)
    requires |s| > 4
    ensures Alias(s) == s
  {
  }

  lemma NormalizeChainIsIdempotent(s: string)
    ensures NormalizeChain(NormalizeChain(s)) == NormalizeChain(s)
    ensures Trimmed(NormalizeChain(s))
    ensures ':' in NormalizeChain(s) <==> ':' in s
  {
    var t := Lower(Trim(s));
    LowerTrimIsStable(s);
    AliasIsIdempotent(t);
    if ':' in s {
      TrimKeepsNonSpace(s, ':');
      var i :| 0 <= i < |Trim(s)| && Trim(s)[i] == ':';
      assert t[i] == ':';
    }
    if Alias(t) != t {
      LowerWordIsNormal(t);
      LowerWordIsNormal(Alias(t));
    }
  }

  lemma NormalizeSignTypeIsIdempotent(s: string)
    ensures NormalizeSignType(NormalizeSignType(s)) == NormalizeSignType(s)
    ensures ':' !in NormalizeSignType(s)
  {
    LowerWordIsNormal("ecdsa");
    LowerWordIsNormal("eddsa");
    LowerWordIsNormal("");
  }

  /** Printing a key reference gives a trimmed text whose colon-separated parts are the printed fields. */
  lemma BuiltIDIsTrimmed(signType: string, chain: string, account: uint32, change: uint32, index: uint32)
    ensures var id := BuildKeyID(signType, chain, account, change, index); Trim(id) == id
  {
    var parts := IDParts(signType, chain, account, change, index);
    var id := Join(parts, ':');
    DecimalRoundTrip(index);
    JoinEnds(parts);
    assert IsDigit(parts[5][|parts[5]| - 1]);
    TrimOfTrimmed(id);
  }

  lemma {:induction false} JoinEnds(parts: seq<string>)
    requires |parts| >= 1 && parts[0] != [] && parts[|parts| - 1] != []
    ensures var s := Join(parts, ':'); var last := parts[|parts| - 1];
            s != [] && s[0] == parts[0][0] && s[|s| - 1] == last[|last| - 1]
    decreases |parts|
  {
    if |parts| > 1 {
      var tail := parts[1..];
      JoinLast(tail);
      var j := Join(tail, ':');
      assert Join(parts, ':') == parts[0] + [':'] + j;
    }
  }

  lemma {:induction false} JoinLast(parts: seq<string>)
    requires |parts| >= 1 && parts[|parts| - 1] != []
    ensures var s := Join(parts, ':'); var last := parts[|parts| - 1];
            s != [] && s[|s| - 1] == last[|last| - 1]
  {
    if |parts| > 1 {
      JoinLast(parts[1..]);
    }
  }

  /**
   A printed identifier parses back exactly when the sign type is known, the chain is
   not blank and the chain name holds no colon; the parsed reference then carries the
   normalized names and the same indexes.
   */
  lemma BuiltIDParses(signType: string, chain: string, account: uint32, change: uint32, index: uint32)
    ensures var parsed := ParseKeyID(BuildKeyID(signType, chain, account, change, index));
            && (parsed.Success? <==> NormalizeSignType(signType) != "" && NormalizeChain(chain) != "" && ':' !in chain)
            && (parsed.Success? ==>
                  parsed.value == KeyRef(NormalizeSignType(signType), NormalizeChain(chain), account, change, index))
  {
    BuiltIDIsTrimmed(signType, chain, account, change, index);
    BuiltIDSplits(signType, chain, account, change, index);
    if ':' !in chain {
      BuiltPartsParse(signType, chain, account, change, index);
    }
  }

  lemma BuiltPartsParse(signType: string, chain: string, account: uint32, change: uint32, index: uint32)
    ensures var parsed := ParseParts(IDParts(signType, chain, account, change, index));
            && (parsed.Success? <==> NormalizeSignType(signType) != "" && NormalizeChain(chain) != "")
            && (parsed.Success? ==>
                  parsed.value == KeyRef(NormalizeSignType(signType), NormalizeChain(chain), account, change, index))
  {
    LowerWordIsNormal("hd");
    NormalizeSignTypeIsIdempotent(signType);
    NormalizeChainIsIdempotent(chain);
    ParseUint32OfDecimal(account);
    ParseUint32OfDecimal(change);
    ParseUint32OfDecimal(index);
  }

  lemma BuiltIDSplits(signType: string, chain: string, account: uint32, change: uint32, index: uint32)
    ensures var parts := IDParts(signType, chain, account, change, index);
            var split := Split(BuildKeyID(signType, chain, account, change, index), ':');
            if ':' in chain then |split| > 6 else split == parts
  {
    var parts := IDParts(signType, chain, account, change, index);
    NormalizeChainIsIdempotent(chain);
    NormalizeSignTypeIsIdempotent(signType);
    if ':' in chain {
      ColonMeansMoreParts(parts);
    } else {
      forall n: uint32 ensures ':' !in Decimal(n) {
        DecimalRoundTrip(n);
        DigitsAreTrimmed(Decimal(n));
      }
      SplitJoin(parts, ':');
    }
  }

  lemma ColonMeansMoreParts(parts: seq<string>)
    requires |parts| == 6 && ':' in parts[2]
    ensures |Split(Join(parts, ':'), ':')| > 6
  {
    SplitAtSeparator(parts[2], ':');
    assert Join(parts, ':') == parts[0] + [':'] + Join(parts[1..], ':');
    SplitCount(parts[0], Join(parts[1..], ':'), ':');
    SplitCount(parts[1], Join(parts[2..], ':'), ':');
    SplitCount(parts[2], Join(parts[3..], ':'), ':');
    SplitCount(parts[3], Join(parts[4..], ':'), ':');
    SplitCount(parts[4], Join(parts[5..], ':'), ':');
    assert parts[1..][1..] == parts[2..] && parts[2..][1..] == parts[3..];
    assert parts[3..][1..] == parts[4..] && parts[4..][1..] == parts[5..];
  }

  /** What is accepted, and what is made of it: six parts, the word hd, known names, and three 32-bit numbers. */
  lemma AcceptedIDs(raw: string)
    ensures var parts, parsed := Split(Trim(raw), ':'), ParseKeyID(raw);
            && (parsed.Success? <==>
                  && |parts| == 6 && Lower(Trim(parts[0])) == "hd"
                  && NormalizeSignType(parts[1]) != "" && NormalizeChain(parts[2]) != ""
                  && ParseUint32(parts[3]).Some? && ParseUint32(parts[4]).Some? && ParseUint32(parts[5]).Some?)
            && (parsed.Success? ==>
                  && parsed.value.signType == NormalizeSignType(parts[1])
                  && parsed.value.chain == NormalizeChain(parts[2])
                  && ParseUint32(parts[3]) == Some(parsed.value.account)
                  && ParseUint32(parts[4]) == Some(parsed.value.change)
                  && ParseUint32(parts[5]) == Some(parsed.value.index))
  {
  }

  /** What ParseKeyID accepts it accepts in normal form. */
  lemma ParsedRefIsNormal(raw: string)
    requires ParseKeyID(raw).Success?
    ensures var ref := ParseKeyID(raw).value;
            && NormalizeSignType(ref.signType) == ref.signType != ""
            && NormalizeChain(ref.chain) == ref.chain != ""
            && ':' !in ref.chain
  {
    var parts := Split(Trim(raw), ':');
    NormalizeSignTypeIsIdempotent(parts[1]);
    NormalizeChainIsIdempotent(parts[2]);
    assert parts[2] in parts;
  }

  /** Parsing is canonical: the identifier of a parsed reference parses to that reference. */
  lemma ParseThenPrintThenParse(raw: string)
    requires ParseKeyID(raw).Success?
    ensures ParseKeyID(ParseKeyID(raw).value.ID()) == ParseKeyID(raw)
  {
    ParsedRefIsNormal(raw);
    var ref := ParseKeyID(raw).value;
    BuiltIDParses(ref.signType, ref.chain, ref.account, ref.change, ref.index);
  }

  /** Printing is canonical: whatever BuildKeyID printed and ParseKeyID accepts is printed the same way again. */
  lemma PrintThenParseThenPrint(signType: string, chain: string, account: uint32, change: uint32, index: uint32)
    requires ParseKeyID(BuildKeyID(signType, chain, account, change, index)).Success?
    ensures var id := BuildKeyID(signType, chain, account, change, index); ParseKeyID(id).value.ID() == id
  {
    BuiltIDParses(signType, chain, account, change, index);
    NormalizeSignTypeIsIdempotent(signType);
    NormalizeChainIsIdempotent(chain);
  }

  /** Two accepted identifiers name the same key exactly when they print the same. */
  lemma IDsIdentifyRefs(a: string, b: string)
    requires ParseKeyID(a).Success? && ParseKeyID(b).Success?
    ensures ParseKeyID(a) == ParseKeyID(b) <==> ParseKeyID(a).value.ID() == ParseKeyID(b).value.ID()
  {
    ParseThenPrintThenParse(a);
    ParseThenPrintThenParse(b);
  }

  // ---------------------------------------------------------------- derivation paths

  type CoinIndex = x: int | 0 <= x < 0x8000_0000

  const EVM_CHAINS: seq<string> :=
    ["ethereum", "binance", "polygon", "arbitrum", "optimism", "linea", "scroll", "mantle", "zksync"]

  function CoinOf(name: string): Option<CoinIndex> {
    if name in EVM_CHAINS then Some(60)
    else if name == "tron" then Some(195)
    else if name == "cosmos" then Some(118)
    else if name == "btt" then Some(199)
    else if name == "solana" then Some(501)
    else if name == "aptos" then Some(637)
    else if name == "sui" then Some(784)
    else if name == "ton" then Some(607)
    else if name == "stellar" then Some(148)
    else if name == "bitcoin" then Some(0)
    else if name == "litecoin" then Some(2)
    else if name == "dogecoin" then Some(3)
    else if name == "dash" then Some(5)
    else if name == "zen" then Some(121)
    else if name == "bitcoincash" then Some(145)
    else None
  }

  function CoinType(chain: string): Option<CoinIndex> {
    CoinOf(NormalizeChain(chain))
  }

  /** Which chains have which coin type of SLIP-0044: all EVM chains share 60, every other has its own. */
  lemma CoinTypesOfNames(name: string)
    ensures CoinOf(name) == Some(195) <==> name == "tron"
    ensures CoinOf(name) == Some(118) <==> name == "cosmos"
    ensures CoinOf(name) == Some(199) <==> name == "btt"
    ensures CoinOf(name) == Some(501) <==> name == "solana"
    ensures CoinOf(name) == Some(637) <==> name == "aptos"
    ensures CoinOf(name) == Some(784) <==> name == "sui"
    ensures CoinOf(name) == Some(607) <==> name == "ton"
    ensures CoinOf(name) == Some(148) <==> name == "stellar"
    ensures CoinOf(name) == Some(0) <==> name == "bitcoin"
    ensures CoinOf(name) == Some(2) <==> name == "litecoin"
    ensures CoinOf(name) == Some(3) <==> name == "dogecoin"
    ensures CoinOf(name) == Some(5) <==> name == "dash"
    ensures CoinOf(name) == Some(121) <==> name == "zen"
    ensures CoinOf(name) == Some(145) <==> name == "bitcoincash"
  {
  }

  lemma EvmChainsShareOneCoin(name: string)
    ensures CoinOf(name) == Some(60) <==>
            name in ["ethereum", "binance", "polygon", "arbitrum", "optimism", "linea", "scroll", "mantle", "zksync"]
  {
  }

  /** Addition in uint32: an index of 2^31 or more loses the hardening bit again. */
  function Harden(i: uint32): (r: uint32)
    ensures r >= HARDENED <==> i < HARDENED
    ensures r == if i < 0x8000_0000 then i + 0x8000_0000 else i - 0x8000_0000
  {
    (i + HARDENED) % 0x1_0000_0000
  }

  function AccountPath(ref: KeyRef): Result<seq<uint32>, PathError> {
    match CoinType(ref.chain)
    case None => Failure(UnsupportedChain)
    case Some(coin) => Success([Harden(44), Harden(coin), Harden(ref.account)])
  }

  /** The five indexes of a path: 44, coin and account hardened, change and address hardened for ed25519 only. */
  lemma PathShapes(ref: KeyRef)
    requires FullPath(ref).Success?
    ensures CoinType(ref.chain).Some? && AccountPath(ref).Success? && ref.signType in {"ecdsa", "eddsa"}
    ensures var p, coin := FullPath(ref).value, CoinType(ref.chain).value;
            && |p| == 5 && p[..3] == AccountPath(ref).value
            && p[0] == 0x8000_002C && p[1] == 0x8000_0000 + coin && p[2] == Harden(ref.account)
            && (ref.signType == "ecdsa" ==> p[3..] == [ref.change, ref.index])
            && (ref.signType == "eddsa" ==> p[3..] == [Harden(ref.change), Harden(ref.index)])
  {
  }

  /** An ed25519 path is hardened throughout exactly when all three indexes are below 2^31. */
  lemma Ed25519PathIsHardened(ref: KeyRef)
    requires FullPath(ref).Success? && ref.signType == "eddsa"
    ensures (forall i :: 0 <= i < 5 ==> FullPath(ref).value[i] >= HARDENED)
            <==> ref.account < HARDENED && ref.change < HARDENED && ref.index < HARDENED
  {
    PathShapes(ref);
    var p := FullPath(ref).value;
    assert p[3] == p[3..][0] && p[4] == p[3..][1];
  }

  function FullPath(ref: KeyRef): Result<seq<uint32>, PathError> {
    match CoinType(ref.chain)
    case None => Failure(UnsupportedChain)
    case Some(coin) =>
      if ref.signType == "ecdsa" then
        Success([Harden(44), Harden(coin), Harden(ref.account), ref.change, ref.index])
      else if ref.signType == "eddsa" then
        Success([Harden(44), Harden(coin), Harden(ref.account), Harden(ref.change), Harden(ref.index)])
      else Failure(UnsupportedSignType)
  }

  // ---------------------------------------------------------------- printed forms

  lemma JoinOfTwo(a: string, b: string)
    ensures Join([a, b], ':') == a + ":" + b
  {
    assert [a, b][1..] == [b];
  }

  lemma JoinOfThree(a: string, b: string, c: string)
    ensures Join([a, b, c], ':') == a + ":" + b + ":" + c
  {
    assert [a, b, c][1..] == [b, c];
    JoinOfTwo(b, c);
    assert a + [':'] + (b + ":" + c) == a + ":" + b + ":" + c;
  }

  lemma JoinOfSix(a: string, b: string, c: string, d: string, e: string, f: string)
    ensures Join([a, b, c, d, e, f], ':') == a + ":" + b + ":" + c + ":" + d + ":" + e + ":" + f
  {
    JoinOfThree(d, e, f);
    JoinBehind(c, [d, e, f], d + ":" + e + ":" + f);
    JoinBehind(b, [c, d, e, f], c + ":" + (d + ":" + e + ":" + f));
    JoinBehind(a, [b, c, d, e, f], b + ":" + (c + ":" + (d + ":" + e + ":" + f)));
  }

  lemma JoinBehind(a: string, rest: seq<string>, joined: string)
    requires rest != [] && Join(rest, ':') == joined
    ensures Join([a] + rest, ':') == a + ":" + joined
  {
    assert ([a] + rest)[1..] == rest;
  }

  /** A key id lists sign type, chain, account, change and address index, in that order. */
  lemma IDIsPrinted(signType: string, chain: string, account: uint32, change: uint32, index: uint32)
    ensures BuildKeyID(signType, chain, account, change, index) ==
            "hd" + ":" + NormalizeSignType(signType) + ":" + NormalizeChain(chain) + ":"
            + Decimal(account) + ":" + Decimal(change) + ":" + Decimal(index)
  {
    JoinOfSix("hd", NormalizeSignType(signType), NormalizeChain(chain), Decimal(account), Decimal(change),
              Decimal(index));
  }

  /** An index as BIP-32 writes it: hardened ones with an apostrophe. */
  function IndexText(i: uint32): string {
    if i >= 0x8000_0000 then Decimal(i - 0x8000_0000) + "'" else Decimal(i)
  }

  function PathText(path: seq<uint32>): string {
    if path == [] then "m" else PathText(path[..|path| - 1]) + "/" + IndexText(path[|path| - 1])
  }

  lemma PathTextOfThree(path: seq<uint32>)
    requires |path| == 3
    ensures PathText(path) == "m/" + IndexText(path[0]) + "/" + IndexText(path[1]) + "/" + IndexText(path[2])
  {
    assert path[..2][..1] == path[..1] && path[..1][..0] == [];
    assert PathText(path[..1]) == "m" + "/" + IndexText(path[0]);
  }

  /** Only sign types and tickers that are listed are known, whatever their case and surrounding blanks. */
  lemma SignTypes(raw: string)
    ensures NormalizeSignType(raw) == "ecdsa" <==> Lower(Trim(raw)) == "ecdsa"
    ensures NormalizeSignType(raw) == "eddsa" <==> Lower(Trim(raw)) in {"eddsa", "ed25519"}
    ensures NormalizeSignType(raw) in {"ecdsa", "eddsa", ""}
  {
  }
}
