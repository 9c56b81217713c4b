/**
 String operations the services share: trimming, ASCII case mapping, splitting on a
 separator, and decimal printing and parsing.
 */
module Text {
  import opened Wrappers

  // ---------------------------------------------------------------- trimming

  /** The ASCII white space that Go's strings.TrimSpace removes. */
  predicate IsSpace(c: char) {
    c == ' ' || '\t' <= c <= '\r'
  }

  function TrimLeft(s: string): string {
    if s != [] && IsSpace(s[0]) then TrimLeft(s[1..]) else s
  }

  function TrimRight(s: string): string {
    if s != [] && IsSpace(s[|s| - 1]) then TrimRight(s[..|s| - 1]) else s
  }

  function Trim(s: string): string {
    TrimRight(TrimLeft(s))
  }

  /** Nothing for Trim to remove. */
  predicate Trimmed(s: string) {
    s == [] || (!IsSpace(s[0]) && !IsSpace(s[|s| - 1]))
  }

  lemma {:induction false} TrimLeftStops(s: string)
    ensures TrimLeft(s) == [] || !IsSpace(TrimLeft(s)[0])
    ensures forall c :: c in TrimLeft(s) ==> c in s
  {
    if s != [] && IsSpace(s[0]) {
      TrimLeftStops(s[1..]);
    }
  }

  lemma {:induction false} TrimRightStops(s: string)
    ensures TrimRight(s) == [] || !IsSpace(TrimRight(s)[|TrimRight(s)| - 1])
    ensures TrimRight(s) == [] || TrimRight(s)[0] == s[0]
    ensures forall c :: c in TrimRight(s) ==> c in s
  {
    if s != [] && IsSpace(s[|s| - 1]) {
      TrimRightStops(s[..|s| - 1]);
    }
  }

  lemma TrimIsTrimmed(s: string)
    ensures Trimmed(Trim(s))
    ensures forall c :: c in Trim(s) ==> c in s
  {
    TrimLeftStops(s);
    TrimRightStops(TrimLeft(s));
  }

  lemma TrimOfTrimmed(s: string)
    requires Trimmed(s)
    ensures Trim(s) == s
  {
    assert TrimLeft(s) == s;
  }

  /** Trimming takes white space off both ends and nothing else. */
  lemma TrimTakesOnlySpace(s: string) returns (left: string, right: string)
    ensures s == left + Trim(s) + right
    ensures (forall c :: c in left ==> IsSpace(c)) && (forall c :: c in right ==> IsSpace(c))
  {
    left := TrimLeftTakes(s);
    right := TrimRightTakes(TrimLeft(s));
  }

  lemma {:induction false} TrimLeftTakes(s: string) returns (left: string)
    ensures s == left + TrimLeft(s) && forall c :: c in left ==> IsSpace(c)
  {
    left := "";
    if s != [] && IsSpace(s[0]) {
      left := TrimLeftTakes(s[1..]);
      left := [s[0]] + left;
    }
  }

  lemma {:induction false} TrimRightTakes(s: string) returns (right: string)
    ensures s == TrimRight(s) + right && forall c :: c in right ==> IsSpace(c)
  {
    right := "";
    if s != [] && IsSpace(s[|s| - 1]) {
      right := TrimRightTakes(s[..|s| - 1]);
      right := right + [s[|s| - 1]];
    }
  }

  /** So padding a trimmed text with white space is undone. */
  lemma TrimOfPadded(left: string, s: string, right: string)
    requires Trimmed(s) && (forall c :: c in left ==> IsSpace(c)) && (forall c :: c in right ==> IsSpace(c))
    ensures Trim(left + s + right) == s
  {
    if s == "" {
      TrimOfSpace(left + s + right);
    } else {
      TrimLeftOfPadded(left, s + right);
      assert left + (s + right) == left + s + right;
      TrimRightOfPadded(s, right);
    }
  }

  lemma {:induction false} TrimOfSpace(s: string)
    requires forall c :: c in s ==> IsSpace(c)
    ensures Trim(s) == ""
  {
    if s != "" {
      TrimOfSpace(s[1..]);
    }
  }

  lemma {:induction false} TrimLeftOfPadded(left: string, s: string)
    requires s != "" && !IsSpace(s[0]) && forall c :: c in left ==> IsSpace(c)
    ensures TrimLeft(left + s) == s
  {
    if left == "" {
      assert left + s == s;
    } else {
      TrimLeftOfPadded(left[1..], s);
      assert (left + s)[1..] == left[1..] + s;
    }
  }

  lemma {:induction false} TrimRightOfPadded(s: string, right: string)
    requires s != "" && !IsSpace(s[|s| - 1]) && forall c :: c in right ==> IsSpace(c)
    ensures TrimRight(s + right) == s
  {
    if right == "" {
      assert s + right == s;
    } else {
      TrimRightOfPadded(s, right[..|right| - 1]);
      assert (s + right)[..|s + right| - 1] == s + right[..|right| - 1];
    }
  }

  // ---------------------------------------------------------------- letter case

  function LowerChar(c: char): char {
    if 'A' <= c <= 'Z' then (c as int + 32) as char else c
  }

  function UpperChar(c: char): char {
    if 'a' <= c <= 'z' then (c as int - 32) as char else c
  }

  function Lower(s: string): (r: string)
    ensures |r| == |s|
    ensures forall i :: 0 <= i < |s| ==> r[i] == LowerChar(s[i])
  {
    seq(|s|, i requires 0 <= i < |s| => LowerChar(s[i]))
  }

  function Upper(s: string): (r: string)
    ensures |r| == |s|
    ensures forall i :: 0 <= i < |s| ==> r[i] == UpperChar(s[i])
  {
    seq(|s|, i requires 0 <= i < |s| => UpperChar(s[i]))
  }

  /** Case mapping leaves no letter of the other case and touches nothing else. */
  lemma CaseMapping(s: string, i: nat)
    requires i < |s|
    ensures !('A' <= Lower(s)[i] <= 'Z') && !('a' <= Upper(s)[i] <= 'z')
    ensures Lower(Upper(s))[i] == Lower(s)[i] && Upper(Lower(s))[i] == Upper(s)[i]
    ensures Lower(s)[i] == s[i] || ('A' <= s[i] <= 'Z' && Lower(s)[i] as int == s[i] as int + 32)
    ensures Upper(s)[i] == s[i] || ('a' <= s[i] <= 'z' && Upper(s)[i] as int == s[i] as int - 32)
  {
  }

  /** Lower-casing a trimmed string is a normal form: doing both again changes nothing. */
  lemma LowerTrimIsStable(s: string)
    ensures Trimmed(Lower(Trim(s)))
    ensures Lower(Trim(Lower(Trim(s)))) == Lower(Trim(s))
    ensures forall c :: c in Lower(Trim(s)) && c == ':' ==> c in s
  {
    TrimIsTrimmed(s);
    var n := Lower(Trim(s));
    TrimOfTrimmed(n);
    assert Lower(n) == n;
  }

  /** The converse of the last clause above: a separator inside the text survives. */
  lemma {:induction false} TrimKeepsNonSpace(s: string, c: char)
    requires c in s && !IsSpace(c)
    ensures c in Trim(s)
  {
    TrimLeftKeeps(s, c);
    TrimRightKeeps(TrimLeft(s), c);
  }

  lemma {:induction false} TrimLeftKeeps(s: string, c: char)
    requires c in s && !IsSpace(c)
    ensures c in TrimLeft(s)
  {
    if IsSpace(s[0]) {
      TrimLeftKeeps(s[1..], c);
    }
  }

  lemma {:induction false} TrimRightKeeps(s: string, c: char)
    requires c in s && !IsSpace(c)
    ensures c in TrimRight(s)
  {
    if IsSpace(s[|s| - 1]) {
      TrimRightKeeps(s[..|s| - 1], c);
    }
  }

  function Fallback(v: string, d: string): string {
    if Trim(v) == "" then d else v
  }

  // ---------------------------------------------------------------- split and join

  function Split(s: string, sep: char): (parts: seq<string>)
    ensures |parts| >= 1
    ensures forall p :: p in parts ==> sep !in p
  {
    if s == [] then [""]
    else
      var rest := Split(s[1..], sep);
      if s[0] == sep then [""] + rest else [[s[0]] + rest[0]] + rest[1..]
  }

  function Join(parts: seq<string>, sep: char): string
    requires |parts| >= 1
  {
    if |parts| == 1 then parts[0] else parts[0] + [sep] + Join(parts[1..], sep)
  }

  /** A separator-free prefix becomes the first part, and the rest splits on its own. */
  lemma {:induction false} SplitPrefix(a: string, b: string, sep: char)
    requires sep !in a
    ensures Split(a + [sep] + b, sep) == [a] + Split(b, sep)
  {
    var s := a + [sep] + b;
    if a == [] {
      assert s[1..] == b;
    } else {
      assert s[1..] == a[1..] + [sep] + b;
      SplitPrefix(a[1..], b, sep);
      assert a == [a[0]] + a[1..];
    }
  }

  lemma {:induction false} SplitWithoutSeparator(a: string, sep: char)
    requires sep !in a
    ensures Split(a, sep) == [a]
  {
    if a != [] {
      SplitWithoutSeparator(a[1..], sep);
      assert a == [a[0]] + a[1..];
    }
  }

  lemma {:induction false} SplitJoin(parts: seq<string>, sep: char)
    requires |parts| >= 1
    requires forall p :: p in parts ==> sep !in p
    ensures Split(Join(parts, sep), sep) == parts
  {
    if |parts| == 1 {
      SplitWithoutSeparator(parts[0], sep);
    } else {
      SplitJoin(parts[1..], sep);
      SplitPrefix(parts[0], Join(parts[1..], sep), sep);
    }
  }

  /** A separator between two texts adds exactly one part to the parts of both. */
  lemma {:induction false} SplitCount(a: string, b: string, sep: char)
    ensures |Split(a + [sep] + b, sep)| == |Split(a, sep)| + |Split(b, sep)|
  {
    var s := a + [sep] + b;
    if a == [] {
      assert s[1..] == b;
    } else {
      assert s[1..] == a[1..] + [sep] + b;
      SplitCount(a[1..], b, sep);
    }
  }

  lemma {:induction false} SplitAtSeparator(s: string, sep: char)
    requires sep in s
    ensures |Split(s, sep)| >= 2
  {
    if s[0] != sep {
      SplitAtSeparator(s[1..], sep);
    }
  }

  // ---------------------------------------------------------------- decimal numbers

  predicate IsDigit(c: char) {
    '0' <= c <= '9'
  }

  predicate AllDigits(s: string) {
    forall i :: 0 <= i < |s| ==> IsDigit(s[i])
  }

  function DecimalValue(s: string): nat
    requires AllDigits(s)
  {
    if s == [] then 0
    else 10 * DecimalValue(s[..|s| - 1]) + (s[|s| - 1] as int - '0' as int)
  }

  function Decimal(n: nat): string {
    var d := [(n % 10 + '0' as int) as char];
    if n < 10 then d else Decimal(n / 10) + d
  }

  lemma {:induction false} DecimalRoundTrip(n: nat)
    ensures Decimal(n) != [] && AllDigits(Decimal(n))
    ensures DecimalValue(Decimal(n)) == n
  {
    if n >= 10 {
      DecimalRoundTrip(n / 10);
      var s := Decimal(n);
      assert s[..|s| - 1] == Decimal(n / 10);
    }
  }

  /** Writing one more digit behind a number multiplies it by ten. */
  lemma DecimalAppends(n: nat, d: nat)
    requires d < 10
    ensures Decimal(10 * n + d) == (if n == 0 then "" else Decimal(n)) + [(d + '0' as int) as char]
  {
  }

  lemma DigitsAreTrimmed(s: string)
    requires AllDigits(s)
    ensures Trimmed(s) && ':' !in s
  {
  }

  /** Go's strconv.ParseUint(TrimSpace(raw), 10, 32). */
  function ParseUint32(raw: string): Option<nat> {
    var s := Trim(raw);
    if s != "" && AllDigits(s) && DecimalValue(s) < 0x1_0000_0000 then Some(DecimalValue(s)) else None
  }

  lemma ParseUint32OfDecimal(n: nat)
    requires n < 0x1_0000_0000
    ensures ParseUint32(Decimal(n)) == Some(n)
  {
    DecimalRoundTrip(n);
    DigitsAreTrimmed(Decimal(n));
    TrimOfTrimmed(Decimal(n));
  }

  /** Go's big.Int.SetString(s, 10): an optional sign, then at least one digit, then the end. */
  function ParseInteger(s: string): Option<int> {
    var body := if s != [] && (s[0] == '+' || s[0] == '-') then s[1..] else s;
    if body == [] || !AllDigits(body) then None
    else
      var magnitude: int := DecimalValue(body);
      Some(if s[0] == '-' then -magnitude else magnitude)
  }

  lemma ParseIntegerOfDecimal(n: nat)
    ensures ParseInteger(Decimal(n)) == Some(n)
  {
    DecimalRoundTrip(n);
    assert IsDigit(Decimal(n)[0]);
  }

  /** An integer is printed with a minus sign or none. */
  function Signed(n: int): string {
    if n < 0 then "-" + Decimal(-n) else Decimal(n)
  }

  lemma ParseIntegerOfSigned(n: int)
    ensures ParseInteger(Signed(n)) == Some(n) && ':' !in Signed(n) && Trimmed(Signed(n))
  {
    if n >= 0 {
      ParseIntegerOfDecimal(n);
      DecimalRoundTrip(n);
      DigitsAreTrimmed(Decimal(n));
    } else {
      DecimalRoundTrip(-n);
      DigitsAreTrimmed(Decimal(-n));
      assert Signed(n)[1..] == Decimal(-n);
    }
  }

  /** A plus sign is accepted as well, and nothing but digits behind the sign. */
  lemma ParseIntegerAccepts(n: nat, s: string)
    ensures ParseInteger("+" + Decimal(n)) == Some(n)
    ensures ParseInteger(s).Some? <==>
            s != "" && (IsDigit(s[0]) || (s[0] in "+-" && |s| > 1)) && forall i :: 0 < i < |s| ==> IsDigit(s[i])
  {
    DecimalRoundTrip(n);
    assert ("+" + Decimal(n))[1..] == Decimal(n);
    if s != "" {
      assert forall i :: 0 < i < |s| ==> s[1..][i - 1] == s[i];
    }
  }
}
