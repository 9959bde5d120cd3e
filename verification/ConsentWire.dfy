/**
  The relayed swap's consent object and its wire form (packages/domain/src/evm-relayer.ts). The
  integers are unbounded; on the wire they are strings, read back as BigInt reads them.
*/
module ConsentWire {
  import opened Common

  // ---------------------------------------------------------------------------------------
  // Integers as text
  // ---------------------------------------------------------------------------------------

  function Digit(d: nat): char
    requires d < 10
  {
    '0' + d as char
  }

  function PrintNat(n: nat): (s: string)
    ensures s != []
  {
    if n < 10 then [Digit(n)] else PrintNat(n / 10) + [Digit(n % 10)]
  }

  /** BigInt.prototype.toString. */
  function Print(n: int): string {
    if n < 0 then "-" + PrintNat(-n) else PrintNat(n)
  }

  function DigitValue(c: char): nat {
    if '0' <= c <= '9' then (c - '0') as nat
    else if 'a' <= c <= 'f' then (c - 'a') as nat + 10
    else if 'A' <= c <= 'F' then (c - 'A') as nat + 10
    else 16
  }

  function ParseDigits(s: string, base: nat): Option<nat> {
    if s == [] then Some(0)
    else
      var front := ParseDigits(s[..|s| - 1], base);
      var d := DigitValue(s[|s| - 1]);
      if front.None? || d >= base then None else Some(front.value * base + d)
  }

  /** The base that a prefix asks for, or ten. */
  function BaseOf(s: string): nat {
    if |s| < 2 || s[0] != '0' then 10
    else if s[1] == 'x' || s[1] == 'X' then 16
    else if s[1] == 'o' || s[1] == 'O' then 8
    else if s[1] == 'b' || s[1] == 'B' then 2
    else 10
  }

  function Signed(negative: bool, n: int): int {
    if negative then -n else n
  }

  /** Text without blanks around it: a sign is for decimals only, and anything unreadable throws. */
  function Read(s: string): Option<int> {
    if s == [] then Some(0)
    else if BaseOf(s) != 10 then
      if |s| == 2 then None else ParseDigits(s[2..], BaseOf(s))
    else if s[0] == '-' || s[0] == '+' then
      var n := ParseDigits(s[1..], 10);
      if |s| == 1 || n.None? then None else Some(Signed(s[0] == '-', n.value))
    else ParseDigits(s, 10)
  }

  /** BigInt(text): blanks around it do not matter, and blank text is zero. */
  function Parse(text: string): Option<int> {
    Read(TrimRight(TrimLeft(text)))
  }

  predicate IsDecimal(s: string) {
    forall i | 0 <= i < |s| :: '0' <= s[i] <= '9'
  }

  /** The text of the digits, without a sign. */
  function Digits(s: string): string {
    if s != [] && s[0] == '-' then s[1..] else s
  }

  /** What toString can print: no leading zero, no plus, no minus on zero. */
  predicate Canonical(s: string) {
    Digits(s) != [] && IsDecimal(Digits(s)) && (Digits(s)[0] == '0' ==> s == "0")
  }

  lemma {:induction false} PrintedIsDecimal(n: nat)
    ensures IsDecimal(PrintNat(n))
    ensures PrintNat(n)[0] == '0' ==> n == 0
    ensures ParseDigits(PrintNat(n), 10) == Some(n)
  {
    if n < 10 {
      assert PrintNat(n)[..0] == [];
      assert DigitValue(Digit(n)) == n;
    } else {
      PrintedIsDecimal(n / 10);
      var s := PrintNat(n);
      assert s[..|s| - 1] == PrintNat(n / 10);
      assert DigitValue(Digit(n % 10)) == n % 10;
      assert n / 10 * 10 + n % 10 == n;
    }
  }

  lemma CanonicalShape(s: string)
    requires Canonical(s)
    ensures s != [] && !IsBlank(s[0]) && !IsBlank(s[|s| - 1]) && BaseOf(s) == 10 && s[0] != '+'
    ensures s[0] == '-' ==> |s| > 1 && IsDecimal(s[1..])
    ensures s[0] != '-' ==> IsDecimal(s)
  {
    if s[0] == '-' {
      var digits := s[1..];
      assert digits[|digits| - 1] == s[|s| - 1];
    }
  }

  lemma {:induction false} DecimalParses(s: string)
    requires IsDecimal(s)
    ensures ParseDigits(s, 10).Some?
  {
    if s != [] {
      DecimalParses(s[..|s| - 1]);
    }
  }

  lemma ParseCanonical(s: string)
    requires Canonical(s)
    ensures s != []
    ensures s[0] == '-' ==> ParseDigits(s[1..], 10).Some? && Parse(s) == Some(Signed(true, ParseDigits(s[1..], 10).value))
    ensures s[0] != '-' ==> ParseDigits(s, 10).Some? && Parse(s) == Some(ParseDigits(s, 10).value)
  {
    hide Canonical, TrimLeft, TrimRight, BaseOf, IsBlank, IsDecimal, ParseDigits;
    CanonicalShape(s);
    NothingToTrim(s);
    DecimalParses(if s[0] == '-' then s[1..] else s);
  }

  lemma PrintIsCanonical(n: int)
    ensures Canonical(Print(n))
  {
    PrintedIsDecimal(if n < 0 then -n else n);
    if n < 0 {
      assert Print(n)[1..] == PrintNat(-n);
    } else if PrintNat(n)[0] == '0' {
      assert PrintNat(0) == "0";
    }
  }

  /** Reading back what was printed gives the number. */
  lemma ParsePrinted(n: int)
    ensures Parse(Print(n)) == Some(n)
  {
    PrintIsCanonical(n);
    ParseCanonical(Print(n));
    PrintedIsDecimal(if n < 0 then -n else n);
    if n < 0 {
      assert Print(n)[1..] == PrintNat(-n);
    }
  }

  lemma {:induction false} PrintParsedDigits(s: string)
    requires s != [] && IsDecimal(s) && (s[0] == '0' ==> |s| == 1)
    ensures ParseDigits(s, 10).Some? && PrintNat(ParseDigits(s, 10).value) == s
    ensures ParseDigits(s, 10).value == 0 ==> s == "0"
  {
    var n := |s| - 1;
    DecimalParses(s);
    assert DigitValue(s[n]) < 10 && Digit(DigitValue(s[n])) == s[n];
    if n == 0 {
      assert s[..0] == [];
      assert s == [s[0]];
    } else {
      PrintParsedDigits(s[..n]);
      var front := ParseDigits(s[..n], 10).value;
      assert ParseDigits(s, 10).value == front * 10 + DigitValue(s[n]);
      assert s[..n][0] == s[0];
      assert (front * 10 + DigitValue(s[n])) / 10 == front;
      assert s == s[..n] + [s[n]];
    }
  }

  lemma CanonicalDigits(s: string)
    requires Canonical(s)
    ensures Digits(s) != [] && IsDecimal(Digits(s)) && (Digits(s)[0] == '0' ==> |Digits(s)| == 1)
    ensures s[0] == '-' ==> Digits(s)[0] != '0' && s == "-" + Digits(s)
  {
  }

  lemma PrintCanonical(s: string)
    requires Canonical(s)
    ensures Parse(s).Some? && Print(Parse(s).value) == s
  {
    hide Canonical, Parse, ParseDigits, IsDecimal, PrintNat;
    ParseCanonical(s);
    CanonicalDigits(s);
    PrintParsedDigits(Digits(s));
  }

  /** A text survives being read and printed exactly when it is canonical. */
  lemma PrintParsedIff(s: string)
    ensures (Parse(s).Some? && Print(Parse(s).value) == s) <==> Canonical(s)
  {
    hide *;
    if Canonical(s) {
      PrintCanonical(s);
    } else if Parse(s).Some? {
      PrintIsCanonical(Parse(s).value);
    }
  }

  /** The sixteen digits in their order, letters in either case; no other character is one. */
  lemma DigitValuesAre(c: char)
    ensures forall v: nat | v < 16 :: DigitValue("0123456789abcdef"[v]) == v && DigitValue("0123456789ABCDEF"[v]) == v
    ensures DigitValue(c) <= 16
    ensures DigitValue(c) < 16 <==> '0' <= c <= '9' || 'a' <= c <= 'f' || 'A' <= c <= 'F'
  {
    forall v: nat | v < 16 ensures DigitValue("0123456789abcdef"[v]) == v && DigitValue("0123456789ABCDEF"[v]) == v {
    }
  }

  /** The value of a text of digits in a base: each digit adds to the base times what comes before it. */
  lemma DigitsIn(s: string, c: char, base: nat)
    ensures var whole, front := ParseDigits(s + [c], base), ParseDigits(s, base);
            if front.None? || DigitValue(c) >= base then whole.None?
            else whole == Some(base * front.value + DigitValue(c))
    ensures ParseDigits([], base) == Some(0)
  {
    assert (s + [c])[..|s|] == s;
  }

  function AsInt(n: Option<nat>): Option<int> {
    match n
    case None => None
    case Some(v) => Some(v)
  }

  function WithSign(minus: bool, n: Option<nat>): Option<int> {
    match n
    case None => None
    case Some(v) => Some(if minus then -(v as int) else v)
  }

  lemma ReadPrefixed(s: string, base: nat)
    requires |s| >= 2 && s[0] == '0' && s[1] in "xXoObB" && base == if s[1] in "xX" then 16 else if s[1] in "oO" then 8 else 2
    ensures Read(s) == if |s| == 2 then None else AsInt(ParseDigits(s[2..], base))
  {
    hide ParseDigits;
  }

  lemma ReadSigned(s: string)
    requires s != [] && s[0] in "+-"
    ensures Read(s) == if |s| == 1 then None else WithSign(s[0] == '-', ParseDigits(s[1..], 10))
  {
    hide ParseDigits;
  }

  /** A prefix asks for a base, and there is no number without digits after it. */
  lemma ParsePrefixed(letter: char, rest: string, base: nat)
    requires letter in "xXoObB" && base == if letter in "xX" then 16 else if letter in "oO" then 8 else 2
    requires rest == [] || !IsBlank(rest[|rest| - 1])
    ensures Parse(['0', letter] + rest) == if rest == [] then None else AsInt(ParseDigits(rest, base))
  {
    hide ParseDigits, TrimLeft, TrimRight, Read;
    var s := ['0', letter] + rest;
    assert s[|s| - 1] == if rest == [] then letter else rest[|rest| - 1];
    NothingToTrim(s);
    ReadPrefixed(s, base);
    assert s[2..] == rest;
  }

  /** A sign is for decimals, and there is no number without digits after it. */
  lemma ParseSigned(sign: char, rest: string)
    requires sign in "+-" && (rest == [] || !IsBlank(rest[|rest| - 1]))
    ensures Parse([sign] + rest) == if rest == [] then None else WithSign(sign == '-', ParseDigits(rest, 10))
  {
    hide ParseDigits, TrimLeft, TrimRight, Read;
    var s := [sign] + rest;
    assert s[|s| - 1] == if rest == [] then sign else rest[|rest| - 1];
    NothingToTrim(s);
    ReadSigned(s);
    assert s[1..] == rest;
  }

  /** Anything else is a decimal or no number at all. */
  lemma ParsePlain(s: string)
    requires s != [] && !IsBlank(s[0]) && !IsBlank(s[|s| - 1]) && s[0] != '+' && s[0] != '-'
    requires |s| == 1 || s[0] != '0' || s[1] !in "xXoObB"
    ensures Parse(s) == AsInt(ParseDigits(s, 10))
  {
    hide ParseDigits, TrimLeft, TrimRight, IsBlank;
    NothingToTrim(s);
    assert "xXoObB" == ['x', 'X', 'o', 'O', 'b', 'B'];
  }

  /** Blanks around a number are ignored, and blanks alone read as zero. */
  lemma ParseIgnoresBlanks(before: string, s: string, after: string)
    requires AllBlank(before) && AllBlank(after)
    requires s == [] || (!IsBlank(s[0]) && !IsBlank(s[|s| - 1]))
    ensures Parse(before + s + after) == if s == [] then Some(0) else Parse(s)
  {
    hide AllBlank, IsBlank, TrimLeft, TrimRight, BaseOf, ParseDigits;
    TrimmedText(before, s, after);
    if s != [] {
      NothingToTrim(s);
    }
  }

  // ---------------------------------------------------------------------------------------
  // The consent object
  // ---------------------------------------------------------------------------------------

  datatype Domain = Domain(name: string, version: string, chainId: int, verifyingContract: string)

  datatype Message<N> = Message(quoteId: string, wallet: string, to: string, data: string, value: N, chainId: N, expiry: N)

  datatype TypedData = TypedData(domain: Domain, message: Message<int>)

  datatype Wire = Wire(domain: Domain, message: Message<string>)

  datatype Source = Source(
    quoteId: string, walletAddress: string, chainId: int, relayerAddress: string,
    to: string, data: string, value: string, expiresAtMs: int)

  function ToWire(typed: TypedData): Wire {
    var m := typed.message;
    Wire(typed.domain, Message(m.quoteId, m.wallet, m.to, m.data, Print(m.value), Print(m.chainId), Print(m.expiry)))
  }

  /** None when one of the three numbers cannot be read. */
  function ParseWire(wire: Wire): Option<TypedData> {
    var m := wire.message;
    var value, chainId, expiry := Parse(m.value), Parse(m.chainId), Parse(m.expiry);
    if value.None? || chainId.None? || expiry.None? then None
    else Some(TypedData(wire.domain, Message(m.quoteId, m.wallet, m.to, m.data, value.value, chainId.value, expiry.value)))
  }

  /** Nothing is lost on the wire. */
  lemma WireRoundTrip(typed: TypedData)
    ensures ParseWire(ToWire(typed)) == Some(typed)
  {
    ParsePrinted(typed.message.value);
    ParsePrinted(typed.message.chainId);
    ParsePrinted(typed.message.expiry);
  }

  /** And a wire object comes back as it was exactly when its numbers are canonical decimals. */
  lemma WireReprintsIff(wire: Wire)
    ensures (ParseWire(wire).Some? && ToWire(ParseWire(wire).value) == wire) <==>
            Canonical(wire.message.value) && Canonical(wire.message.chainId) && Canonical(wire.message.expiry)
  {
    hide Parse, Print, Canonical;
    PrintParsedIff(wire.message.value);
    PrintParsedIff(wire.message.chainId);
    PrintParsedIff(wire.message.expiry);
  }

  /** None when the quoted value is not a number. */
  function Build(source: Source): Option<TypedData> {
    var value := Parse(source.value);
    if value.None? then None
    else Some(TypedData(
      Domain("Kamby", "1", source.chainId, Lower(source.relayerAddress)),
      Message(source.quoteId, Lower(source.walletAddress), Lower(source.to), source.data, value.value, source.chainId,
              source.expiresAtMs / 1000)))
  }

  predicate SameButForCase(a: string, b: string) {
    |a| == |b| && forall i | 0 <= i < |a| :: LowerChar(a[i]) == LowerChar(b[i])
  }

  predicate HasNoCapitals(s: string) {
    forall i | 0 <= i < |s| :: !('A' <= s[i] <= 'Z')
  }

  lemma LowerIff(a: string, b: string)
    ensures Lower(a) == Lower(b) <==> SameButForCase(a, b)
  {
    if Lower(a) == Lower(b) {
      forall i | 0 <= i < |a| ensures LowerChar(a[i]) == LowerChar(b[i]) {
        assert Lower(a)[i] == Lower(b)[i];
      }
    }
  }

  /** From the consent one reads back each field of the source in its own place. */
  predicate SaysWhatTheSourceSays(source: Source, typed: TypedData) {
    var m := typed.message;
    typed.domain.name == "Kamby" && typed.domain.version == "1" && typed.domain.chainId == source.chainId &&
    SameButForCase(typed.domain.verifyingContract, source.relayerAddress) && HasNoCapitals(typed.domain.verifyingContract) &&
    m.quoteId == source.quoteId && m.data == source.data && m.chainId == source.chainId &&
    SameButForCase(m.wallet, source.walletAddress) && HasNoCapitals(m.wallet) &&
    SameButForCase(m.to, source.to) && HasNoCapitals(m.to) &&
    Parse(source.value) == Some(m.value) && m.expiry * 1000 <= source.expiresAtMs < (m.expiry + 1) * 1000
  }

  /** The wire form says the same, its numbers in canonical decimals. */
  predicate WireSaysWhatTheSourceSays(source: Source, wire: Wire) {
    var m := wire.message;
    wire.domain.name == "Kamby" && wire.domain.version == "1" && wire.domain.chainId == source.chainId &&
    SameButForCase(wire.domain.verifyingContract, source.relayerAddress) &&
    m.quoteId == source.quoteId && m.data == source.data &&
    SameButForCase(m.wallet, source.walletAddress) && SameButForCase(m.to, source.to) &&
    Canonical(m.value) && Parse(m.value) == Parse(source.value) &&
    Canonical(m.chainId) && Parse(m.chainId) == Some(source.chainId) &&
    Canonical(m.expiry) && Parse(m.expiry).Some? &&
    Parse(m.expiry).value * 1000 <= source.expiresAtMs < (Parse(m.expiry).value + 1) * 1000
  }

  lemma LowerKeepsText(s: string)
    ensures SameButForCase(Lower(s), s) && HasNoCapitals(Lower(s))
  {
    LowerTwice(s);
    assert forall i | 0 <= i < |s| :: LowerChar(Lower(s)[i]) == LowerChar(s[i]);
  }

  /** A consent is built exactly when the value can be read, and it says what the source says, on the wire as well. */
  lemma ConsentSaysWhatTheSourceSays(source: Source)
    ensures Build(source).Some? <==> Parse(source.value).Some?
    ensures Build(source).Some? ==>
              SaysWhatTheSourceSays(source, Build(source).value) && WireSaysWhatTheSourceSays(source, ToWire(Build(source).value))
  {
    hide Parse, Print, Lower, SameButForCase, HasNoCapitals, Canonical;
    LowerKeepsText(source.relayerAddress);
    LowerKeepsText(source.walletAddress);
    LowerKeepsText(source.to);
    if Build(source).Some? {
      var m := Build(source).value.message;
      PrintIsCanonical(m.value);
      PrintIsCanonical(m.chainId);
      PrintIsCanonical(m.expiry);
      ParsePrinted(m.value);
      ParsePrinted(m.chainId);
      ParsePrinted(m.expiry);
    }
  }

  /**
    Two sources ask for the same consent exactly when they agree on everything but the case of the
    addresses, how the value is written, and the part of a second in the expiry.
  */
  lemma SameConsentIff(a: Source, b: Source)
    ensures (Build(a).Some? && Build(a) == Build(b)) <==>
            Parse(a.value).Some? && a.quoteId == b.quoteId && a.chainId == b.chainId && a.data == b.data &&
            SameButForCase(a.walletAddress, b.walletAddress) && SameButForCase(a.to, b.to) &&
            SameButForCase(a.relayerAddress, b.relayerAddress) &&
            Parse(a.value) == Parse(b.value) && a.expiresAtMs / 1000 == b.expiresAtMs / 1000
  {
    hide Parse, Lower, SameButForCase;
    LowerIff(a.walletAddress, b.walletAddress);
    LowerIff(a.to, b.to);
    LowerIff(a.relayerAddress, b.relayerAddress);
  }
}
