/**
 * The port-definition parser. A definition `PORT,BAUD,PARITY,DATABITS,STOPBITS`
 * becomes a SerialOptions record, or an error whose text names the definition.
 * Acceptance is decided by the anchored pattern
 *   ^(.*?),(\d{3,7}),([neomsNEOMS]),([5678]),(1|1.5|2)$
 * with Go regexp semantics: `.` matches every character except a newline,
 * `\d` is an ASCII digit, `^` and `$` anchor at the ends of the whole text.
 */
module PortOptions {
  import opened SerialTypes

  datatype Parity = NoParity | OddParity | EvenParity | MarkParity | SpaceParity

  datatype StopBits = OneStopBit | OnePointFiveStopBits | TwoStopBits

  datatype SerialOptions = SerialOptions(
    port: string,
    baudRate: int,
    parity: Parity,
    dataBits: int,
    stopBits: StopBits)

  const DefinitionError: string := "invalid serial port definition: "

  // ---------------------------------------------------------------------------
  // The pattern, as a predicate over the five capture groups
  // ---------------------------------------------------------------------------

  /** The five capture groups of the pattern, in order. */
  datatype Groups = Groups(port: string, baud: string, parity: string, dataBits: string, stopBits: string)

  predicate IsDigit(c: char) { '0' <= c <= '9' }

  predicate AllDigits(s: string) { forall i :: 0 <= i < |s| ==> IsDigit(s[i]) }

  /** What `.` matches when the s flag is off. */
  predicate AnyChar(c: char) { c != '\n' }

  predicate AllAnyChar(s: string) { forall i :: 0 <= i < |s| ==> AnyChar(s[i]) }

  predicate IsParityLetter(c: char) { c in "neomsNEOMS" }

  predicate IsDataBitsDigit(c: char) { c in "5678" }

  /** `(1|1.5|2)`: the dot of `1.5` is the wildcard, so `1x5` is accepted too. */
  predicate IsStopBitsField(f: string)
  {
    f == "1" || f == "2" || (|f| == 3 && f[0] == '1' && AnyChar(f[1]) && f[2] == '5')
  }

  /** The whole text `s` matches the pattern with capture groups `g`. */
  predicate IsMatch(s: string, g: Groups)
  {
    && s == g.port + "," + g.baud + "," + g.parity + "," + g.dataBits + "," + g.stopBits
    && AllAnyChar(g.port)
    && 3 <= |g.baud| <= 7 && AllDigits(g.baud)
    && |g.parity| == 1 && IsParityLetter(g.parity[0])
    && |g.dataBits| == 1 && IsDataBitsDigit(g.dataBits[0])
    && IsStopBitsField(g.stopBits)
  }

  ghost predicate PatternMatches(s: string)
  {
    exists g :: IsMatch(s, g)
  }

  /** Where each group and separator of a match sits in the text. */
  lemma MatchLayout(s: string, g: Groups)
    requires IsMatch(s, g)
    ensures var p, b := |g.port|, |g.baud|;
      && |s| == p + b + |g.stopBits| + 6
      && s[..p] == g.port && s[p] == ','
      && s[p + 1..p + 1 + b] == g.baud && s[p + 1 + b] == ','
      && s[p + b + 2] == g.parity[0] && s[p + b + 3] == ','
      && s[p + b + 4] == g.dataBits[0] && s[p + b + 5] == ','
      && s[p + b + 6..] == g.stopBits
  {
    var p, b := |g.port|, |g.baud|;
    var head := g.port + "," + g.baud + "," + g.parity + "," + g.dataBits + ",";
    assert s == head + g.stopBits;
    assert |head| == p + b + 6;
    assert s[p + b + 6..] == g.stopBits;
    assert head[p + 1..p + 1 + b] == g.baud;
  }

  // ---------------------------------------------------------------------------
  // The matcher: Go's FindStringSubmatch for this pattern
  // ---------------------------------------------------------------------------

  /** The length of the longest run of digits at the start of `t`. */
  function DigitRun(t: string): (n: nat)
    ensures n <= |t| && AllDigits(t[..n])
    ensures n < |t| ==> !IsDigit(t[n])
  {
    if t == [] || !IsDigit(t[0]) then 0 else 1 + DigitRun(t[1..])
  }

  /**
   * The groups after a port of `port`, when `t` is the text after the port's comma.
   * `\d{3,7}` must stop at the comma, so the baud group is the leading digit run.
   */
  function MatchTail(port: string, t: string): Option<Groups>
  {
    var n := DigitRun(t);
    if && 3 <= n <= 7 && n + 5 <= |t|
       && t[n] == ',' && IsParityLetter(t[n + 1]) && t[n + 2] == ','
       && IsDataBitsDigit(t[n + 3]) && t[n + 4] == ',' && IsStopBitsField(t[n + 5..])
    then Some(Groups(port, t[..n], [t[n + 1]], [t[n + 3]], t[n + 5..]))
    else None
  }

  /** The match whose port group is exactly the first `i` characters, if there is one. */
  function MatchAt(s: string, i: nat): Option<Groups>
    requires i < |s|
  {
    if AllAnyChar(s[..i]) && s[i] == ',' then MatchTail(s[..i], s[i + 1..]) else None
  }

  lemma MatchTailSound(port: string, t: string)
    requires MatchTail(port, t).Some?
    ensures var g := MatchTail(port, t).value;
      && g.port == port
      && t == g.baud + "," + g.parity + "," + g.dataBits + "," + g.stopBits
      && 3 <= |g.baud| <= 7 && AllDigits(g.baud)
      && |g.parity| == 1 && IsParityLetter(g.parity[0])
      && |g.dataBits| == 1 && IsDataBitsDigit(g.dataBits[0])
      && IsStopBitsField(g.stopBits)
  {
    var n := DigitRun(t);
    assert t == t[..n] + [t[n]] + [t[n + 1]] + [t[n + 2]] + [t[n + 3]] + [t[n + 4]] + t[n + 5..];
  }

  lemma MatchAtSound(s: string, i: nat)
    requires i < |s| && MatchAt(s, i).Some?
    ensures IsMatch(s, MatchAt(s, i).value) && |MatchAt(s, i).value.port| == i
  {
    var g := MatchAt(s, i).value;
    var t := s[i + 1..];
    MatchTailSound(s[..i], t);
    assert s == s[..i] + "," + t;
    assert s == g.port + "," + (g.baud + "," + g.parity + "," + g.dataBits + "," + g.stopBits);
  }

  /** A run of `b` digits ended by a non-digit is the leading digit run. */
  lemma {:induction false} DigitRunStops(t: string, b: nat)
    requires b < |t| && AllDigits(t[..b]) && !IsDigit(t[b])
    ensures DigitRun(t) == b
    decreases b
  {
    if b > 0 {
      assert t[1..][..b - 1] == t[1..b];
      assert t[0] == t[..b][0];
      DigitRunStops(t[1..], b - 1);
    }
  }

  /** The text after the port's comma, as MatchTail reads it. */
  lemma TailOfMatch(s: string, g: Groups)
    requires IsMatch(s, g)
    ensures var t, b := s[|g.port| + 1..], |g.baud|;
      && |g.port| < |s| && s[..|g.port|] == g.port && s[|g.port|] == ','
      && b + 5 < |t| && t[..b] == g.baud && t[b] == ','
      && t[b + 1] == g.parity[0] && t[b + 2] == ',' && t[b + 3] == g.dataBits[0] && t[b + 4] == ','
      && t[b + 5..] == g.stopBits
  {
    MatchLayout(s, g);
    var p := |g.port|;
    var t := s[p + 1..];
    assert t[..|g.baud|] == s[p + 1..p + 1 + |g.baud|];
    assert t[|g.baud| + 5..] == s[p + |g.baud| + 6..];
  }

  lemma MatchAtOf(s: string, g: Groups)
    requires IsMatch(s, g)
    ensures |g.port| < |s| && MatchAt(s, |g.port|) == Some(g)
  {
    TailOfMatch(s, g);
    var t, b := s[|g.port| + 1..], |g.baud|;
    DigitRunStops(t, b);
    assert [t[b + 1]] == g.parity && [t[b + 3]] == g.dataBits;
  }

  lemma MatchAtComplete(s: string)
    ensures forall g :: IsMatch(s, g) ==> |g.port| < |s| && MatchAt(s, |g.port|) == Some(g)
  {
    forall g | IsMatch(s, g)
      ensures |g.port| < |s| && MatchAt(s, |g.port|) == Some(g)
    {
      MatchAtOf(s, g);
    }
  }

  /** Two matches of one text are the same match: the groups are fixed from the right. */
  lemma MatchUnique(s: string)
    ensures forall g1, g2 :: IsMatch(s, g1) && IsMatch(s, g2) ==> g1 == g2
  {
    forall g1, g2 | IsMatch(s, g1) && IsMatch(s, g2)
      ensures g1 == g2
    {
      MatchLayout(s, g1);
      MatchLayout(s, g2);
      // the last character fixes the length of the stop-bits group
      assert |g1.stopBits| == |g2.stopBits| by {
        assert s[|s| - 1] == g1.stopBits[|g1.stopBits| - 1];
        assert s[|s| - 1] == g2.stopBits[|g2.stopBits| - 1];
      }
      var p1, b1 := |g1.port|, |g1.baud|;
      var p2, b2 := |g2.port|, |g2.baud|;
      // otherwise the comma after the longer port would fall inside the other's baud digits
      assert p1 == p2;
      assert g1.parity == [g1.parity[0]] && g2.parity == [g2.parity[0]];
      assert g1.dataBits == [g1.dataBits[0]] && g2.dataBits == [g2.dataBits[0]];
    }
  }

  /** Tries the port group shortest first, as the lazy `(.*?)` does. */
  function FindFrom(s: string, i: nat): (r: Option<Groups>)
    requires i <= |s|
    ensures r.Some? ==> IsMatch(s, r.value) && i <= |r.value.port|
    ensures r.None? ==> forall g :: IsMatch(s, g) ==> |g.port| < i
    decreases |s| - i
  {
    MatchAtComplete(s);
    if i == |s| then None
    else if MatchAt(s, i).Some? then
      MatchAtSound(s, i);
      MatchAt(s, i)
    else FindFrom(s, i + 1)
  }

  /**
   * FindStringSubmatch: the groups of the match, or None when the text does not match.
   * Since a match is unique, the laziness of the port group never changes the result.
   */
  function FindSubmatch(s: string): (r: Option<Groups>)
    ensures forall g :: IsMatch(s, g) <==> r == Some(g)
  {
    MatchUnique(s);
    FindFrom(s, 0)
  }

  // ---------------------------------------------------------------------------
  // strconv.Atoi and strings.ToLower, as far as the parser uses them
  // ---------------------------------------------------------------------------

  function DigitValue(c: char): nat
    requires IsDigit(c)
  {
    (c as int) - ('0' as int)
  }

  /** The value of a string of decimal digits (an empty string is 0). */
  function DecimalValue(s: string): nat
    requires AllDigits(s)
  {
    if s == [] then 0 else 10 * DecimalValue(s[..|s| - 1]) + DigitValue(s[|s| - 1])
  }

  function Pow10(k: nat): nat
  {
    if k == 0 then 1 else 10 * Pow10(k - 1)
  }

  lemma {:induction false} Pow10Monotone(a: nat, b: nat)
    requires a <= b
    ensures Pow10(a) <= Pow10(b)
  {
    if a < b {
      Pow10Monotone(a, b - 1);
    }
  }

  /** k digits never spell a number of k + 1 digits. */
  lemma {:induction false} DecimalValueBound(s: string)
    requires AllDigits(s)
    ensures DecimalValue(s) < Pow10(|s|)
  {
    if s != [] {
      DecimalValueBound(s[..|s| - 1]);
    }
  }

  const MaxInt64: int := 0x7fff_ffff_ffff_ffff
  const MinInt64: int := -0x8000_0000_0000_0000

  datatype NumError = InvalidSyntax | OutOfRange

  /** strconv.Atoi: an optional sign and at least one digit, within the range of int. */
  function Atoi(s: string): (r: Result<int, NumError>)
    ensures r.Success? ==> MinInt64 <= r.value <= MaxInt64
    ensures r.Success? ==> s != [] && (IsDigit(s[0]) || s[0] == '+' || s[0] == '-')
  {
    var signed := |s| > 0 && (s[0] == '+' || s[0] == '-');
    var digits := if signed then s[1..] else s;
    if digits == [] || !AllDigits(digits) then Failure(InvalidSyntax)
    else
      var v: int := if signed && s[0] == '-' then -(DecimalValue(digits) as int) else DecimalValue(digits);
      if v < MinInt64 || MaxInt64 < v then Failure(OutOfRange) else Success(v)
  }

  lemma Pow10Seven()
    ensures Pow10(2) == 100 && Pow10(7) == 10_000_000
  {
    assert Pow10(1) == 10;
    assert Pow10(2) == 100;
    assert Pow10(3) == 1_000;
    assert Pow10(4) == 10_000;
    assert Pow10(5) == 100_000;
    assert Pow10(6) == 1_000_000;
  }

  /** Up to seven digits (all the pattern lets through) always convert, to their decimal value. */
  lemma AtoiOfDigits(s: string)
    requires AllDigits(s) && 1 <= |s| <= 7
    ensures Atoi(s) == Success(DecimalValue(s))
  {
    DecimalValueBound(s);
    Pow10Monotone(|s|, 7);
    Pow10Seven();
  }

  function NumErrorText(s: string, e: NumError): string
  {
    "strconv.Atoi: parsing \"" + s + "\": " + (if e == InvalidSyntax then "invalid syntax" else "value out of range")
  }

  /** Lower-casing of the characters the pattern lets into the parity and stop-bits groups. */
  function LowerChar(c: char): char
  {
    if 'A' <= c <= 'Z' then (c as int + 32) as char else c
  }

  function ToLower(s: string): (r: string)
    ensures |r| == |s|
  {
    seq(|s|, i requires 0 <= i < |s| => LowerChar(s[i]))
  }

  // ---------------------------------------------------------------------------
  // ParseSerialOptions
  // ---------------------------------------------------------------------------

  /** The parity switch, on the lower-cased group. */
  function ParityOf(lower: string): (r: Option<Parity>)
    ensures r.Some? <==> |lower| == 1 && lower[0] in "noems"
    ensures r.Some? ==> lower == [ParityChar(r.value)]
  {
    if lower == "n" then Some(NoParity)
    else if lower == "o" then Some(OddParity)
    else if lower == "m" then Some(MarkParity)
    else if lower == "s" then Some(SpaceParity)
    else if lower == "e" then Some(EvenParity)
    else None
  }

  /** The stop-bits switch, on the lower-cased group. */
  function StopBitsOf(lower: string): (r: Option<StopBits>)
    ensures r.Some? <==> lower == "1" || lower == "1.5" || lower == "2"
    ensures r.Some? ==> lower == StopBitsText(r.value)
  {
    if lower == "1" then Some(OneStopBit)
    else if lower == "1.5" then Some(OnePointFiveStopBits)
    else if lower == "2" then Some(TwoStopBits)
    else None
  }

  function InnerError(optionString: string, field: string, e: NumError): (msg: string)
    ensures DefinitionError + optionString <= msg
  {
    var head := DefinitionError + optionString;
    var msg := head + " (inner error: " + NumErrorText(field, e) + ")";
    assert msg[..|head|] == head;
    msg
  }

  function ParseSerialOptions(optionString: string): (r: Result<SerialOptions, string>)
    ensures r.Failure? ==> DefinitionError + optionString <= r.error
    ensures r.Success? ==> exists g :: IsMatch(optionString, g) && r.value.port == g.port
  {
    match FindSubmatch(optionString)
    case None => Failure(DefinitionError + optionString)
    case Some(g) =>
      match Atoi(g.baud)
      case Failure(e) => Failure(InnerError(optionString, g.baud, e))
      case Success(baudRate) =>
        match ParityOf(ToLower(g.parity))
        case None => Failure(DefinitionError + optionString)
        case Some(parity) =>
          match Atoi(g.dataBits)
          case Failure(e) => Failure(InnerError(optionString, g.dataBits, e))
          case Success(dataBits) =>
            match StopBitsOf(ToLower(g.stopBits))
            case None => Failure(DefinitionError + optionString)
            case Some(stopBits) => Success(SerialOptions(g.port, baudRate, parity, dataBits, stopBits))
  }

  // ---------------------------------------------------------------------------
  // What a definition means, stated independently of the switches
  // ---------------------------------------------------------------------------

  /** The parity a letter selects, in either case. */
  function LetterParity(c: char): Parity
    requires IsParityLetter(c)
  {
    if c == 'n' || c == 'N' then NoParity
    else if c == 'o' || c == 'O' then OddParity
    else if c == 'e' || c == 'E' then EvenParity
    else if c == 'm' || c == 'M' then MarkParity
    else SpaceParity
  }

  lemma ParityOfLetter(c: char)
    requires IsParityLetter(c)
    ensures ParityOf(ToLower([c])) == Some(LetterParity(c))
  {
    assert ToLower([c]) == [LowerChar(c)];
  }

  /** Lower-casing never turns a matched stop-bits group into another literal. */
  lemma StopBitsIgnoreCase(f: string)
    requires IsStopBitsField(f)
    ensures StopBitsOf(ToLower(f)) == StopBitsOf(f)
  {
    if |f| == 3 {
      assert ToLower(f) == [f[0], LowerChar(f[1]), f[2]];
      assert LowerChar(f[1]) == '.' <==> f[1] == '.';
    } else {
      assert ToLower(f) == f;
    }
  }

  /**
   * The outcome for every text the pattern accepts: the groups converted field by
   * field, or the plain definition error when the stop-bits group only matched
   * through the wildcard dot.
   */
  lemma ParseOfMatch(s: string, g: Groups)
    requires IsMatch(s, g)
    ensures ParseSerialOptions(s) ==
      match StopBitsOf(g.stopBits)
      case Some(stop) =>
        Success(SerialOptions(g.port, DecimalValue(g.baud), LetterParity(g.parity[0]), DigitValue(g.dataBits[0]), stop))
      case None => Failure(DefinitionError + s)
  {
    assert FindSubmatch(s) == Some(g);
    AtoiOfDigits(g.baud);
    assert g.parity == [g.parity[0]];
    ParityOfLetter(g.parity[0]);
    assert g.dataBits == [g.dataBits[0]];
    AtoiOfDigits(g.dataBits);
    StopBitsIgnoreCase(g.stopBits);
  }

  /** The outcome for every text the pattern rejects. */
  lemma ParseOfMismatch(s: string)
    requires !PatternMatches(s)
    ensures ParseSerialOptions(s) == Failure(DefinitionError + s)
  {
  }

  /** Success exactly when the pattern matches with a stop-bits group that is one of the three literals. */
  lemma ParseAcceptance(s: string)
    ensures ParseSerialOptions(s).Success? <==>
      exists g :: IsMatch(s, g) && g.stopBits in ["1", "1.5", "2"]
  {
    if g :| IsMatch(s, g) {
      ParseOfMatch(s, g);
      MatchUnique(s);
    } else {
      ParseOfMismatch(s);
    }
  }

  /**
   * Every failure is the plain definition error naming the input: the inner-error
   * branches after both conversions and the parity switch's default are unreachable.
   */
  lemma ParseErrorNamesInput(s: string)
    requires ParseSerialOptions(s).Failure?
    ensures ParseSerialOptions(s).error == DefinitionError + s
  {
    if g :| IsMatch(s, g) {
      ParseOfMatch(s, g);
    } else {
      ParseOfMismatch(s);
    }
  }

  /** The numeric fields of a parsed definition. */
  lemma ParseBounds(s: string)
    requires ParseSerialOptions(s).Success?
    ensures 0 <= ParseSerialOptions(s).value.baudRate <= 9_999_999
    ensures ParseSerialOptions(s).value.dataBits in {5, 6, 7, 8}
  {
    var g :| IsMatch(s, g);
    ParseOfMatch(s, g);
    DecimalValueBound(g.baud);
    Pow10Monotone(|g.baud|, 7);
    assert Pow10(7) == 10_000_000;
  }

  // ---------------------------------------------------------------------------
  // Writing a definition back out
  // ---------------------------------------------------------------------------

  function DigitChar(d: nat): (c: char)
    requires d < 10
    ensures IsDigit(c) && DigitValue(c) == d
  {
    ('0' as int + d) as char
  }

  function NatToDecimal(n: nat): (s: string)
    ensures AllDigits(s) && |s| >= 1
  {
    if n < 10 then [DigitChar(n)] else NatToDecimal(n / 10) + [DigitChar(n % 10)]
  }

  lemma {:induction false} DecimalRoundTrip(n: nat)
    ensures DecimalValue(NatToDecimal(n)) == n
  {
    if n >= 10 {
      DecimalRoundTrip(n / 10);
      var s := NatToDecimal(n);
      assert s[..|s| - 1] == NatToDecimal(n / 10);
    }
  }

  lemma {:induction false} DecimalLengthAtMost(n: nat, k: nat)
    requires 1 <= k && n < Pow10(k)
    ensures |NatToDecimal(n)| <= k
  {
    if n >= 10 && k > 1 {
      DecimalLengthAtMost(n / 10, k - 1);
    }
  }

  /** A leading zero does not change a decimal value. */
  lemma {:induction false} LeadingZeroValue(s: string)
    requires AllDigits(s)
    ensures AllDigits("0" + s) && DecimalValue("0" + s) == DecimalValue(s)
    decreases |s|
  {
    var z := "0" + s;
    assert forall i :: 0 <= i < |z| ==> IsDigit(z[i]) by {
      forall i | 0 <= i < |z| ensures IsDigit(z[i]) {
        if i > 0 { assert z[i] == s[i - 1]; }
      }
    }
    if s == [] {
      assert z[..0] == [];
    } else {
      assert z[..|z| - 1] == "0" + s[..|s| - 1];
      LeadingZeroValue(s[..|s| - 1]);
    }
  }

  /** `s` with zeros in front, up to `width` digits. */
  function ZeroPad(s: string, width: nat): (r: string)
    requires AllDigits(s)
    ensures AllDigits(r) && |r| == (if |s| >= width then |s| else width)
    ensures DecimalValue(r) == DecimalValue(s)
    decreases width - |s|
  {
    if |s| >= width then s
    else
      LeadingZeroValue(s);
      ZeroPad("0" + s, width)
  }

  /** A baud rate as the pattern's three-to-seven-digit group writes it. */
  function BaudText(n: nat): string
  {
    ZeroPad(NatToDecimal(n), 3)
  }

  function ParityChar(p: Parity): char
  {
    match p
    case NoParity => 'n'
    case OddParity => 'o'
    case EvenParity => 'e'
    case MarkParity => 'm'
    case SpaceParity => 's'
  }

  function StopBitsText(b: StopBits): string
  {
    match b
    case OneStopBit => "1"
    case OnePointFiveStopBits => "1.5"
    case TwoStopBits => "2"
  }

  /** Options that a definition string can express. */
  predicate Expressible(o: SerialOptions)
  {
    AllAnyChar(o.port) && 0 <= o.baudRate <= 9_999_999 && 5 <= o.dataBits <= 8
  }

  function FormatSerialOptions(o: SerialOptions): string
    requires Expressible(o)
  {
    o.port + "," + BaudText(o.baudRate) + "," + [ParityChar(o.parity)] + ","
      + [DigitChar(o.dataBits)] + "," + StopBitsText(o.stopBits)
  }

  function FormatGroups(o: SerialOptions): Groups
    requires Expressible(o)
  {
    Groups(o.port, BaudText(o.baudRate), [ParityChar(o.parity)], [DigitChar(o.dataBits)], StopBitsText(o.stopBits))
  }

  lemma FormatMatches(o: SerialOptions)
    requires Expressible(o)
    ensures IsMatch(FormatSerialOptions(o), FormatGroups(o))
  {
    Pow10Seven();
    DecimalLengthAtMost(o.baudRate, 7);
  }

  /** Each written-out field converts back to the field it came from. */
  lemma FormatFieldsRoundTrip(o: SerialOptions)
    requires Expressible(o)
    ensures var g := FormatGroups(o);
      && DecimalValue(g.baud) == o.baudRate
      && LetterParity(g.parity[0]) == o.parity
      && DigitValue(g.dataBits[0]) == o.dataBits
      && StopBitsOf(g.stopBits) == Some(o.stopBits)
  {
    DecimalRoundTrip(o.baudRate);
    ParityCharRoundTrip(o.parity);
    StopBitsTextRoundTrip(o.stopBits);
  }

  lemma ParityCharRoundTrip(p: Parity)
    ensures IsParityLetter(ParityChar(p)) && LetterParity(ParityChar(p)) == p
  {
  }

  lemma StopBitsTextRoundTrip(b: StopBits)
    ensures StopBitsOf(StopBitsText(b)) == Some(b)
  {
  }

  /** Every expressible configuration survives being written out and parsed back. */
  lemma ParseFormatRoundTrip(o: SerialOptions)
    requires Expressible(o)
    ensures ParseSerialOptions(FormatSerialOptions(o)) == Success(o)
  {
    var s, g := FormatSerialOptions(o), FormatGroups(o);
    FormatMatches(o);
    ParseOfMatch(s, g);
    FormatFieldsRoundTrip(o);
  }

  // ---------------------------------------------------------------------------
  // Concrete definitions
  // ---------------------------------------------------------------------------

  lemma TypicalDefinitionMatches()
    ensures IsMatch("COM5,19200,N,8,1", Groups("COM5", "19200", "N", "8", "1"))
  {
    assert "COM5,19200,N,8,1" == "COM5" + "," + "19200" + "," + "N" + "," + "8" + "," + "1";
  }

  lemma ParseAcceptsTypicalDefinition()
    ensures ParseSerialOptions("COM5,19200,N,8,1")
         == Success(SerialOptions("COM5", 19200, NoParity, 8, OneStopBit))
  {
    TypicalDefinitionMatches();
    ParseOfMatch("COM5,19200,N,8,1", Groups("COM5", "19200", "N", "8", "1"));
    TypicalBaudValue();
  }

  lemma TypicalBaudValue()
    ensures DecimalValue("19200") == 19200
  {
    assert "19200"[..4] == "1920" && "1920"[..3] == "192" && "192"[..2] == "19" && "19"[..1] == "1" && "1"[..0] == "";
  }

  lemma ParseRejectsUnknownParity()
    ensures ParseSerialOptions("COM5,19200,X,8,1") == Failure(DefinitionError + "COM5,19200,X,8,1")
  {
    var s := "COM5,19200,X,8,1";
    if g :| IsMatch(s, g) {
      MatchLayout(s, g);
      assert false;
    }
    ParseOfMismatch(s);
  }

  lemma WildcardDefinitionMatches()
    ensures IsMatch("COM1,9600,n,8,1x5", Groups("COM1", "9600", "n", "8", "1x5"))
  {
    assert "COM1,9600,n,8,1x5" == "COM1" + "," + "9600" + "," + "n" + "," + "8" + "," + "1x5";
  }

  /** `1x5` passes the pattern through the wildcard dot and is refused by the stop-bits switch. */
  lemma ParseRejectsWildcardStopBits()
    ensures PatternMatches("COM1,9600,n,8,1x5")
    ensures ParseSerialOptions("COM1,9600,n,8,1x5") == Failure(DefinitionError + "COM1,9600,n,8,1x5")
  {
    WildcardDefinitionMatches();
    ParseOfMatch("COM1,9600,n,8,1x5", Groups("COM1", "9600", "n", "8", "1x5"));
  }
}
