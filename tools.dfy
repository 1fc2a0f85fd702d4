/**
 * The deterministic tools (tools.service.ts): the static exchange-rate table
 * and the string logic of the math tool around an abstract evaluator.
 */
module Tools {
  import opened Wrappers
  import opened Text

  // ---------------------------------------------------------------------------
  // EXCHANGE_RATES
  // ---------------------------------------------------------------------------

  /** A non-negative JavaScript number written in decimal: its integral part and its fractional digits. */
  datatype Decimal = Decimal(whole: nat, fraction: string)

  /** Digits only after the point, and no trailing zero, as JavaScript's shortest display has none. */
  predicate WellFormed(d: Decimal) {
    && (forall i :: 0 <= i < |d.fraction| ==> IsDigit(d.fraction[i]))
    && (d.fraction == [] || d.fraction[|d.fraction| - 1] != '0')
  }

  predicate IsZero(d: Decimal) {
    d.whole == 0 && forall i :: 0 <= i < |d.fraction| ==> d.fraction[i] == '0'
  }

  /** `${rate}`. */
  function DecimalDisplay(d: Decimal): string {
    NatToDecimal(d.whole) + (if d.fraction == [] then "" else "." + d.fraction)
  }

  /** The table in declaration order, rates against the Israeli shekel. */
  const ExchangeRates: seq<(string, Decimal)> := [
    ("USD", Decimal(3, "75")),
    ("EUR", Decimal(4, "1")),
    ("GBP", Decimal(4, "75")),
    ("JPY", Decimal(0, "025")),
    ("CAD", Decimal(2, "7")),
    ("AUD", Decimal(2, "45")),
    ("CHF", Decimal(4, "2")),
    ("CNY", Decimal(0, "52")),
    ("INR", Decimal(0, "045")),
    ("MXN", Decimal(0, "22"))
  ]

  /** `Object.keys(table)`: the keys in declaration order. */
  function Keys(entries: seq<(string, Decimal)>): (ks: seq<string>)
    ensures |ks| == |entries|
    ensures forall i :: 0 <= i < |entries| ==> ks[i] == entries[i].0
  {
    if entries == [] then [] else [entries[0].0] + Keys(entries[1..])
  }

  /** The own property `code` of the table, if it has one. */
  function LookupIn(entries: seq<(string, Decimal)>, code: string): (r: Option<Decimal>)
    ensures r.None? <==> forall i :: 0 <= i < |entries| ==> entries[i].0 != code
    ensures r.Some? ==> exists i :: 0 <= i < |entries| && entries[i] == (code, r.value)
  {
    if entries == [] then None
    else if entries[0].0 == code then Some(entries[0].1)
    else
      var r := LookupIn(entries[1..], code);
      assert forall i :: 1 <= i < |entries| ==> entries[i] == entries[1..][i - 1];
      r
  }

  /** A well-formed decimal is zero only when it is written "0". */
  lemma ZeroIsWrittenZero(d: Decimal)
    requires WellFormed(d)
    ensures IsZero(d) <==> d.whole == 0 && d.fraction == []
  {
    if d.fraction != [] {
      assert d.fraction[|d.fraction| - 1] != '0';
    }
  }

  /** Every rate is non-zero, so JavaScript's falsy check never fires on a key of the table. */
  lemma RatesAreNonZero()
    ensures forall i :: 0 <= i < |ExchangeRates| ==> WellFormed(ExchangeRates[i].1) && !IsZero(ExchangeRates[i].1)
  {
    forall i | 0 <= i < |ExchangeRates|
      ensures WellFormed(ExchangeRates[i].1) && !IsZero(ExchangeRates[i].1)
    {
      var d := ExchangeRates[i].1;
      assert d.fraction in ["75", "1", "025", "7", "45", "2", "52", "045", "22"];
      ZeroIsWrittenZero(d);
    }
  }

  /** The members every object inherits from `Object.prototype`, all reachable by `obj[name]`. */
  const ObjectPrototypeMembers: seq<string> := [
    "constructor", "__defineGetter__", "__defineSetter__", "hasOwnProperty",
    "__lookupGetter__", "__lookupSetter__", "isPrototypeOf", "propertyIsEnumerable",
    "toString", "valueOf", "__proto__", "toLocaleString"
  ]

  /** What `EXCHANGE_RATES[code]` evaluates to. */
  datatype PropertyValue = OwnRate(rate: Decimal) | InheritedMember | Undefined

  function Property(code: string): PropertyValue {
    match LookupIn(ExchangeRates, code)
    case Some(rate) => OwnRate(rate)
    case None => if code in ObjectPrototypeMembers then InheritedMember else Undefined
  }

  /** JavaScript falsiness of the looked-up value: `undefined`, or the number zero. */
  predicate IsFalsy(v: PropertyValue) {
    v.Undefined? || (v.OwnRate? && IsZero(v.rate))
  }

  /** Every inherited member's name holds a lower-case letter. */
  lemma PrototypeMembersHoldLowerCase(name: string)
    requires name in ObjectPrototypeMembers
    ensures !NoLowerAscii(name)
  {
    if name[0] == '_' {
      assert IsLowerAscii(name[2]);
    } else {
      assert IsLowerAscii(name[0]);
    }
  }

  /** `currencyCode.toUpperCase().trim()`. */
  function NormalizeCode(currencyCode: string): (code: string)
    ensures NoLowerAscii(code)
  {
    var up := ToUpperCase(currencyCode);
    var code := Trim(up);
    TrimKeepsInfix(up);
    assert forall i :: 0 <= i < |code| ==> code[i] in up;
    code
  }

  /** A normalized code never reaches an inherited member, so the falsy check means "not a key of the table". */
  lemma NormalizedCodeIsFalsyExactlyWhenNotAKey(currencyCode: string)
    ensures Property(NormalizeCode(currencyCode)) != InheritedMember
    ensures IsFalsy(Property(NormalizeCode(currencyCode))) <==> LookupIn(ExchangeRates, NormalizeCode(currencyCode)).None?
  {
    var code := NormalizeCode(currencyCode);
    if code in ObjectPrototypeMembers {
      PrototypeMembersHoldLowerCase(code);
    }
    RatesAreNonZero();
  }

  /** The key list in the not-found message. */
  function AvailableCurrencies(): string {
    Join(Keys(ExchangeRates), ", ")
  }

  function NotFoundMessage(code: string): string {
    "Currency \"" + code + "\" not found. Available currencies: " + AvailableCurrencies()
  }

  function RateMessage(code: string, rate: Decimal): string {
    "1 " + code + " = " + DecimalDisplay(rate) + " ILS (Israeli Shekel)"
  }

  /** `getExchangeRate`. */
  function GetExchangeRate(currencyCode: string): (r: string)
    ensures var code := NormalizeCode(currencyCode);
      && (LookupIn(ExchangeRates, code).Some? ==> r == RateMessage(code, LookupIn(ExchangeRates, code).value))
      && (LookupIn(ExchangeRates, code).None? ==> r == NotFoundMessage(code))
  {
    var code := NormalizeCode(currencyCode);
    var v := Property(code);
    NormalizedCodeIsFalsyExactlyWhenNotAKey(currencyCode);
    if IsFalsy(v) then NotFoundMessage(code)
    else match v
      case OwnRate(rate) => RateMessage(code, rate)
  }

  /** Codes that differ only in letter case or in surrounding whitespace get the same answer. */
  lemma {:induction false} ExchangeRateIgnoresCaseAndPadding(a: string, b: string, w1: string, w2: string, w3: string, w4: string)
    requires ToUpperCase(a) == ToUpperCase(b)
    requires AllWhitespace(w1) && AllWhitespace(w2) && AllWhitespace(w3) && AllWhitespace(w4)
    ensures GetExchangeRate(w1 + a + w2) == GetExchangeRate(w3 + b + w4)
    ensures NormalizeCode(w1 + a + w2) == Trim(ToUpperCase(a))
  {
    forall x, v1, v2 | AllWhitespace(v1) && AllWhitespace(v2)
      ensures NormalizeCode(v1 + x + v2) == Trim(ToUpperCase(x))
    {
      ToUpperCaseConcat(v1 + x, v2);
      ToUpperCaseConcat(v1, x);
      ToUpperCaseFixesWhitespace(v1);
      ToUpperCaseFixesWhitespace(v2);
      TrimIgnoresPadding(v1, ToUpperCase(x), v2);
    }
  }

  /** The not-found message lists the keys in the order the table declares them. */
  lemma TableKeysInDeclarationOrder()
    ensures Keys(ExchangeRates) == ["USD", "EUR", "GBP", "JPY", "CAD", "AUD", "CHF", "CNY", "INR", "MXN"]
  {
  }

  /** Listing the keys of two tables one after the other lists the keys of both. */
  lemma {:induction false} KeysAppend(a: seq<(string, Decimal)>, b: seq<(string, Decimal)>)
    ensures Keys(a + b) == Keys(a) + Keys(b)
  {
    if a != [] {
      assert (a + b)[1..] == a[1..] + b;
      KeysAppend(a[1..], b);
    } else {
      assert a + b == b;
    }
  }

  /** The table splits into its first five and its last five entries. */
  lemma KeysSplit()
    ensures Keys(ExchangeRates) == Keys(ExchangeRates[..5]) + Keys(ExchangeRates[5..])
  {
    assert ExchangeRates == ExchangeRates[..5] + ExchangeRates[5..];
    KeysAppend(ExchangeRates[..5], ExchangeRates[5..]);
  }

  // The key list is proved in halves, one part at a time: each proof about
  // literal text stays small for the solver.
  lemma JoinFirstFive()
    ensures Join(["USD", "EUR", "GBP", "JPY", "CAD"], ", ") == "USD, EUR, GBP, JPY, CAD"
  {
    JoinPair("JPY", "CAD", ", ");
    JoinCons("GBP", ["JPY", "CAD"], ", ");
    JoinCons("EUR", ["GBP", "JPY", "CAD"], ", ");
    JoinCons("USD", ["EUR", "GBP", "JPY", "CAD"], ", ");
  }

  lemma JoinLastFive()
    ensures Join(["AUD", "CHF", "CNY", "INR", "MXN"], ", ") == "AUD, CHF, CNY, INR, MXN"
  {
    JoinPair("INR", "MXN", ", ");
    JoinCons("CNY", ["INR", "MXN"], ", ");
    JoinCons("CHF", ["CNY", "INR", "MXN"], ", ");
    JoinCons("AUD", ["CHF", "CNY", "INR", "MXN"], ", ");
  }

  lemma FirstFiveKeys()
    ensures Keys(ExchangeRates[..5]) != []
    ensures Join(Keys(ExchangeRates[..5]), ", ") == "USD, EUR, GBP, JPY, CAD"
  {
    assert Keys(ExchangeRates[..5]) == ["USD", "EUR", "GBP", "JPY", "CAD"];
    JoinFirstFive();
  }

  lemma LastFiveKeys()
    ensures Keys(ExchangeRates[5..]) != []
    ensures Join(Keys(ExchangeRates[5..]), ", ") == "AUD, CHF, CNY, INR, MXN"
  {
    assert Keys(ExchangeRates[5..]) == ["AUD", "CHF", "CNY", "INR", "MXN"];
    JoinLastFive();
  }

  lemma HalvesJoined()
    ensures "USD, EUR, GBP, JPY, CAD" + ", " + "AUD, CHF, CNY, INR, MXN" == "USD, EUR, GBP, JPY, CAD, AUD, CHF, CNY, INR, MXN"
  {
  }

  /** The key list of the not-found message, written out. */
  lemma AvailableCurrenciesListed()
    ensures AvailableCurrencies() == "USD, EUR, GBP, JPY, CAD, AUD, CHF, CNY, INR, MXN"
  {
    HalvesJoined();
    KeysSplit();
    FirstFiveKeys();
    LastFiveKeys();
    JoinAppend(Keys(ExchangeRates[..5]), Keys(ExchangeRates[5..]), ", ");
  }

  /** The dotless 'ı' upper-cases to 'I', so "ınr" reaches the rupee's entry. */
  lemma DotlessIReachesKey()
    ensures NormalizeCode("\U{0131}nr") == "INR"
  {
    var up := ToUpperCase("\U{0131}nr");
    assert up == "INR";
    assert TrimStart(up) == up && TrimEnd(up) == up;
  }

  /** The display of the dollar's rate. */
  lemma UsdRateText()
    ensures DecimalDisplay(Decimal(3, "75")) == "3.75"
  {
    assert NatToDecimal(3) == "3";
  }

  /** The message for the dollar's entry. */
  lemma UsdRateDisplay()
    ensures RateMessage("USD", Decimal(3, "75")) == "1 USD = 3.75 ILS (Israeli Shekel)"
  {
    UsdRateText();
  }

  /** Any code that normalizes to "USD", such as " usd", is quoted at 3.75. */
  lemma UsdQuote(currencyCode: string)
    requires NormalizeCode(currencyCode) == "USD"
    ensures GetExchangeRate(currencyCode) == "1 USD = 3.75 ILS (Israeli Shekel)"
  {
    assert LookupIn(ExchangeRates, "USD") == Some(Decimal(3, "75"));
    assert GetExchangeRate(currencyCode) == RateMessage("USD", Decimal(3, "75"));
    UsdRateDisplay();
  }

  // ---------------------------------------------------------------------------
  // calculateMath
  // ---------------------------------------------------------------------------

  /** A number as the evaluator returns it; for a non-integer, the text of `result.toFixed(10)`. */
  datatype JsNumber = Integral(value: int) | NonIntegral(fixed10: string)

  datatype MathValue =
    | NumberResult(n: JsNumber)
    | StringResult(s: string)
    | OtherResult(json: string)   // the text of `JSON.stringify(result)`

  /** What was thrown: an `Error` with its message, or anything else. */
  datatype Thrown = ErrorObject(message: string) | OtherThrown

  datatype Evaluation = Evaluated(value: MathValue) | Threw(thrown: Thrown)

  /** The characters of the guard `/[`${}]/`. */
  predicate IsForbidden(c: char) {
    c == '`' || c == '$' || c == '{' || c == '}'
  }

  predicate HasForbiddenChar(expression: string) {
    exists i :: 0 <= i < |expression| && IsForbidden(expression[i])
  }

  const InvalidExpression := "Error: " + "Invalid expression. " + "Please use basic mathematical operations only."

  /** `t` is matched in full by `\.?0+`. */
  predicate MatchesDotZeros(t: string) {
    || (|t| >= 1 && forall j :: 0 <= j < |t| ==> t[j] == '0')
    || (|t| >= 2 && t[0] == '.' && forall j :: 1 <= j < |t| ==> t[j] == '0')
  }

  /** The length of the run of '0's that ends `s`. */
  function TrailingZeros(s: string): (z: nat)
    ensures z <= |s|
    ensures forall j :: |s| - z <= j < |s| ==> s[j] == '0'
    ensures z < |s| ==> s[|s| - z - 1] != '0'
  {
    if s == [] || s[|s| - 1] != '0' then 0 else TrailingZeros(s[..|s| - 1]) + 1
  }

  /**
   * `s.replace(/\.?0+$/, '')`: the leftmost suffix that the pattern matches is
   * removed, and nothing is removed when no suffix matches.
   */
  function StripZeroSuffix(s: string): (r: string)
    ensures |r| <= |s| && r == s[..|r|]
    ensures |r| < |s| ==> MatchesDotZeros(s[|r|..])
    ensures forall i :: 0 <= i < |r| ==> !MatchesDotZeros(s[i..])
  {
    var z := TrailingZeros(s);
    if z == 0 then
      assert forall i :: 0 <= i < |s| ==> s[i..][|s| - 1 - i] == s[|s| - 1];
      s
    else if z < |s| && s[|s| - z - 1] == '.' then
      var k := |s| - z - 1;
      assert forall i :: 0 <= i < k ==> s[i..][k - i] == '.';
      s[..k]
    else
      var k := |s| - z;
      assert forall i :: 0 <= i < k ==> s[i..][k - 1 - i] == s[k - 1];
      s[..k]
  }

  /** How a number is displayed: integers in decimal, other numbers from their ten-digit fixed form. */
  function FormatNumber(n: JsNumber): string {
    match n
    case Integral(i) => IntToDecimal(i)
    case NonIntegral(fixed10) => StripZeroSuffix(fixed10)
  }

  const ResultPrefix := "The result of "
  const CalculationErrorPrefix := "Error calculating expression: "

  /**
   * `calculateMath`. `evaluate` stands for mathjs's `evaluate`; it is consulted
   * only when the guard lets the expression through.
   */
  function CalculateMath(expression: string, evaluate: string -> Evaluation): (r: string)
    ensures r == InvalidExpression <==> HasForbiddenChar(expression)
    ensures !HasForbiddenChar(expression) ==>
      match evaluate(expression)
      case Evaluated(NumberResult(Integral(n))) => r == ResultPrefix + expression + " is " + IntToDecimal(n)
      case Evaluated(NumberResult(NonIntegral(f))) => r == ResultPrefix + expression + " is " + StripZeroSuffix(f)
      case Evaluated(StringResult(s)) => r == ResultPrefix + expression + " is: " + s
      case Evaluated(OtherResult(json)) => r == ResultPrefix + expression + " is: " + json
      case Threw(ErrorObject(m)) => r == CalculationErrorPrefix + m
      case Threw(OtherThrown) => r == CalculationErrorPrefix + "Invalid expression"
  {
    if HasForbiddenChar(expression) then InvalidExpression
    else
      var r := match evaluate(expression)
        case Evaluated(NumberResult(n)) => ResultPrefix + expression + " is " + FormatNumber(n)
        case Evaluated(StringResult(s)) => ResultPrefix + expression + " is: " + s
        case Evaluated(OtherResult(json)) => ResultPrefix + expression + " is: " + json
        case Threw(ErrorObject(m)) => CalculationErrorPrefix + m
        case Threw(OtherThrown) => CalculationErrorPrefix + "Invalid expression";
      assert InvalidExpression[0] == 'E' && InvalidExpression[5] == ':';
      assert (r[0] == 'T' && |r| > 0) || (|r| > 5 && r[5] == ' ');
      r
  }

  /** The integer case: "25 * 4" evaluating to 100 is reported as 100. */
  lemma IntegerResultExample(evaluate: string -> Evaluation)
    requires evaluate("25 * 4") == Evaluated(NumberResult(Integral(100)))
    ensures CalculateMath("25 * 4", evaluate) == "The result of 25 * 4 is 100"
  {
    assert !HasForbiddenChar("25 * 4");
    assert IntToDecimal(100) == "100";
  }

  /**
   * The fractional case: the zeros that pad a fixed form after its last
   * significant fraction digit are removed, and nothing else is.
   */
  lemma StripKeepsSignificantFraction(w: string, f: string, zs: string)
    requires f != [] && IsDigit(f[|f| - 1]) && f[|f| - 1] != '0'
    requires forall j :: 0 <= j < |zs| ==> zs[j] == '0'
    ensures StripZeroSuffix(w + "." + f + zs) == w + "." + f
  {
    var s := w + "." + f + zs;
    var n := |w| + 1 + |f|;
    var r := StripZeroSuffix(s);
    assert s[n - 1] == f[|f| - 1];
    assert s[..n] == w + "." + f;
    assert s[n..] == zs;
    forall i | 0 <= i < n
      ensures !MatchesDotZeros(s[i..])
    {
      assert s[i..][n - 1 - i] == s[n - 1];
    }
    assert zs != [] ==> MatchesDotZeros(s[n..]);
    assert |r| == n;
  }
}
