/** Validation of the amount field for rupee amounts: the keystroke filter
    `restrictToCurrencyInput`, the cleaning step of `parseCurrency`, and the rule chain
    of `currencyAmountSchema` behind `isValidCurrencyAmount`. */
module CurrencyValidation {
  import opened Seqs
  import opened JsNumbers

  // ---- restrictToCurrencyInput: `value === '' || /^\d*\.?\d{0,2}$/.test(value)` ----

  /** The language of `^\d*\.?\d{0,2}$`: the text splits into digits, an optional point
      and at most two digits. `\d` is `IsDigit(_, 10)`, the ASCII digits. */
  ghost predicate InInputLanguage(s: string) {
    exists i, j :: 0 <= i <= j <= |s| && AllDigits(s[..i], 10)
      && (j == i || (j == i + 1 && s[i] == '.'))
      && |s| - j <= 2 && AllDigits(s[j..], 10)
  }

  /** The regular-expression test, as a left-to-right scan: the leading digits, then
      either nothing or a point followed by at most two digits. */
  function RestrictToCurrencyInput(value: string): (ok: bool)
    ensures ok <==> InInputLanguage(value)
  {
    ScanMatchesLanguage(value);
    ScanAccepts(value)
  }

  /** A prefix of digits is no longer than the leading digits. */
  lemma {:induction false} LeadingDigitsAtLeast(s: string, i: nat)
    requires i <= |s| && AllDigits(s[..i], 10)
    ensures LeadingDigits(s) >= i
  {
    if i > 0 {
      assert IsDigit(s[..i][0], 10);
      assert s[1..][..i - 1] == s[..i][1..];
      LeadingDigitsAtLeast(s[1..], i - 1);
    }
  }

  /** The greedy scan's acceptance condition. */
  predicate ScanAccepts(s: string) {
    var rest := s[LeadingDigits(s)..];
    s == "" || rest == [] || (rest[0] == '.' && |rest| <= 3 && AllDigits(rest[1..], 10))
  }

  /** The greedy scan accepts exactly the language. */
  lemma ScanMatchesLanguage(s: string)
    ensures ScanAccepts(s) <==> InInputLanguage(s)
  {
    if ScanAccepts(s) {
      ScanIsSound(s);
    }
    if InInputLanguage(s) {
      ScanIsComplete(s);
    }
  }

  lemma ScanIsSound(s: string)
    requires ScanAccepts(s)
    ensures InInputLanguage(s)
  {
    var n := LeadingDigits(s);
    var rest := s[n..];
    if s == "" {
      assert AllDigits(s[..0], 10) && AllDigits(s[0..], 10);
    } else if rest == [] {
      assert AllDigits(s[..n], 10) && AllDigits(s[n..], 10);
    } else {
      assert s[n + 1..] == rest[1..];
      assert AllDigits(s[..n], 10) && AllDigits(s[n + 1..], 10);
    }
  }

  lemma ScanIsComplete(s: string)
    requires InInputLanguage(s)
    ensures ScanAccepts(s)
  {
    var i, j :| 0 <= i <= j <= |s| && AllDigits(s[..i], 10)
      && (j == i || (j == i + 1 && s[i] == '.'))
      && |s| - j <= 2 && AllDigits(s[j..], 10);
    ScanSplit(s, i, j);
  }

  /** The scan accepts any split of the text into the language's three parts. */
  lemma ScanSplit(s: string, i: nat, j: nat)
    requires i <= j <= |s| && AllDigits(s[..i], 10)
    requires j == i || (j == i + 1 && s[i] == '.')
    requires |s| - j <= 2 && AllDigits(s[j..], 10)
    ensures ScanAccepts(s)
  {
    if j == i {
      ScanWhole(s, i);
    } else {
      ScanPointed(s, i);
    }
  }

  /** Text of digits only is read to its end. */
  lemma ScanWhole(s: string, i: nat)
    requires i <= |s| && AllDigits(s[..i], 10) && AllDigits(s[i..], 10)
    ensures ScanAccepts(s)
  {
    assert AllDigits(s[..|s|], 10) by {
      forall k | 0 <= k < |s| ensures IsDigit(s[..|s|][k], 10) {
        if k < i {
          assert s[..i][k] == s[k];
        } else {
          assert s[i..][k - i] == s[k];
        }
      }
    }
    LeadingDigitsAtLeast(s, |s|);
    assert s[LeadingDigits(s)..] == [];
  }

  /** Digits, a point and at most two digits: the scan stops at the point. */
  lemma ScanPointed(s: string, i: nat)
    requires i < |s| && s[i] == '.' && AllDigits(s[..i], 10)
    requires |s| - (i + 1) <= 2 && AllDigits(s[i + 1..], 10)
    ensures ScanAccepts(s)
  {
    var n := LeadingDigits(s);
    LeadingDigitsAtLeast(s, i);
    DecimalDigits(s[i]);
    assert n == i;
    assert s[n..][1..] == s[i + 1..];
  }

  /** The accepted set is prefix-closed: deleting characters from the end of accepted
      text, as an `onChange` handler sees while the user edits, stays accepted. */
  lemma RestrictIsPrefixClosed(s: string, k: nat)
    requires RestrictToCurrencyInput(s) && k <= |s|
    ensures RestrictToCurrencyInput(s[..k])
  {
    var i, j :| 0 <= i <= j <= |s| && AllDigits(s[..i], 10)
      && (j == i || (j == i + 1 && s[i] == '.'))
      && |s| - j <= 2 && AllDigits(s[j..], 10);
    if k <= i {
      DigitPrefix(s, i, k);
    } else {
      LanguagePrefix(s, i, j, k);
    }
  }

  /** Cut inside the leading digits: only digits remain. */
  lemma DigitPrefix(s: string, i: nat, k: nat)
    requires k <= i <= |s| && AllDigits(s[..i], 10)
    ensures InInputLanguage(s[..k])
  {
    var p := s[..k];
    assert p[..k] == s[..i][..k];
    assert p[k..] == [];
    assert AllDigits(p[..k], 10) && AllDigits(p[k..], 10);
  }

  /** Cut after the leading digits: the point, if kept, and fewer fraction digits. */
  lemma LanguagePrefix(s: string, i: nat, j: nat, k: nat)
    requires i < k <= |s| && i <= j <= |s| && AllDigits(s[..i], 10)
    requires j == i || (j == i + 1 && s[i] == '.')
    requires |s| - j <= 2 && AllDigits(s[j..], 10)
    ensures InInputLanguage(s[..k])
  {
    var p := s[..k];
    assert p[..i] == s[..i];
    assert j == i + 1 ==> p[i] == '.';
    assert forall t :: 0 <= t < k - j ==> p[j..][t] == s[j..][t];
    assert AllDigits(p[..i], 10) && AllDigits(p[j..], 10);
  }

  /** Inputs the filter lets through: empty text, a full amount, a half-typed one. */
  lemma RestrictAccepts()
    ensures RestrictToCurrencyInput("")
    ensures RestrictToCurrencyInput("12.34")
    ensures RestrictToCurrencyInput("12.")
    ensures RestrictToCurrencyInput(".")
    ensures RestrictToCurrencyInput("5")
  {
    assert LeadingDigits("12.34") == 2 by {
      assert "12.34"[1..] == "2.34" && "2.34"[1..] == ".34";
    }
    assert "12.34"[2..] == ".34" && ".34"[1..] == "34";
    assert LeadingDigits("12.") == 2 by {
      assert "12."[1..] == "2." && "2."[1..] == ".";
    }
    assert "12."[2..] == "." && "."[1..] == [];
    assert LeadingDigits(".") == 0;
    assert "."[0..] == ".";
    assert LeadingDigits("5") == 1;
    assert "5"[1..] == [];
  }

  /** Inputs the filter refuses: a third decimal, a second point, a sign, an exponent. */
  lemma RestrictRejects()
    ensures !RestrictToCurrencyInput("1.234")
    ensures !RestrictToCurrencyInput("1.2.3")
    ensures !RestrictToCurrencyInput("-1")
    ensures !RestrictToCurrencyInput("1e5")
  {
    assert LeadingDigits("1.234") == 1 by {
      assert "1.234"[1..] == ".234";
    }
    assert "1.234"[1..] == ".234";
    assert LeadingDigits("1.2.3") == 1 by {
      assert "1.2.3"[1..] == ".2.3";
    }
    assert "1.2.3"[1..] == ".2.3" && ".2.3"[1..] == "2.3" && "2.3"[1] == '.';
    assert LeadingDigits("-1") == 0;
    assert "-1"[0..] == "-1";
    assert LeadingDigits("1e5") == 1 by {
      assert "1e5"[1..] == "e5";
    }
    assert "1e5"[1..] == "e5";
  }

  // ---- parseCurrency's cleaning step: `value.replace(/[₹,\s]/g, '')` ----

  /** The characters the class `[₹,\s]` matches. */
  predicate IsStripped(c: char) {
    c == '₹' || c == ',' || IsWhitespace(c)
  }

  predicate IsKept(c: char) {
    !IsStripped(c)
  }

  /** The cleaned text: every rupee sign, comma and white-space character removed. */
  function CleanAmount(value: string): (r: string)
    ensures |r| <= |value|
    ensures forall i :: 0 <= i < |r| ==> !IsStripped(r[i])
    ensures forall i :: 0 <= i < |value| && !IsStripped(value[i]) ==> value[i] in r
  {
    Filter(value, IsKept)
  }

  /** Cleaning works character by character: it distributes over concatenation ... */
  lemma CleanConcat(a: string, b: string)
    ensures CleanAmount(a + b) == CleanAmount(a) + CleanAmount(b)
  {
    FilterConcat(a, b, IsKept);
  }

  /** ... and a single character is dropped exactly when it is stripped, so every other
      character survives, in order. */
  lemma CleanChar(c: char)
    ensures CleanAmount([c]) == if IsStripped(c) then [] else [c]
  {
    assert [c][1..] == [];
  }

  /** Cleaning twice is cleaning once. */
  lemma CleanIsIdempotent(value: string)
    ensures CleanAmount(CleanAmount(value)) == CleanAmount(value)
  {
    var r := CleanAmount(value);
    FilterKeepsAll(r, IsKept);
  }

  /** `parseCurrency`: `parseFloat` of the cleaned text, or null when that is NaN.
      `parseFloat` is a parameter; it is not part of this model. */
  function ParseCurrency(value: string, parseFloat: string -> Number): (r: Option<Number>)
    ensures r.None? <==> parseFloat(CleanAmount(value)).NaN?
    ensures r.Some? ==> !r.value.NaN?
  {
    var num := parseFloat(CleanAmount(value));
    if num.NaN? then None else Some(num)
  }

  /** Whatever `parseFloat` does, a rupee sign, comma or white-space character anywhere
      in the text does not change the parsed result. */
  lemma ParseIgnoresStripped(a: string, c: char, b: string, parseFloat: string -> Number)
    requires IsStripped(c)
    ensures ParseCurrency(a + [c] + b, parseFloat) == ParseCurrency(a + b, parseFloat)
  {
    CleanConcat(a + [c], b);
    CleanConcat(a, [c]);
    CleanChar(c);
    CleanConcat(a, b);
    assert CleanAmount(a) + [] == CleanAmount(a);
  }

  // ---- currencyAmountSchema ----

  datatype Rule = Required | MustBeNumber | MustBePositive | MaxAmount | MaxDecimals

  /** The rules in the order the schema chains them. */
  const Rules: seq<Rule> := [Required, MustBeNumber, MustBePositive, MaxAmount, MaxDecimals]

  /** One crore rupees. */
  const OneCrore: real := 10000000.0

  function Message(r: Rule): string {
    match r
    case Required => "Amount is required"
    case MustBeNumber => "Must be a valid number"
    case MustBePositive => "Amount must be greater than ₹0"
    case MaxAmount => "Amount must be less than ₹1 crore"
    case MaxDecimals => "Amount can have maximum 2 decimal places"
  }

  /** `n > 0` on a JavaScript number. */
  predicate GreaterThanZero(n: Number) {
    match n
    case NaN => false
    case Finite(v) => v > 0.0
    case Infinite(negative) => !negative
  }

  /** `n <= bound` on a JavaScript number. */
  predicate AtMost(n: Number, bound: real) {
    match n
    case NaN => false
    case Finite(v) => v <= bound
    case Infinite(negative) => negative
  }

  /** `Number.isInteger(n * 100)`: false for NaN and the infinities. */
  predicate HundredfoldIsInteger(n: Number) {
    n.Finite? && (n.value * 100.0).Floor as real == n.value * 100.0
  }
  /** Whether text that is non-empty exactly when `filled` holds, and whose
      `Number(...)` is `n`, passes rule `r`. `Required` is `.min(1)`, a length check on
      the text; the others look at the number. The bound of `MaxAmount` is inclusive. */
  predicate Holds(r: Rule, filled: bool, n: Number) {
    match r
    case Required => filled
    case MustBeNumber => !n.NaN?
    case MustBePositive => GreaterThanZero(n)
    case MaxAmount => AtMost(n, OneCrore)
    case MaxDecimals => HundredfoldIsInteger(n)
  }

  /** Whether the text `val` passes rule `r`. */
  predicate Passes(r: Rule, val: string) {
    Holds(r, |val| >= 1, ToNumber(val))
  }

  /** Whether text passes a rule depends only on whether it is filled and on its number. */
  lemma PassesOnNumber(r: Rule, val: string)
    ensures Passes(r, val) <==> Holds(r, |val| >= 1, ToNumber(val))
  {
  }

  /** The rule check a text with these two facts undergoes. */
  function Checker(filled: bool, n: Number): Rule -> bool {
    r => Holds(r, filled, n)
  }

  /** The messages of the rules in `rs` that `holds` rejects, in order. */
  function FailingMessages(rs: seq<Rule>, holds: Rule -> bool): (msgs: seq<string>)
    ensures |msgs| <= |rs|
    ensures msgs == [] <==> forall i :: 0 <= i < |rs| ==> holds(rs[i])
  {
    if rs == [] then []
    else (if holds(rs[0]) then [] else [Message(rs[0])]) + FailingMessages(rs[1..], holds)
  }

  /** The position of the first rule in `rs` that `holds` rejects, or `|rs|` when
      there is none. */
  function FirstFailure(rs: seq<Rule>, holds: Rule -> bool): (k: nat)
    ensures k <= |rs|
    ensures k < |rs| ==> !holds(rs[k])
    ensures forall i :: 0 <= i < k ==> holds(rs[i])
  {
    if rs == [] || !holds(rs[0]) then 0
    else
      var k := FirstFailure(rs[1..], holds);
      assert forall i :: 0 < i <= k ==> rs[i] == rs[1..][i - 1];
      1 + k
  }

  /** The first message is that of the first rule that fails. */
  lemma {:induction false} FirstMessageAt(rs: seq<Rule>, holds: Rule -> bool)
    requires FailingMessages(rs, holds) != []
    ensures FirstFailure(rs, holds) < |rs|
    ensures FailingMessages(rs, holds)[0] == Message(rs[FirstFailure(rs, holds)])
  {
    if holds(rs[0]) {
      var t := rs[1..];
      assert FailingMessages(rs, holds) == FailingMessages(t, holds);
      FirstMessageAt(t, holds);
      assert t[FirstFailure(t, holds)] == rs[FirstFailure(rs, holds)];
    }
  }

  /** The same, with the position left unnamed. */
  lemma FirstMessageIsFirstFailure(rs: seq<Rule>, holds: Rule -> bool)
    requires FailingMessages(rs, holds) != []
    ensures exists k :: (0 <= k < |rs| && !holds(rs[k])
      && FailingMessages(rs, holds)[0] == Message(rs[k])
      && forall i :: 0 <= i < k ==> holds(rs[i]))
  {
    FirstMessageAt(rs, holds);
    var k := FirstFailure(rs, holds);
    assert 0 <= k < |rs| && !holds(rs[k]) && FailingMessages(rs, holds)[0] == Message(rs[k]);
  }

  /** No two rules share a message. */
  lemma MessageInjective(a: Rule, b: Rule)
    requires Message(a) == Message(b)
    ensures a == b
  {
    assert Message(a)[0] == Message(b)[0];
    assert Message(a)[7] == Message(b)[7];
    assert Message(a)[15] == Message(b)[15];
  }

  /** A rule's message is listed exactly when the rule is in the chain and fails. */
  lemma {:induction false} ListedIffFails(rs: seq<Rule>, holds: Rule -> bool, r: Rule)
    ensures Message(r) in FailingMessages(rs, holds) <==> (r in rs && !holds(r))
  {
    if rs != [] {
      var h, t := rs[0], rs[1..];
      var head := if holds(h) then [] else [Message(h)];
      assert FailingMessages(rs, holds) == head + FailingMessages(t, holds);
      ListedIffFails(t, holds, r);
      assert r in rs <==> r == h || r in t by {
        assert rs == [h] + t;
      }
      if Message(r) == Message(h) {
        MessageInjective(r, h);
      }
      assert Message(r) in head <==> (r == h && !holds(h));
    }
  }

  /** `safeParse`'s outcome: the parsed text, or the list of issues. zod keeps running
      the later refinements after one fails, so every failing rule is reported. */
  datatype SafeParseResult = Success(data: string) | Failure(issues: seq<string>)

  function SafeParse(val: string): (r: SafeParseResult)
    ensures r.Success? ==> r.data == val
    ensures r.Failure? ==> r.issues != []
  {
    var issues := FailingMessages(Rules, Checker(|val| >= 1, ToNumber(val)));
    if issues == [] then Success(val) else Failure(issues)
  }

  lemma EveryRuleIsChained(r: Rule)
    ensures exists i :: 0 <= i < |Rules| && Rules[i] == r
  {
    match r
    case Required => assert Rules[0] == r;
    case MustBeNumber => assert Rules[1] == r;
    case MustBePositive => assert Rules[2] == r;
    case MaxAmount => assert Rules[3] == r;
    case MaxDecimals => assert Rules[4] == r;
  }

  /** A check lets the chain through exactly when it accepts every rule. */
  lemma ChainPassesIff(holds: Rule -> bool)
    ensures FailingMessages(Rules, holds) == [] <==> forall r: Rule :: holds(r)
  {
    if FailingMessages(Rules, holds) == [] {
      forall r: Rule ensures holds(r) {
        EveryRuleIsChained(r);
        var i :| 0 <= i < |Rules| && Rules[i] == r;
        assert holds(Rules[i]);
      }
    }
  }

  /** The text parses exactly when it passes every rule. */
  lemma ParsesIffEveryRulePasses(val: string)
    ensures SafeParse(val).Success? <==> forall r: Rule :: Passes(r, val)
  {
    var holds := Checker(|val| >= 1, ToNumber(val));
    ChainPassesIff(holds);
    if FailingMessages(Rules, holds) == [] {
      forall r: Rule ensures Passes(r, val) {
        assert holds(r);
      }
    } else {
      var r: Rule :| !holds(r);
      assert !Passes(r, val);
    }
  }

  /** `isValidCurrencyAmount`: true exactly when the text passes every rule. */
  function IsValidCurrencyAmount(value: string): (ok: bool)
    ensures ok <==> forall r: Rule :: Passes(r, value)
  {
    ParsesIffEveryRulePasses(value);
    SafeParse(value).Success?
  }

  /** A failure reports, first, the message of the first rule in chain order that the
      text fails. */
  lemma FirstIssueIsFirstFailingRule(val: string)
    requires SafeParse(val).Failure?
    ensures exists k :: (0 <= k < |Rules| && !Passes(Rules[k], val)
        && SafeParse(val).issues[0] == Message(Rules[k])
        && forall i :: 0 <= i < k ==> Passes(Rules[i], val))
  {
    FirstIssueOnNumber(|val| >= 1, ToNumber(val));
  }

  /** `FirstIssueIsFirstFailingRule` for the text's two facts, away from the text. */
  lemma FirstIssueOnNumber(filled: bool, n: Number)
    requires FailingMessages(Rules, Checker(filled, n)) != []
    ensures exists k :: (0 <= k < |Rules| && !Holds(Rules[k], filled, n)
        && FailingMessages(Rules, Checker(filled, n))[0] == Message(Rules[k])
        && forall i :: 0 <= i < k ==> Holds(Rules[i], filled, n))
  {
    FirstMessageIsFirstFailure(Rules, Checker(filled, n));
  }

  /** zod reports every failing rule and nothing else: a rule's message is among the
      issues exactly when the text fails that rule. */
  lemma FailingRulesAreReported(val: string, r: Rule)
    ensures (SafeParse(val).Failure? && Message(r) in SafeParse(val).issues) <==> !Passes(r, val)
  {
    ReportedOnNumber(|val| >= 1, ToNumber(val), r);
  }

  /** `FailingRulesAreReported` for the text's two facts, away from the text. */
  lemma ReportedOnNumber(filled: bool, n: Number, r: Rule)
    ensures Message(r) in FailingMessages(Rules, Checker(filled, n)) <==> !Holds(r, filled, n)
  {
    ListedIffFails(Rules, Checker(filled, n), r);
    EveryRuleIsChained(r);
  }

  /** The chain without its first rule, and its further suffixes. */
  lemma RuleSuffixes()
    ensures Rules[1..] == [MustBeNumber, MustBePositive, MaxAmount, MaxDecimals]
    ensures Rules[1..][1..] == [MustBePositive, MaxAmount, MaxDecimals]
    ensures Rules[1..][1..][1..] == [MaxAmount, MaxDecimals]
    ensures Rules[1..][1..][1..][1..] == [MaxDecimals]
    ensures Rules[1..][1..][1..][1..][1..] == []
  {
  }

  /** Empty text is not filled in and reads as 0: it fails `.min(1)` and "greater
      than zero" and nothing else. */
  lemma EmptyZeroFailures()
    ensures FailingMessages(Rules, Checker(false, Finite(0.0)))
      == [Message(Required), Message(MustBePositive)]
  {
    var h := Checker(false, Finite(0.0));
    assert HundredfoldIsInteger(Finite(0.0));
    RuleSuffixes();
    var r4: seq<Rule> := [MaxDecimals];
    assert FailingMessages(r4, h) == [];
    var r3: seq<Rule> := [MaxAmount, MaxDecimals];
    assert r3[1..] == r4;
    assert FailingMessages(r3, h) == [];
    var r2: seq<Rule> := [MustBePositive, MaxAmount, MaxDecimals];
    assert r2[1..] == r3;
    assert FailingMessages(r2, h) == [Message(MustBePositive)];
    assert FailingMessages(Rules[1..], h) == [Message(MustBePositive)];
    assert FailingMessages(Rules, h) == [Message(Required)] + [Message(MustBePositive)];
  }

  /** The empty text fails `.min(1)`; `Number("")` is 0, which fails only "greater than
      zero", so exactly those two issues are reported. */
  lemma EmptyAmountIssues()
    ensures SafeParse("") == Failure([Message(Required), Message(MustBePositive)])
  {
    EmptyIsZero();
    EmptyZeroFailures();
    assert Checker(|""| >= 1, ToNumber("")) == Checker(false, Finite(0.0));
  }

  /** NaN fails every rule after `.min(1)`: it is neither a number, nor positive, nor at
      most a crore, nor an integer once multiplied by 100. */
  lemma NaNFailsNumberRules()
    ensures FailingMessages(Rules, Checker(true, NaN))
      == [Message(MustBeNumber), Message(MustBePositive), Message(MaxAmount), Message(MaxDecimals)]
  {
    var h := Checker(true, NaN);
    RuleSuffixes();
    var r4: seq<Rule> := [MaxDecimals];
    assert FailingMessages(r4, h) == [Message(MaxDecimals)];
    var r3: seq<Rule> := [MaxAmount, MaxDecimals];
    assert r3[1..] == r4;
    assert FailingMessages(r3, h) == [Message(MaxAmount)] + [Message(MaxDecimals)];
    var r2: seq<Rule> := [MustBePositive, MaxAmount, MaxDecimals];
    assert r2[1..] == r3;
    assert FailingMessages(r2, h) == [Message(MustBePositive)] + ([Message(MaxAmount)] + [Message(MaxDecimals)]);
    var r1: seq<Rule> := [MustBeNumber, MustBePositive, MaxAmount, MaxDecimals];
    assert r1[1..] == r2;
    assert FailingMessages(r1, h)
      == [Message(MustBeNumber)] + ([Message(MustBePositive)] + ([Message(MaxAmount)] + [Message(MaxDecimals)]));
    assert FailingMessages(Rules, h) == FailingMessages(r1, h);
  }

  /** So non-empty text that is not a number gets all four numeric issues. */
  lemma NotANumberIssues(val: string)
    requires val != [] && ToNumber(val).NaN?
    ensures SafeParse(val) == Failure([Message(MustBeNumber), Message(MustBePositive),
                                       Message(MaxAmount), Message(MaxDecimals)])
  {
    NaNFailsNumberRules();
    assert Checker(|val| >= 1, ToNumber(val)) == Checker(true, NaN);
  }

  // ---- The two-decimal rule on plain decimals ----

  lemma {:induction false} PowAdd(b: nat, x: nat, y: nat)
    ensures Pow(b, x + y) == Pow(b, x) * Pow(b, y)
  {
    if x > 0 {
      var p, q := Pow(b, x - 1), Pow(b, y);
      calc {
        Pow(b, x + y);
        b * Pow(b, (x - 1) + y);
        { PowAdd(b, x - 1, y); }
        b * (p * q);
        { MulAssoc(b, p, q); }
        (b * p) * q;
      }
    }
  }

  lemma MulAssoc(a: int, b: int, c: int)
    ensures a * (b * c) == (a * b) * c
  {
  }

  lemma CastProduct(a: int, b: int)
    ensures ((a * b) as real) == (a as real) * (b as real)
  {
  }

  lemma DivideSum(a: real, b: real, p: real)
    requires p > 0.0
    ensures (a * p + b) / p == a + b / p
  {
  }

  lemma ProperFraction(b: real, p: real)
    requires 0.0 <= b < p
    ensures 0.0 <= b / p < 1.0
  {
  }

  /** A quotient of naturals is an integer exactly when the division leaves no remainder. */
  lemma QuotientIsIntegral(m: nat, p: nat)
    requires p >= 1
    ensures (((m as real) / (p as real)).Floor as real == (m as real) / (p as real)) <==> m % p == 0
  {
    var a, b := m / p, m % p;
    var ar, br, pr := a as real, b as real, p as real;
    var x := (m as real) / pr;
    assert m == a * p + b;
    CastProduct(a, p);
    assert (m as real) == ar * pr + br;
    DivideSum(ar, br, pr);
    assert x == ar + br / pr;
    ProperFraction(br, pr);
    assert x.Floor == a;
    assert br / pr == 0.0 <==> b == 0;
  }

  lemma CancelDivisor(m: real, p: real, r: real)
    requires p > 0.0
    ensures (m / p) * (p * r) == m * r
  {
  }

  /** `m / 10^q` times 100 is an integer when `q` is at most 2. */
  lemma HundredthsAreIntegral(m: nat, q: nat)
    requires q <= 2
    ensures HundredfoldIsInteger(Finite(Scale(m, -(q as int))))
  {
    var p, r := Pow(10, q), Pow(10, 2 - q);
    PowAdd(10, q, 2 - q);
    assert Pow(10, 2) == 100;
    assert p * r == 100;
    CastProduct(p, r);
    CastProduct(m, r);
    var x := Scale(m, -(q as int));
    assert x == (m as real) / (p as real);
    CancelDivisor(m as real, p as real, r as real);
    assert x * 100.0 == (m * r) as real;
  }

  /** With more than two fraction digits, `m / 10^q` times 100 is an integer exactly
      when `10^(q-2)` divides `m`, that is, when the digits past the second are zero. */
  lemma FinerThanHundredths(m: nat, q: nat)
    requires q > 2
    ensures HundredfoldIsInteger(Finite(Scale(m, -(q as int)))) <==> m % Pow(10, q - 2) == 0
  {
    var p := Pow(10, q - 2);
    PowAdd(10, 2, q - 2);
    assert Pow(10, 2) == 100;
    assert Pow(10, q) == 100 * p;
    assert Scale(m, -(q as int)) * 100.0 == (m as real) / (p as real);
    QuotientIsIntegral(m, p);
  }

  /** A number `m / 10^q` keeps whole hundredths exactly when `q` is at most two or its
      digits past the second fraction digit are zero. */
  lemma HundredthsRule(m: nat, q: nat)
    ensures HundredfoldIsInteger(Finite(Scale(m, -(q as int)))) <==> (q <= 2 || m % Pow(10, q - 2) == 0)
  {
    if q <= 2 {
      HundredthsAreIntegral(m, q);
    } else {
      FinerThanHundredths(m, q);
    }
  }

  /** "At most two decimal places" on a plain decimal `d1.d2` (`s` with its point at
      `i`): it passes exactly when it has at most two fraction digits, or its digits
      past the second are all zero. */
  lemma TwoDecimalRule(s: string, i: nat)
    requires DecimalText(s, i)
    ensures Passes(MaxDecimals, s)
      <==> (|s| - i - 1 <= 2 || DecimalMantissa(s, i) % Pow(10, |s| - i - 3) == 0)
  {
    var m, q := DecimalMantissa(s, i), |s| - i - 1;
    var x := Finite(Scale(m, -(q as int)));
    PointAt(s, i);
    assert ToNumber(s) == x;
    HundredthsRule(m, q);
    assert HundredfoldIsInteger(x) <==> (q <= 2 || m % Pow(10, q - 2) == 0);
    assert Passes(MaxDecimals, s) == HundredfoldIsInteger(x);
    if q > 2 {
      assert q - 2 == |s| - i - 3;
    }
  }

  /** A positive number of at most a crore with whole hundredths passes every rule. */
  lemma InRangeNumberHolds(n: Number)
    requires n.Finite? && 0.0 < n.value <= OneCrore && HundredfoldIsInteger(n)
    ensures forall r: Rule :: Holds(r, true, n)
  {
  }

  /** A plain decimal `d1.d2` with at most two fraction digits and a value in (0, 1 crore]
      is a valid amount: for instance "0.07" (7 / 10^2), which the float check in the
      source rejects, and "10000000.00", the inclusive upper bound. */
  lemma TwoDecimalAmountIsValid(s: string, i: nat)
    requires DecimalText(s, i) && |s| - i - 1 <= 2
    requires 0.0 < Scale(DecimalMantissa(s, i), -(|s| - i - 1)) <= OneCrore
    ensures IsValidCurrencyAmount(s)
  {
    var m, q := DecimalMantissa(s, i), |s| - i - 1;
    var n := ToNumber(s);
    PointAt(s, i);
    assert n == Finite(Scale(m, -(q as int)));
    HundredthsAreIntegral(m, q);
    assert HundredfoldIsInteger(n);
    InRangeNumberHolds(n);
    forall r: Rule ensures Passes(r, s) {
      assert Holds(r, true, n);
    }
  }

  // ---- The filter and the schema together ----

  /** Text the keystroke filter lets through, with at least one digit, always passes
      the number and two-decimal rules; only the range rules can still fail. */
  lemma RestrictedInputIsNumeric(s: string)
    requires RestrictToCurrencyInput(s)
    requires exists t :: 0 <= t < |s| && IsDigit(s[t], 10)
    ensures Passes(MustBeNumber, s) && Passes(MaxDecimals, s)
  {
    var i, j :| 0 <= i <= j <= |s| && AllDigits(s[..i], 10)
      && (j == i || (j == i + 1 && s[i] == '.'))
      && |s| - j <= 2 && AllDigits(s[j..], 10);
    if j == i {
      RestrictedWhole(s, i);
    } else {
      RestrictedPointed(s, i);
    }
  }

  lemma RestrictedWhole(s: string, i: nat)
    requires i <= |s| && |s| - i <= 2 && AllDigits(s[..i], 10) && AllDigits(s[i..], 10)
    requires exists t :: 0 <= t < |s| && IsDigit(s[t], 10)
    ensures Passes(MustBeNumber, s) && Passes(MaxDecimals, s)
  {
    assert AllDigits(s, 10) by {
      forall k | 0 <= k < |s| ensures IsDigit(s[k], 10) {
        if k < i {
          assert s[..i][k] == s[k];
        } else {
          assert s[i..][k - i] == s[k];
        }
      }
    }
    WholeDecimal(s);
    WholeIsHundredfoldInteger(DigitsValue(s, 10));
  }

  lemma WholeIsHundredfoldInteger(m: nat)
    ensures HundredfoldIsInteger(Finite(m as real))
  {
    assert (m as real) * 100.0 == (m * 100) as real;
  }

  lemma RestrictedPointed(s: string, i: nat)
    requires i < |s| && s[i] == '.' && |s| - (i + 1) <= 2
    requires AllDigits(s[..i], 10) && AllDigits(s[i + 1..], 10)
    requires exists t :: 0 <= t < |s| && IsDigit(s[t], 10)
    ensures Passes(MustBeNumber, s) && Passes(MaxDecimals, s)
  {
    assert |s| >= 2 by {
      var t :| 0 <= t < |s| && IsDigit(s[t], 10);
      DecimalDigits(s[t]);
    }
    var m, q := DecimalMantissa(s, i), |s| - i - 1;
    var n := ToNumber(s);
    PointAt(s, i);
    assert n == Finite(Scale(m, -(q as int)));
    HundredthsAreIntegral(m, q);
    assert HundredfoldIsInteger(n);
  }
}
