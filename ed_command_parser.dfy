/**
 * The command-line parser module (src/ed_command_parser.rs).  It carries a
 * private three-variant copy of `Address` with its own `from_str`, and a
 * generated parser whose `address` rule matches the leading address of a
 * command line: `.`, `$` or a run of decimal digits.  Only the prefix taken
 * by that rule is modelled; the rest of the grammar is not part of this model.
 */
module EdCommandParser {
  import opened Wrappers
  import CS = CommandStructs

  /** The parser's private address type: no `None` variant. */
  datatype Address = Absolute(line: CS.Usize) | Last | Current

  function FromStr(input: string): Option<Address>
  {
    if input == "." then Some(Current)
    else if input == "$" then Some(Last)
    else match CS.ParseUsize(input)
      case Some(n) => Some(Absolute(n))
      case None => None
  }

  /** The corresponding value of the public four-variant address. */
  function ToPublic(a: Address): CS.Address
  {
    match a
    case Absolute(n) => CS.Absolute(n)
    case Last => CS.Last
    case Current => CS.Current
  }

  /** The duplicate `from_str` agrees with the public one on every input. */
  lemma FromStrAgrees(s: string)
    ensures FromStr(s).Some? == CS.FromStr(s).Some?
    ensures FromStr(s).Some? ==> ToPublic(FromStr(s).value) == CS.FromStr(s).value
  {
  }

  /** The duplicate maps `.`, `$` and the decimal text of every `usize` as the tests expect. */
  lemma FromStrCases(n: CS.Usize)
    ensures FromStr(".") == Some(Current)
    ensures FromStr("$") == Some(Last)
    ensures FromStr(CS.Decimal(n)) == Some(Absolute(n))
  {
    CS.FromStrDecimal(n);
    FromStrAgrees(CS.Decimal(n));
  }

  // ---------------------------------------------------------------------------
  // The `address` rule: the leading address token of a command line.

  /** The longest run of decimal digits at the start of `s`. */
  function LeadingDigits(s: string): (d: string)
    ensures |d| <= |s| && d == s[..|d|] && CS.AllDigits(d)
    ensures |d| == |s| || !CS.IsDigit(s[|d|])
  {
    if s != [] && CS.IsDigit(s[0]) then [s[0]] + LeadingDigits(s[1..]) else []
  }

  /** The text the `address` rule matches at the start of `input`, if any. */
  function AddressRule(input: string): Option<string>
  {
    if |input| > 0 && input[0] == '.' then Some(".")
    else if |input| > 0 && input[0] == '$' then Some("$")
    else
      var d := LeadingDigits(input);
      if d == [] then None else Some(d)
  }

  /**
   * The rule matches a non-empty prefix, fails exactly when the line does not
   * start with `.`, `$` or a digit, and takes a digit run as far as it goes
   * but no further, leaving the rest of the line unread.
   */
  lemma AddressRuleTakesLeadingToken(input: string)
    ensures AddressRule(input).None? <==>
      input == [] || (input[0] != '.' && input[0] != '$' && !CS.IsDigit(input[0]))
    ensures AddressRule(input).Some? ==>
      var t := AddressRule(input).value;
      && 0 < |t| <= |input| && t == input[..|t|]
      && (t == "." || t == "$" || CS.AllDigits(t))
      && (CS.AllDigits(t) ==> |t| == |input| || !CS.IsDigit(input[|t|]))
  {
  }

  /**
   * Every token the rule matches is accepted by `from_str`, provided a digit
   * token's value fits in a `usize`; the resulting address is the one the
   * token denotes.
   */
  lemma AddressTokenAccepted(input: string)
    requires AddressRule(input).Some?
    requires CS.AllDigits(AddressRule(input).value) ==> CS.Value(AddressRule(input).value) <= CS.USIZE_MAX
    ensures FromStr(AddressRule(input).value).Some?
    ensures var t := AddressRule(input).value;
      CS.AllDigits(t) ==> FromStr(t) == Some(Absolute(CS.Value(t)))
  {
    var t := AddressRule(input).value;
    if CS.AllDigits(t) {
      assert t[0] != '+' by { assert CS.IsDigit(t[0]); }
      CS.ParseUsizeExactly(t);
    }
  }

  /**
   * Without that proviso the property fails: a digit run one past the largest
   * `usize` is matched by the rule but refused by `from_str`, so the tests'
   * `unwrap` of that parse would panic.
   */
  lemma OverflowingAddressToken(n: nat)
    requires n > CS.USIZE_MAX
    ensures AddressRule(CS.Decimal(n)) == Some(CS.Decimal(n))
    ensures FromStr(CS.Decimal(n)) == None
  {
    var s := CS.Decimal(n);
    DigitsAreLeading(s);
    CS.FromStrRejectsExamples([], n);
    FromStrAgrees(s);
  }

  lemma {:induction false} DigitsAreLeading(s: string)
    requires CS.AllDigits(s)
    ensures LeadingDigits(s) == s
  {
    if s != [] {
      DigitsAreLeading(s[1..]);
    }
  }

  /** The rule on the lines of the unit tests: `50`, `5`, `5s/foo123/123foo/`, `$` and `.`. */
  lemma AddressRuleExamples()
    ensures AddressRule("50") == Some("50") && FromStr("50") == Some(Absolute(50))
    ensures AddressRule("5") == Some("5") && FromStr("5") == Some(Absolute(5))
    ensures AddressRule("5s/foo123/123foo/") == Some("5")
    ensures AddressRule("$") == Some("$") && FromStr("$") == Some(Last)
    ensures AddressRule(".") == Some(".") && FromStr(".") == Some(Current)
  {
    DigitsAreLeading("50");
    DigitsAreLeading("5");
    assert !CS.IsDigit("5s/foo123/123foo/"[1]);
    assert LeadingDigits("5s/foo123/123foo/") == "5";
    assert CS.Decimal(50) == "50";
    assert CS.Decimal(5) == "5";
    FromStrCases(50);
    FromStrCases(5);
  }
}
