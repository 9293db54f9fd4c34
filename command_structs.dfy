/**
 * Addresses and the parsed command record of the editor
 * (src/command_structs.rs): the four-variant `Address` with its derived
 * total order, `Address::from_str`, `RangeSep`, `EdCommand` and its default.
 *
 * `usize` is taken to be 64 bits wide; `from_str` relies on Rust's
 * `str::parse::<usize>`, whose rules are written out here: an optional
 * leading `+`, then one or more decimal digits whose value fits in a `usize`.
 */
module CommandStructs {
  import opened Wrappers

  const USIZE_MAX: nat := 0xFFFF_FFFF_FFFF_FFFF

  type Usize = n: nat | n <= USIZE_MAX

  /**
   * An `ed` address: `.`, an absolute one-indexed line number, `$`, or no
   * address. Its `None` shares its name with `Option.None`, so this module
   * writes both of them qualified.
   */
  datatype Address = Current | Absolute(line: Usize) | Last | None

  // ---------------------------------------------------------------------------
  // The derived order (`#[derive(PartialOrd, Ord)]`): variants compare by their
  // position in the declaration, and two `Absolute`s by their line numbers.

  datatype Ordering = Less | Equal | Greater

  function Discriminant(a: Address): nat
  {
    match a
    case Current => 0
    case Absolute(_) => 1
    case Last => 2
    case None => 3
  }

  function Compare(a: Address, b: Address): Ordering
  {
    if Discriminant(a) < Discriminant(b) then Less
    else if Discriminant(a) > Discriminant(b) then Greater
    else if a.Absolute? && b.Absolute? then
      (if a.line < b.line then Less else if a.line > b.line then Greater else Equal)
    else Equal
  }

  predicate Le(a: Address, b: Address) { Compare(a, b) != Greater }

  predicate Lt(a: Address, b: Address) { Compare(a, b) == Less }

  /** The derived order is a total order whose `Equal` is equality. */
  lemma AddressOrderIsTotal(a: Address, b: Address, c: Address)
    ensures Compare(a, b) == Equal <==> a == b
    ensures Compare(a, b) == Less <==> Compare(b, a) == Greater
    ensures Le(a, a)
    ensures Le(a, b) && Le(b, a) ==> a == b
    ensures Le(a, b) && Le(b, c) ==> Le(a, c)
    ensures Le(a, b) || Le(b, a)
  {
  }

  /** `Current < Absolute(_) < Last < None`, and absolutes are ordered by line. */
  lemma AddressVariantOrder(m: Usize, n: Usize)
    ensures Lt(Current, Absolute(m)) && Lt(Absolute(m), Last) && Lt(Last, Address.None)
    ensures Le(Absolute(m), Absolute(n)) <==> m <= n
    ensures Lt(Absolute(m), Absolute(n)) <==> m < n
  {
  }

  // ---------------------------------------------------------------------------
  // Decimal text.

  predicate IsDigit(c: char) { '0' <= c <= '9' }

  predicate AllDigits(s: string)
  {
    forall i :: 0 <= i < |s| ==> IsDigit(s[i])
  }

  function DigitValue(c: char): nat
    requires IsDigit(c)
  {
    (c as int) - ('0' as int)
  }

  function DigitChar(d: nat): (c: char)
    requires d < 10
    ensures IsDigit(c) && DigitValue(c) == d
  {
    ('0' as int + d) as char
  }

  /** The number a string of decimal digits denotes, read most significant digit first. */
  function Value(ds: string): nat
    requires AllDigits(ds)
  {
    if ds == [] then 0 else Value(ds[..|ds| - 1]) * 10 + DigitValue(ds[|ds| - 1])
  }

  /** The shortest decimal text of `n` (no sign, no leading zeros). */
  function Decimal(n: nat): (s: string)
    ensures |s| > 0 && AllDigits(s)
  {
    if n < 10 then [DigitChar(n)] else Decimal(n / 10) + [DigitChar(n % 10)]
  }

  lemma {:induction false} DecimalValue(n: nat)
    ensures Value(Decimal(n)) == n
  {
    if n >= 10 {
      var s := Decimal(n);
      assert s[..|s| - 1] == Decimal(n / 10);
      DecimalValue(n / 10);
    }
  }

  /**
   * The digit loop of Rust's `from_str_radix` for an unsigned type: the
   * accumulator after reading `ds`, or `None` once a character is not a
   * digit or `acc * 10 + digit` overflows.
   */
  function CheckedDigits(ds: string): Option<Usize>
  {
    if ds == [] then Some(0)
    else match CheckedDigits(ds[..|ds| - 1])
      case None => Option.None
      case Some(acc) =>
        var c := ds[|ds| - 1];
        if !IsDigit(c) then Option.None
        else if acc * 10 + DigitValue(c) > USIZE_MAX then Option.None
        else Some(acc * 10 + DigitValue(c))
  }

  /** The digits after an optional leading `+`. */
  function Unsigned(s: string): string
  {
    if |s| > 0 && s[0] == '+' then s[1..] else s
  }

  /** `s` is text Rust's `parse::<usize>` accepts. */
  predicate IsUsizeText(s: string)
  {
    var ds := Unsigned(s);
    |ds| > 0 && AllDigits(ds) && Value(ds) <= USIZE_MAX
  }

  /** `s.parse::<usize>().ok()`. */
  function ParseUsize(s: string): Option<Usize>
  {
    if s == [] || s == "+" then Option.None else CheckedDigits(Unsigned(s))
  }

  /** Checking for overflow at every digit is the same as checking the final value. */
  lemma {:induction false} CheckedDigitsValue(ds: string)
    ensures CheckedDigits(ds) ==
      if AllDigits(ds) && Value(ds) <= USIZE_MAX then Some(Value(ds)) else Option.None
  {
    if ds != [] {
      var p := ds[..|ds| - 1];
      CheckedDigitsValue(p);
      assert AllDigits(ds) ==> AllDigits(p);
      if AllDigits(ds) {
        assert Value(ds) == Value(p) * 10 + DigitValue(ds[|ds| - 1]);
      }
    }
  }

  lemma ParseUsizeExactly(s: string)
    ensures ParseUsize(s) == if IsUsizeText(s) then Some(Value(Unsigned(s))) else Option.None
  {
    if s != [] && s != "+" {
      CheckedDigitsValue(Unsigned(s));
    }
  }

  // ---------------------------------------------------------------------------
  // `Address::from_str`.

  function FromStr(input: string): Option<Address>
  {
    if input == "." then Some(Current)
    else if input == "$" then Some(Last)
    else match ParseUsize(input)
      case Some(n) => Some(Absolute(n))
      case None => Option.None
  }

  /** `.` and `$` are the two symbolic addresses. */
  lemma FromStrSymbols()
    ensures FromStr(".") == Some(Current)
    ensures FromStr("$") == Some(Last)
  {
  }

  /** `from_str` yields `Absolute(n)` exactly for the `usize` texts of `n`. */
  lemma FromStrAbsolute(s: string, n: Usize)
    ensures FromStr(s) == Some(Absolute(n)) <==> IsUsizeText(s) && Value(Unsigned(s)) == n
  {
    ParseUsizeExactly(s);
  }

  /**
   * `from_str` fails exactly on what is neither `.`, `$` nor `usize` text;
   * it never produces `Address::None`.
   */
  lemma FromStrRejects(s: string)
    ensures FromStr(s) == Option.None <==> s != "." && s != "$" && !IsUsizeText(s)
    ensures FromStr(s) != Some(Address.None)
  {
    ParseUsizeExactly(s);
  }

  /** Empty, negative and overflowing numbers are rejected. */
  lemma FromStrRejectsExamples(t: string, n: nat)
    requires n > USIZE_MAX
    ensures FromStr("") == Option.None
    ensures FromStr("-" + t) == Option.None
    ensures FromStr(Decimal(n)) == Option.None
    ensures FromStr("+" + Decimal(n)) == Option.None
  {
    FromStrRejects("");
    var neg := "-" + t;
    assert !IsDigit(Unsigned(neg)[0]);
    FromStrRejects(neg);
    DecimalValue(n);
    FromStrRejects(Decimal(n));
    assert Unsigned("+" + Decimal(n)) == Decimal(n);
    FromStrRejects("+" + Decimal(n));
  }

  /** Round trip: the decimal text of every `usize` parses back to that address. */
  lemma FromStrDecimal(n: Usize)
    ensures FromStr(Decimal(n)) == Some(Absolute(n))
    ensures FromStr("+" + Decimal(n)) == Some(Absolute(n))
  {
    DecimalValue(n);
    var s := Decimal(n);
    assert s[0] != '+' && s != "." && s != "$" by { assert IsDigit(s[0]); }
    FromStrAbsolute(s, n);
    assert Unsigned("+" + s) == s;
    FromStrAbsolute("+" + s, n);
  }

  // ---------------------------------------------------------------------------
  // The command record.

  /** `Comma` keeps the current line; `Semicolon` moves it to the first address. */
  datatype RangeSep = Comma | Semicolon

  datatype EdCommand = EdCommand(
    address1: Address,
    address2: Address,
    rangeSep: RangeSep,
    command: Option<string>,
    commandArgs: Option<string>)

  /** `EdCommand::default()`. */
  function Default(): EdCommand
  {
    EdCommand(Current, Current, Comma, Option.None, Option.None)
  }
}
