/** Reading configuration values from the environment (internal/config/utils.go).
    The value of the variable is a parameter; an unset variable reads as "".  Where
    the source panics, the model returns a failure carrying the panic message. */
module EnvConfig {
  import opened Common
  import opened GoStrings

  /** `getEnv`: the value, or a failure when it is empty. */
  function GetEnv(key: string, value: string): (r: Result<string>)
    ensures r.Success? <==> value != ""
    ensures r.Success? ==> r.value == value
    ensures r.Failure? ==> r.error == NotSet(key)
  {
    if value == "" then Failure(NotSet(key)) else Success(value)
  }

  function NotSet(key: string): Error
  {
    Failed("Required environment variable not set: " + key)
  }

  function NotInt(key: string): Error
  {
    Failed("Required environment variable is not int: " + key)
  }

  /** `splitEnv`: no elements for an empty value; otherwise the comma-separated
      pieces, each with surrounding white space trimmed. */
  function SplitEnv(value: string): (names: seq<string>)
    ensures names == [] <==> value == ""
    ensures value != "" ==> |names| == Count(value, ',') + 1
  {
    if value == "" then []
    else
      var parts := Split(value, ',');
      seq(|parts|, i requires 0 <= i < |parts| => TrimSpace(parts[i]))
  }

  /** A non-empty value gives one element per comma plus one, each the trimmed
      corresponding piece (empty pieces stay ""), none with white space at either
      end and none containing a comma. */
  lemma SplitEnvShape(value: string)
    ensures value == "" ==> SplitEnv(value) == []
    ensures value != "" ==> |SplitEnv(value)| == Count(value, ',') + 1
    ensures value != "" ==> forall i :: 0 <= i < |SplitEnv(value)| ==>
              SplitEnv(value)[i] == TrimSpace(Split(value, ',')[i])
    ensures forall i :: 0 <= i < |SplitEnv(value)| ==>
              var e := SplitEnv(value)[i];
              e == [] || (e[0] !in WhiteSpace && e[|e| - 1] !in WhiteSpace)
    ensures forall i :: 0 <= i < |SplitEnv(value)| ==> ',' !in SplitEnv(value)[i]
  {
    if value != "" {
      var parts := Split(value, ',');
      forall i | 0 <= i < |parts|
        ensures var e := TrimSpace(parts[i]);
                (e == [] || (e[0] !in WhiteSpace && e[|e| - 1] !in WhiteSpace)) && ',' !in e
      {
        TrimSpaceShape(parts[i]);
      }
    }
  }

  /** A list of non-empty names, none with a comma or surrounding white space, survives
      being written comma-separated and read back. */
  lemma SplitEnvJoin(names: seq<string>)
    requires |names| >= 1 && names != [[]]
    requires forall k :: 0 <= k < |names| ==> ',' !in names[k] && TrimSpace(names[k]) == names[k]
    ensures SplitEnv(Join(names, ',')) == names
  {
    SplitJoin(names, ',');
  }

  // ---------------------------------------------------------------- strconv.Atoi

  /** The range of Go's `int` on a 64-bit platform. */
  const MinInt: int := -0x8000_0000_0000_0000
  const MaxInt: int := 0x7FFF_FFFF_FFFF_FFFF

  predicate IsDigit(c: char)
  {
    '0' <= c <= '9'
  }

  predicate AllDigits(s: string)
  {
    forall i :: 0 <= i < |s| ==> IsDigit(s[i])
  }

  /** The value of a string of decimal digits. */
  function DigitsValue(s: string): nat
    requires AllDigits(s)
  {
    if s == [] then 0 else DigitsValue(s[..|s| - 1]) * 10 + (s[|s| - 1] as int - '0' as int)
  }

  /** `strconv.Atoi`: an optional sign and at least one decimal digit, and a value
      that fits in `int`; anything else (empty text, white space, other characters,
      out of range) is a syntax or range error. */
  function Atoi(s: string): (r: Option<int>)
    ensures r.Some? ==> MinInt <= r.value <= MaxInt
    ensures r.Some? ==> s != [] && IsDigit(s[|s| - 1])
  {
    var negative := s != [] && s[0] == '-';
    var digits := if s != [] && (s[0] == '+' || s[0] == '-') then s[1..] else s;
    if digits == [] || !AllDigits(digits) then None
    else
      var v: int := if negative then -(DigitsValue(digits) as int) else DigitsValue(digits);
      if MinInt <= v <= MaxInt then Some(v) else None
  }

  /** `getEnvAsInt`: the parsed value, or a failure for an empty or non-integer value. */
  function GetEnvAsInt(key: string, value: string): (r: Result<int>)
    ensures value == "" ==> r == Failure(NotSet(key))
    ensures value != "" && Atoi(value).None? ==> r == Failure(NotInt(key))
    ensures value != "" && Atoi(value).Some? ==> r == Success(Atoi(value).value)
  {
    if value == "" then Failure(NotSet(key))
    else
      match Atoi(value)
      case None => Failure(NotInt(key))
      case Some(v) => Success(v)
  }

  /** The decimal digits of a natural number, with no leading zero (`strconv.Itoa`). */
  function Digits(n: nat): (s: string)
    ensures AllDigits(s) && s != []
  {
    if n < 10 then [('0' as int + n) as char] else Digits(n / 10) + [('0' as int + n % 10) as char]
  }

  /** The digits of `n` are worth `n`. */
  lemma {:induction false} DigitsValueOfDigits(n: nat)
    ensures DigitsValue(Digits(n)) == n
  {
    if n >= 10 {
      DigitsValueOfDigits(n / 10);
      var s := Digits(n);
      assert s[..|s| - 1] == Digits(n / 10);
    }
  }

  /** `strconv.Itoa`. */
  function Itoa(n: int): string
  {
    if n < 0 then "-" + Digits(-n) else Digits(n)
  }

  /** Every `int` written in decimal reads back as itself. */
  lemma AtoiItoa(n: int)
    requires MinInt <= n <= MaxInt
    ensures Atoi(Itoa(n)) == Some(n)
  {
    if n < 0 {
      DigitsValueOfDigits(-n);
      AtoiNegative(Digits(-n));
    } else {
      DigitsValueOfDigits(n);
    }
  }

  /** A minus sign followed by digits reads as the negated value of the digits,
      when that fits in `int`. */
  lemma AtoiNegative(d: string)
    requires d != [] && AllDigits(d) && DigitsValue(d) <= -MinInt
    ensures Atoi("-" + d) == Some(-(DigitsValue(d) as int))
  {
    assert ("-" + d)[0] == '-' && ("-" + d)[1..] == d;
  }

  /** So a variable holding a written `int` is read as that `int`. */
  lemma GetEnvAsIntItoa(key: string, n: int)
    requires MinInt <= n <= MaxInt
    ensures GetEnvAsInt(key, Itoa(n)) == Success(n)
  {
    AtoiItoa(n);
  }

  /** Text with anything but a leading sign and digits, such as surrounding white
      space, is not an integer. */
  lemma AtoiRejectsNonDigits(s: string, i: nat)
    requires i < |s| && !IsDigit(s[i])
    requires i == 0 ==> s[0] != '+' && s[0] != '-'

    ensures Atoi(s).None?
  {
  }
}
