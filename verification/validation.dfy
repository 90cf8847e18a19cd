/**
 Input text, the validator run on every change of the text field, and the
 integer parse the Summarize event applies to validated text.

 The view model works on Kotlin strings, whose length counts UTF-16 code
 units; text is therefore a sequence of 16-bit code units here, and `Utf16`
 turns a Dafny string (a sequence of Unicode scalar values) into that form.
 */
module Validation {

  newtype CodeUnit = x: int | 0 <= x < 0x1_0000

  type Text = seq<CodeUnit>

  /** UTF-16 encoding of one scalar value: one unit, or a surrogate pair above U+FFFF. */
  function EncodeChar(c: char): (units: seq<CodeUnit>)
    ensures |units| == (if c as int < 0x1_0000 then 1 else 2)
  {
    var v := c as int;
    if v < 0x1_0000 then [v as CodeUnit]
    else [(0xD800 + (v - 0x1_0000) / 0x400) as CodeUnit, (0xDC00 + (v - 0x1_0000) % 0x400) as CodeUnit]
  }

  /** The UTF-16 form of a string, as a Kotlin `String` holds it. */
  function Utf16(s: string): (t: Text)
    ensures |t| >= |s|
    ensures (forall i :: 0 <= i < |s| ==> s[i] as int < 0x1_0000) ==> |t| == |s|
  {
    if s == [] then [] else EncodeChar(s[0]) + Utf16(s[1..])
  }

  // Error messages, exactly as the view model spells them.
  const TooLong: string := "Input is to long"
  const NotNumeric: string := "Input is not numeric"

  /** `c in '0'..'9'` */
  predicate IsDigit(c: CodeUnit)
  {
    '0' as int <= c as int <= '9' as int
  }

  predicate AllDigits(t: Text)
  {
    forall i :: 0 <= i < |t| ==> IsDigit(t[i])
  }

  /**
   The error for a text: too long beyond two code units, otherwise not numeric
   when some unit is not an ASCII digit, otherwise empty (the text is accepted;
   the empty text is accepted too, since `all` holds of no characters).
   */
  function Validate(t: Text): (error: string)
    ensures error == "" <==> |t| <= 2 && AllDigits(t)
    ensures error in {"", TooLong, NotNumeric}
  {
    if |t| > 2 then TooLong
    else if !AllDigits(t) then NotNumeric
    else ""
  }

  /** Characters Kotlin's `Char.isWhitespace` accepts. */
  predicate IsWhitespace(c: char)
  {
    var v := c as int;
    || 0x09 <= v <= 0x0D || 0x1C <= v <= 0x20
    || v == 0xA0 || v == 0x1680 || 0x2000 <= v <= 0x200A
    || v == 0x2028 || v == 0x2029 || v == 0x202F || v == 0x205F || v == 0x3000
  }

  /** `s` with its leading whitespace removed, as `trimStart()` does. */
  function TrimStart(s: string): (r: string)
    ensures |r| <= |s| && r == s[|s| - |r|..]
    ensures r != [] ==> !IsWhitespace(r[0])
  {
    if s != [] && IsWhitespace(s[0]) then TrimStart(s[1..]) else s
  }

  /** Kotlin's `isBlank`: the empty string, or only whitespace characters. */
  predicate IsBlank(s: string)
    ensures s == [] ==> IsBlank(s)
    ensures s != [] && !IsWhitespace(s[0]) ==> !IsBlank(s)
  {
    forall i :: 0 <= i < |s| ==> IsWhitespace(s[i])
  }

  /** A string is blank exactly when trimming its leading whitespace leaves nothing. */
  lemma {:induction false} BlankIffTrimsToEmpty(s: string)
    ensures IsBlank(s) <==> TrimStart(s) == []
  {
    if s != [] && IsWhitespace(s[0]) {
      BlankIffTrimsToEmpty(s[1..]);
      assert forall i :: 1 <= i < |s| ==> s[i] == s[1..][i - 1];
    }
  }

  /** The validator's error is blank exactly when it is empty, i.e. when the text is accepted. */
  lemma ValidateBlankIffAccepted(t: Text)
    ensures IsBlank(Validate(t)) <==> Validate(t) == ""
    ensures IsBlank(Validate(t)) <==> |t| <= 2 && AllDigits(t)
  {
    var error := Validate(t);
    if error != "" {
      assert error[0] == 'I';
    }
  }

  /** Any text longer than two code units is reported too long, whatever it contains. */
  lemma TooLongWhateverItHolds(t: Text)
    requires |t| > 2
    ensures Validate(t) == TooLong
    ensures Validate(t) != NotNumeric
  {
  }

  /** Up to two code units, the text is reported non-numeric exactly when some unit is not a digit. */
  lemma ShortTextNotNumericIff(t: Text)
    requires |t| <= 2
    ensures Validate(t) == NotNumeric <==> exists i :: 0 <= i < |t| && !IsDigit(t[i])
    ensures Validate(t) == "" <==> forall i :: 0 <= i < |t| ==> IsDigit(t[i])
  {
  }

  /** The empty text passes validation. */
  lemma EmptyTextAccepted()
    ensures Validate([]) == ""
  {
  }

  /** Outcome of Kotlin's `String.toInt()`. */
  datatype IntParse = Number(value: int) | NumberFormatException

  function DigitValue(c: CodeUnit): (d: nat)
    requires IsDigit(c)
    ensures d <= 9
  {
    c as int - '0' as int
  }

  /** Value of a string of decimal digits, most significant first. */
  function DigitsValue(t: Text): nat
    requires AllDigits(t)
  {
    if t == [] then 0 else DigitsValue(t[..|t| - 1]) * 10 + DigitValue(t[|t| - 1])
  }

  function Pow10(k: nat): nat
  {
    if k == 0 then 1 else 10 * Pow10(k - 1)
  }

  lemma {:induction false} DigitsValueBound(t: Text)
    requires AllDigits(t)
    ensures DigitsValue(t) < Pow10(|t|)
  {
    if t != [] {
      DigitsValueBound(t[..|t| - 1]);
    }
  }

  /**
   `String.toInt()` on a string of ASCII digits: the empty string throws,
   a non-empty one parses to its decimal value.
   */
  function ToInt(t: Text): (r: IntParse)
    ensures r.Number? <==> t != [] && AllDigits(t)
    ensures r.Number? ==> 0 <= r.value < Pow10(|t|)
  {
    if t == [] || !AllDigits(t) then NumberFormatException
    else
      DigitsValueBound(t);
      Number(DigitsValue(t))
  }

  /** What an accepted text parses to: the empty text throws, any other is a number in 0..99. */
  lemma AcceptedTextParses(t: Text)
    requires Validate(t) == ""
    ensures ToInt(t).NumberFormatException? <==> t == []
    ensures ToInt(t).Number? ==> 0 <= ToInt(t).value <= 99
  {
  }

  /** Decimal rendering of a natural number without leading zeros (`Int.toString()`). */
  function Decimal(n: nat): (t: Text)
    ensures t != [] && AllDigits(t)
  {
    var last := ('0' as int + n % 10) as CodeUnit;
    if n < 10 then [last] else Decimal(n / 10) + [last]
  }

  /** Parsing undoes rendering: every number renders to digits that parse back to it. */
  lemma {:induction false} DecimalRoundTrip(n: nat)
    ensures ToInt(Decimal(n)) == Number(n)
  {
    var t := Decimal(n);
    assert DigitValue(t[|t| - 1]) == n % 10;
    if n < 10 {
      assert t[..|t| - 1] == [];
      assert DigitsValue(t) == DigitsValue([]) * 10 + n % 10;
    } else {
      assert t[..|t| - 1] == Decimal(n / 10);
      DecimalRoundTrip(n / 10);
      assert DigitsValue(t) == (n / 10) * 10 + n % 10;
    }
  }

  /** The numbers 0..99 render to text the validator accepts. */
  lemma SmallDecimalAccepted(n: nat)
    requires n <= 99
    ensures Validate(Decimal(n)) == ""
  {
  }

  /** Rendering undoes parsing for accepted text without a leading zero. */
  lemma AcceptedTextRoundTrip(t: Text)
    requires Validate(t) == "" && t != []
    requires |t| == 1 || t[0] != '0' as int as CodeUnit
    ensures ToInt(t).Number? && Decimal(ToInt(t).value) == t
  {
    var v := ToInt(t).value;
    assert DigitsValue([t[0]]) == DigitValue(t[0]) by {
      assert [t[0]][..0] == [];
    }
    if |t| == 2 {
      assert t[..1] == [t[0]];
      assert v == DigitValue(t[0]) * 10 + DigitValue(t[1]);
      assert v / 10 == DigitValue(t[0]) && v % 10 == DigitValue(t[1]);
      assert Decimal(v / 10) == [t[0]];
      assert Decimal(v) == Decimal(v / 10) + [t[1]];
    } else {
      assert t == [t[0]];
    }
  }
}
