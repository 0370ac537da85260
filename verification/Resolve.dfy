/** Implicit resolution of plain scalars. Reading and printing floats is left to the functions of `Floats`. */
module Resolve {
  import opened Prelude
  import opened Syntax
  import opened Numbers

  datatype Floats = Floats(parse: string -> Option<nat>, sexagesimal: string -> Option<nat>, text: nat -> string)

  // ----- Text

  function TrimStart(s: string): string {
    if s != "" && IsWhitespace(s[0]) then TrimStart(s[1..]) else s
  }

  function TrimEnd(s: string): string {
    if s != "" && IsWhitespace(s[|s| - 1]) then TrimEnd(s[..|s| - 1]) else s
  }

  function Trim(s: string): string {
    TrimEnd(TrimStart(s))
  }

  /** The pieces of `s` between occurrences of `c`. */
  function Split(s: string, c: char): (parts: seq<string>)
    ensures |parts| > 0
  {
    if s == "" then [""]
    else
      var rest := Split(s[1..], c);
      if s[0] == c then [""] + rest else [[s[0]] + rest[0]] + rest[1..]
  }

  function Without(s: string, c: char): string {
    if s == "" then "" else (if s[0] == c then "" else [s[0]]) + Without(s[1..], c)
  }

  predicate LooksFractional(s: string) {
    '.' in s || 'e' in s || 'E' in s
  }

  // ----- Integers

  /** A magnitude with a sign, if that is an `i64`; `2^63` is one only when negated. */
  function ToSigned(value: nat, negative: bool): Option<int> {
    if negative then
      if value == 0x8000_0000_0000_0000 then Some(I64_MIN)
      else if value <= I64_MAX then Some(0 - value) else None
    else if value <= I64_MAX then Some(value) else None
  }

  function ToSignedOption(value: Option<nat>, negative: bool): Option<int> {
    if value.Some? then ToSigned(value.value, negative) else None
  }

  function ParseInt(text: string, version: YamlVersion): Option<int> {
    var negative := text != "" && text[0] == '-';
    var signed := negative || (text != "" && text[0] == '+');
    var digits := if signed then text[1..] else text;
    if |digits| > 1 && digits[0] == '0' then
      if version.Version12? && digits[1] == 'o' then
        ToSignedOption(FromRadix(digits[2..], 8, U64_MAX), negative)
      else if version.Version11? && AllDigits(digits[1..], 8) then
        ToSignedOption(FromRadix(digits[1..], 8, U64_MAX), negative)
      else None
    else if AllDigits(digits, 10) then
      ToSignedOption(FromRadix(digits, 10, U64_MAX), negative)
    else None
  }

  function Signed(negative: bool, magnitude: nat): int {
    if negative then 0 - magnitude else magnitude
  }

  /** The sign and the limits of `u64` lose nothing: the result is there exactly when it is an `i64`. */
  lemma SignedExact(value: nat, negative: bool)
    ensures (if value > U64_MAX then None else ToSigned(value, negative))
         == if FitsI64(Signed(negative, value)) then Some(Signed(negative, value)) else None
  {
  }

  /** A decimal spelling without a superfluous zero is an integer exactly when its value is an `i64`. */
  lemma DecimalExact(sign: string, digits: string, version: YamlVersion)
    requires sign == "" || sign == "-" || sign == "+"
    requires digits != "" && AllDigits(digits, 10) && (digits[0] == '0' ==> |digits| == 1)
    ensures var value := Signed(sign == "-", Positional(digits, 10));
      ParseInt(sign + digits, version) == if FitsI64(value) then Some(value) else None
  {
    SignedExact(Positional(digits, 10), sign == "-");
    hide Positional;
    assert FromRadix(digits, 10, U64_MAX) == if Positional(digits, 10) > U64_MAX then None
      else Some(Positional(digits, 10));
    Reads(sign, digits, version);
  }

  /** Octal spellings, `0o` and digits under 1.2, `0` and digits under 1.1: exact, and neither read by the other. */
  lemma OctalExact(sign: string, digits: string)
    requires (sign == "" || sign == "-" || sign == "+") && digits != "" && AllDigits(digits, 8)
    ensures var value := Signed(sign == "-", Positional(digits, 8));
      var exact := if FitsI64(value) then Some(value) else None;
      && ParseInt(sign + ("0o" + digits), Version12) == exact && ParseInt(sign + ("0" + digits), Version11) == exact
      && ParseInt(sign + ("0o" + digits), Version11) == None && ParseInt(sign + ("0" + digits), Version12) == None
  {
    hide FromRadix, Positional, ToSigned, ParseInt;
    SignedExact(Positional(digits, 8), sign == "-");
    OctalRead(digits);
    OctalSpelled(sign, "0o" + digits);
    OctalSpelled(sign, "0" + digits);
    OctalDigits(digits);
  }

  /** The sign only decides the sign. */
  lemma OctalSpelled(sign: string, octal: string)
    requires (sign == "" || sign == "-" || sign == "+") && |octal| > 1 && octal[0] == '0'
    ensures ParseInt(sign + octal, Version12) ==
      if octal[1] == 'o' then ToSignedOption(FromRadix(octal[2..], 8, U64_MAX), sign == "-") else None
    ensures ParseInt(sign + octal, Version11) ==
      if AllDigits(octal[1..], 8) then ToSignedOption(FromRadix(octal[1..], 8, U64_MAX), sign == "-") else None
  {
    hide FromRadix, ToSignedOption, AllDigits;
    assert sign != "" ==> (sign + octal)[1..] == octal;
    assert sign == "" ==> sign + octal == octal;
  }

  lemma OctalDigits(digits: string)
    requires digits != "" && AllDigits(digits, 8)
    ensures var lettered, plain := "0o" + digits, "0" + digits;
      && lettered[1] == 'o' && lettered[2..] == digits && !AllDigits(lettered[1..], 8)
      && plain[1] != 'o' && plain[1..] == digits
  {
    assert IsDigit(digits[0], 8);
    assert ("0o" + digits)[1..][0] == 'o';
  }

  lemma OctalRead(digits: string)
    requires digits != "" && AllDigits(digits, 8)
    ensures FromRadix(digits, 8, U64_MAX) == if Positional(digits, 8) > U64_MAX then None
      else Some(Positional(digits, 8))
  {
    assert IsDigit(digits[0], 8);
  }

  lemma Reads(sign: string, digits: string, version: YamlVersion)
    requires sign == "" || sign == "-" || sign == "+"
    requires digits != "" && AllDigits(digits, 10) && (digits[0] == '0' ==> |digits| == 1)
    ensures ParseInt(sign + digits, version) == ToSignedOption(FromRadix(digits, 10, U64_MAX), sign == "-")
  {
    hide FromRadix, ToSignedOption;
    var text := sign + digits;
    assert IsDigit(digits[0], 10);
    if sign == "" {
      assert text == digits;
    } else {
      assert text[0] == sign[0] && text[1..] == digits;
    }
  }

  // ----- Base sixty

  predicate GroupOk(part: string, first: bool) {
    part != "" && AllDigits(part, 10) && (first || Positional(part, 10) < 60)
  }

  /** Digit groups of a base-60 number: none empty, all but the first below sixty. */
  predicate GroupsOk(parts: seq<string>) {
    forall i | 0 <= i < |parts| :: GroupOk(parts[i], i == 0)
  }

  /** The unbounded value of base-60 digit groups. */
  function Sexagesimal(parts: seq<string>): nat
    requires GroupsOk(parts)
  {
    if parts == [] then 0
    else Sexagesimal(parts[..|parts| - 1]) * 60 + Positional(parts[|parts| - 1], 10)
  }

  predicate MaySexagesimal(text: string) {
    ':' in text && !LooksFractional(text)
  }

  function Unsigned(text: string): string {
    if text != "" && (text[0] == '-' || text[0] == '+') then text[1..] else text
  }

  function ParseSexagesimalInt(text: string): Option<int> {
    if !MaySexagesimal(text) then None else
    var parts := Split(Unsigned(text), ':');
    if |parts| < 2 || !GroupsOk(parts) || Sexagesimal(parts) > I64_MAX then None
    else
      Some(Signed(text[0] == '-', Sexagesimal(parts)))
  }

  /** A larger prefix is a larger number, so a prefix that overflows never comes back into range. */
  lemma {:induction false} PrefixGrows(parts: seq<string>, i: nat)
    requires GroupsOk(parts) && i <= |parts|
    ensures Sexagesimal(parts[..i]) <= Sexagesimal(parts)
    decreases |parts|
  {
    if i == |parts| {
      assert parts[..i] == parts;
    } else {
      PrefixGrows(parts[..|parts| - 1], i);
      assert parts[..|parts| - 1][..i] == parts[..i];
    }
  }

  /** An `i64` reading of a digit group: none when it does not fit. */
  function GroupValue(part: string): Option<nat> {
    FromRadix(part, 10, I64_MAX)
  }

  /** The loop with its checked multiplication and addition. */
  method SexagesimalInt(text: string) returns (r: Option<int>)
    ensures r == ParseSexagesimalInt(text)
  {
    if !MaySexagesimal(text) {
      return None;
    }
    var negative := text[0] == '-';
    var parts := Split(Unsigned(text), ':');
    if |parts| < 2 {
      return None;
    }
    var value := SumGroups(parts);
    if value.None? {
      return None;
    }
    return Some(Signed(negative, value.value));
  }

  /** One group after another, as long as it fits. */
  method SumGroups(parts: seq<string>) returns (r: Option<nat>)
    ensures r == if !GroupsOk(parts) || Sexagesimal(parts) > I64_MAX then None else Some(Sexagesimal(parts))
  {
    hide Positional, Sexagesimal, GroupsOk;
    NoGroups();
    var value: nat := 0;
    for i := 0 to |parts|
      invariant GroupsOk(parts[..i])
      invariant value == Sexagesimal(parts[..i]) <= I64_MAX
    {
      var part := parts[i];
      if part == "" || !AllDigits(part, 10) {
        NotAGroup(parts, i);
        return None;
      }
      assert part[0] != '+';
      var digit := GroupValue(part);
      if digit.None? {
        Overflows(parts, i);
        return None;
      }
      if i > 0 && digit.value >= 60 {
        NotAGroup(parts, i);
        return None;
      }
      GroupAdded(parts, i);
      if value * 60 > I64_MAX || value * 60 + digit.value > I64_MAX {
        Overflows(parts, i);
        return None;
      }
      value := value * 60 + digit.value;
    }
    assert parts[..|parts|] == parts;
    return Some(value);
  }

  lemma NoGroups()
    ensures GroupsOk([]) && Sexagesimal([]) == 0
  {
  }

  lemma NotAGroup(parts: seq<string>, i: nat)
    requires i < |parts| && !GroupOk(parts[i], i == 0)
    ensures !GroupsOk(parts)
  {
  }

  lemma GroupAdded(parts: seq<string>, i: nat)
    requires i < |parts| && GroupsOk(parts[..i]) && GroupOk(parts[i], i == 0)
    ensures GroupsOk(parts[..i + 1])
      && Sexagesimal(parts[..i + 1]) == Sexagesimal(parts[..i]) * 60 + Positional(parts[i], 10)
  {
    assert parts[..i + 1][..i] == parts[..i];
  }

  lemma Overflows(parts: seq<string>, i: nat)
    requires i < |parts| && GroupsOk(parts[..i])
    ensures GroupsOk(parts) && Sexagesimal(parts[..i]) * 60 + Positional(parts[i], 10) > I64_MAX ==>
      Sexagesimal(parts) > I64_MAX
  {
    if GroupsOk(parts) {
      PrefixGrows(parts, i + 1);
      assert parts[..i + 1][..i] == parts[..i];
    }
  }

  // ----- The whole table

  const TRUE12 := ["true", "True", "TRUE"]
  const FALSE12 := ["false", "False", "FALSE"]
  const TRUE11 := ["y", "Y", "yes", "Yes", "YES", "true", "True", "TRUE", "on", "On", "ON"]
  const FALSE11 := ["n", "N", "no", "No", "NO", "false", "False", "FALSE", "off", "Off", "OFF"]
  const NULLS := ["~", "null", "Null", "NULL"]

  predicate LooksLikeTimestamp(text: string) {
    |text| >= 10 && text[4] == '-' && text[7] == '-'
    && forall i | 0 <= i < |text| :: i == 4 || i == 7 || IsDigit(text[i], 10)
  }

  function ParseFloat(floats: Floats, text: string): Option<nat> {
    if LooksFractional(text) || (text != "" && (text[0] == '+' || text[0] == '-')) then floats.parse(Without(text, ','))
      else None
  }

  function ResolveNumber(floats: Floats, text: string, version: YamlVersion): ScalarValue {
    var base60 := if version.Version11? then ParseSexagesimalInt(text) else None;
    if base60.Some? then Int(base60.value) else
    var float60 := if version.Version11? && ':' in text then floats.sexagesimal(text) else None;
    if float60.Some? then Float(float60.value) else
    var whole := ParseInt(text, version);
    if whole.Some? then Int(whole.value) else
    var float := ParseFloat(floats, text);
    if float.Some? then Float(float.value)
    else if LooksLikeTimestamp(text) then Timestamp(text)
    else String(text)
  }

  function ResolveScalar(floats: Floats, raw: string, version: YamlVersion): ScalarValue {
    var text := Trim(raw);
    if text == "" then Null
    else if text in (if version.Version12? then TRUE12 else TRUE11) then Bool(true)
    else if text in (if version.Version12? then FALSE12 else FALSE11) then Bool(false)
    else if text in NULLS then Null
    else ResolveNumber(floats, text, version)
  }

  // ----- Printed scalars resolve to themselves

  lemma TrimNothing(s: string)
    requires s != "" && !IsWhitespace(s[0]) && !IsWhitespace(s[|s| - 1])
    ensures Trim(s) == s
  {
  }

  lemma NoColonInInt(i: int)
    ensures ':' !in IntText(i)
  {
    DecimalReads(if i < 0 then -i else i);
  }

  lemma IntReads(floats: Floats, i: int, version: YamlVersion)
    requires FitsI64(i)
    ensures ResolveNumber(floats, IntText(i), version) == Int(i)
  {
    var sign, digits := if i < 0 then "-" else "", Decimal(if i < 0 then -i else i);
    DecimalReads(if i < 0 then -i else i);
    NoColonInInt(i);
    assert IntText(i) == sign + digits;
    DecimalExact(sign, digits, version);
    hide ParseInt, Positional, IntText;
  }

  /** Printing any `i64`, the minimum included, and resolving the text gives it back under both versions. */
  lemma IntRoundTrip(floats: Floats, i: int, version: YamlVersion)
    requires FitsI64(i)
    ensures ResolveScalar(floats, IntText(i), version) == Int(i)
  {
    var text := IntText(i);
    var digits := Decimal(if i < 0 then -i else i);
    DecimalReads(if i < 0 then -i else i);
    assert text == if i < 0 then "-" + digits else digits;
    assert IsDigit(text[|text| - 1], 10) && (text[0] == '-' || IsDigit(text[0], 10));
    IntReads(floats, i, version);
    hide IntText, ResolveNumber, Trim;
    TrimNothing(text);
    NotAWord(text, version);
  }

  lemma NotAWord(text: string, version: YamlVersion)
    requires text != "" && IsDigit(text[|text| - 1], 10)
    ensures text !in TRUE12 && text !in FALSE12 && text !in TRUE11 && text !in FALSE11 && text !in NULLS
  {
  }

  lemma WordsRoundTrip(floats: Floats, version: YamlVersion)
    ensures ResolveScalar(floats, "null", version) == Null
    ensures ResolveScalar(floats, "true", version) == Bool(true)
    ensures ResolveScalar(floats, "false", version) == Bool(false)
  {
    TrimNothing("null");
    TrimNothing("true");
    TrimNothing("false");
    assert NULLS[1] == "null" && TRUE12[0] == "true" && TRUE11[5] == "true" && FALSE12[0] == "false"
      && FALSE11[5] == "false";
    assert "false" !in TRUE12 && "false" !in TRUE11;
    assert "null" !in TRUE12 && "null" !in TRUE11 && "null" !in FALSE12 && "null" !in FALSE11;
  }

  // ----- What the words mean

  function UpperChar(c: char): char {
    if 'a' <= c <= 'z' then c - 'a' + 'A' else c
  }

  function Upper(word: string): string {
    seq(|word|, i requires 0 <= i < |word| => UpperChar(word[i]))
  }

  /** A word in small letters, with a capital, or in capitals. */
  predicate Cased(text: string, word: string)
    requires word != ""
  {
    text == word || text == [UpperChar(word[0])] + word[1..] || text == Upper(word)
  }

  /** Which spellings are truth values and null: version 1.1 knows more words than 1.2, each in three cases. */
  lemma WordsMean(floats: Floats, raw: string, version: YamlVersion)
    ensures var text, value := Trim(raw), ResolveScalar(floats, raw, version);
      && (value == Bool(true) <==>
            || Cased(text, "true")
            || (version.Version11? && (Cased(text, "y") || Cased(text, "yes") || Cased(text, "on"))))
      && (value == Bool(false) <==>
            || Cased(text, "false")
            || (version.Version11? && (Cased(text, "n") || Cased(text, "no") || Cased(text, "off"))))
      && (value == Null <==> text == "" || text == "~" || Cased(text, "null"))
  {
    hide Trim, ResolveNumber, Cased;
    var text := Trim(raw);
    NumbersAreNoWords(floats, text, version);
    Cases(text);
  }

  /** The spellings of each word. */
  lemma Cases(text: string)
    ensures Cased(text, "true") <==> text == "true" || text == "True" || text == "TRUE"
    ensures Cased(text, "false") <==> text == "false" || text == "False" || text == "FALSE"
    ensures Cased(text, "null") <==> text == "null" || text == "Null" || text == "NULL"
    ensures Cased(text, "y") <==> text == "y" || text == "Y"
    ensures Cased(text, "n") <==> text == "n" || text == "N"
    ensures Cased(text, "yes") <==> text == "yes" || text == "Yes" || text == "YES"
    ensures Cased(text, "no") <==> text == "no" || text == "No" || text == "NO"
    ensures Cased(text, "on") <==> text == "on" || text == "On" || text == "ON"
    ensures Cased(text, "off") <==> text == "off" || text == "Off" || text == "OFF"
  {
    assert Upper("true") == "TRUE" && "T" + "true"[1..] == "True";
    assert Upper("false") == "FALSE" && "F" + "false"[1..] == "False";
    assert Upper("null") == "NULL" && "N" + "null"[1..] == "Null";
    assert Upper("y") == "Y" && "Y" + "y"[1..] == "Y" && Upper("n") == "N" && "N" + "n"[1..] == "N";
    assert Upper("yes") == "YES" && "Y" + "yes"[1..] == "Yes";
    assert Upper("no") == "NO" && "N" + "no"[1..] == "No";
    assert Upper("on") == "ON" && "O" + "on"[1..] == "On";
    assert Upper("off") == "OFF" && "O" + "off"[1..] == "Off";
  }

  lemma NumbersAreNoWords(floats: Floats, text: string, version: YamlVersion)
    ensures var value := ResolveNumber(floats, text, version); !value.Bool? && !value.Null?
  {
  }
}
