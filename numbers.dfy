/** Numeric literals as `getNumber` reads them (py65asm/assembler.py:11-19,
    224-231): `$` hex (1-4 digits), `%` binary (1-16), leading `0` octal
    (1-6), decimal (1-5 digits after any run of `-`), each matched as a
    PREFIX of the argument, and otherwise a symbol-table lookup of the
    whole argument. Also Python's `str(n)` and `int(s)` for the `.ORG`
    marker, which stores its target as text. */
module Numbers {
  import opened Base

  // ASCII character classes (`\d`, `\w` and the bracketed classes of the patterns)

  predicate IsDecDigit(c: char) { '0' <= c <= '9' }
  predicate IsHexDigit(c: char) { IsDecDigit(c) || 'a' <= c <= 'f' || 'A' <= c <= 'F' }
  predicate IsWordChar(c: char) { IsDecDigit(c) || 'a' <= c <= 'z' || 'A' <= c <= 'Z' || c == '_' }

  /** The digit classes of the four numeric patterns. */
  datatype Digits = Hex | Bin | Oct | Dec

  predicate In(c: char, cls: Digits)
  {
    match cls
    case Hex => IsHexDigit(c)
    case Bin => c == '0' || c == '1'
    case Oct => '0' <= c <= '7'
    case Dec => IsDecDigit(c)
  }

  function Radix(cls: Digits): nat
  {
    match cls
    case Hex => 16
    case Bin => 2
    case Oct => 8
    case Dec => 10
  }

  predicate AllIn(s: string, cls: Digits)
  {
    forall k :: 0 <= k < |s| ==> In(s[k], cls)
  }

  function DigitValue(c: char): (d: nat)
    requires IsHexDigit(c)
    ensures d < 16
    ensures IsDecDigit(c) ==> d < 10
    ensures '0' <= c <= '7' ==> d < 8
  {
    if IsDecDigit(c) then c as int - '0' as int
    else if 'a' <= c <= 'f' then c as int - 'a' as int + 10
    else c as int - 'A' as int + 10
  }

  /** A digit's value is its position in `int()`'s digit alphabet, the
      letters counting in either case. */
  lemma {:induction false} DigitAlphabet(c: char)
    requires IsHexDigit(c)
    ensures "0123456789abcdef"[DigitValue(c)] == c || "0123456789ABCDEF"[DigitValue(c)] == c
  {
  }

  /** Python's `int(s, radix)` on a non-empty string of valid digits. */
  function Value(s: string, radix: nat): nat
    requires forall k :: 0 <= k < |s| ==> IsHexDigit(s[k])
  {
    if s == [] then 0 else Value(s[..|s| - 1], radix) * radix + DigitValue(s[|s| - 1])
  }

  /** Length of the greedy run of `cls` digits starting at `from`, at most
      `limit` long: what the quantifier `{1,limit}` consumes. */
  function Span(s: string, from: nat, limit: nat, cls: Digits): (r: nat)
    ensures r <= limit
    ensures r > 0 ==> from + r <= |s|
    ensures forall k :: from <= k < from + r ==> In(s[k], cls)
    ensures r == limit || from + r >= |s| || !In(s[from + r], cls)
    decreases limit
  {
    if limit == 0 || from >= |s| || !In(s[from], cls) then 0
    else 1 + Span(s, from + 1, limit - 1, cls)
  }

  /** Number of leading '-' characters: what `-*` consumes. */
  function Dashes(s: string): (k: nat)
    ensures k <= |s|
    ensures forall m :: 0 <= m < k ==> s[m] == '-'
    ensures k == |s| || s[k] != '-'
  {
    if s != [] && s[0] == '-' then 1 + Dashes(s[1..]) else 0
  }

  /** Python's `int(v, 10)` on a match of `-*\d{1,5}`: one leading '-'
      negates, two or more raise ValueError. */
  function DecimalGroup(v: string): (r: Result<int>)
    requires 1 <= |v| - Dashes(v) && AllIn(v[Dashes(v)..], Dec)
    ensures Dashes(v) == 0 ==> r == Success(Value(v, 10))
    ensures Dashes(v) == 1 ==> r == Success(-(Value(v[1..], 10) as int))
    ensures r.Failure? <==> Dashes(v) >= 2
  {
    var k := Dashes(v);
    if k == 0 then Success(Value(v, 10))
    else if k == 1 then Success(-(Value(v[1..], 10) as int))
    else Failure(ValueError)
  }

  /** The group is read as Python's `int()` reads text: the value is
      `int(v)`, and two dashes are its ValueError. */
  lemma {:induction false} DecimalGroupIsInt(v: string)
    requires 1 <= |v| - Dashes(v) && AllIn(v[Dashes(v)..], Dec)
    ensures DecimalGroup(v) == ParseInt(v)
  {
    var k := Dashes(v);
    if k == 0 {
      assert v[0] !in "+-" && v[0..] == v;
    } else if k == 1 {
      assert v[1..] == v[k..];
    } else {
      assert !In(v[1..][0], Dec);
    }
  }

  /** The value of `lead` followed by the longest run (at most `limit`)
      of `cls` digits at the start of `arg`, if that run is not empty. */
  function PrefixNumber(arg: string, lead: char, limit: nat, cls: Digits): Option<int>
  {
    var r := Span(arg, 1, limit, cls);
    if |arg| > 0 && arg[0] == lead && r > 0 then Some(Value(arg[1..1 + r], Radix(cls))) else None
  }

  /** The value of the match of `-*\d{1,5}` at the start of `arg`, if any. */
  function DecimalPrefix(arg: string): Option<Result<int>>
  {
    var k := Dashes(arg);
    var d := Span(arg, k, 5, Dec);
    if d > 0 then
      var v := arg[..k + d];
      assert Dashes(v) == k by { DashesOfPrefix(arg, k + d); }
      assert v[k..] == arg[k..k + d];
      Some(DecimalGroup(v))
    else None
  }

  /** `getNumber`: the first of the four patterns that matches a prefix of
      `arg` gives the value; otherwise the value of the symbol `arg`, or None. */
  function GetNumber(symbols: map<string, Option<int>>, arg: string): Result<Option<int>>
  {
    var hex := PrefixNumber(arg, '$', 4, Hex);
    var bin := PrefixNumber(arg, '%', 16, Bin);
    var oct := PrefixNumber(arg, '0', 6, Oct);
    if hex.Some? then Success(hex)
    else if bin.Some? then Success(bin)
    else if oct.Some? then Success(oct)
    else match DecimalPrefix(arg)
      case Some(r) => (var n :- r; Success(Some(n)))
      case None => Success(Lookup(symbols, arg))
  }

  lemma {:induction false} DashesOfPrefix(s: string, m: nat)
    requires Dashes(s) < m <= |s|
    ensures Dashes(s[..m]) == Dashes(s)
  {
    if s[0] == '-' {
      assert s[..m][1..] == s[1..][..m - 1];
      DashesOfPrefix(s[1..], m - 1);
    }
  }

  /** A greedy run is determined by where it stops. */
  lemma {:induction false} SpanIs(s: string, from: nat, limit: nat, cls: Digits, r: nat)
    requires from + r <= |s| && r <= limit
    requires forall k :: from <= k < from + r ==> In(s[k], cls)
    requires r == limit || from + r == |s| || !In(s[from + r], cls)
    ensures Span(s, from, limit, cls) == r
    decreases r
  {
    if r > 0 {
      SpanIs(s, from + 1, limit - 1, cls, r - 1);
    }
  }

  /** `lead` followed by a greedy run of digits is a prefix match. */
  lemma {:induction false} PrefixOf(lead: char, limit: nat, cls: Digits, digits: string, rest: string)
    requires 1 <= |digits| <= limit && AllIn(digits, cls)
    requires |digits| == limit || rest == [] || !In(rest[0], cls)
    ensures PrefixNumber([lead] + digits + rest, lead, limit, cls) == Some(Value(digits, Radix(cls)))
  {
    var arg := [lead] + digits + rest;
    SpanIs(arg, 1, limit, cls, |digits|);
    assert arg[1..1 + |digits|] == digits;
  }

  /** "$" followed by 1-4 hex digits reads as hexadecimal; what follows the
      longest such run is ignored (a prefix match). */
  lemma {:induction false} GetNumberHex(symbols: map<string, Option<int>>, digits: string, rest: string)
    requires 1 <= |digits| <= 4 && AllIn(digits, Hex)
    requires |digits| == 4 || rest == [] || !In(rest[0], Hex)
    ensures GetNumber(symbols, "$" + digits + rest) == Success(Some(Value(digits, 16)))
  {
    PrefixOf('$', 4, Hex, digits, rest);
  }

  /** "%" followed by 1-16 binary digits reads as binary. */
  lemma {:induction false} GetNumberBinary(symbols: map<string, Option<int>>, digits: string, rest: string)
    requires 1 <= |digits| <= 16 && AllIn(digits, Bin)
    requires |digits| == 16 || rest == [] || !In(rest[0], Bin)
    ensures GetNumber(symbols, "%" + digits + rest) == Success(Some(Value(digits, 2)))
  {
    var arg := "%" + digits + rest;
    assert arg[0] == '%' && PrefixNumber(arg, '$', 4, Hex).None?;
    PrefixOf('%', 16, Bin, digits, rest);
  }

  /** "0" followed by 1-6 octal digits reads as octal. */
  lemma {:induction false} GetNumberOctal(symbols: map<string, Option<int>>, digits: string, rest: string)
    requires 1 <= |digits| <= 6 && AllIn(digits, Oct)
    requires |digits| == 6 || rest == [] || !In(rest[0], Oct)
    ensures GetNumber(symbols, "0" + digits + rest) == Success(Some(Value(digits, 8)))
  {
    var arg := "0" + digits + rest;
    assert arg[0] == '0' && PrefixNumber(arg, '$', 4, Hex).None? && PrefixNumber(arg, '%', 16, Bin).None?;
    PrefixOf('0', 6, Oct, digits, rest);
  }

  /** Up to five decimal digits read as decimal, unless a '0' followed by
      an octal digit lets the octal pattern claim the prefix first. */
  lemma {:induction false} GetNumberDecimal(symbols: map<string, Option<int>>, digits: string, rest: string)
    requires 1 <= |digits| <= 5 && AllIn(digits, Dec)
    requires digits[0] == '0' && |digits| >= 2 ==> !In(digits[1], Oct)
    requires |digits| == 5 || rest == [] || !In(rest[0], Dec)
    ensures GetNumber(symbols, digits + rest) == Success(Some(Value(digits, 10)))
  {
    var arg := digits + rest;
    assert arg[0] == digits[0];
    assert Dashes(arg) == 0;
    SpanIs(arg, 0, 5, Dec, |digits|);
    if digits[0] == '0' {
      SpanIs(arg, 1, 6, Oct, 0);
    }
    assert arg[..|digits|] == digits;
  }

  /** One '-' before up to five decimal digits negates their value. */
  lemma {:induction false} GetNumberNegative(symbols: map<string, Option<int>>, digits: string, rest: string)
    requires 1 <= |digits| <= 5 && AllIn(digits, Dec)
    requires |digits| == 5 || rest == [] || !In(rest[0], Dec)
    ensures GetNumber(symbols, "-" + digits + rest) == Success(Some(-(Value(digits, 10) as int)))
  {
    var arg := "-" + digits + rest;
    NegativePrefix(digits, rest);
    assert arg[0] == '-';
    assert PrefixNumber(arg, '$', 4, Hex) == None;
    assert PrefixNumber(arg, '%', 16, Bin) == None;
    assert PrefixNumber(arg, '0', 6, Oct) == None;
  }

  lemma {:induction false} NegativePrefix(digits: string, rest: string)
    requires 1 <= |digits| <= 5 && AllIn(digits, Dec)
    requires |digits| == 5 || rest == [] || !In(rest[0], Dec)
    ensures DecimalPrefix("-" + digits + rest) == Some(Success(-(Value(digits, 10) as int)))
  {
    var arg := "-" + digits + rest;
    assert arg[1..] == digits + rest;
    assert Dashes(arg[1..]) == 0;
    assert Dashes(arg) == 1;
    SpanIs(arg, 1, 5, Dec, |digits|);
    var v := arg[..1 + |digits|];
    assert v == "-" + digits;
    assert v[1..] == digits;
    assert Dashes(v) == 1 by {
      assert Dashes(v[1..]) == 0;
    }
    assert v[Dashes(v)..] == digits;
    var n: int := Value(digits, 10);
    assert DecimalGroup(v) == Success(-n);
    assert DecimalPrefix(arg) == Some(DecimalGroup(v));
  }

  /** Two or more leading dashes before the digits raise ValueError. */
  lemma {:induction false} GetNumberDoubleDash(symbols: map<string, Option<int>>, digits: string)
    requires 1 <= |digits| <= 5 && AllIn(digits, Dec)
    ensures GetNumber(symbols, "--" + digits) == Failure(ValueError)
  {
    var arg := "--" + digits;
    assert arg[1..][1..] == digits;
    assert Dashes(arg[1..][1..]) == 0;
    assert Dashes(arg) == 2;
    SpanIs(arg, 2, 5, Dec, |digits|);
    assert arg[..2 + |digits|] == arg;
  }

  /** An argument that starts with none of '$', '%', '-' or a digit is a
      symbol: its value, or None when it is undefined. */
  lemma {:induction false} GetNumberSymbol(symbols: map<string, Option<int>>, arg: string)
    requires arg != [] && arg[0] !in "$%-" && !IsDecDigit(arg[0])
    ensures GetNumber(symbols, arg) == Success(Lookup(symbols, arg))
  {
    assert Dashes(arg) == 0;
  }

  /** `getNumber` raises only ValueError, and only for two or more leading
      dashes; a negative value comes from a leading '-' or from the symbol
      table. */
  lemma {:induction false} GetNumberErrors(symbols: map<string, Option<int>>, arg: string)
    ensures var r := GetNumber(symbols, arg);
            && (r.Failure? ==> r.error == ValueError && |arg| >= 2 && arg[0] == '-' && arg[1] == '-')
            && (r.Success? && r.value.Some? && r.value.value < 0 ==> (arg != [] && arg[0] == '-') || arg in symbols)
  {
    if PrefixNumber(arg, '$', 4, Hex).None? && PrefixNumber(arg, '%', 16, Bin).None?
       && PrefixNumber(arg, '0', 6, Oct).None? && DecimalPrefix(arg).Some?
    {
      DecimalPrefixCases(arg);
    }
  }

  /** The decimal group fails only after two or more dashes, and is
      negative only after exactly one. */
  lemma {:induction false} DecimalPrefixCases(arg: string)
    requires DecimalPrefix(arg).Some?
    ensures var r := DecimalPrefix(arg).value;
            && (r.Failure? ==> r.error == ValueError && Dashes(arg) >= 2)
            && (r.Success? && r.value < 0 ==> Dashes(arg) == 1)
  {
  }

  // Python's str(n) and int(s), used for the text of an ".ORG" marker

  function DigitChar(d: nat): (c: char)
    requires d < 10
    ensures IsDecDigit(c) && IsHexDigit(c) && DigitValue(c) == d
  {
    ('0' as int + d) as char
  }

  /** Python's `str(n)` for n >= 0. */
  function ShowNat(n: nat): (s: string)
    ensures s != [] && AllIn(s, Dec)
  {
    if n < 10 then [DigitChar(n)] else ShowNat(n / 10) + [DigitChar(n % 10)]
  }

  /** Python's `str(n)`. */
  function ShowInt(n: int): (s: string)
    ensures s != []
  {
    if n < 0 then "-" + ShowNat(-n) else ShowNat(n)
  }

  /** Python's `int(s)` on text: an optional sign and decimal digits. */
  function ParseInt(s: string): Result<int>
  {
    var sign := if s != [] && s[0] in "+-" then 1 else 0;
    var digits := s[sign..];
    if digits != [] && AllIn(digits, Dec) then
      Success(if sign == 1 && s[0] == '-' then -(Value(digits, 10) as int) else Value(digits, 10))
    else Failure(ValueError)
  }

  /** Python's `int(x)` on an output item: ints pass, text is parsed, None
      raises TypeError. */
  function IntOfItem(x: Item): Result<int>
  {
    match x
    case Num(n) => Success(n)
    case Str(s) => ParseInt(s)
    case NoneItem => Failure(TypeError)
  }

  /** `int(s)` raises only ValueError; a negative result needs a leading
      '-'; plain digits are read in base 10. */
  lemma {:induction false} ParseIntCases(s: string)
    ensures var r := ParseInt(s);
            && (r.Failure? ==> r.error == ValueError)
            && (r.Success? ==> s != [] && (r.value < 0 ==> s[0] == '-'))
            && (s != [] && AllIn(s, Dec) ==> r == Success(Value(s, 10)))
  {
    if s != [] && AllIn(s, Dec) {
      assert s[0] !in "+-" && s[0..] == s;
    }
  }

  /** `int(x)` on an item: a number is kept, None raises TypeError and text
      that is not a number ValueError. */
  lemma {:induction false} IntOfItemCases(x: Item)
    ensures var r := IntOfItem(x);
            && (x.Num? ==> r == Success(x.n))
            && (r.Failure? ==> (r.error == TypeError <==> x.NoneItem?))
            && (r.Failure? && x.Str? ==> r.error == ValueError)
  {
    if x.Str? {
      ParseIntCases(x.s);
    }
  }

  /** Reading back the decimal text of a natural number gives the number. */
  lemma {:induction false} ValueOfShowNat(n: nat)
    ensures Value(ShowNat(n), 10) == n
  {
    if n >= 10 {
      ValueOfShowNat(n / 10);
      var s := ShowNat(n);
      assert s[..|s| - 1] == ShowNat(n / 10);
    }
  }

  /** `int(str(n)) == n`: the ".ORG" target survives its round trip through text. */
  lemma {:induction false} ParseShowInt(n: int)
    ensures ParseInt(ShowInt(n)) == Success(n)
  {
    if n < 0 {
      ValueOfShowNat(-n);
      assert ShowInt(n)[1..] == ShowNat(-n);
    } else {
      ValueOfShowNat(n);
      assert ShowNat(n)[0] !in "+-";
      assert ShowInt(n)[0..] == ShowNat(n);
    }
  }
}
