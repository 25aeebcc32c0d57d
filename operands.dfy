/** Operand classification as `getArgument` does it
    (py65asm/assembler.py:21-49, 234-263): an operand token is matched
    against seven whole-token patterns, in the order immediate, zero page,
    zero page X, zero page Y, indexed indirect, indirect indexed, indirect;
    inside each pattern the numeric literal is the first of hex, binary,
    octal, decimal and name that spans the whole operand body. */
module Operands {
  import opened Base
  import opened Numbers

  /** The opcode table's addressing-mode keys: 'im', 'z', 'zx', 'zy', 'ix',
      'iy', 'i', 'a', 'ax', 'ay'. */
  datatype Mode = Im | Z | Zx | Zy | Ix | Iy | I | A | Ax | Ay

  /** The zero-page modes: those whose name starts with 'z'. */
  predicate IsZeroPage(t: Mode) { t == Z || t == Zx || t == Zy }

  /** The modes with a two-byte operand. */
  predicate IsWide(t: Mode) { t == A || t == Ax || t == Ay || t == I }

  /** `t.replace("z", "a")`: a zero-page mode becomes its absolute mode. */
  function Absolute(t: Mode): (r: Mode)
    ensures !IsZeroPage(r)
    ensures !IsZeroPage(t) ==> r == t
    ensures IsZeroPage(t) ==> IsWide(r) && r != I
    ensures t == Z ==> r == A
    ensures t == Zx ==> r == Ax
    ensures t == Zy ==> r == Ay
  {
    match t
    case Z => A
    case Zx => Ax
    case Zy => Ay
    case _ => t
  }

  /** The five alternatives of a numeric literal, with the text of the
      group that matched (the digits without their '$', '%' or '0' lead). */
  datatype Literal =
    | HexLit(text: string)
    | BinLit(text: string)
    | OctLit(text: string)
    | DecLit(text: string)
    | NameLit(text: string)

  predicate AllWord(s: string)
  {
    forall k :: 0 <= k < |s| ==> IsWordChar(s[k])
  }

  /** Whole-body match of `-*\d{1,5}`. */
  predicate IsDecimalText(b: string)
  {
    var k := Dashes(b);
    1 <= |b| - k <= 5 && AllIn(b[k..], Dec)
  }

  /** The shape each alternative's group has. */
  predicate ValidLiteral(lit: Literal)
  {
    match lit
    case HexLit(v) => 1 <= |v| <= 4 && AllIn(v, Hex)
    case BinLit(v) => 1 <= |v| <= 16 && AllIn(v, Bin)
    case OctLit(v) => 1 <= |v| <= 6 && AllIn(v, Oct)
    case DecLit(v) => IsDecimalText(v)
    case NameLit(v) => |v| >= 1 && AllWord(v)
  }

  /** The first literal alternative that matches all of `b`, if any. */
  function ClassifyBody(b: string): (r: Option<Literal>)
    ensures r.Some? ==> ValidLiteral(r.value)
  {
    if 2 <= |b| <= 5 && b[0] == '$' && AllIn(b[1..], Hex) then Some(HexLit(b[1..]))
    else if 2 <= |b| <= 17 && b[0] == '%' && AllIn(b[1..], Bin) then Some(BinLit(b[1..]))
    else if 2 <= |b| <= 7 && b[0] == '0' && AllIn(b[1..], Oct) then Some(OctLit(b[1..]))
    else if IsDecimalText(b) then Some(DecLit(b))
    else if |b| >= 1 && AllWord(b) then Some(NameLit(b))
    else None
  }

  /** '$' followed by the body: hex when the rest is one to four hex
      digits, and nothing otherwise. */
  lemma {:induction false} ClassifyHex(h: string)
    ensures ClassifyBody("$" + h) == if 1 <= |h| <= 4 && AllIn(h, Hex) then Some(HexLit(h)) else None
  {
    var b := "$" + h;
    assert b[0] == '$' && b[1..] == h;
    assert !IsWordChar(b[0]);
    assert Dashes(b) == 0;
  }

  /** '%' followed by the body: binary when the rest is one to sixteen
      binary digits, and nothing otherwise. */
  lemma {:induction false} ClassifyBinary(d: string)
    ensures ClassifyBody("%" + d) == if 1 <= |d| <= 16 && AllIn(d, Bin) then Some(BinLit(d)) else None
  {
    var b := "%" + d;
    assert b[0] == '%' && b[1..] == d;
    assert !IsWordChar(b[0]);
    assert Dashes(b) == 0;
  }

  /** '0' followed by one to six octal digits is octal: the octal
      alternative comes before the decimal one. */
  lemma {:induction false} ClassifyOctal(o: string)
    requires 1 <= |o| <= 6 && AllIn(o, Oct)
    ensures ClassifyBody("0" + o) == Some(OctLit(o))
  {
    var b := "0" + o;
    assert b[0] == '0' && b[1..] == o;
  }

  /** Decimal text that the octal alternative does not claim is decimal. */
  lemma {:induction false} ClassifyDecimal(d: string)
    requires IsDecimalText(d)
    requires d[0] == '0' && |d| >= 2 ==> !AllIn(d[1..], Oct)
    ensures ClassifyBody(d) == Some(DecLit(d))
  {
    var k := Dashes(d);
    assert d[0] == d[k..][0] || d[0] == '-';
  }

  /** A word that is neither octal nor decimal text is a name. */
  lemma {:induction false} ClassifyName(w: string)
    requires |w| >= 1 && AllWord(w) && !IsDecimalText(w)
    requires !(2 <= |w| <= 7 && w[0] == '0' && AllIn(w[1..], Oct))
    ensures ClassifyBody(w) == Some(NameLit(w))
  {
    assert IsWordChar(w[0]);
  }

  /** A body with a character no literal contains is not a literal. */
  lemma {:induction false} ClassifyNone(b: string, k: nat)
    requires k < |b| && !LiteralChar(b[k])
    ensures ClassifyBody(b).None?
  {
    if ClassifyBody(b).Some? {
      LiteralChars(b);
      assert false;
    }
  }

  /** The characters a literal can contain. */
  predicate LiteralChar(c: char) { c == '$' || c == '%' || c == '-' || IsWordChar(c) }

  /** The operand body that pattern `t` leaves between its fixed prefix
      and suffix, or None when the token lacks them. */
  function Body(arg: string, t: Mode): Option<string>
  {
    var n := |arg|;
    match t
    case Im => if n >= 1 && arg[0] == '#' then Some(arg[1..]) else None
    case Z => Some(arg)
    case Zx => if n >= 2 && arg[n - 2] == ',' && arg[n - 1] in "xX" then Some(arg[..n - 2]) else None
    case Zy => if n >= 2 && arg[n - 2] == ',' && arg[n - 1] in "yY" then Some(arg[..n - 2]) else None
    case Ix =>
      if n >= 4 && arg[0] == '(' && arg[n - 3] == ',' && arg[n - 2] in "xX" && arg[n - 1] == ')'
      then Some(arg[1..n - 3]) else None
    case Iy =>
      if n >= 4 && arg[0] == '(' && arg[n - 3] == ')' && arg[n - 2] == ',' && arg[n - 1] in "yY"
      then Some(arg[1..n - 3]) else None
    case I => if n >= 2 && arg[0] == '(' && arg[n - 1] == ')' then Some(arg[1..n - 1]) else None
    case _ => None
  }

  /** The literal that pattern `t` finds in `arg`, if the pattern matches. */
  function Try(arg: string, t: Mode): (r: Option<Literal>)
    ensures r.Some? ==> ValidLiteral(r.value)
  {
    var b := Body(arg, t);
    if b.Some? then ClassifyBody(b.value) else None
  }

  /** The first of the patterns, in the order of `arg_regex`, that matches
      all of `arg`: immediate, zero page, zero page X, zero page Y, indexed
      indirect, indirect indexed, indirect. */
  function Match(arg: string): (r: Option<(Mode, Literal)>)
    ensures r.Some? ==> Try(arg, r.value.0) == Some(r.value.1) && ValidLiteral(r.value.1)
  {
    if Try(arg, Im).Some? then Some((Im, Try(arg, Im).value))
    else if Try(arg, Z).Some? then Some((Z, Try(arg, Z).value))
    else if Try(arg, Zx).Some? then Some((Zx, Try(arg, Zx).value))
    else if Try(arg, Zy).Some? then Some((Zy, Try(arg, Zy).value))
    else if Try(arg, Ix).Some? then Some((Ix, Try(arg, Ix).value))
    else if Try(arg, Iy).Some? then Some((Iy, Try(arg, Iy).value))
    else if Try(arg, I).Some? then Some((I, Try(arg, I).value))
    else None
  }

  /** The value a literal denotes: `int(group, base)`, or the symbol's value. */
  function LiteralValue(symbols: map<string, Option<int>>, lit: Literal): Result<Option<int>>
    requires ValidLiteral(lit)
  {
    match lit
    case HexLit(v) => Success(Some(Value(v, 16)))
    case BinLit(v) => Success(Some(Value(v, 2)))
    case OctLit(v) => Success(Some(Value(v, 8)))
    case DecLit(v) => (var n :- DecimalGroup(v); Success(Some(n)))
    case NameLit(v) => Success(Lookup(symbols, v))
  }

  /** Only a decimal literal with two or more dashes fails, with
      ValueError; only a name can be without a value; a negative value
      comes from a name or from one leading '-'. */
  lemma {:induction false} LiteralValueCases(symbols: map<string, Option<int>>, lit: Literal)
    requires ValidLiteral(lit)
    ensures var r := LiteralValue(symbols, lit);
            && (r.Failure? <==> lit.DecLit? && Dashes(lit.text) >= 2)
            && (r.Failure? ==> r.error == ValueError)
            && (!lit.NameLit? && r.Success? ==> r.value.Some?)
            && (r.Success? && r.value.Some? && r.value.value < 0 ==>
                  lit.NameLit? || (lit.DecLit? && Dashes(lit.text) == 1))
  {
  }

  /** A decimal literal has the value `int()` gives its text. */
  lemma {:induction false} DecimalLiteralIsInt(symbols: map<string, Option<int>>, v: string)
    requires IsDecimalText(v)
    ensures var r := LiteralValue(symbols, DecLit(v));
            && (r.Success? <==> ParseInt(v).Success?)
            && (r.Success? ==> r.value == Some(ParseInt(v).value))
  {
    DecimalGroupIsInt(v);
  }

  /** The second component of `getArgument`'s result: an int, None for an
      undefined symbol, or the string 'A' of the accumulator shorthand. */
  datatype ArgValue = Resolved(n: int) | Unresolved | Accumulator

  datatype Arg = Arg(mode: Mode, value: ArgValue)

  /** Whether a zero-page operand is promoted to absolute: its value is
      non-zero and exceeds 0xFF or is written with exactly four characters. */
  predicate Promotes(t: Mode, n: Option<int>, text: string)
  {
    IsZeroPage(t) && n.Some? && n.value != 0 && (n.value > 0xff || |text| == 4)
  }

  /** `getArgument`. */
  function GetArgument(symbols: map<string, Option<int>>, arg: string): (r: Result<Arg>)
    ensures |arg| > 0 && arg[0] == 'A' ==> r == Success(Arg(Im, Accumulator))
    ensures r.Success? && r.value.value.Accumulator? ==> |arg| > 0 && arg[0] == 'A' && r.value.mode == Im
    ensures r.Success? && r.value.value.Resolved? ==> r.value.value.n >= 0
    ensures (|arg| == 0 || arg[0] != 'A') && Match(arg).None? ==> r == Failure(UnboundLocalError)
    ensures r.Failure? ==> r.error == UnboundLocalError || r.error == ValueError
  {
    if |arg| > 0 && arg[0] == 'A' then Success(Arg(Im, Accumulator))
    else match Match(arg)
      case None => Failure(UnboundLocalError)
      case Some((t, lit)) =>
        var n :- LiteralValue(symbols, lit);
        var mode := if Promotes(t, n, lit.text) then Absolute(t) else t;
        var value := if n.None? then Unresolved
                     else if n.value < 0 then Resolved(LowByte(n.value))
                     else Resolved(n.value);
        Success(Arg(mode, value))
  }

  // Properties

  /** Every character of a literal is a literal character; in particular a
      literal holds none of '#', '(', ')' and ','. */
  lemma {:induction false} LiteralChars(b: string)
    requires ClassifyBody(b).Some?
    ensures forall k :: 0 <= k < |b| ==> LiteralChar(b[k])
  {
    if !(2 <= |b| <= 5 && b[0] == '$' && AllIn(b[1..], Hex))
       && !(2 <= |b| <= 17 && b[0] == '%' && AllIn(b[1..], Bin))
       && !(2 <= |b| <= 7 && b[0] == '0' && AllIn(b[1..], Oct))
       && IsDecimalText(b)
    {
      var k := Dashes(b);
      forall m | 0 <= m < |b| ensures LiteralChar(b[m]) {
        if m >= k {
          assert b[m] == b[k..][m - k];
        }
      }
    } else {
      forall m | 0 <= m < |b| ensures LiteralChar(b[m]) {
        if m >= 1 && b[0] in "$%0" && !AllWord(b) {
          assert b[m] == b[1..][m - 1];
        }
      }
    }
  }

  /** A token holding one of '#', '(', ')', ',' at some position is not a literal. */
  lemma {:induction false} NotLiteral(s: string, k: nat)
    requires k < |s| && s[k] in "#(),"
    ensures ClassifyBody(s).None?
  {
    if ClassifyBody(s).Some? {
      LiteralChars(s);
      assert false;
    }
  }

  /** `#v` is immediate. */
  lemma {:induction false} ImmediateSyntax(b: string)
    requires ClassifyBody(b).Some?
    ensures Match("#" + b) == Some((Im, ClassifyBody(b).value))
  {
    assert ("#" + b)[1..] == b;
  }

  /** A bare `v` is zero page (before promotion). */
  lemma {:induction false} ZeroPageSyntax(b: string)
    requires ClassifyBody(b).Some?
    ensures Match(b) == Some((Z, ClassifyBody(b).value))
  {
    LiteralChars(b);
    assert LiteralChar(b[0]);
  }

  /** `v,X` is zero page X (before promotion). */
  lemma {:induction false} ZeroPageXSyntax(b: string, x: char)
    requires ClassifyBody(b).Some? && x in "xX"
    ensures Match(b + [',', x]) == Some((Zx, ClassifyBody(b).value))
  {
    var arg := b + [',', x];
    LiteralChars(b);
    assert arg[0] == b[0] && LiteralChar(b[0]);
    NotLiteral(arg, |b|);
    assert arg[..|arg| - 2] == b;
  }

  /** `v,Y` is zero page Y (before promotion). */
  lemma {:induction false} ZeroPageYSyntax(b: string, y: char)
    requires ClassifyBody(b).Some? && y in "yY"
    ensures Match(b + [',', y]) == Some((Zy, ClassifyBody(b).value))
  {
    var arg := b + [',', y];
    LiteralChars(b);
    assert arg[0] == b[0] && LiteralChar(b[0]);
    NotLiteral(arg, |b|);
    assert arg[..|arg| - 2] == b;
  }

  /** `(v,X)` is indexed indirect. */
  lemma {:induction false} IndexedIndirectSyntax(b: string, x: char)
    requires ClassifyBody(b).Some? && x in "xX"
    ensures Match("(" + b + [',', x, ')']) == Some((Ix, ClassifyBody(b).value))
  {
    var arg := "(" + b + [',', x, ')'];
    assert Try(arg, Im).None? && Try(arg, Z).None? && Try(arg, Zx).None? && Try(arg, Zy).None? by {
      assert arg[0] == '(' && arg[|arg| - 1] == ')';
      NotLiteral(arg, 0);
    }
    assert Try(arg, Ix) == ClassifyBody(b) by { assert arg[1..|arg| - 3] == b; }
    MatchIndexedIndirect(arg);
  }

  /** `(v),Y` is indirect indexed. */
  lemma {:induction false} IndirectIndexedSyntax(b: string, y: char)
    requires ClassifyBody(b).Some? && y in "yY"
    ensures Match("(" + b + [')', ',', y]) == Some((Iy, ClassifyBody(b).value))
  {
    var arg := "(" + b + [')', ',', y];
    NotEarlierIndexed(b, y);
    assert Try(arg, Iy) == ClassifyBody(b) by { assert arg[1..|arg| - 3] == b; }
    MatchIndirectIndexed(arg);
  }

  lemma {:induction false} NotEarlierIndexed(b: string, y: char)
    requires ClassifyBody(b).Some? && y in "yY"
    ensures var arg := "(" + b + [')', ',', y];
            && Try(arg, Im).None? && Try(arg, Z).None? && Try(arg, Zx).None?
            && Try(arg, Zy).None? && Try(arg, Ix).None?
  {
    var arg := "(" + b + [')', ',', y];
    var n := |arg|;
    assert arg[0] == '(' && arg[n - 1] == y && arg[n - 2] == ',' && arg[n - 3] == ')';
    assert Try(arg, Z).None? by { NotLiteral(arg, 0); }
    assert Try(arg, Zy).None? by {
      assert arg[..n - 2][0] == '(';
      NotLiteral(arg[..n - 2], 0);
    }
  }

  /** `(v)` is indirect. */
  lemma {:induction false} IndirectSyntax(b: string)
    requires ClassifyBody(b).Some?
    ensures Match("(" + b + ")") == Some((I, ClassifyBody(b).value))
  {
    var arg := "(" + b + ")";
    NotEarlier(b);
    NotIndexed(b);
    assert Try(arg, I) == ClassifyBody(b) by { assert arg[1..|arg| - 1] == b; }
    MatchIndirect(arg);
  }

  lemma {:induction false} NotEarlier(b: string)
    requires ClassifyBody(b).Some?
    ensures var arg := "(" + b + ")";
            Try(arg, Im).None? && Try(arg, Z).None? && Try(arg, Zx).None? && Try(arg, Zy).None?
  {
    var arg := "(" + b + ")";
    assert arg[0] == '(' && arg[|arg| - 1] == ')';
    NotLiteral(arg, 0);
  }

  lemma {:induction false} NotIndexed(b: string)
    requires ClassifyBody(b).Some?
    ensures var arg := "(" + b + ")";
            Try(arg, Ix).None? && Try(arg, Iy).None?
  {
    var arg := "(" + b + ")";
    var n := |arg|;
    assert arg[n - 1] == ')';
    if n >= 4 {
      LiteralChars(b);
      assert arg[n - 3] == b[|b| - 2] && LiteralChar(b[|b| - 2]);
    }
  }

  /** The last three alternatives, when every earlier one fails. */
  lemma {:induction false} MatchIndexedIndirect(arg: string)
    requires Try(arg, Im).None? && Try(arg, Z).None? && Try(arg, Zx).None?
    requires Try(arg, Zy).None? && Try(arg, Ix).Some?
    ensures Match(arg) == Some((Ix, Try(arg, Ix).value))
  {
  }

  lemma {:induction false} MatchIndirectIndexed(arg: string)
    requires Try(arg, Im).None? && Try(arg, Z).None? && Try(arg, Zx).None?
    requires Try(arg, Zy).None? && Try(arg, Ix).None? && Try(arg, Iy).Some?
    ensures Match(arg) == Some((Iy, Try(arg, Iy).value))
  {
  }

  lemma {:induction false} MatchIndirect(arg: string)
    requires Try(arg, Im).None? && Try(arg, Z).None? && Try(arg, Zx).None?
    requires Try(arg, Zy).None? && Try(arg, Ix).None? && Try(arg, Iy).None? && Try(arg, I).Some?
    ensures Match(arg) == Some((I, Try(arg, I).value))
  {
  }

  /** The promotion rule: a zero-page mode becomes absolute exactly when
      the value is non-zero and either exceeds 0xFF or its text has four
      characters; the other modes are never promoted; a negative value is
      reduced to its low byte. */
  lemma {:induction false} PromotionRule(symbols: map<string, Option<int>>, arg: string, n: int)
    requires |arg| == 0 || arg[0] != 'A'
    requires Match(arg).Some?
    requires LiteralValue(symbols, Match(arg).value.1) == Success(Some(n))
    ensures var t := Match(arg).value.0;
            var text := Match(arg).value.1.text;
            var r := GetArgument(symbols, arg);
            && r.Success?
            && (IsZeroPage(t) ==> (r.value.mode == Absolute(t) <==> n != 0 && (n > 0xff || |text| == 4)))
            && (IsZeroPage(t) ==> (r.value.mode == t <==> !(n != 0 && (n > 0xff || |text| == 4))))
            && (!IsZeroPage(t) ==> r.value.mode == t)
            && r.value.value == Resolved(if n < 0 then n % 256 else n)
  {
  }

  /** The base each literal is read in: hex 16, binary 2, octal 8,
      decimal 10 (one leading '-' negates, and the low byte is kept; two
      raise ValueError). */
  lemma {:induction false} LiteralBase(symbols: map<string, Option<int>>, arg: string)
    requires |arg| == 0 || arg[0] != 'A'
    requires Match(arg).Some?
    ensures var lit := Match(arg).value.1;
            var r := GetArgument(symbols, arg);
            && (lit.HexLit? ==> r.Success? && r.value.value == Resolved(Value(lit.text, 16)))
            && (lit.BinLit? ==> r.Success? && r.value.value == Resolved(Value(lit.text, 2)))
            && (lit.OctLit? ==> r.Success? && r.value.value == Resolved(Value(lit.text, 8)))
            && (lit.DecLit? && Dashes(lit.text) == 0 ==>
                  r.Success? && r.value.value == Resolved(Value(lit.text, 10)))
            && (lit.DecLit? && Dashes(lit.text) == 1 ==>
                  r.Success? && r.value.value == Resolved(LowByte(-(Value(lit.text[1..], 10) as int))))
            && (lit.DecLit? && Dashes(lit.text) >= 2 ==> r == Failure(ValueError))
  {
    var lit := Match(arg).value.1;
    if lit.DecLit? && Dashes(lit.text) == 1 {
      var n: int := Value(lit.text[1..], 10);
      if n == 0 {
        assert LowByte(-n) == 0;
      }
    }
  }

  /** An undefined symbol gives the pattern's own mode and no value. */
  lemma {:induction false} UndefinedSymbol(symbols: map<string, Option<int>>, arg: string)
    requires |arg| == 0 || arg[0] != 'A'
    requires Match(arg).Some? && Match(arg).value.1.NameLit?
    requires Lookup(symbols, Match(arg).value.1.text).None?
    ensures GetArgument(symbols, arg) == Success(Arg(Match(arg).value.0, Unresolved))
  {
  }

  /** A bare name starting with a letter other than 'A' is a symbol: zero
      page with no value while undefined, and once defined its value,
      promoted to absolute when it is non-zero and either exceeds 0xFF or
      the name is four characters long. */
  lemma {:induction false} NameOperand(symbols: map<string, Option<int>>, name: string)
    requires name != [] && AllWord(name) && name[0] != 'A'
    requires 'a' <= name[0] <= 'z' || 'A' <= name[0] <= 'Z'
    ensures Lookup(symbols, name).None? ==> GetArgument(symbols, name) == Success(Arg(Z, Unresolved))
    ensures Lookup(symbols, name).Some? ==>
              var n := Lookup(symbols, name).value;
              GetArgument(symbols, name)
              == Success(Arg(if n != 0 && (n > 0xff || |name| == 4) then A else Z,
                             Resolved(if n < 0 then n % 256 else n)))
  {
    assert !IsDecimalText(name) by {
      assert Dashes(name) == 0;
      assert !In(name[0], Dec);
    }
    assert ClassifyBody(name) == Some(NameLit(name));
    ZeroPageSyntax(name);
    if Lookup(symbols, name).None? {
      UndefinedSymbol(symbols, name);
    } else {
      PromotionRule(symbols, name, Lookup(symbols, name).value);
    }
  }
}
