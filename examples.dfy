/** Worked examples: operands, single lines and a whole program with a
    forward reference, evaluated on a small opcode table holding the three
    mnemonics they use (the byte values of the 6502's LDA, JMP and DEX). */
module Examples {
  import opened Base
  import opened Numbers
  import opened Operands
  import opened Encoder
  import opened Resolver
  import opened Driver

  const Ops: OpTable := map[
    "LDA" := map[Im := 0xA9, Z := 0xA5, A := 0xAD],
    "JMP" := map[A := 0x4C, I := 0x6C],
    "DEX" := map[Im := 0xCA]]

  /** A four-digit hex operand is absolute even when its value fits a byte. */
  lemma {:induction false} FourDigitsAreAbsolute()
    ensures GetArgument(map[], "$00FF") == Success(Arg(A, Resolved(255)))
  {
    var arg := "$00FF";
    assert arg[1..] == "00FF";
    assert ClassifyBody(arg) == Some(HexLit("00FF"));
    ZeroPageSyntax(arg);
    assert Value("00FF", 16) == 255 by {
      assert "00FF"[..3] == "00F" && "00F"[..2] == "00" && "00"[..1] == "0" && "0"[..0] == "";
    }
  }

  /** Two hex digits are zero page. */
  lemma {:induction false} TwoDigitsAreZeroPage()
    ensures GetArgument(map[], "$FF") == Success(Arg(Z, Resolved(255)))
  {
    var arg := "$FF";
    assert arg[1..] == "FF";
    assert ClassifyBody(arg) == Some(HexLit("FF"));
    ZeroPageSyntax(arg);
    assert Value("FF", 16) == 255 by {
      assert "FF"[..1] == "F" && "F"[..0] == "";
    }
  }

  // The values of the digit strings the operand examples use.

  lemma {:induction false} Binary10()
    ensures Value("1010", 2) == 10
  {
    assert Value("1", 2) == 1 by { assert "1"[..0] == ""; }
    assert Value("10", 2) == 2 by { assert "10"[..1] == "1"; }
    assert Value("101", 2) == 5 by { assert "101"[..2] == "10"; }
    assert Value("1010", 2) == 10 by { assert "1010"[..3] == "101"; }
  }

  lemma {:induction false} Binary171()
    ensures Value("10101011", 2) == 171
  {
    Binary10();
    assert Value("10101", 2) == 21 by { assert "10101"[..4] == "1010"; }
    assert Value("101010", 2) == 42 by { assert "101010"[..5] == "10101"; }
    assert Value("1010101", 2) == 85 by { assert "1010101"[..6] == "101010"; }
    assert Value("10101011", 2) == 171 by { assert "10101011"[..7] == "1010101"; }
  }

  lemma {:induction false} Octal8()
    ensures Value("10", 8) == 8
  {
    assert Value("1", 8) == 1 by { assert "1"[..0] == ""; }
    assert Value("10", 8) == 8 by { assert "10"[..1] == "1"; }
  }

  lemma {:induction false} Decimal123()
    ensures Value("123", 10) == 123
  {
    assert Value("1", 10) == 1 by { assert "1"[..0] == ""; }
    assert Value("12", 10) == 12 by { assert "12"[..1] == "1"; }
    assert Value("123", 10) == 123 by { assert "123"[..2] == "12"; }
  }

  lemma {:induction false} Octal584()
    ensures Value("1110", 8) == 584
  {
    assert Value("1", 8) == 1 by { assert "1"[..0] == ""; }
    assert Value("11", 8) == 9 by { assert "11"[..1] == "1"; }
    assert Value("111", 8) == 73 by { assert "111"[..2] == "11"; }
    assert Value("1110", 8) == 584 by { assert "1110"[..3] == "111"; }
  }

  lemma {:induction false} Decimal1234()
    ensures Value("1234", 10) == 1234
  {
    assert Value("1", 10) == 1 by { assert "1"[..0] == ""; }
    assert Value("12", 10) == 12 by { assert "12"[..1] == "1"; }
    assert Value("123", 10) == 123 by { assert "123"[..2] == "12"; }
    assert Value("1234", 10) == 1234 by { assert "1234"[..3] == "123"; }
  }

  /** A binary operand: "%10101011" is zero page 171. */
  lemma {:induction false} BinaryOperand()
    ensures GetArgument(map[], "%10101011") == Success(Arg(Z, Resolved(171)))
  {
    var d := "10101011";
    assert "%10101011" == "%" + d;
    ClassifyBinary(d);
    ZeroPageSyntax("%" + d);
    Binary171();
  }

  /** An octal operand: "010" is zero page 8. */
  lemma {:induction false} OctalOperand()
    ensures GetArgument(map[], "010") == Success(Arg(Z, Resolved(8)))
  {
    var o := "10";
    assert "010" == "0" + o;
    ClassifyOctal(o);
    ZeroPageSyntax("0" + o);
    Octal8();
  }

  /** A decimal operand: "123" is zero page 123. */
  lemma {:induction false} DecimalOperand()
    ensures GetArgument(map[], "123") == Success(Arg(Z, Resolved(123)))
  {
    var d := "123";
    ClassifyDecimal(d);
    ZeroPageSyntax(d);
    DecimalLiteralIsInt(map[], d);
    ParseIntCases(d);
    Decimal123();
  }

  /** Four octal digits: "01110" is absolute 584. */
  lemma {:induction false} OctalAbsolute()
    ensures GetArgument(map[], "01110") == Success(Arg(A, Resolved(584)))
  {
    var o := "1110";
    assert "01110" == "0" + o;
    ClassifyOctal(o);
    ZeroPageSyntax("0" + o);
    Octal584();
  }

  /** Four decimal digits: "1234" is absolute 1234. */
  lemma {:induction false} DecimalAbsolute()
    ensures GetArgument(map[], "1234") == Success(Arg(A, Resolved(1234)))
  {
    var d := "1234";
    ClassifyDecimal(d);
    ZeroPageSyntax(d);
    DecimalLiteralIsInt(map[], d);
    ParseIntCases(d);
    Decimal1234();
  }

  /** `getNumber` matches a prefix and tries octal before decimal, so
      "0089" reads as the octal prefix "00" with the value 0, not 89. */
  lemma {:induction false} OctalClaimsLeadingZero()
    ensures GetNumber(map[], "0089") == Success(Some(0))
  {
    assert "0089" == "0" + "0" + "89";
    GetNumberOctal(map[], "0", "89");
    assert Value("0", 8) == 0 by { assert "0"[..0] == ""; }
  }

  /** A '0' followed by a digit that is not octal leaves the prefix to the
      decimal format: "08" reads as 8. */
  lemma {:induction false} DecimalLeadingZero()
    ensures GetNumber(map[], "08") == Success(Some(8))
  {
    assert "08" == "08" + "";
    GetNumberDecimal(map[], "08", "");
    assert Value("08", 10) == 8 by {
      assert "08"[..1] == "0" && "0"[..0] == "";
    }
  }

  /** "A" at the start of an operand is the accumulator, whatever follows. */
  lemma {:induction false} AccumulatorOperand()
    ensures GetArgument(map[], "A") == Success(Arg(Im, Accumulator))
    ensures GetArgument(map["ADDR" := Some(5)], "ADDR") == Success(Arg(Im, Accumulator))
  {
  }

  /** A name that is not yet defined is a zero-page operand with no value. */
  lemma {:induction false} ForwardReference()
    ensures GetArgument(map[], "label") == Success(Arg(Z, Unresolved))
  {
    var arg := "label";
    assert AllWord(arg);
    assert ClassifyBody(arg) == Some(NameLit(arg)) by {
      assert !IsDecimalText(arg) by { assert Dashes(arg) == 0; assert !In(arg[0], Dec); }
    }
    ZeroPageSyntax(arg);
    UndefinedSymbol(map[], arg);
  }

  /** `LDA #$55` is the immediate opcode and the byte. */
  lemma {:induction false} ImmediateLine(st: State)
    ensures EncodeLine(Ops, st, ["LDA", "#$55"]) == Success(st.(out := st.out + [Num(0xA9), Num(0x55)]))
  {
    var tokens := ["LDA", "#$55"];
    assert tokens[1] == "#$55" && Upper(tokens[0]) == "LDA";
    ImmediateOperand(st.symbols);
    ResolvedInstruction(Ops, st, tokens);
  }

  /** `#$55` is immediate. */
  lemma {:induction false} ImmediateOperand(symbols: map<string, Option<int>>)
    ensures GetArgument(symbols, "#$55") == Success(Arg(Im, Resolved(0x55)))
  {
    var arg := "#$55";
    assert ClassifyBody("$55") == Some(HexLit("55")) by { assert "$55"[1..] == "55"; }
    assert arg[1..] == "$55";
    ImmediateSyntax("$55");
    assert Value("55", 16) == 0x55 by {
      assert "55"[..1] == "5" && "5"[..0] == "";
    }
  }

  /** `LDA $555` does not fit zero page: the absolute opcode and the value
      little-endian. */
  lemma {:induction false} AbsoluteLine(st: State)
    ensures EncodeLine(Ops, st, ["LDA", "$555"]) == Success(st.(out := st.out + [Num(0xAD), Num(0x55), Num(0x05)]))
  {
    var tokens := ["LDA", "$555"];
    assert tokens[1] == "$555" && Upper(tokens[0]) == "LDA";
    WideOperand(st.symbols);
    ResolvedInstruction(Ops, st, tokens);
  }

  /** Three hex digits with a value above 0xFF are absolute. */
  lemma {:induction false} WideOperand(symbols: map<string, Option<int>>)
    ensures GetArgument(symbols, "$555") == Success(Arg(A, Resolved(0x555)))
  {
    var arg := "$555";
    assert arg[1..] == "555";
    assert ClassifyBody(arg) == Some(HexLit("555"));
    ZeroPageSyntax(arg);
    assert Value("555", 16) == 0x555 by {
      assert "555"[..2] == "55" && "55"[..1] == "5" && "5"[..0] == "";
    }
  }

  // A program with a forward reference

  const Program := "JMP label\nDEX\nDEX\nDEX\nlabel"

  const Lines := ["JMP label", "DEX", "DEX", "DEX", "label"]

  lemma {:induction false} ProgramLines()
    ensures Split(Program, '\n') == Lines
  {
    assert Join(Lines, '\n') == Program;
    SplitJoin(Lines, '\n');
  }

  lemma {:induction false} NoComment(l: string)
    requires ';' !in l
    ensures BeforeComment(l) == l
  {
    var r := BeforeComment(l);
    if |r| < |l| {
      assert false;
    }
  }

  /** A line holding one word gives that word. */
  lemma {:induction false} WordTokens(w: string)
    requires w != [] && forall k :: 0 <= k < |w| ==> !IsSpace(w[k])
    requires ';' !in w
    ensures LineTokens(w) == Some([w])
  {
    PlainLine(w);
    WordsAlone(w);
  }

  /** A line that starts and ends with a non-space and holds no ';' is
      split as it is. */
  lemma {:induction false} PlainLine(l: string)
    requires l != [] && !IsSpace(l[0]) && !IsSpace(l[|l| - 1]) && ';' !in l
    ensures LineTokens(l) == Some(Words(l))
  {
    assert TrimLeft(l) == l && TrimRight(l) == l;
    assert Strip(l) == l;
    assert l[0] in l;
    NoComment(l);
  }

  lemma {:induction false} SpaceWord(b: string)
    requires b != [] && forall k :: 0 <= k < |b| ==> !IsSpace(b[k])
    ensures Words([' '] + b) == [b]
  {
    var rest := [' '] + b;
    WordsSkip(rest);
    assert rest[1..] == b;
    WordsAlone(b);
  }

  /** Two words separated by one space are two tokens. */
  lemma {:induction false} TwoWords(a: string, b: string)
    requires a != [] && forall k :: 0 <= k < |a| ==> !IsSpace(a[k])
    requires b != [] && forall k :: 0 <= k < |b| ==> !IsSpace(b[k])
    ensures Words(a + ([' '] + b)) == [a] + [b]
  {
    SpaceWord(b);
    WordsOf(a, [' '] + b);
  }

  lemma {:induction false} NoSemicolon(a: string, b: string)
    requires forall k :: 0 <= k < |a| ==> a[k] != ';'
    requires forall k :: 0 <= k < |b| ==> b[k] != ';'
    ensures ';' !in a + ([' '] + b)
  {
    var l := a + ([' '] + b);
    forall k | 0 <= k < |l|
      ensures l[k] != ';'
    {
      if k < |a| {
        assert l[k] == a[k];
      } else if k > |a| {
        assert l[k] == b[k - |a| - 1];
      }
    }
  }

  /** A line of two words separated by one space, with no comment. */
  lemma {:induction false} TwoWordLine(a: string, b: string)
    requires Plain(a) && Plain(b)
    ensures LineTokens(a + ([' '] + b)) == Some([a] + [b])
  {
    var l := a + ([' '] + b);
    TwoWords(a, b);
    NoSemicolon(a, b);
    assert l[0] == a[0] && l[|l| - 1] == b[|b| - 1];
    PlainLine(l);
  }

  /** `Upper` on a word, letter by letter. */
  lemma {:induction false} UpperText(l: string, u: string)
    requires |l| == |u| && forall k :: 0 <= k < |l| ==> UpperChar(l[k]) == u[k]
    ensures Upper(l) == u
  {
  }

  /** `s` holds the characters of `t`. */
  predicate Spells(s: string, t: string)
  {
    |s| == |t| && forall k :: 0 <= k < |s| ==> s[k] == t[k]
  }

  /** A word with no whitespace and no ';'. */
  predicate Plain(w: string)
  {
    w != [] && forall k :: 0 <= k < |w| ==> !IsSpace(w[k]) && w[k] != ';'
  }

  lemma {:induction false} PlainJmp(jmp: string)
    requires Spells(jmp, "JMP")
    ensures Plain(jmp)
  {
    assert jmp[0] == 'J' && jmp[1] == 'M' && jmp[2] == 'P';
  }

  lemma {:induction false} PlainDex(dex: string)
    requires Spells(dex, "DEX")
    ensures Plain(dex)
  {
    assert dex[0] == 'D' && dex[1] == 'E' && dex[2] == 'X';
  }

  lemma {:induction false} PlainLabel(name: string)
    requires Spells(name, "label")
    ensures Plain(name) && AllWord(name) && name[0] == 'l' && name[|name| - 1] == 'l'
  {
    assert name[0] == 'l' && name[1] == 'a' && name[2] == 'b' && name[3] == 'e' && name[4] == 'l';
  }

  /** `JMP label` while `label` is undefined: the mnemonic, the operand as
      written and a blank pad for the high byte. */
  lemma {:induction false} JumpLine(st: State, jmp: string, name: string)
    requires Spells(jmp, "JMP") && Spells(name, "label") && Lookup(st.symbols, name).None?
    ensures LineStep(Ops, st, jmp + ([' '] + name)) == Success(st.(out := st.out + [Str(jmp), Str(name), Str("")]))
  {
    PlainJmp(jmp);
    PlainLabel(name);
    TwoWordLine(jmp, name);
    JumpEncode(st, jmp, name);
  }

  lemma {:induction false} JumpEncode(st: State, jmp: string, name: string)
    requires Spells(jmp, "JMP") && Spells(name, "label") && Lookup(st.symbols, name).None?
    ensures EncodeLine(Ops, st, [jmp] + [name]) == Success(st.(out := st.out + [Str(jmp), Str(name), Str("")]))
  {
    UpperText(jmp, "JMP");
    PlainLabel(name);
    NameOperand(st.symbols, name);
    var tokens := [jmp] + [name];
    assert tokens[0] == jmp && tokens[1] == name;
    UnresolvedInstruction(Ops, st, tokens);
    var r := EncodeLine(Ops, st, tokens).value;
    ThreeMore(st.out, r.out, Str(jmp), Str(name), Str(""));
  }

  lemma {:induction false} ThreeMore(a: seq<Item>, b: seq<Item>, x: Item, y: Item, z: Item)
    requires |b| == |a| + 3 && b[..|a|] == a
    requires b[|a|] == x && b[|a| + 1] == y && b[|a| + 2] == z
    ensures b == a + [x, y, z]
  {
    assert b == b[..|a|] + b[|a|..];
  }

  /** `DEX` has only an implied form. */
  lemma {:induction false} DexLine(st: State, dex: string)
    requires Spells(dex, "DEX")
    ensures LineStep(Ops, st, dex) == Success(st.(out := st.out + [Num(0xCA)]))
  {
    PlainDex(dex);
    WordTokens(dex);
    DexEncode(st, dex);
  }

  lemma {:induction false} DexEncode(st: State, dex: string)
    requires Spells(dex, "DEX")
    ensures EncodeLine(Ops, st, [dex]) == Success(st.(out := st.out + [Num(0xCA)]))
  {
    UpperText(dex, "DEX");
    ImpliedLine(Ops, st, dex);
  }

  /** A line holding only a name that is not a mnemonic is a label. */
  lemma {:induction false} NameLine(st: State, name: string)
    requires Spells(name, "label")
    ensures LineStep(Ops, st, name) == Success(st.(out := st.out + [Str("LABEL"), Str(name)]))
  {
    PlainLabel(name);
    WordTokens(name);
    NameEncode(st, name);
  }

  lemma {:induction false} NameEncode(st: State, name: string)
    requires Spells(name, "label")
    ensures EncodeLine(Ops, st, [name]) == Success(st.(out := st.out + [Str("LABEL"), Str(name)]))
  {
    PlainLabel(name);
    UpperText(name, "LABEL");
    assert StripColons(name) == name;
    LabelLine(Ops, st, [name]);
  }

  /** What the per-line pass leaves for the program: the jump still
      unresolved, three implied bytes and the label marker. */
  function Listing(jmp: string, name: string): seq<Item>
  {
    [Str(jmp), Str(name), Str(""), Num(0xCA), Num(0xCA), Num(0xCA), Str("LABEL"), Str(name)]
  }

  /** A line that succeeds, then the rest of the lines. */
  lemma {:induction false} Prepend(st: State, l: string, rest: seq<string>, st': State, final: Result<State>)
    requires LineStep(Ops, st, l) == Success(st') && EncodeLines(Ops, st', rest) == final
    ensures EncodeLines(Ops, st, [l] + rest) == final
  {
    assert ([l] + rest)[0] == l && ([l] + rest)[1..] == rest;
  }

  lemma {:induction false} FirstPass(jmp: string, dex: string, name: string)
    requires Spells(jmp, "JMP") && Spells(dex, "DEX") && Spells(name, "label")
    ensures var lines := [jmp + ([' '] + name), dex, dex, dex, name];
            EncodeLines(Ops, State(map[], [], Some(0)), lines) == Success(State(map[], Listing(jmp, name), Some(0)))
  {
    var s0 := State(map[], [], Some(0));
    var s1 := s0.(out := s0.out + [Str(jmp), Str(name), Str("")]);
    var s2 := s1.(out := s1.out + [Num(0xCA)]);
    var s3 := s2.(out := s2.out + [Num(0xCA)]);
    var s4 := s3.(out := s3.out + [Num(0xCA)]);
    var s5 := s4.(out := s4.out + [Str("LABEL"), Str(name)]);
    var done := Success(s5);
    var l4 := [name];
    var l3 := [dex] + l4;
    var l2 := [dex] + l3;
    var l1 := [dex] + l2;
    var l0 := [jmp + ([' '] + name)] + l1;
    assert EncodeLines(Ops, s4, l4) == done by {
      NameLine(s4, name);
      Prepend(s4, name, [], s5, done);
      assert [name] + [] == l4;
    }
    assert EncodeLines(Ops, s3, l3) == done by {
      DexLine(s3, dex);
      Prepend(s3, dex, l4, s4, done);
    }
    assert EncodeLines(Ops, s2, l2) == done by {
      DexLine(s2, dex);
      Prepend(s2, dex, l3, s3, done);
    }
    assert EncodeLines(Ops, s1, l1) == done by {
      DexLine(s1, dex);
      Prepend(s1, dex, l2, s2, done);
    }
    assert EncodeLines(Ops, s0, l0) == done by {
      JumpLine(s0, jmp, name);
      Prepend(s0, jmp + ([' '] + name), l1, s1, done);
    }
    FiveLines(jmp + ([' '] + name), dex, name);
    ListingOf(jmp, name);
  }

  lemma {:induction false} FiveLines(a: string, b: string, c: string)
    ensures [a] + ([b] + ([b] + ([b] + [c]))) == [a, b, b, b, c]
  {
  }

  lemma {:induction false} ListingOf(jmp: string, name: string)
    ensures [] + [Str(jmp), Str(name), Str("")] + [Num(0xCA)] + [Num(0xCA)] + [Num(0xCA)] + [Str("LABEL"), Str(name)]
            == Listing(jmp, name)
  {
  }

  // Resolving the program's label

  /** The list once the "LABEL" tag at index 6 is popped. */
  function Popped(jmp: string, name: string): seq<Item>
  {
    [Str(jmp), Str(name), Str(""), Num(0xCA), Num(0xCA), Num(0xCA), Str(name)]
  }

  /** The machine code: `JMP $0006` and three `DEX`. */
  const Code := [Num(0x4C), Num(6), Num(0), Num(0xCA), Num(0xCA), Num(0xCA)]

  /** The inner loop passes over an item that is not a string, and over the
      label's own name. */
  lemma {:induction false} SkipStep(symbols: map<string, Option<int>>, i: nat, sc: Scan)
    requires sc.j < |sc.out| && i < |sc.out| && sc.out[sc.j] != Str("LABEL")
    requires !sc.out[sc.j].Str? || sc.j == i
    ensures Step(Ops, symbols, Some(0), i, sc) == Success(sc.(j := sc.j + 1))
  {
  }

  /** `JMP` does not refer to `label`. */
  lemma {:induction false} MnemonicStep(jmp: string, name: string)
    requires Spells(jmp, "JMP") && Spells(name, "label")
    ensures Step(Ops, map[name := Some(6)], Some(0), 6, Scan(Popped(jmp, name), 0, 0))
            == Success(Scan(Popped(jmp, name), 1, 0))
  {
    assert !RefersTo(jmp, name) by {
      assert !(name <= jmp);
      assert jmp[0] == 'J';
    }
    assert Popped(jmp, name)[0] == Str(jmp) && Popped(jmp, name)[6] == Str(name);
    assert Str(jmp) != Str("LABEL");
  }

  /** The operand `label`, now 6, is rewritten into `JMP $0006`: the
      absolute opcode and the address little-endian. */
  lemma {:induction false} OperandStep(jmp: string, name: string)
    requires Spells(jmp, "JMP") && Spells(name, "label")
    ensures Step(Ops, map[name := Some(6)], Some(0), 6, Scan(Popped(jmp, name), 1, 0))
            == Success(Scan(Code + [Str(name)], 2, 0))
  {
    var out := Popped(jmp, name);
    assert out[1] == Str(name) && out[0] == Str(jmp) && out[6] == Str(name);
    assert Str(name) != Str("LABEL") by { assert name[0] == 'l'; }
    assert RefersTo(name, name);
    assert PrevIndex(out, 1) == 0;
    assert Str(jmp) != Str("WORD");
    DefinedOperand(name);
    UpperText(jmp, "JMP");
    JumpRewritten(jmp, name);
  }

  /** Once defined as 6, `label` is a zero-page operand with that value. */
  lemma {:induction false} DefinedOperand(name: string)
    requires Spells(name, "label")
    ensures GetArgument(map[name := Some(6)], name) == Success(Arg(Z, Resolved(6)))
  {
    PlainLabel(name);
    NameOperand(map[name := Some(6)], name);
  }

  lemma {:induction false} JumpRewritten(jmp: string, name: string)
    ensures Rewritten(Ops, Some(0), Popped(jmp, name), 1, 0, "JMP", Arg(Z, Resolved(6))) == Success(Code + [Str(name)])
  {
    var out := Popped(jmp, name);
    assert LowByte(6) == 6 && HighPart(6) == 0;
    assert Take(out, 0) == [];
    assert Drop(out, 3) == [Num(0xCA), Num(0xCA), Num(0xCA), Str(name)];
    assert [] + [Num(0x4C), Num(6), Num(0)] + [Num(0xCA), Num(0xCA), Num(0xCA), Str(name)] == Code + [Str(name)];
  }

  /** The inner loop for the label at index 6: one rewrite, then nothing. */
  lemma {:induction false} InnerPass(jmp: string, name: string)
    requires Spells(jmp, "JMP") && Spells(name, "label")
    ensures InnerScan(Ops, map[name := Some(6)], Some(0), 6, Scan(Popped(jmp, name), 0, 0))
            == Success(Code + [Str(name)])
  {
    var symbols := map[name := Some(6)];
    var f := Code + [Str(name)];
    var done := Success(f);
    assert f[6] == Str(name) && Str(name) != Str("LABEL") by { assert name[0] == 'l'; }
    assert InnerScan(Ops, symbols, Some(0), 6, Scan(f, 7, 0)) == done;
    forall j | 2 <= j <= 6
      ensures InnerScan(Ops, symbols, Some(0), 6, Scan(f, j, 0)) == done
    {
      InnerTail(symbols, f, j);
    }
    assert InnerScan(Ops, symbols, Some(0), 6, Scan(Popped(jmp, name), 1, 0)) == done by {
      OperandStep(jmp, name);
      InnerScanStep(Ops, symbols, Some(0), 6, Scan(Popped(jmp, name), 1, 0));
    }
    MnemonicStep(jmp, name);
    InnerScanStep(Ops, symbols, Some(0), 6, Scan(Popped(jmp, name), 0, 0));
  }

  /** From index j on, the inner loop only passes over items. */
  lemma {:induction false} InnerTail(symbols: map<string, Option<int>>, f: seq<Item>, j: nat)
    requires |f| == 7 && 2 <= j <= 7
    requires forall k :: j <= k < 6 ==> f[k].Num?
    requires f[6].Str? && f[6] != Str("LABEL")
    ensures InnerScan(Ops, symbols, Some(0), 6, Scan(f, j, 0)) == Success(f)
    decreases 7 - j
  {
    if j < 7 {
      SkipStep(symbols, 6, Scan(f, j, 0));
      InnerScanStep(Ops, symbols, Some(0), 6, Scan(f, j, 0));
      InnerTail(symbols, f, j + 1);
    }
  }

  /** The outer loop passes over anything but an "ORG" or "LABEL" tag. */
  lemma {:induction false} OuterSkip(sw: Sweep)
    requires sw.i < |sw.out| && sw.out[sw.i] != Str("ORG") && sw.out[sw.i] != Str("LABEL")
    ensures OuterStep(Ops, Some(0), sw) == Success(sw.(i := sw.i + 1))
  {
  }

  /** At the tag, `label` becomes 6 and its reference is rewritten. */
  lemma {:induction false} LabelAtSix(jmp: string, name: string)
    requires Spells(jmp, "JMP") && Spells(name, "label")
    ensures OuterStep(Ops, Some(0), Sweep(Listing(jmp, name), map[], 6)) == Success(Sweep(Code, map[name := Some(6)], 7))
  {
    var sw := Sweep(Listing(jmp, name), map[], 6);
    var popped := Popped(jmp, name);
    assert popped == sw.out[..6] + sw.out[7..];
    assert map[][name := Some(6 + 0)] == map[name := Some(6)];
    InnerPass(jmp, name);
    var f := Code + [Str(name)];
    LabelStepResult(Ops, Some(0), sw, popped, map[name := Some(6)], Success(f));
    assert f[..6] + f[7..] == Code;
  }

  /** The outer loop from index k to the tag at 6. */
  lemma {:induction false} OuterTail(jmp: string, name: string, k: nat)
    requires Spells(jmp, "JMP") && Spells(name, "label") && k <= 6
    ensures OuterScan(Ops, Some(0), Sweep(Listing(jmp, name), map[], k), 7 - k)
            == Success(Sweep(Code, map[name := Some(6)], 7))
    decreases 6 - k
  {
    var sw := Sweep(Listing(jmp, name), map[], k);
    if k == 6 {
      LabelAtSix(jmp, name);
      OuterScanStep(Ops, Some(0), sw, 1);
    } else {
      assert sw.out[k] != Str("ORG") && sw.out[k] != Str("LABEL") by {
        assert jmp[0] == 'J' && name[0] == 'l';
      }
      OuterSkip(sw);
      OuterScanStep(Ops, Some(0), sw, 7 - k);
      OuterTail(jmp, name, k + 1);
    }
  }

  /** The second pass: the program resolves to `JMP $0006` and three `DEX`,
      with `label` defined as 6, given fuel for the seven items. */
  lemma {:induction false} Resolution(jmp: string, name: string, fuel: nat)
    requires Spells(jmp, "JMP") && Spells(name, "label") && fuel >= 7
    ensures ResolveSpec(Ops, State(map[], Listing(jmp, name), Some(0)), fuel)
            == Success(State(map[name := Some(6)], Code, Some(0)))
  {
    var sw := Sweep(Listing(jmp, name), map[], 0);
    OuterTail(jmp, name, 0);
    OuterScanFuel(Ops, Some(0), sw, 7, fuel);
  }

  /** The whole program: the byte string of a jump forward over three
      decrements. */
  lemma {:induction false} ProgramAssembles(jmp: string, dex: string, name: string)
    requires Spells(jmp, "JMP") && Spells(dex, "DEX") && Spells(name, "label")
    ensures var lines := [jmp + ([' '] + name), dex, dex, dex, name];
            forall fuel :: fuel >= 7 ==>
              AssembleSpec(Ops, State(map[], [], Some(0)), Join(lines, '\n'), fuel)
              == Success(State(map[name := Some(6)], Code, Some(0)))
  {
    var lines := [jmp + ([' '] + name), dex, dex, dex, name];
    assert forall k :: 0 <= k < |lines| ==> '\n' !in lines[k] by {
      PlainJmp(jmp);
      PlainDex(dex);
      PlainLabel(name);
      NoNewline(jmp, name);
      NoNewline(dex, name);
    }
    SplitJoin(lines, '\n');
    FirstPass(jmp, dex, name);
    forall fuel | fuel >= 7
      ensures ResolveSpec(Ops, State(map[], Listing(jmp, name), Some(0)), fuel)
              == Success(State(map[name := Some(6)], Code, Some(0)))
    {
      Resolution(jmp, name, fuel);
    }
  }

  lemma {:induction false} NoNewline(a: string, b: string)
    requires Plain(a) && Plain(b)
    ensures '\n' !in a && '\n' !in b && '\n' !in a + ([' '] + b)
  {
    var l := a + ([' '] + b);
    forall k | 0 <= k < |l|
      ensures l[k] != '\n'
    {
      if k < |a| {
        assert l[k] == a[k];
      } else if k > |a| {
        assert l[k] == b[k - |a| - 1];
      }
    }
    forall k | 0 <= k < |a| ensures a[k] != '\n' { assert !IsSpace(a[k]); }
    forall k | 0 <= k < |b| ensures b[k] != '\n' { assert !IsSpace(b[k]); }
  }
}
