/** The per-line emission pass, `assembleTokens`
    (py65asm/assembler.py:95-154), as a function from the assembler's state
    before a line to its state after it. The opcode table (py65asm/ops.py,
    which is not part of this model) is a parameter: mnemonic -> mode -> byte. */
module Encoder {
  import opened Base
  import opened Numbers
  import opened Operands

  type OpTable = map<string, map<Mode, int>>

  /** The fields of an `Assembler` that the passes change. */
  datatype State = State(symbols: map<string, Option<int>>, out: seq<Item>, start: Option<int>)

  function UpperChar(c: char): char
  {
    if 'a' <= c <= 'z' then (c as int - 32) as char else c
  }

  /** `str.upper()` on ASCII text. */
  function Upper(s: string): (r: string)
    ensures |r| == |s| && forall k :: 0 <= k < |s| ==> r[k] == UpperChar(s[k])
  {
    seq(|s|, k requires 0 <= k < |s| => UpperChar(s[k]))
  }

  /** Each lower-case letter becomes its capital; every other character
      is kept. */
  lemma {:induction false} UpperLetters(s: string)
    ensures var r := Upper(s);
            && |r| == |s|
            && (forall k :: 0 <= k < |s| && 'a' <= s[k] <= 'z' ==>
                  'A' <= r[k] <= 'Z' && r[k] as int - 'A' as int == s[k] as int - 'a' as int)
            && (forall k :: 0 <= k < |s| && !('a' <= s[k] <= 'z') ==> r[k] == s[k])
  {
  }

  /** The relative-branch mnemonics the source lists ("BVS" is not among them). */
  predicate IsBranch(op: string)
  {
    op in ["BCC", "BCS", "BEQ", "BMI", "BNE", "BPL", "BVC"]
  }

  /** `s.rstrip(":")`. */
  function StripColons(s: string): (r: string)
    ensures r <= s && (r == [] || r[|r| - 1] != ':')
    ensures forall k :: |r| <= k < |s| ==> s[k] == ':'
  {
    if s != [] && s[|s| - 1] == ':' then StripColons(s[..|s| - 1]) else s
  }

  /** No item of `out` is an int (nor None): no code has been emitted. */
  predicate AllStr(out: seq<Item>)
  {
    forall k :: 0 <= k < |out| ==> out[k].Str?
  }

  /** `str(n)` for the `.ORG` target, where n may be None. */
  function OrgText(n: Option<int>): string
  {
    if n.Some? then ShowInt(n.value) else "None"
  }

  /** The item appended after the opcode for a one-byte operand: the
      number, or the string 'A' of the accumulator shorthand. */
  function OperandItem(v: ArgValue): Item
    requires !v.Unresolved?
  {
    if v.Resolved? then Num(v.n) else Str("A")
  }

  /** The mode whose opcode is emitted: zero page falls back to absolute
      when the mnemonic has no zero-page entry. */
  function EmitMode(entries: map<Mode, int>, t: Mode): (r: Mode)
    ensures r == t || (t == Z && r == A && Z !in entries)
    ensures t == Z && Z !in entries ==> r == A
    ensures !(t == Z && Z !in entries) ==> r == t
  {
    if t !in entries && t == Z then A else t
  }

  /** The items an instruction line with an operand appends. */
  function InstructionItems(ops: OpTable, op: string, tokens: seq<string>, arg: Arg): Result<seq<Item>>
    requires op in ops && |tokens| >= 2
    requires arg.value.Accumulator? ==> arg.mode == Im
  {
    if arg.value.Unresolved? then
      Success([Str(tokens[0]), Str(tokens[1])] + (if IsBranch(op) then [] else [Str("")]))
    else
      var t := EmitMode(ops[op], arg.mode);
      if t !in ops[op] then Failure(KeyError)
      else if IsWide(t) then
        Success([Num(ops[op][t]), Num(LowByte(arg.value.n)), Num(HighPart(arg.value.n))])
      else Success([Num(ops[op][t]), OperandItem(arg.value)])
  }

  /** `assembleTokens(tokens)`: the new state after one tokenised line, or
      the exception the line raises. */
  function EncodeLine(ops: OpTable, st: State, tokens: seq<string>): Result<State>
    decreases |tokens|
  {
    if tokens == [] then Failure(IndexError)
    else
      var op := Upper(tokens[0]);
      if op in ops then
        if |tokens| == 1 then
          if Im in ops[op] then Success(st.(out := st.out + [Num(ops[op][Im])])) else Failure(KeyError)
        else
          var arg :- GetArgument(st.symbols, tokens[1]);
          var items :- InstructionItems(ops, op, tokens, arg);
          Success(st.(out := st.out + items))
      else if op == ".BYTE" then
        if |tokens| < 2 then Failure(IndexError)
        else
          var n :- GetNumber(st.symbols, tokens[1]);
          if n.Some? && n.value != 0 then Success(st.(out := st.out + [Num(n.value)]))
          else Success(st.(out := st.out + [Str(tokens[1])]))
      else if op == ".WORD" then
        if |tokens| < 2 then Failure(IndexError)
        else
          var n :- GetNumber(st.symbols, tokens[1]);
          if n.Some? && n.value != 0 then
            Success(st.(out := st.out + [Num(LowByte(n.value)), Num(HighPart(n.value))]))
          else Success(st.(out := st.out + [Str("WORD"), Str(tokens[1])]))
      else if op == ".ORG" then
        if |tokens| < 2 then Failure(IndexError)
        else
          var n :- GetNumber(st.symbols, tokens[1]);
          if AllStr(st.out) then Success(st.(start := n))
          else Success(st.(out := st.out + [Str("ORG"), Str(OrgText(n))]))
      else if |tokens| > 1 && tokens[1] == "=" then
        if |tokens| < 3 then Failure(IndexError)
        else if tokens[2] == "*" then Success(st.(out := st.out + [Str("LABEL"), Str(tokens[0])]))
        else
          var n :- GetNumber(st.symbols, tokens[2]);
          Success(st.(symbols := st.symbols[tokens[0] := n]))
      else
        var labelled := st.(out := st.out + [Str("LABEL"), Str(StripColons(tokens[0]))]);
        if |tokens| > 1 then EncodeLine(ops, labelled, tokens[1..]) else Success(labelled)
  }

  // Properties

  /** Whether `tokens` is a line the mnemonic table does not claim and that
      is none of the three directives: a label or an assignment. */
  predicate IsNamingLine(ops: OpTable, tokens: seq<string>)
  {
    tokens != [] && Upper(tokens[0]) !in ops && Upper(tokens[0]) !in [".BYTE", ".WORD", ".ORG"]
  }

  /** `after` is `before` with items appended, none of them None. */
  predicate Extends(before: seq<Item>, after: seq<Item>)
  {
    |before| <= |after| && after[..|before|] == before
    && forall k :: |before| <= k < |after| ==> !after[k].NoneItem?
  }

  lemma {:induction false} ExtendsTrans(a: seq<Item>, b: seq<Item>, c: seq<Item>)
    requires Extends(a, b) && Extends(b, c)
    ensures Extends(a, c)
  {
    assert c[..|b|][..|a|] == c[..|a|];
  }

  /** The items an instruction line appends are never None. */
  lemma {:induction false} InstructionItemsNotNone(ops: OpTable, op: string, tokens: seq<string>, arg: Arg)
    requires op in ops && |tokens| >= 2
    requires arg.value.Accumulator? ==> arg.mode == Im
    requires InstructionItems(ops, op, tokens, arg).Success?
    ensures forall k :: 0 <= k < |InstructionItems(ops, op, tokens, arg).value| ==>
              !InstructionItems(ops, op, tokens, arg).value[k].NoneItem?
  {
  }

  /** A line only appends to the output: what was emitted before is kept,
      and no appended item is None. */
  lemma {:induction false} AppendOnly(ops: OpTable, st: State, tokens: seq<string>)
    requires EncodeLine(ops, st, tokens).Success?
    ensures Extends(st.out, EncodeLine(ops, st, tokens).value.out)
    decreases |tokens|
  {
    var op := Upper(tokens[0]);
    var out' := EncodeLine(ops, st, tokens).value.out;
    if op in ops {
      if |tokens| > 1 {
        var arg := GetArgument(st.symbols, tokens[1]).value;
        InstructionItemsNotNone(ops, op, tokens, arg);
        var items := InstructionItems(ops, op, tokens, arg).value;
        assert out' == st.out + items;
        AppendsItems(st.out, items);
      } else {
        AppendsItems(st.out, [Num(ops[op][Im])]);
      }
    } else if op in [".BYTE", ".WORD", ".ORG"] || (|tokens| > 1 && tokens[1] == "=") {
      DirectiveAppends(ops, st, tokens);
    } else {
      var labelled := st.(out := st.out + [Str("LABEL"), Str(StripColons(tokens[0]))]);
      AppendsItems(st.out, [Str("LABEL"), Str(StripColons(tokens[0]))]);
      if |tokens| > 1 {
        AppendOnly(ops, labelled, tokens[1..]);
        ExtendsTrans(st.out, labelled.out, out');
      }
    }
  }

  /** The exceptions a line can raise: IndexError when it has no token
      or lacks an operand, KeyError for an addressing mode the mnemonic
      does not have, ValueError for a number with two leading dashes and
      UnboundLocalError for an operand no pattern matches. */
  predicate LineError(e: Error)
  {
    e == IndexError || e == KeyError || e == ValueError || e == UnboundLocalError
  }

  /** A line raises nothing but those; an empty line raises IndexError. */
  lemma {:induction false} EncodeLineErrors(ops: OpTable, st: State, tokens: seq<string>)
    ensures tokens == [] ==> EncodeLine(ops, st, tokens) == Failure(IndexError)
    ensures EncodeLine(ops, st, tokens).Failure? ==> LineError(EncodeLine(ops, st, tokens).error)
    decreases |tokens|
  {
    if tokens != [] {
      var op := Upper(tokens[0]);
      if op in ops {
        InstructionErrors(ops, st, tokens);
      } else if op in [".BYTE", ".WORD", ".ORG"] || (|tokens| > 1 && tokens[1] == "=") {
        DirectiveErrors(ops, st, tokens);
      } else if |tokens| > 1 {
        var labelled := st.(out := st.out + [Str("LABEL"), Str(StripColons(tokens[0]))]);
        assert EncodeLine(ops, st, tokens) == EncodeLine(ops, labelled, tokens[1..]);
        EncodeLineErrors(ops, labelled, tokens[1..]);
      }
    }
  }

  lemma {:induction false} InstructionErrors(ops: OpTable, st: State, tokens: seq<string>)
    requires tokens != [] && Upper(tokens[0]) in ops
    ensures EncodeLine(ops, st, tokens).Failure? ==> LineError(EncodeLine(ops, st, tokens).error)
  {
  }

  lemma {:induction false} DirectiveErrors(ops: OpTable, st: State, tokens: seq<string>)
    requires tokens != [] && Upper(tokens[0]) !in ops
    requires Upper(tokens[0]) in [".BYTE", ".WORD", ".ORG"] || (|tokens| > 1 && tokens[1] == "=")
    ensures EncodeLine(ops, st, tokens).Failure? ==> LineError(EncodeLine(ops, st, tokens).error)
  {
    if Upper(tokens[0]) in [".BYTE", ".WORD", ".ORG"] {
      DataErrors(ops, st, tokens);
    } else if |tokens| >= 3 {
      GetNumberErrors(st.symbols, tokens[2]);
    }
  }

  lemma {:induction false} DataErrors(ops: OpTable, st: State, tokens: seq<string>)
    requires tokens != [] && Upper(tokens[0]) !in ops && Upper(tokens[0]) in [".BYTE", ".WORD", ".ORG"]
    ensures EncodeLine(ops, st, tokens).Failure? ==> LineError(EncodeLine(ops, st, tokens).error)
  {
    if |tokens| >= 2 {
      GetNumberErrors(st.symbols, tokens[1]);
    }
  }

  lemma {:induction false} AppendsItems(before: seq<Item>, items: seq<Item>)
    requires forall k :: 0 <= k < |items| ==> !items[k].NoneItem?
    ensures Extends(before, before + items)
  {
    var after := before + items;
    assert after[..|before|] == before;
    forall k | |before| <= k < |after|
      ensures !after[k].NoneItem?
    {
      assert after[k] == items[k - |before|];
    }
  }

  /** A directive or assignment line appends at most two items, none None. */
  lemma {:induction false} DirectiveAppends(ops: OpTable, st: State, tokens: seq<string>)
    requires tokens != [] && Upper(tokens[0]) !in ops
    requires Upper(tokens[0]) in [".BYTE", ".WORD", ".ORG"] || (|tokens| > 1 && tokens[1] == "=")
    requires EncodeLine(ops, st, tokens).Success?
    ensures Extends(st.out, EncodeLine(ops, st, tokens).value.out)
  {
    var op := Upper(tokens[0]);
    if op == ".BYTE" || op == ".WORD" {
      DataAppends(ops, st, tokens);
    } else if op == ".ORG" {
      OrgAppends(ops, st, tokens);
    } else {
      AssignmentAppends(ops, st, tokens);
    }
  }

  lemma {:induction false} DataAppends(ops: OpTable, st: State, tokens: seq<string>)
    requires tokens != [] && Upper(tokens[0]) !in ops && Upper(tokens[0]) in [".BYTE", ".WORD"]
    requires EncodeLine(ops, st, tokens).Success?
    ensures Extends(st.out, EncodeLine(ops, st, tokens).value.out)
  {
    var n := GetNumber(st.symbols, tokens[1]).value;
    if Upper(tokens[0]) == ".BYTE" {
      AppendsItems(st.out, [if n.Some? && n.value != 0 then Num(n.value) else Str(tokens[1])]);
    } else if n.Some? && n.value != 0 {
      AppendsItems(st.out, [Num(LowByte(n.value)), Num(HighPart(n.value))]);
    } else {
      AppendsItems(st.out, [Str("WORD"), Str(tokens[1])]);
    }
  }

  lemma {:induction false} OrgAppends(ops: OpTable, st: State, tokens: seq<string>)
    requires tokens != [] && Upper(tokens[0]) !in ops && Upper(tokens[0]) == ".ORG"
    requires EncodeLine(ops, st, tokens).Success?
    ensures Extends(st.out, EncodeLine(ops, st, tokens).value.out)
  {
    var n := GetNumber(st.symbols, tokens[1]).value;
    AppendsItems(st.out, []);
    AppendsItems(st.out, [Str("ORG"), Str(OrgText(n))]);
    assert st.out + [] == st.out;
  }

  lemma {:induction false} AssignmentAppends(ops: OpTable, st: State, tokens: seq<string>)
    requires tokens != [] && Upper(tokens[0]) !in ops && Upper(tokens[0]) !in [".BYTE", ".WORD", ".ORG"]
    requires |tokens| > 1 && tokens[1] == "="
    requires EncodeLine(ops, st, tokens).Success?
    ensures Extends(st.out, EncodeLine(ops, st, tokens).value.out)
  {
    AppendsItems(st.out, []);
    AppendsItems(st.out, [Str("LABEL"), Str(tokens[0])]);
    assert st.out + [] == st.out;
  }

  /** Only a `.ORG` line moves the start address, and only an assignment
      line (`name = value`) changes the symbol table. */
  lemma {:induction false} WhatChanges(ops: OpTable, st: State, tokens: seq<string>)
    requires EncodeLine(ops, st, tokens).Success?
    ensures var st' := EncodeLine(ops, st, tokens).value;
            && (st'.start != st.start ==> exists k :: 0 <= k < |tokens| && Upper(tokens[k]) == ".ORG")
            && (st'.symbols != st.symbols ==> exists k :: 1 <= k < |tokens| - 1 && tokens[k] == "=")
    decreases |tokens|
  {
    var op := Upper(tokens[0]);
    var st' := EncodeLine(ops, st, tokens).value;
    if op in ops {
      InstructionKeeps(ops, st, tokens);
    } else if op in [".BYTE", ".WORD", ".ORG"] {
      DirectiveKeeps(ops, st, tokens);
      if st'.start != st.start {
        assert Upper(tokens[0]) == ".ORG";
      }
    } else if |tokens| > 1 && tokens[1] == "=" {
      AssignmentKeeps(ops, st, tokens);
      if st'.symbols != st.symbols {
        assert tokens[1] == "=";
      }
    } else {
      var labelled := st.(out := st.out + [Str("LABEL"), Str(StripColons(tokens[0]))]);
      if |tokens| > 1 {
        WhatChanges(ops, labelled, tokens[1..]);
        if st'.start != st.start {
          var k :| 0 <= k < |tokens[1..]| && Upper(tokens[1..][k]) == ".ORG";
          assert Upper(tokens[k + 1]) == ".ORG";
        }
        if st'.symbols != st.symbols {
          var k :| 1 <= k < |tokens[1..]| - 1 && tokens[1..][k] == "=";
          assert tokens[k + 1] == "=";
        }
      }
    }
  }

  /** An instruction line changes neither the start nor the symbols. */
  lemma {:induction false} InstructionKeeps(ops: OpTable, st: State, tokens: seq<string>)
    requires tokens != [] && Upper(tokens[0]) in ops && EncodeLine(ops, st, tokens).Success?
    ensures EncodeLine(ops, st, tokens).value.start == st.start
    ensures EncodeLine(ops, st, tokens).value.symbols == st.symbols
  {
  }

  /** A `.BYTE`, `.WORD` or `.ORG` line keeps the symbols, and only `.ORG`
      moves the start. */
  lemma {:induction false} DirectiveKeeps(ops: OpTable, st: State, tokens: seq<string>)
    requires tokens != [] && Upper(tokens[0]) !in ops && Upper(tokens[0]) in [".BYTE", ".WORD", ".ORG"]
    requires EncodeLine(ops, st, tokens).Success?
    ensures EncodeLine(ops, st, tokens).value.symbols == st.symbols
    ensures EncodeLine(ops, st, tokens).value.start != st.start ==> Upper(tokens[0]) == ".ORG"
  {
  }

  /** An assignment keeps the start, and changes the symbols only when it
      has a value after the '='. */
  lemma {:induction false} AssignmentKeeps(ops: OpTable, st: State, tokens: seq<string>)
    requires IsNamingLine(ops, tokens) && |tokens| > 1 && tokens[1] == "="
    requires EncodeLine(ops, st, tokens).Success?
    ensures EncodeLine(ops, st, tokens).value.start == st.start
    ensures EncodeLine(ops, st, tokens).value.symbols != st.symbols ==> |tokens| >= 3
  {
  }

  /** A mnemonic alone appends exactly its 'im' opcode. */
  lemma {:induction false} ImpliedLine(ops: OpTable, st: State, mnemonic: string)
    requires Upper(mnemonic) in ops
    ensures var r := EncodeLine(ops, st, [mnemonic]);
            && (Im in ops[Upper(mnemonic)] <==> r.Success?)
            && (r.Success? ==> r.value == st.(out := st.out + [Num(ops[Upper(mnemonic)][Im])]))
            && (r.Failure? ==> r.error == KeyError)
  {
  }

  /** An instruction whose operand is an undefined symbol appends the
      mnemonic and the operand as written, then a blank pad unless the
      mnemonic is a branch: three items, or two for a branch. */
  lemma {:induction false} UnresolvedInstruction(ops: OpTable, st: State, tokens: seq<string>)
    requires |tokens| >= 2 && Upper(tokens[0]) in ops
    requires GetArgument(st.symbols, tokens[1]).Success?
    requires GetArgument(st.symbols, tokens[1]).value.value.Unresolved?
    ensures var r := EncodeLine(ops, st, tokens);
            var n := |st.out|;
            && r.Success? && r.value.symbols == st.symbols && r.value.start == st.start
            && |r.value.out| == n + (if IsBranch(Upper(tokens[0])) then 2 else 3)
            && r.value.out[..n] == st.out
            && r.value.out[n] == Str(tokens[0]) && r.value.out[n + 1] == Str(tokens[1])
            && (!IsBranch(Upper(tokens[0])) ==> r.value.out[n + 2] == Str(""))
  {
  }

  /** An instruction whose operand is known appends the opcode of its
      mode (zero page falling back to absolute), then the operand: low and
      high byte for the absolute and indirect modes, otherwise the value
      itself. A mode missing from the table raises KeyError. */
  lemma {:induction false} ResolvedInstruction(ops: OpTable, st: State, tokens: seq<string>)
    requires |tokens| >= 2 && Upper(tokens[0]) in ops
    requires GetArgument(st.symbols, tokens[1]).Success?
    requires !GetArgument(st.symbols, tokens[1]).value.value.Unresolved?
    ensures var op := Upper(tokens[0]);
            var arg := GetArgument(st.symbols, tokens[1]).value;
            var m := EmitMode(ops[op], arg.mode);
            var r := EncodeLine(ops, st, tokens);
            var n := |st.out|;
            && (m !in ops[op] <==> r == Failure(KeyError))
            && (m in ops[op] ==>
                  && r.Success? && r.value.symbols == st.symbols && r.value.start == st.start
                  && r.value.out[..n] == st.out
                  && |r.value.out| == n + (if IsWide(m) then 3 else 2)
                  && r.value.out[n] == Num(ops[op][m])
                  && (IsWide(m) ==>
                        && r.value.out[n + 1].Num? && r.value.out[n + 2].Num?
                        && 0 <= r.value.out[n + 1].n < 256
                        && r.value.out[n + 2].n * 256 + r.value.out[n + 1].n == arg.value.n)
                  && (!IsWide(m) ==> r.value.out[n + 1] == OperandItem(arg.value)))
  {
  }

  /** `.BYTE v` appends exactly one item: the value when it is known and
      non-zero, otherwise the operand text as a placeholder. */
  lemma {:induction false} ByteLine(ops: OpTable, st: State, tokens: seq<string>)
    requires |tokens| >= 2 && Upper(tokens[0]) !in ops && Upper(tokens[0]) == ".BYTE"
    requires GetNumber(st.symbols, tokens[1]).Success?
    ensures var v := GetNumber(st.symbols, tokens[1]).value;
            var r := EncodeLine(ops, st, tokens);
            && r.Success? && r.value.symbols == st.symbols && r.value.start == st.start
            && r.value.out[..|st.out|] == st.out && |r.value.out| == |st.out| + 1
            && (v.Some? && v.value != 0 <==> r.value.out[|st.out|].Num?)
            && (v.Some? && v.value != 0 ==> r.value.out[|st.out|] == Num(v.value))
            && (!(v.Some? && v.value != 0) ==> r.value.out[|st.out|] == Str(tokens[1]))
  {
  }

  /** `.WORD v` appends exactly two items: the low and high byte of a known
      non-zero value, otherwise the "WORD" tag and the operand text. */
  lemma {:induction false} WordLine(ops: OpTable, st: State, tokens: seq<string>)
    requires |tokens| >= 2 && Upper(tokens[0]) !in ops && Upper(tokens[0]) == ".WORD"
    requires GetNumber(st.symbols, tokens[1]).Success?
    ensures var v := GetNumber(st.symbols, tokens[1]).value;
            var r := EncodeLine(ops, st, tokens);
            var n := |st.out|;
            && r.Success? && r.value.symbols == st.symbols && r.value.start == st.start
            && r.value.out[..n] == st.out && |r.value.out| == n + 2
            && (v.Some? && v.value != 0 ==>
                  && r.value.out[n].Num? && r.value.out[n + 1].Num?
                  && 0 <= r.value.out[n].n < 256
                  && r.value.out[n + 1].n * 256 + r.value.out[n].n == v.value)
            && (!(v.Some? && v.value != 0) ==> r.value.out[n..] == [Str("WORD"), Str(tokens[1])])
  {
  }

  /** `.ORG v` before any int has been emitted sets the start address and
      appends nothing; afterwards it appends the "ORG" tag and the target
      as text, which reads back as the target. */
  lemma {:induction false} OrgLine(ops: OpTable, st: State, tokens: seq<string>)
    requires |tokens| >= 2 && Upper(tokens[0]) !in ops && Upper(tokens[0]) == ".ORG"
    requires GetNumber(st.symbols, tokens[1]).Success?
    ensures var v := GetNumber(st.symbols, tokens[1]).value;
            var r := EncodeLine(ops, st, tokens);
            var n := |st.out|;
            && r.Success? && r.value.symbols == st.symbols
            && (AllStr(st.out) ==> r.value.out == st.out && r.value.start == v)
            && (!AllStr(st.out) ==>
                  && r.value.start == st.start && |r.value.out| == n + 2
                  && r.value.out[..n] == st.out && r.value.out[n] == Str("ORG")
                  && r.value.out[n + 1].Str?
                  && (v.Some? ==> ParseInt(r.value.out[n + 1].s) == Success(v.value)))
  {
    if !AllStr(st.out) && GetNumber(st.symbols, tokens[1]).value.Some? {
      ParseShowInt(GetNumber(st.symbols, tokens[1]).value.value);
    }
  }

  /** `name = v` with v other than `*` changes only the symbol table: name
      now stands for the value of v (None when v is undefined). */
  lemma {:induction false} AssignmentLine(ops: OpTable, st: State, tokens: seq<string>)
    requires |tokens| >= 3 && IsNamingLine(ops, tokens) && tokens[1] == "=" && tokens[2] != "*"
    requires GetNumber(st.symbols, tokens[2]).Success?
    ensures var r := EncodeLine(ops, st, tokens);
            && r.Success? && r.value.out == st.out && r.value.start == st.start
            && Lookup(r.value.symbols, tokens[0]) == GetNumber(st.symbols, tokens[2]).value
            && forall name :: name != tokens[0] ==> Lookup(r.value.symbols, name) == Lookup(st.symbols, name)
  {
  }

  /** `name = *` declares a label: it appends the "LABEL" tag and the name. */
  lemma {:induction false} StarLabelLine(ops: OpTable, st: State, tokens: seq<string>)
    requires |tokens| >= 3 && IsNamingLine(ops, tokens) && tokens[1] == "=" && tokens[2] == "*"
    ensures EncodeLine(ops, st, tokens) == Success(st.(out := st.out + [Str("LABEL"), Str(tokens[0])]))
  {
  }

  /** A label (its trailing colons dropped) appends the "LABEL" tag and the
      name, and the rest of the line is assembled after it. */
  lemma {:induction false} LabelLine(ops: OpTable, st: State, tokens: seq<string>)
    requires IsNamingLine(ops, tokens) && (|tokens| == 1 || tokens[1] != "=")
    ensures var labelled := st.(out := st.out + [Str("LABEL"), Str(StripColons(tokens[0]))]);
            EncodeLine(ops, st, tokens) == if |tokens| == 1 then Success(labelled)
                                           else EncodeLine(ops, labelled, tokens[1..])
  {
  }
}
