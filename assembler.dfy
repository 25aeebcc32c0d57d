/** The `Assembler` object (py65asm/assembler.py:52-221): its symbol table,
    output list and start address are fields that the two passes update in
    place. Each method is proved against the value-level definition of the
    same pass: on success the new fields are what that definition computes,
    and on an exception the method reports the same error. */
module Assembler {
  import opened Base
  import opened Numbers
  import opened Operands
  import opened Encoder
  import opened Resolver
  import opened Driver

  class Assembler {
    /** The mnemonic table, which the source imports as a module constant. */
    const ops: OpTable
    var symbols: map<string, Option<int>>
    var out: seq<Item>
    var start: Option<int>
    var org: int

    /** The fields the passes read and write. */
    function Snapshot(): State
      reads this
    {
      State(symbols, out, start)
    }

    /** `Assembler(org)`: an empty table and output; start and org are the
        given origin, or 0 when none is given. */
    constructor(ops: OpTable, org: Option<int>)
      ensures this.ops == ops && symbols == map[] && out == []
      ensures this.org == (if org.Some? then org.value else 0)
      ensures start == Some(this.org)
    {
      this.ops := ops;
      symbols := map[];
      out := [];
      if org.Some? {
        this.org := org.value;
        start := Some(org.value);
      } else {
        this.org := 0;
        start := Some(0);
      }
    }

    /** `assembleTokens(tokens)`: appends the line's items to the output,
        binds a variable or moves the start address. */
    method AssembleTokens(tokens: seq<string>) returns (r: Outcome)
      modifies this
      ensures org == old(org)
      ensures var spec := EncodeLine(ops, old(Snapshot()), tokens);
              && (r.Pass? <==> spec.Success?)
              && (r.Pass? ==> Snapshot() == spec.value)
              && (r.Fail? ==> r.error == spec.error)
      decreases |tokens|
    {
      if tokens == [] {
        return Fail(IndexError);
      }
      var op := Upper(tokens[0]);
      if op in ops {
        r := AssembleInstruction(tokens);
        return;
      } else if op == ".BYTE" || op == ".WORD" || op == ".ORG" {
        r := AssembleDirective(tokens);
        return;
      } else if |tokens| > 1 && tokens[1] == "=" {
        if |tokens| < 3 {
          return Fail(IndexError);
        }
        if tokens[2] == "*" {
          out := out + [Str("LABEL"), Str(tokens[0])];
        } else {
          var n := GetNumber(symbols, tokens[2]);
          if n.Failure? {
            return Fail(n.error);
          }
          symbols := symbols[tokens[0] := n.value];
        }
      } else {
        out := out + [Str("LABEL"), Str(StripColons(tokens[0]))];
        if |tokens| > 1 {
          r := AssembleTokens(tokens[1..]);
          return;
        }
      }
      return Pass;
    }

    /** The instruction branch of `assembleTokens`: a mnemonic alone is
        implied addressing, otherwise the operand is classified and the
        opcode and operand bytes, or the unresolved tokens, are appended. */
    method AssembleInstruction(tokens: seq<string>) returns (r: Outcome)
      requires tokens != [] && Upper(tokens[0]) in ops
      modifies this
      ensures org == old(org)
      ensures var spec := EncodeLine(ops, old(Snapshot()), tokens);
              && (r.Pass? <==> spec.Success?)
              && (r.Pass? ==> Snapshot() == spec.value)
              && (r.Fail? ==> r.error == spec.error)
    {
      var op := Upper(tokens[0]);
      if |tokens| == 1 {
        if Im !in ops[op] {
          return Fail(KeyError);
        }
        out := out + [Num(ops[op][Im])];
        return Pass;
      }
      var arg := GetArgument(symbols, tokens[1]);
      if arg.Failure? {
        return Fail(arg.error);
      }
      r := EmitInstruction(op, tokens, arg.value);
    }

    /** The items of an instruction with a classified operand: the opcode
        with its one or two operand bytes, or the mnemonic and operand text
        (and a filler for non-branches) when the operand is a label. */
    method EmitInstruction(op: string, tokens: seq<string>, arg: Arg) returns (r: Outcome)
      requires op in ops && |tokens| >= 2
      requires arg.value.Accumulator? ==> arg.mode == Im
      modifies this
      ensures symbols == old(symbols) && start == old(start) && org == old(org)
      ensures var items := InstructionItems(ops, op, tokens, arg);
              && (r.Pass? <==> items.Success?)
              && (r.Pass? ==> out == old(out) + items.value)
              && (r.Fail? ==> r.error == items.error)
    {
      var t := arg.mode;
      var n := arg.value;
      if !n.Unresolved? {
        if t !in ops[op] && t == Z {
          t := A;
        }
        if t !in ops[op] {
          return Fail(KeyError);
        }
        out := out + [Num(ops[op][t])];
        if IsWide(t) {
          out := out + [Num(LowByte(n.n)), Num(HighPart(n.n))];
        } else {
          out := out + [OperandItem(n)];
        }
      } else {
        out := out + [Str(tokens[0]), Str(tokens[1])];
        if !IsBranch(op) {
          out := out + [Str("")];
        }
      }
      return Pass;
    }

    /** The `.BYTE`, `.WORD` and `.ORG` branch of `assembleTokens`. */
    method AssembleDirective(tokens: seq<string>) returns (r: Outcome)
      requires tokens != [] && Upper(tokens[0]) !in ops
      requires Upper(tokens[0]) in [".BYTE", ".WORD", ".ORG"]
      modifies this
      ensures org == old(org)
      ensures var spec := EncodeLine(ops, old(Snapshot()), tokens);
              && (r.Pass? <==> spec.Success?)
              && (r.Pass? ==> Snapshot() == spec.value)
              && (r.Fail? ==> r.error == spec.error)
    {
      var op := Upper(tokens[0]);
      if |tokens| < 2 {
        return Fail(IndexError);
      }
      var n := GetNumber(symbols, tokens[1]);
      if n.Failure? {
        return Fail(n.error);
      }
      var v := n.value;
      if op == ".BYTE" {
        if v.Some? && v.value != 0 {
          out := out + [Num(v.value)];
        } else {
          out := out + [Str(tokens[1])];
        }
      } else if op == ".WORD" {
        if v.Some? && v.value != 0 {
          out := out + [Num(LowByte(v.value)), Num(HighPart(v.value))];
        } else {
          out := out + [Str("WORD"), Str(tokens[1])];
        }
      } else if AllStr(out) {
        start := v;
      } else {
        out := out + [Str("ORG"), Str(OrgText(v))];
      }
      return Pass;
    }

    /** The body of the inner loop of `resolveLabels` for a token at j that
        refers to the label named at i: a `.BYTE` or `.WORD` placeholder
        is filled in place (`stay`: j is looked at again), anything else is
        an instruction whose items are replaced. */
    method RewriteReference(i: nat, j: nat, labels: nat) returns (r: Outcome, stay: bool)
      requires i < |out| && j < |out| && j != i && out[j].Str? && out[i].Str?
      requires out[j] != Str("LABEL") && RefersTo(out[j].s, out[i].s)
      modifies this
      ensures symbols == old(symbols) && start == old(start) && org == old(org)
      ensures var step := Step(ops, symbols, start, i, Scan(old(out), j, labels));
              && (r.Pass? <==> step.Success?)
              && (r.Pass? ==> step.value == Scan(out, if stay then j else j + 1, labels))
              && (r.Fail? ==> r.error == step.error)
    {
      stay := false;
      var p := PrevIndex(out, j);
      if out[p].Num? {
        var n := GetNumber(symbols, out[j].s);
        if n.Failure? {
          return Fail(n.error), false;
        }
        out := out[j := if n.value.Some? then Num(n.value.value) else NoneItem];
        return Pass, true;
      }
      if out[p] == Str("WORD") {
        var n := GetNumber(symbols, out[j].s);
        if n.Failure? {
          return Fail(n.error), false;
        }
        if n.value.None? {
          return Fail(TypeError), false;
        }
        out := out[p := Num(LowByte(n.value.value))];
        out := out[j := Num(HighPart(n.value.value))];
        return Pass, true;
      }
      var arg := GetArgument(symbols, out[j].s);
      if arg.Failure? {
        return Fail(arg.error), false;
      }
      if out[p].NoneItem? {
        return Fail(AttributeError), false;
      }
      r := RewriteInstruction(j, labels, Upper(out[p].s), arg.value);
    }

    /** The replacement of the instruction whose operand at j refers to the
        label: a branch gets its zero-page opcode and the offset byte, any
        other mnemonic its absolute opcode and the operand's two bytes. */
    method RewriteInstruction(j: nat, labels: nat, op: string, arg: Arg) returns (r: Outcome)
      requires j < |out|
      modifies this
      ensures symbols == old(symbols) && start == old(start) && org == old(org)
      ensures var spec := Rewritten(ops, start, old(out), j, labels, op, arg);
              && (r.Pass? <==> spec.Success?)
              && (r.Pass? ==> out == spec.value)
              && (r.Fail? ==> r.error == spec.error)
    {
      var n := arg.value;
      if IsBranch(op) {
        if op !in ops || Z !in ops[op] {
          return Fail(KeyError);
        }
        if start.None? || !n.Resolved? {
          return Fail(TypeError);
        }
        var c := j + start.value - labels * 2;
        var d: int;
        if n.n < c {
          d := n.n - c;
        } else {
          d := n.n - c - 1;
        }
        if d > 127 || d < -128 {
          return Fail(BranchTooFar);
        }
        out := Take(out, j - 1) + [Num(ops[op][Z]), Num(d % 256)] + Drop(out, j + 1);
      } else {
        var t := Absolute(arg.mode);
        if op !in ops || t !in ops[op] {
          return Fail(KeyError);
        }
        if !n.Resolved? {
          return Fail(TypeError);
        }
        out := Take(out, j - 1) + [Num(ops[op][t]), Num(LowByte(n.n)), Num(HighPart(n.n))] + Drop(out, j + 2);
      }
      return Pass;
    }

    /** The inner loop of `resolveLabels` for the label whose name is at
        index i: every reference to it is rewritten in place. */
    method ScanReferences(i: nat) returns (r: Outcome)
      requires i < |out|
      modifies this
      ensures symbols == old(symbols) && start == old(start) && org == old(org)
      ensures var spec := InnerScan(ops, symbols, start, i, Scan(old(out), 0, 0));
              && (r.Pass? <==> spec.Success?)
              && (r.Pass? ==> out == spec.value)
              && (r.Fail? ==> r.error == spec.error)
    {
      ghost var spec := InnerScan(ops, symbols, start, i, Scan(out, 0, 0));
      var j: nat := 0;
      var labels: nat := 0;
      while j < |out|
        invariant j <= |out| && i < |out|
        invariant symbols == old(symbols) && start == old(start) && org == old(org)
        invariant InnerScan(ops, symbols, start, i, Scan(out, j, labels)) == spec
        decreases Rank1(Scan(out, j, labels)), Rank2(Scan(out, j, labels))
      {
        InnerScanStep(ops, symbols, start, i, Scan(out, j, labels));
        r, j, labels := ScanStep(i, j, labels);
        if r.Fail? {
          return;
        }
      }
      return Pass;
    }

    /** One iteration of the inner loop of `resolveLabels`: a "LABEL" tag
        is counted, a reference to the label named at i is rewritten, and
        anything else is passed over. */
    method ScanStep(i: nat, j: nat, labels: nat) returns (r: Outcome, j': nat, labels': nat)
      requires i < |out| && j < |out|
      modifies this
      ensures symbols == old(symbols) && start == old(start) && org == old(org)
      ensures var step := Step(ops, symbols, start, i, Scan(old(out), j, labels));
              && (r.Pass? <==> step.Success?)
              && (r.Pass? ==> step.value == Scan(out, j', labels'))
              && (r.Fail? ==> r.error == step.error)
    {
      if out[j] == Str("LABEL") {
        return Pass, j + 1, labels + 1;
      }
      if !out[j].Str? || j == i {
        return Pass, j + 1, labels;
      }
      if !out[i].Str? {
        return Fail(Unmodelled), j, labels;
      }
      if !RefersTo(out[j].s, out[i].s) {
        return Pass, j + 1, labels;
      }
      var stay;
      r, stay := RewriteReference(i, j, labels);
      j' := if stay then j else j + 1;
      labels' := labels;
    }

    /** The "ORG" case of `resolveLabels` at index i: the tag and its
        operand become the padding zeros. */
    method PadOrg(i: nat) returns (r: Outcome)
      requires i < |out| && out[i] == Str("ORG")
      modifies this
      ensures symbols == old(symbols) && start == old(start) && org == old(org)
      ensures var step := OuterStep(ops, start, Sweep(old(out), symbols, i));
              && (r.Pass? <==> step.Success?)
              && (r.Pass? ==> out == step.value.out && symbols == step.value.symbols)
              && (r.Fail? ==> r.error == step.error)
    {
      if i + 1 >= |out| {
        return Fail(IndexError);
      }
      var target := IntOfItem(out[i + 1]);
      if target.Failure? {
        return Fail(target.error);
      }
      if start.None? {
        return Fail(TypeError);
      }
      out := out[..i] + Zeros(target.value - i - start.value) + out[i + 2..];
      return Pass;
    }

    /** The "LABEL" case of `resolveLabels` at index i: the tag is popped,
        the name is bound to its address, its references are resolved and
        the name is popped. */
    method ResolveLabelAt(i: nat) returns (r: Outcome)
      requires i < |out| && out[i] == Str("LABEL")
      modifies this
      ensures start == old(start) && org == old(org)
      ensures var step := OuterStep(ops, start, Sweep(old(out), old(symbols), i));
              && (r.Pass? <==> step.Success?)
              && (r.Pass? ==> out == step.value.out && symbols == step.value.symbols)
              && (r.Fail? ==> r.error == step.error)
    {
      ghost var sw := Sweep(out, symbols, i);
      out := out[..i] + out[i + 1..];
      if start.None? {
        return Fail(TypeError);
      }
      if i >= |out| {
        return Fail(IndexError);
      }
      if !out[i].Str? {
        return Fail(Unmodelled);
      }
      symbols := symbols[out[i].s := Some(i + start.value)];
      ghost var popped := out;
      var scanned := ScanReferences(i);
      LabelStepResult(ops, start, sw, popped, symbols, InnerScan(ops, symbols, start, i, Scan(popped, 0, 0)));
      if scanned.Fail? {
        return scanned;
      }
      out := out[..i] + out[i + 1..];
      return Pass;
    }

    /** `resolveLabels()`, for at most `fuel` iterations of its outer loop:
        replaces "ORG" tags by padding and resolves each label in turn. */
    method ResolveLabels(fuel: nat) returns (r: Outcome)
      modifies this
      ensures start == old(start) && org == old(org)
      ensures var spec := ResolveSpec(ops, old(Snapshot()), fuel);
              && (r.Pass? <==> spec.Success?)
              && (r.Pass? ==> Snapshot() == spec.value)
              && (r.Fail? ==> r.error == spec.error)
    {
      ghost var total := OuterScan(ops, start, Sweep(out, symbols, 0), fuel);
      ResolveSpecScan(ops, Snapshot(), fuel);
      var i: nat := 0;
      var budget := fuel;
      while i < |out|
        invariant start == old(start) && org == old(org)
        invariant OuterScan(ops, start, Sweep(out, symbols, i), budget) == total
        decreases budget
      {
        if budget == 0 {
          assert total == Failure(OutOfFuel);
          return Fail(OutOfFuel);
        }
        r := OuterIteration(i, budget);
        if r.Fail? {
          assert total == Failure(r.error);
          return;
        }
        i := i + 1;
        budget := budget - 1;
      }
      assert total == Success(Sweep(out, symbols, i));
      return Pass;
    }

    /** One iteration of the outer loop, in terms of the whole scan: on
        success the rest of the scan from i + 1 is the scan from i; on
        failure the scan from i fails with the same exception. */
    method OuterIteration(i: nat, budget: nat) returns (r: Outcome)
      requires i < |out| && budget > 0
      modifies this
      ensures start == old(start) && org == old(org)
      ensures r.Pass? ==> OuterScan(ops, start, Sweep(out, symbols, i + 1), budget - 1)
                          == OuterScan(ops, start, Sweep(old(out), old(symbols), i), budget)
      ensures r.Fail? ==> OuterScan(ops, start, Sweep(old(out), old(symbols), i), budget) == Failure(r.error)
    {
      ghost var sw := Sweep(out, symbols, i);
      OuterScanStep(ops, start, sw, budget);
      r := OuterStepAt(i);
      if r.Pass? {
        assert Sweep(out, symbols, i + 1) == OuterStep(ops, start, sw).value;
      }
    }

    /** One iteration of the outer loop of `resolveLabels`: an "ORG" tag
        is padded, a "LABEL" tag resolved, anything else passed over. */
    method OuterStepAt(i: nat) returns (r: Outcome)
      requires i < |out|
      modifies this
      ensures start == old(start) && org == old(org)
      ensures var step := OuterStep(ops, start, Sweep(old(out), old(symbols), i));
              && (r.Pass? <==> step.Success?)
              && (r.Pass? ==> out == step.value.out && symbols == step.value.symbols)
              && (r.Fail? ==> r.error == step.error)
    {
      if out[i] == Str("ORG") {
        r := PadOrg(i);
      } else if out[i] == Str("LABEL") {
        r := ResolveLabelAt(i);
      } else {
        r := Pass;
      }
    }

    /** The line loop of `assemble`: every line that is not blank or a
        comment is split into tokens and assembled. */
    method AssembleLines(lines: seq<string>) returns (r: Outcome)
      modifies this
      ensures org == old(org)
      ensures var spec := EncodeLines(ops, old(Snapshot()), lines);
              && (r.Pass? <==> spec.Success?)
              && (r.Pass? ==> Snapshot() == spec.value)
              && (r.Fail? ==> r.error == spec.error)
    {
      var k := 0;
      while k < |lines|
        invariant k <= |lines| && org == old(org)
        invariant EncodeLines(ops, Snapshot(), lines[k..]) == EncodeLines(ops, old(Snapshot()), lines)
      {
        EncodeLinesStep(ops, Snapshot(), lines, k);
        r := AssembleLine(lines[k]);
        if r.Fail? {
          return;
        }
        k := k + 1;
      }
      return Pass;
    }

    /** The body of the line loop of `assemble`: the line is stripped, a
        blank or comment line is skipped, and otherwise the text before any
        ';' is split into tokens and assembled. */
    method AssembleLine(line: string) returns (r: Outcome)
      modifies this
      ensures org == old(org)
      ensures var spec := LineStep(ops, old(Snapshot()), line);
              && (r.Pass? <==> spec.Success?)
              && (r.Pass? ==> Snapshot() == spec.value)
              && (r.Fail? ==> r.error == spec.error)
    {
      var l := Strip(line);
      if l == [] || l[0] == ';' {
        return Pass;
      }
      var tokens := Words(BeforeComment(l));
      assert LineTokens(line) == Some(tokens);
      assert LineStep(ops, Snapshot(), line) == EncodeLine(ops, Snapshot(), tokens);
      r := AssembleTokens(tokens);
    }

    /** `assemble(asm)` for source text: resets the output, assembles every
        line, resolves the labels (at most `fuel` outer iterations) and
        returns the output list. */
    method Assemble(asm: string, fuel: nat) returns (r: Result<seq<Item>>)
      modifies this
      ensures org == old(org)
      ensures var spec := AssembleSpec(ops, old(Snapshot()), asm, fuel);
              && (r.Success? <==> spec.Success?)
              && (r.Success? ==> Snapshot() == spec.value && r.value == out)
              && (r.Failure? ==> r.error == spec.error)
    {
      out := [];
      var o := AssembleLines(Split(asm, '\n'));
      if o.Fail? {
        return Failure(o.error);
      }
      o := ResolveLabels(fuel);
      if o.Fail? {
        return Failure(o.error);
      }
      return Success(out);
    }
  }
}
