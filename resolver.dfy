/** The label-resolution pass, `resolveLabels`
    (py65asm/assembler.py:156-221), on values. The outer scan walks the
    output list and acts on "ORG" and "LABEL" tags; for each label the inner
    scan walks the whole list again and rewrites every placeholder that
    refers to it. */
module Resolver {
  import opened Base
  import opened Numbers
  import opened Operands
  import opened Encoder

  // Python list slicing

  /** `s[:m]` for any integer m: a negative m counts from the end. */
  function Take<T>(s: seq<T>, m: int): (r: seq<T>)
    ensures m >= 0 ==> r == s[..if m <= |s| then m else |s|]
    ensures m < 0 ==> r == s[..if |s| + m >= 0 then |s| + m else 0]
  {
    if m >= 0 then s[..if m <= |s| then m else |s|]
    else s[..if |s| + m >= 0 then |s| + m else 0]
  }

  /** `s[:m]` is a prefix of s: its first m items, or all but the last -m
      when m is negative, and never more than s. */
  lemma {:induction false} TakePrefix<T>(s: seq<T>, m: int)
    ensures var r := Take(s, m);
            && |r| == (if m >= 0 then (if m <= |s| then m else |s|) else (if |s| + m >= 0 then |s| + m else 0))
            && forall k :: 0 <= k < |r| ==> r[k] == s[k]
  {
  }

  /** `s[m:]` for a non-negative m. */
  function Drop<T>(s: seq<T>, m: nat): (r: seq<T>)
    ensures |r| == if m <= |s| then |s| - m else 0
    ensures forall k :: 0 <= k < |r| ==> r[k] == s[m + k]
  {
    s[if m <= |s| then m else |s|..]
  }

  /** `[0] * k`: k zeros, none when k is negative. */
  function Zeros(k: int): (r: seq<Item>)
    ensures |r| == if k > 0 then k else 0
    ensures forall m :: 0 <= m < |r| ==> r[m] == Num(0)
  {
    seq(if k > 0 then k else 0, _ => Num(0))
  }

  /** The index Python reads for `out[j-1]`: the last item when j is 0. */
  function PrevIndex(out: seq<Item>, j: nat): (p: nat)
    requires j < |out|
    ensures p < |out|
    ensures j > 0 ==> p == j - 1
    ensures j == 0 ==> p == |out| - 1
  {
    if j == 0 then |out| - 1 else j - 1
  }

  /** The item read is the one just before j, counting cyclically: the
      index after it, modulo the length, is j. */
  lemma {:induction false} PrevIndexWraps(out: seq<Item>, j: nat)
    requires j < |out|
    ensures (PrevIndex(out, j) + 1) % |out| == j
  {
    if j == 0 {
      assert PrevIndex(out, j) + 1 == |out|;
    }
  }

  // Which tokens refer to a label

  /** `re.search("^[\(#]*" + name + "([\),]|$)", token)`, the label name
      read literally: the token is some run of '(' and '#', then the name,
      then the end of the token or a ')' or ','. */
  predicate RefersTo(token: string, name: string)
    decreases |token|
  {
    (name <= token && (|token| == |name| || token[|name|] == ')' || token[|name|] == ','))
    || (token != [] && (token[0] == '(' || token[0] == '#') && RefersTo(token[1..], name))
  }

  /** The name occurs in `token` at index k in the sense of the pattern. */
  predicate ReferenceAt(token: string, name: string, k: nat)
  {
    && k + |name| <= |token|
    && (forall m :: 0 <= m < k ==> token[m] == '(' || token[m] == '#')
    && token[k..k + |name|] == name
    && (k + |name| == |token| || token[k + |name|] == ')' || token[k + |name|] == ',')
  }

  /** The recursive matcher is the pattern: a match exists at some index. */
  lemma {:induction false} RefersToSpec(token: string, name: string)
    ensures RefersTo(token, name) <==> exists k: nat :: ReferenceAt(token, name, k)
  {
    if RefersTo(token, name) {
      RefersToFound(token, name);
    } else if exists k: nat :: ReferenceAt(token, name, k) {
      var k: nat :| ReferenceAt(token, name, k);
      FoundRefersTo(token, name, k);
    }
  }

  /** A match of the recursive matcher is at some index. */
  lemma {:induction false} RefersToFound(token: string, name: string)
    requires RefersTo(token, name)
    ensures exists k: nat :: ReferenceAt(token, name, k)
    decreases |token|
  {
    if name <= token && (|token| == |name| || token[|name|] == ')' || token[|name|] == ',') {
      assert token[0..|name|] == name;
      assert ReferenceAt(token, name, 0);
    } else {
      RefersToFound(token[1..], name);
      var k: nat :| ReferenceAt(token[1..], name, k);
      ShiftReference(token, name, k);
    }
  }

  /** A match at index k is found by the recursive matcher. */
  lemma {:induction false} FoundRefersTo(token: string, name: string, k: nat)
    requires ReferenceAt(token, name, k)
    ensures RefersTo(token, name)
    decreases k
  {
    if k == 0 {
      assert token[..|name|] == token[0..|name|];
    } else {
      UnshiftReference(token, name, k);
      FoundRefersTo(token[1..], name, k - 1);
    }
  }

  /** A match in the token's tail after a '(' or '#' is a match one
      index further on. */
  lemma {:induction false} ShiftReference(token: string, name: string, k: nat)
    requires token != [] && (token[0] == '(' || token[0] == '#')
    requires ReferenceAt(token[1..], name, k)
    ensures ReferenceAt(token, name, k + 1)
  {
    assert token[1..][k..k + |name|] == token[k + 1..k + 1 + |name|];
    forall m | 0 <= m < k + 1
      ensures token[m] == '(' || token[m] == '#'
    {
      if m > 0 { assert token[m] == token[1..][m - 1]; }
    }
  }

  /** A match at a positive index is a match in the token's tail, one
      index back. */
  lemma {:induction false} UnshiftReference(token: string, name: string, k: nat)
    requires k > 0 && ReferenceAt(token, name, k)
    ensures ReferenceAt(token[1..], name, k - 1)
  {
    assert token[1..][k - 1..k - 1 + |name|] == token[k..k + |name|];
    forall m | 0 <= m < k - 1
      ensures token[1..][m] == '(' || token[1..][m] == '#'
    {
      assert token[1..][m] == token[m + 1];
    }
  }

  // The inner scan

  /** The state of the inner loop: the list, the index j and the number of
      "LABEL" tags met so far. */
  datatype Scan = Scan(out: seq<Item>, j: nat, labels: nat)

  /** The two components of the inner loop's termination measure: a rewrite
      at j = 0 may double the list, but it happens at most once per scan. */
  function Rank1(sc: Scan): nat { if sc.j == 0 then 1 else 0 }

  function Rank2(sc: Scan): nat
    requires sc.j <= |sc.out|
  {
    2 * (|sc.out| - sc.j) + (if sc.j < |sc.out| && sc.out[sc.j].Str? then 1 else 0)
  }

  /** `next` is a step forward from `sc`: the list has not shrunk and the
      measure has gone down. */
  predicate Progress(sc: Scan, next: Scan)
    requires sc.j <= |sc.out|
  {
    && |next.out| >= |sc.out| && next.j <= |next.out|
    && (Rank1(next) < Rank1(sc) || (Rank1(next) == Rank1(sc) && Rank2(next) < Rank2(sc)))
  }

  /** The offset byte's signed value for a branch to `n` whose own position
      counts as `c`: forward targets are counted from one further on. */
  function BranchOffset(n: int, c: int): int
  {
    if n < c then n - c else n - c - 1
  }

  /** The replacement of an instruction whose mnemonic `op` is at index
      PrevIndex(j) and whose operand, resolved now to `arg`, is at j. A
      branch becomes its zero-page opcode and an offset byte; anything else
      its absolute opcode and a little-endian word. */
  function Rewritten(ops: OpTable, start: Option<int>, out: seq<Item>, j: nat, labels: nat, op: string, arg: Arg)
    : (r: Result<seq<Item>>)
    requires j < |out|
    ensures r.Success? && IsBranch(op) ==>
              |r.value| == (if j == 0 then 2 * |out| else |out|)
    ensures r.Success? && !IsBranch(op) ==>
              |r.value| == (if j == 0 then |out| + 2 + (if |out| >= 2 then |out| - 2 else 0)
                            else if j + 1 == |out| then |out| + 1 else |out|)
  {
    if IsBranch(op) then
      if op !in ops || Z !in ops[op] then Failure(KeyError)
      else if start.None? || !arg.value.Resolved? then Failure(TypeError)
      else
        var d := BranchOffset(arg.value.n, j + start.value - 2 * labels);
        if d > 127 || d < -128 then Failure(BranchTooFar)
        else Success(Take(out, j - 1) + [Num(ops[op][Z]), Num(d % 256)] + Drop(out, j + 1))
    else
      var t := Absolute(arg.mode);
      if op !in ops || t !in ops[op] then Failure(KeyError)
      else if !arg.value.Resolved? then Failure(TypeError)
      else
        Success(Take(out, j - 1) + [Num(ops[op][t]), Num(LowByte(arg.value.n)), Num(HighPart(arg.value.n))]
                + Drop(out, j + 2))
  }

  /** One iteration of the inner loop, which resolves the label whose name
      is at index i. */
  function Step(ops: OpTable, symbols: map<string, Option<int>>, start: Option<int>, i: nat, sc: Scan)
    : (r: Result<Scan>)
    requires sc.j < |sc.out| && i < |sc.out|
    ensures r.Success? ==> Progress(sc, r.value)
  {
    var out := sc.out;
    var j := sc.j;
    if out[j] == Str("LABEL") then Success(Scan(out, j + 1, sc.labels + 1))
    else if !out[j].Str? || j == i then Success(Scan(out, j + 1, sc.labels))
    else if !out[i].Str? then Failure(Unmodelled)
    else if !RefersTo(out[j].s, out[i].s) then Success(Scan(out, j + 1, sc.labels))
    else
      var p := PrevIndex(out, j);
      if out[p].Num? then
        // a `.BYTE` placeholder: the item becomes the number, or None
        var n :- GetNumber(symbols, out[j].s);
        Success(Scan(out[j := if n.Some? then Num(n.value) else NoneItem], j, sc.labels))
      else if out[p] == Str("WORD") then
        // a `.WORD` placeholder: tag and operand become the two bytes
        var n :- GetNumber(symbols, out[j].s);
        if n.None? then Failure(TypeError)
        else Success(Scan(out[p := Num(LowByte(n.value))][j := Num(HighPart(n.value))], j, sc.labels))
      else
        var arg :- GetArgument(symbols, out[j].s);
        if out[p].NoneItem? then Failure(AttributeError)
        else
          var out' :- Rewritten(ops, start, out, j, sc.labels, Upper(out[p].s), arg);
          Success(Scan(out', j + 1, sc.labels))
  }

  /** The inner loop run to its end: the list with every reference to the
      label at i rewritten, or the exception. */
  function InnerScan(ops: OpTable, symbols: map<string, Option<int>>, start: Option<int>, i: nat, sc: Scan)
    : (r: Result<seq<Item>>)
    requires sc.j <= |sc.out| && i < |sc.out|
    ensures r.Success? ==> |r.value| >= |sc.out|
    decreases Rank1(sc), Rank2(sc)
  {
    if sc.j == |sc.out| then Success(sc.out)
    else
      var next :- Step(ops, symbols, start, i, sc);
      InnerScan(ops, symbols, start, i, next)
  }

  /** One iteration of the inner loop, unfolded. */
  lemma {:induction false} InnerScanStep(ops: OpTable, symbols: map<string, Option<int>>, start: Option<int>, i: nat, sc: Scan)
    requires sc.j < |sc.out| && i < |sc.out|
    ensures var step := Step(ops, symbols, start, i, sc);
            InnerScan(ops, symbols, start, i, sc)
            == if step.Failure? then Failure(step.error) else InnerScan(ops, symbols, start, i, step.value)
  {
  }

  // The outer scan

  /** The state of the outer loop: the list, the symbol table and i. */
  datatype Sweep = Sweep(out: seq<Item>, symbols: map<string, Option<int>>, i: nat)

  /** One iteration of the outer loop at index i. */
  function OuterStep(ops: OpTable, start: Option<int>, sw: Sweep): (r: Result<Sweep>)
    requires sw.i < |sw.out|
    ensures r.Success? ==> r.value.i == sw.i + 1
  {
    var out := sw.out;
    var i := sw.i;
    if out[i] == Str("ORG") then
      if i + 1 >= |out| then Failure(IndexError)
      else
        var target :- IntOfItem(out[i + 1]);
        if start.None? then Failure(TypeError)
        else Success(Sweep(out[..i] + Zeros(target - i - start.value) + out[i + 2..], sw.symbols, i + 1))
    else if out[i] == Str("LABEL") then
      var popped := out[..i] + out[i + 1..];
      if start.None? then Failure(TypeError)
      else if i >= |popped| then Failure(IndexError)
      else if !popped[i].Str? then Failure(Unmodelled)
      else
        ResolveLabel(ops, start, i, popped, sw.symbols[popped[i].s := Some(i + start.value)])
    else Success(Sweep(out, sw.symbols, i + 1))
  }

  /** The label whose name is now at index i, with its value bound: the
      inner loop resolves its references, then the name is popped. */
  function ResolveLabel(ops: OpTable, start: Option<int>, i: nat, popped: seq<Item>,
                        symbols': map<string, Option<int>>): (r: Result<Sweep>)
    requires i < |popped|
    ensures r.Success? ==> r.value.i == i + 1
  {
    var scanned :- InnerScan(ops, symbols', start, i, Scan(popped, 0, 0));
    Success(Sweep(scanned[..i] + scanned[i + 1..], symbols', i + 1))
  }

  /** The outer loop run to its end, for at most `fuel` iterations. */
  function OuterScan(ops: OpTable, start: Option<int>, sw: Sweep, fuel: nat): Result<Sweep>
    decreases fuel
  {
    if sw.i >= |sw.out| then Success(sw)
    else if fuel == 0 then Failure(OutOfFuel)
    else
      var next :- OuterStep(ops, start, sw);
      OuterScan(ops, start, next, fuel - 1)
  }

  /** One iteration of the outer loop, unfolded. */
  lemma {:induction false} OuterScanStep(ops: OpTable, start: Option<int>, sw: Sweep, fuel: nat)
    requires sw.i < |sw.out| && fuel > 0
    ensures var step := OuterStep(ops, start, sw);
            OuterScan(ops, start, sw, fuel)
            == if step.Failure? then Failure(step.error) else OuterScan(ops, start, step.value, fuel - 1)
  {
  }

  /** The outer loop stops only when i has reached the end of the list. */
  lemma {:induction false} OuterScanEnds(ops: OpTable, start: Option<int>, sw: Sweep, fuel: nat)
    requires OuterScan(ops, start, sw, fuel).Success?
    ensures OuterScan(ops, start, sw, fuel).value.i >= |OuterScan(ops, start, sw, fuel).value.out|
    decreases fuel
  {
    if sw.i < |sw.out| {
      OuterScanStep(ops, start, sw, fuel);
      OuterScanEnds(ops, start, OuterStep(ops, start, sw).value, fuel - 1);
    }
  }

  /** The outer step at a "LABEL" tag, given the inner scan's result. */
  lemma {:induction false} LabelStepResult(ops: OpTable, start: Option<int>, sw: Sweep, popped: seq<Item>,
                                           symbols': map<string, Option<int>>, found: Result<seq<Item>>)
    requires sw.i < |sw.out| && sw.out[sw.i] == Str("LABEL") && start.Some?
    requires popped == sw.out[..sw.i] + sw.out[sw.i + 1..] && sw.i < |popped| && popped[sw.i].Str?
    requires symbols' == sw.symbols[popped[sw.i].s := Some(sw.i + start.value)]
    requires found == InnerScan(ops, symbols', start, sw.i, Scan(popped, 0, 0))
    ensures OuterStep(ops, start, sw)
            == if found.Failure? then Failure(found.error)
               else Success(Sweep(found.value[..sw.i] + found.value[sw.i + 1..], symbols', sw.i + 1))
  {
    if found.Failure? {
      LabelStepFails(ops, start, sw, popped, symbols', found);
    } else {
      LabelStepPasses(ops, start, sw, popped, symbols', found);
    }
  }

  lemma {:induction false} LabelStepFails(ops: OpTable, start: Option<int>, sw: Sweep, popped: seq<Item>,
                                          symbols': map<string, Option<int>>, found: Result<seq<Item>>)
    requires sw.i < |sw.out| && sw.out[sw.i] == Str("LABEL") && start.Some?
    requires popped == sw.out[..sw.i] + sw.out[sw.i + 1..] && sw.i < |popped| && popped[sw.i].Str?
    requires symbols' == sw.symbols[popped[sw.i].s := Some(sw.i + start.value)]
    requires found == InnerScan(ops, symbols', start, sw.i, Scan(popped, 0, 0)) && found.Failure?
    ensures OuterStep(ops, start, sw) == Failure(found.error)
  {
    LabelStepIs(ops, start, sw, popped, symbols');
    ResolveLabelFails(ops, start, sw.i, popped, symbols');
  }

  /** At a "LABEL" tag whose name is a string, the outer step is the
      resolution of that label. */
  lemma {:induction false} LabelStepIs(ops: OpTable, start: Option<int>, sw: Sweep, popped: seq<Item>,
                                       symbols': map<string, Option<int>>)
    requires sw.i < |sw.out| && sw.out[sw.i] == Str("LABEL") && start.Some?
    requires popped == sw.out[..sw.i] + sw.out[sw.i + 1..] && sw.i < |popped| && popped[sw.i].Str?
    requires symbols' == sw.symbols[popped[sw.i].s := Some(sw.i + start.value)]
    ensures OuterStep(ops, start, sw) == ResolveLabel(ops, start, sw.i, popped, symbols')
  {
    assert sw.out[sw.i] != Str("ORG");
  }

  /** An exception in the inner loop is the exception of the label's
      resolution. */
  lemma {:induction false} ResolveLabelFails(ops: OpTable, start: Option<int>, i: nat, popped: seq<Item>,
                                             symbols': map<string, Option<int>>)
    requires i < |popped| && InnerScan(ops, symbols', start, i, Scan(popped, 0, 0)).Failure?
    ensures ResolveLabel(ops, start, i, popped, symbols')
            == Failure(InnerScan(ops, symbols', start, i, Scan(popped, 0, 0)).error)
  {
  }

  lemma {:induction false} LabelStepPasses(ops: OpTable, start: Option<int>, sw: Sweep, popped: seq<Item>,
                                           symbols': map<string, Option<int>>, found: Result<seq<Item>>)
    requires sw.i < |sw.out| && sw.out[sw.i] == Str("LABEL") && start.Some?
    requires popped == sw.out[..sw.i] + sw.out[sw.i + 1..] && sw.i < |popped| && popped[sw.i].Str?
    requires symbols' == sw.symbols[popped[sw.i].s := Some(sw.i + start.value)]
    requires found == InnerScan(ops, symbols', start, sw.i, Scan(popped, 0, 0)) && found.Success?
    ensures OuterStep(ops, start, sw) == Success(Sweep(found.value[..sw.i] + found.value[sw.i + 1..], symbols', sw.i + 1))
  {
    LabelStepIs(ops, start, sw, popped, symbols');
    ResolveLabelPasses(ops, start, sw.i, popped, symbols');
  }

  /** After the inner loop the name at index i is popped. */
  lemma {:induction false} ResolveLabelPasses(ops: OpTable, start: Option<int>, i: nat, popped: seq<Item>,
                                              symbols': map<string, Option<int>>)
    requires i < |popped| && InnerScan(ops, symbols', start, i, Scan(popped, 0, 0)).Success?
    ensures var scanned := InnerScan(ops, symbols', start, i, Scan(popped, 0, 0)).value;
            ResolveLabel(ops, start, i, popped, symbols')
            == Success(Sweep(scanned[..i] + scanned[i + 1..], symbols', i + 1))
  {
  }

  /** `resolveLabels()`: the outer loop from i = 0. */
  function ResolveSpec(ops: OpTable, st: State, fuel: nat): (r: Result<State>)
    ensures r.Success? ==> r.value.start == st.start
  {
    var sw :- OuterScan(ops, st.start, Sweep(st.out, st.symbols, 0), fuel);
    Success(st.(out := sw.out, symbols := sw.symbols))
  }

  /** `resolveLabels` succeeds exactly when its outer scan does, with the
      scan's list and symbol table, and fails with the scan's exception. */
  lemma {:induction false} ResolveSpecScan(ops: OpTable, st: State, fuel: nat)
    ensures var scan := OuterScan(ops, st.start, Sweep(st.out, st.symbols, 0), fuel);
            var r := ResolveSpec(ops, st, fuel);
            && (r.Success? <==> scan.Success?)
            && (r.Success? ==> r.value == State(scan.value.symbols, scan.value.out, st.start))
            && (r.Failure? ==> r.error == scan.error)
  {
  }

  // Properties

  /** How the processor reads an offset byte: two's complement. */
  function SignedByte(b: int): int
  {
    if b >= 128 then b - 256 else b
  }

  /** A branch rewrite at j >= 1 keeps the list's length and every item
      outside j-1 and j; it fails with BranchTooFar exactly when the offset
      leaves [-128, 127], and otherwise the offset byte, read as signed and
      added to the address the processor counts from (c for a backward
      target, c + 1 for a forward one), lands on the label. */
  lemma {:induction false} BranchRewrite(ops: OpTable, start: Option<int>, out: seq<Item>, j: nat, labels: nat,
                                         op: string, arg: Arg)
    requires 1 <= j < |out| && IsBranch(op) && op in ops && Z in ops[op]
    requires start.Some? && arg.value.Resolved?
    ensures var c := j + start.value - 2 * labels;
            var d := BranchOffset(arg.value.n, c);
            var r := Rewritten(ops, start, out, j, labels, op, arg);
            && (r.Success? <==> -128 <= d <= 127)
            && (r.Failure? ==> r.error == BranchTooFar)
            && (r.Success? ==>
                  && |r.value| == |out| && r.value[..j - 1] == out[..j - 1] && r.value[j + 1..] == out[j + 1..]
                  && r.value[j - 1] == Num(ops[op][Z]) && r.value[j].Num? && 0 <= r.value[j].n < 256
                  && SignedByte(r.value[j].n) + (if arg.value.n < c then c else c + 1) == arg.value.n)
  {
    var c := j + start.value - 2 * labels;
    var d := BranchOffset(arg.value.n, c);
    var r := Rewritten(ops, start, out, j, labels, op, arg);
    if r.Success? {
      var front := Take(out, j - 1);
      assert r.value == front + [Num(ops[op][Z]), Num(d % 256)] + Drop(out, j + 1);
      assert r.value[..j - 1] == front;
      assert r.value[j + 1..] == Drop(out, j + 1);
    }
  }

  /** A rewrite of any other instruction at 1 <= j < |out| - 1 keeps the
      list's length and every item outside j-1 .. j+1, which become the
      absolute-mode opcode and the operand's low and high byte. A missing
      opcode raises KeyError and an operand without a value TypeError. */
  lemma {:induction false} WideRewrite(ops: OpTable, start: Option<int>, out: seq<Item>, j: nat, labels: nat,
                                       op: string, arg: Arg)
    requires 1 <= j && j + 1 < |out| && !IsBranch(op)
    ensures var t := Absolute(arg.mode);
            var r := Rewritten(ops, start, out, j, labels, op, arg);
            && (op !in ops || t !in ops[op] <==> r == Failure(KeyError))
            && (op in ops && t in ops[op] ==> (r.Failure? <==> !arg.value.Resolved?))
            && (r.Failure? ==> r.error == KeyError || r.error == TypeError)
            && (r.Success? ==>
                  && |r.value| == |out| && r.value[..j - 1] == out[..j - 1] && r.value[j + 2..] == out[j + 2..]
                  && r.value[j - 1] == Num(ops[op][t])
                  && r.value[j].Num? && r.value[j + 1].Num? && 0 <= r.value[j].n < 256
                  && r.value[j + 1].n * 256 + r.value[j].n == arg.value.n)
  {
    var r := Rewritten(ops, start, out, j, labels, op, arg);
    if r.Success? {
      var t := Absolute(arg.mode);
      var n := arg.value.n;
      var front := Take(out, j - 1);
      assert r.value == front + [Num(ops[op][t]), Num(LowByte(n)), Num(HighPart(n))] + Drop(out, j + 2);
      assert r.value[..j - 1] == front;
      assert r.value[j + 2..] == Drop(out, j + 2);
    }
  }

  /** A branch operand at index 0 reads its mnemonic from the end of the
      list, and the slices `out[:-1]` and `out[1:]` then hold nearly the
      whole list twice: the rewrite doubles its length. */
  lemma {:induction false} WrapAroundRewrite(ops: OpTable, start: Option<int>, out: seq<Item>, labels: nat,
                                             op: string, arg: Arg)
    requires |out| >= 1 && IsBranch(op)
    requires Rewritten(ops, start, out, 0, labels, op, arg).Success?
    ensures var r := Rewritten(ops, start, out, 0, labels, op, arg).value;
            && |r| == 2 * |out|
            && r[..|out| - 1] == out[..|out| - 1] && r[|out| + 1..] == out[1..]
  {
    var r := Rewritten(ops, start, out, 0, labels, op, arg).value;
    var front := Take(out, -1);
    assert front == out[..|out| - 1];
    assert r[..|out| - 1] == front;
    assert r[|out| + 1..] == Drop(out, 1);
  }

  /** The item at j is a placeholder that refers to the label named at i. */
  predicate IsReference(sc: Scan, i: nat)
    requires sc.j < |sc.out| && i < |sc.out|
  {
    && sc.out[sc.j].Str? && sc.out[sc.j] != Str("LABEL") && sc.j != i
    && sc.out[i].Str? && RefersTo(sc.out[sc.j].s, sc.out[i].s)
  }

  /** The inner loop passes over an item that is not a reference to the
      label, counting it when it is a "LABEL" tag. */
  lemma {:induction false} StepPassesOver(ops: OpTable, symbols: map<string, Option<int>>, start: Option<int>,
                                          i: nat, sc: Scan)
    requires sc.j < |sc.out| && i < |sc.out| && sc.out[i].Str?
    requires !IsReference(sc, i)
    ensures var r := Step(ops, symbols, start, i, sc);
            && (sc.out[sc.j] == Str("LABEL") ==> r == Success(Scan(sc.out, sc.j + 1, sc.labels + 1)))
            && (sc.out[sc.j] != Str("LABEL") ==> r == Success(Scan(sc.out, sc.j + 1, sc.labels)))
  {
  }

  /** A `.BYTE` placeholder (the item before it is a number) is replaced in
      place by the value of its symbol, or by None while the symbol has no
      value; j stays, so the loop looks at the new item once more. */
  lemma {:induction false} StepByte(ops: OpTable, symbols: map<string, Option<int>>, start: Option<int>,
                                    i: nat, sc: Scan)
    requires sc.j < |sc.out| && i < |sc.out| && IsReference(sc, i)
    requires sc.out[PrevIndex(sc.out, sc.j)].Num?
    ensures var g := GetNumber(symbols, sc.out[sc.j].s);
            var r := Step(ops, symbols, start, i, sc);
            && (r.Success? <==> g.Success?)
            && (r.Failure? ==> r.error == g.error)
            && (r.Success? ==>
                  && r.value.j == sc.j && r.value.labels == sc.labels && |r.value.out| == |sc.out|
                  && r.value.out[sc.j] == (if g.value.Some? then Num(g.value.value) else NoneItem)
                  && forall k :: 0 <= k < |sc.out| && k != sc.j ==> r.value.out[k] == sc.out[k])
  {
  }

  /** A `.WORD` placeholder (the item before it is the "WORD" tag) has the
      tag replaced by the value's low byte and itself by the high part; a
      symbol without a value raises TypeError. */
  lemma {:induction false} StepWord(ops: OpTable, symbols: map<string, Option<int>>, start: Option<int>,
                                    i: nat, sc: Scan)
    requires sc.j < |sc.out| && i < |sc.out| && IsReference(sc, i)
    requires sc.out[PrevIndex(sc.out, sc.j)] == Str("WORD")
    ensures var p := PrevIndex(sc.out, sc.j);
            var g := GetNumber(symbols, sc.out[sc.j].s);
            var r := Step(ops, symbols, start, i, sc);
            && p != sc.j
            && (g.Failure? ==> r == Failure(g.error))
            && (g.Success? && g.value.None? ==> r == Failure(TypeError))
            && (g.Success? && g.value.Some? ==>
                  && r.Success? && r.value.j == sc.j && r.value.labels == sc.labels
                  && |r.value.out| == |sc.out|
                  && r.value.out[p] == Num(LowByte(g.value.value))
                  && r.value.out[sc.j] == Num(HighPart(g.value.value))
                  && forall k :: 0 <= k < |sc.out| && k != p && k != sc.j ==> r.value.out[k] == sc.out[k])
  {
  }

  // The count of "LABEL" tags before j

  /** The number of "LABEL" tags in `s`. */
  function CountLabels(s: seq<Item>): nat
  {
    if s == [] then 0 else CountLabels(s[..|s| - 1]) + (if s[|s| - 1] == Str("LABEL") then 1 else 0)
  }

  lemma {:induction false} CountAppend(a: seq<Item>, b: seq<Item>)
    ensures CountLabels(a + b) == CountLabels(a) + CountLabels(b)
    decreases |b|
  {
    if b != [] {
      var b' := b[..|b| - 1];
      assert (a + b)[..|a + b| - 1] == a + b';
      assert (a + b)[|a + b| - 1] == b[|b| - 1];
      CountAppend(a, b');
      assert CountLabels(b) == CountLabels(b') + (if b[|b| - 1] == Str("LABEL") then 1 else 0);
    } else {
      assert a + b == a;
    }
  }

  /** A slice that grows by one item grows its count by that item's. */
  lemma {:induction false} CountNext(s: seq<Item>, j: nat)
    requires j < |s|
    ensures CountLabels(s[..j + 1]) == CountLabels(s[..j]) + (if s[j] == Str("LABEL") then 1 else 0)
  {
    assert s[..j + 1][..j] == s[..j];
  }

  /** The loop's counter holds the number of tags before j. */
  predicate Counted(sc: Scan)
  {
    sc.j <= |sc.out| && sc.labels == CountLabels(sc.out[..sc.j])
  }

  /** A rewrite keeps the count before the next j: the mnemonic it
      replaces at j - 1 is never the tag, because the tag is not an opcode. */
  lemma {:induction false} RewriteKeepsCount(ops: OpTable, start: Option<int>, out: seq<Item>, j: nat,
                                             labels: nat, op: string, arg: Arg)
    requires j < |out| && out[j] != Str("LABEL") && "LABEL" !in ops
    requires j > 0 ==> out[j - 1] != Str("LABEL")
    requires Rewritten(ops, start, out, j, labels, op, arg).Success?
    ensures var r := Rewritten(ops, start, out, j, labels, op, arg).value;
            j + 1 <= |r| && CountLabels(r[..j + 1]) == CountLabels(out[..j])
  {
    var r := Rewritten(ops, start, out, j, labels, op, arg).value;
    RewriteFront(ops, start, out, j, labels, op, arg);
    var front := Take(out, j - 1);
    if j == 0 {
      FirstKept(out, r, front);
    } else {
      assert front == out[..j - 1];
      SecondNumbers(out, r, j);
    }
  }

  /** A rewrite keeps the items before j - 1 and puts two numbers after
      them. */
  lemma {:induction false} RewriteFront(ops: OpTable, start: Option<int>, out: seq<Item>, j: nat,
                                        labels: nat, op: string, arg: Arg)
    requires j < |out| && Rewritten(ops, start, out, j, labels, op, arg).Success?
    ensures var r := Rewritten(ops, start, out, j, labels, op, arg).value;
            var front := Take(out, j - 1);
            && |front| + 2 <= |r| && r[..|front|] == front
            && r[|front|].Num? && r[|front| + 1].Num?
  {
  }

  lemma {:induction false} FirstKept(out: seq<Item>, r: seq<Item>, front: seq<Item>)
    requires 1 <= |out| && front == out[..|out| - 1] && out[0] != Str("LABEL")
    requires |front| + 2 <= |r| && r[..|front|] == front && r[|front|].Num?
    ensures CountLabels(r[..1]) == CountLabels(out[..0])
  {
    assert r[..1][..0] == [];
    if |out| >= 2 {
      assert r[0] == front[0] == out[0];
    }
  }

  lemma {:induction false} SecondNumbers(out: seq<Item>, r: seq<Item>, j: nat)
    requires 1 <= j < |out| && out[j - 1] != Str("LABEL")
    requires j + 1 <= |r| && r[..j - 1] == out[..j - 1] && r[j - 1].Num? && r[j].Num?
    ensures CountLabels(r[..j + 1]) == CountLabels(out[..j])
  {
    CountNext(r, j);
    CountNext(r, j - 1);
    CountNext(out, j - 1);
  }

  /** Any other reference is an instruction operand: the step rewrites the
      instruction whose mnemonic is the item before it and moves past it;
      it fails with the operand's exception, with AttributeError when that
      item is None, or with the rewrite's exception. */
  lemma {:induction false} StepRewrite(ops: OpTable, symbols: map<string, Option<int>>, start: Option<int>,
                                       i: nat, sc: Scan)
    requires sc.j < |sc.out| && i < |sc.out| && IsReference(sc, i)
    requires !sc.out[PrevIndex(sc.out, sc.j)].Num? && sc.out[PrevIndex(sc.out, sc.j)] != Str("WORD")
    ensures var p := PrevIndex(sc.out, sc.j);
            var arg := GetArgument(symbols, sc.out[sc.j].s);
            var r := Step(ops, symbols, start, i, sc);
            && (arg.Failure? ==> r == Failure(arg.error))
            && (arg.Success? && sc.out[p].NoneItem? ==> r == Failure(AttributeError))
            && (arg.Success? && sc.out[p].Str? ==>
                  var rw := Rewritten(ops, start, sc.out, sc.j, sc.labels, Upper(sc.out[p].s), arg.value);
                  && (r.Success? <==> rw.Success?)
                  && (r.Failure? ==> r.error == rw.error)
                  && (r.Success? ==> r.value == Scan(rw.value, sc.j + 1, sc.labels)))
  {
  }

  /** One step of the inner loop keeps the counter equal to the number of
      tags before j, when "LABEL" is not a mnemonic of the opcode table. */
  lemma {:induction false} StepKeepsCount(ops: OpTable, symbols: map<string, Option<int>>, start: Option<int>,
                                          i: nat, sc: Scan)
    requires sc.j < |sc.out| && i < |sc.out| && Counted(sc) && "LABEL" !in ops
    requires Step(ops, symbols, start, i, sc).Success?
    ensures Counted(Step(ops, symbols, start, i, sc).value)
  {
    var out := sc.out;
    var j := sc.j;
    var p := PrevIndex(out, j);
    if !IsReference(sc, i) {
      CountNext(out, j);
    } else if out[p].Num? {
      StepByte(ops, symbols, start, i, sc);
      var next := Step(ops, symbols, start, i, sc).value;
      assert next.out[..j] == out[..j];
    } else if out[p] == Str("WORD") {
      StepWord(ops, symbols, start, i, sc);
      WordKeepsCount(out, Step(ops, symbols, start, i, sc).value.out, j, p);
    } else {
      StepRewrite(ops, symbols, start, i, sc);
      assert out[p].Str?;
      var arg := GetArgument(symbols, out[j].s).value;
      var op := Upper(out[p].s);
      RewriteOpcode(ops, start, out, j, sc.labels, op, arg);
      if j > 0 && out[j - 1] == Str("LABEL") {
        assert out[p].s == "LABEL";
        UpperLabel();
        assert false;
      }
      RewriteKeepsCount(ops, start, out, j, sc.labels, op, arg);
    }
  }

  /** A successful rewrite found an opcode for its mnemonic. */
  lemma {:induction false} RewriteOpcode(ops: OpTable, start: Option<int>, out: seq<Item>, j: nat,
                                         labels: nat, op: string, arg: Arg)
    requires j < |out| && Rewritten(ops, start, out, j, labels, op, arg).Success?
    ensures op in ops
  {
  }

  lemma {:induction false} UpperLabel()
    ensures Upper("LABEL") == "LABEL"
  {
  }

  /** Filling a `.WORD` placeholder replaces the tag before j by a number,
      so the count before j is kept. */
  lemma {:induction false} WordKeepsCount(out: seq<Item>, out': seq<Item>, j: nat, p: nat)
    requires j < |out| == |out'| && p < |out| && out[p] == Str("WORD") && out'[p].Num?
    requires (j > 0 ==> p == j - 1) && (j == 0 ==> p == |out| - 1)
    requires forall k :: 0 <= k < |out| && k != p && k != j ==> out'[k] == out[k]
    ensures CountLabels(out'[..j]) == CountLabels(out[..j])
  {
    if j > 0 {
      assert out'[..j] == out'[..j - 1] + [out'[j - 1]];
      assert out[..j] == out[..j - 1] + [out[j - 1]];
      assert out'[..j - 1] == out[..j - 1];
      CountAppend(out[..j - 1], [out'[j - 1]]);
      CountAppend(out[..j - 1], [out[j - 1]]);
      assert [out'[j - 1]][..0] == [] && [out[j - 1]][..0] == [];
    } else {
      assert out'[..j] == [] == out[..j];
    }
  }

  /** The counter is right in every state the inner loop reaches from
      `sc`. */
  ghost predicate AllCounted(ops: OpTable, symbols: map<string, Option<int>>, start: Option<int>, i: nat, sc: Scan)
    requires sc.j <= |sc.out| && i < |sc.out|
    decreases Rank1(sc), Rank2(sc)
  {
    && Counted(sc)
    && (sc.j < |sc.out| ==>
          var r := Step(ops, symbols, start, i, sc);
          r.Success? ==> AllCounted(ops, symbols, start, i, r.value))
  }

  /** The number of tags the inner loop subtracts for a branch at j is the
      number of "LABEL" tags still before j, in every state the loop reaches
      from the start of the list. */
  lemma {:induction false} InnerScanCounts(ops: OpTable, symbols: map<string, Option<int>>, start: Option<int>,
                                           i: nat, sc: Scan)
    requires sc.j <= |sc.out| && i < |sc.out| && Counted(sc) && "LABEL" !in ops
    ensures AllCounted(ops, symbols, start, i, sc)
    decreases Rank1(sc), Rank2(sc)
  {
    if sc.j < |sc.out| {
      var r := Step(ops, symbols, start, i, sc);
      if r.Success? {
        StepKeepsCount(ops, symbols, start, i, sc);
        InnerScanCounts(ops, symbols, start, i, r.value);
      }
    }
  }

  /** From the start of the list the counter begins right. */
  lemma {:induction false} ScanFromStart(ops: OpTable, symbols: map<string, Option<int>>, start: Option<int>,
                                         i: nat, out: seq<Item>)
    requires i < |out| && "LABEL" !in ops
    ensures AllCounted(ops, symbols, start, i, Scan(out, 0, 0))
  {
    assert out[..0] == [];
    InnerScanCounts(ops, symbols, start, i, Scan(out, 0, 0));
  }

  // The length of the list during the inner scan

  /** From this state on no rewrite can change the list's length: the last
      item is not a string, so no operand is last, and at j = 0 the item is
      no reference, so nothing is rewritten there. */
  predicate Steady(sc: Scan, i: nat)
  {
    && 0 < |sc.out| && !sc.out[|sc.out| - 1].Str?
    && (sc.j == 0 && i < |sc.out| ==> !IsReference(sc, i))
  }

  /** A rewrite away from both ends keeps the length, and the last item is
      either kept or becomes a number. */
  lemma {:induction false} RewriteKeepsLast(ops: OpTable, start: Option<int>, out: seq<Item>, j: nat,
                                            labels: nat, op: string, arg: Arg)
    requires 1 <= j && j + 1 < |out| && Rewritten(ops, start, out, j, labels, op, arg).Success?
    ensures var r := Rewritten(ops, start, out, j, labels, op, arg).value;
            |r| == |out| && (r[|r| - 1] == out[|out| - 1] || r[|r| - 1].Num?)
  {
    var r := Rewritten(ops, start, out, j, labels, op, arg).value;
    var front := Take(out, j - 1);
    assert |front| == j - 1;
    if IsBranch(op) {
      var back := Drop(out, j + 1);
      assert r == front + [r[j - 1], r[j]] + back;
      assert r[|r| - 1] == back[|back| - 1];
    } else if j + 2 < |out| {
      var back := Drop(out, j + 2);
      assert r == front + [r[j - 1], r[j], r[j + 1]] + back;
      assert r[|r| - 1] == back[|back| - 1];
    }
  }

  /** A step at an item that is no reference keeps the list and moves on. */
  lemma {:induction false} PassKeepsList(ops: OpTable, symbols: map<string, Option<int>>, start: Option<int>,
                                         i: nat, sc: Scan)
    requires sc.j < |sc.out| && i < |sc.out| && !IsReference(sc, i)
    requires Step(ops, symbols, start, i, sc).Success?
    ensures var next := Step(ops, symbols, start, i, sc).value;
            next.out == sc.out && next.j == sc.j + 1
  {
  }

  /** `next` has the length of `sc`, has not moved back to j = 0, and its
      last item is that of `sc` or a number. */
  predicate KeepsLast(sc: Scan, next: Scan)
  {
    && |next.out| == |sc.out| && 0 < |sc.out| && next.j >= 1
    && (next.out[|sc.out| - 1] == sc.out[|sc.out| - 1] || next.out[|sc.out| - 1].Num?)
  }

  /** A `.BYTE` fill away from the last item keeps the last item. */
  lemma {:induction false} ByteKeepsLast(ops: OpTable, symbols: map<string, Option<int>>, start: Option<int>,
                                         i: nat, sc: Scan, next: Scan)
    requires 1 <= sc.j && sc.j + 1 < |sc.out| && i < |sc.out| && IsReference(sc, i)
    requires sc.out[PrevIndex(sc.out, sc.j)].Num?
    requires Step(ops, symbols, start, i, sc) == Success(next)
    ensures KeepsLast(sc, next)
  {
    StepByte(ops, symbols, start, i, sc);
  }

  /** A `.WORD` fill keeps the length and writes only numbers. */
  lemma {:induction false} WordKeepsLast(ops: OpTable, symbols: map<string, Option<int>>, start: Option<int>,
                                         i: nat, sc: Scan, next: Scan)
    requires 1 <= sc.j && sc.j + 1 < |sc.out| && i < |sc.out| && IsReference(sc, i)
    requires sc.out[PrevIndex(sc.out, sc.j)] == Str("WORD")
    requires Step(ops, symbols, start, i, sc) == Success(next)
    ensures KeepsLast(sc, next)
  {
    StepWord(ops, symbols, start, i, sc);
  }

  /** An instruction rewrite away from both ends keeps the length. */
  lemma {:induction false} RewriteStepKeepsLast(ops: OpTable, symbols: map<string, Option<int>>, start: Option<int>,
                                                i: nat, sc: Scan, next: Scan)
    requires 1 <= sc.j && sc.j + 1 < |sc.out| && i < |sc.out| && IsReference(sc, i)
    requires sc.out[PrevIndex(sc.out, sc.j)].Str? && sc.out[PrevIndex(sc.out, sc.j)] != Str("WORD")
    requires Step(ops, symbols, start, i, sc) == Success(next)
    ensures KeepsLast(sc, next)
  {
    var p := PrevIndex(sc.out, sc.j);
    StepRewrite(ops, symbols, start, i, sc);
    var arg := GetArgument(symbols, sc.out[sc.j].s);
    RewriteKeepsLast(ops, start, sc.out, sc.j, sc.labels, Upper(sc.out[p].s), arg.value);
  }

  /** A state reached that way from a steady state is steady. */
  lemma {:induction false} SteadyNext(sc: Scan, next: Scan, i: nat)
    requires Steady(sc, i) && KeepsLast(sc, next)
    ensures Steady(next, i)
  {
  }

  /** A step at a reference away from both ends keeps the length, and the
      last item is kept or becomes a number. */
  lemma {:induction false} ReferenceKeepsLast(ops: OpTable, symbols: map<string, Option<int>>, start: Option<int>,
                                              i: nat, sc: Scan, next: Scan)
    requires 1 <= sc.j && sc.j + 1 < |sc.out| && i < |sc.out| && IsReference(sc, i)
    requires Step(ops, symbols, start, i, sc) == Success(next)
    ensures KeepsLast(sc, next)
  {
    var p := PrevIndex(sc.out, sc.j);
    if sc.out[p].Num? {
      ByteKeepsLast(ops, symbols, start, i, sc, next);
    } else if sc.out[p] == Str("WORD") {
      WordKeepsLast(ops, symbols, start, i, sc, next);
    } else if sc.out[p].Str? {
      RewriteStepKeepsLast(ops, symbols, start, i, sc, next);
    } else {
      StepRewrite(ops, symbols, start, i, sc);
    }
  }

  /** One step from a steady state keeps the length and the state steady. */
  lemma {:induction false} StepKeepsLength(ops: OpTable, symbols: map<string, Option<int>>, start: Option<int>,
                                           i: nat, sc: Scan, next: Scan)
    requires sc.j < |sc.out| && i < |sc.out| && Steady(sc, i)
    requires Step(ops, symbols, start, i, sc) == Success(next)
    ensures |next.out| == |sc.out| && Steady(next, i)
  {
    if !IsReference(sc, i) {
      PassKeepsList(ops, symbols, start, i, sc);
    } else {
      ReferenceKeepsLast(ops, symbols, start, i, sc, next);
      SteadyNext(sc, next, i);
    }
  }

  /** The inner scan keeps the list's length as long as nothing is
      rewritten at j = 0 and no operand is the last item. */
  lemma {:induction false} InnerScanKeepsLength(ops: OpTable, symbols: map<string, Option<int>>,
                                                start: Option<int>, i: nat, sc: Scan)
    requires sc.j <= |sc.out| && i < |sc.out| && Steady(sc, i)
    ensures var r := InnerScan(ops, symbols, start, i, sc);
            r.Success? ==> |r.value| == |sc.out|
    decreases Rank1(sc), Rank2(sc)
  {
    if sc.j < |sc.out| {
      InnerScanStep(ops, symbols, start, i, sc);
      var step := Step(ops, symbols, start, i, sc);
      if step.Success? {
        StepKeepsLength(ops, symbols, start, i, sc, step.value);
        InnerScanKeepsLength(ops, symbols, start, i, step.value);
      }
    }
  }

  /** An "ORG" tag with a target t is replaced, tag and operand, by enough
      zeros that the next item lands at index t - start (when that is not
      behind i); everything before i and after the operand is kept. */
  lemma {:induction false} OrgStep(ops: OpTable, start: Option<int>, sw: Sweep)
    requires sw.i < |sw.out| && sw.out[sw.i] == Str("ORG")
    ensures var r := OuterStep(ops, start, sw);
            && (sw.i + 1 == |sw.out| <==> r == Failure(IndexError))
            && (sw.i + 1 < |sw.out| && IntOfItem(sw.out[sw.i + 1]).Failure? ==>
                  r == Failure(IntOfItem(sw.out[sw.i + 1]).error))
            && (sw.i + 1 < |sw.out| && IntOfItem(sw.out[sw.i + 1]).Success? && start.None? ==>
                  r == Failure(TypeError))
            && (sw.i + 1 < |sw.out| && IntOfItem(sw.out[sw.i + 1]).Success? && start.Some? ==>
                  var target := IntOfItem(sw.out[sw.i + 1]).value;
                  var pad := if target - sw.i - start.value > 0 then target - sw.i - start.value else 0;
                  && r.Success? && r.value.symbols == sw.symbols && r.value.i == sw.i + 1
                  && |r.value.out| == |sw.out| - 2 + pad
                  && r.value.out[..sw.i] == sw.out[..sw.i]
                  && (forall k :: sw.i <= k < sw.i + pad ==> r.value.out[k] == Num(0))
                  && r.value.out[sw.i + pad..] == sw.out[sw.i + 2..]
                  && (target - start.value >= sw.i ==> sw.i + pad == target - start.value))
  {
    var r := OuterStep(ops, start, sw);
    if sw.i + 1 < |sw.out| && IntOfItem(sw.out[sw.i + 1]).Success? && start.Some? {
      var target := IntOfItem(sw.out[sw.i + 1]).value;
      var zeros := Zeros(target - sw.i - start.value);
      assert r.value.out == sw.out[..sw.i] + zeros + sw.out[sw.i + 2..];
      forall k | sw.i <= k < sw.i + |zeros|
        ensures r.value.out[k] == Num(0)
      {
        assert r.value.out[k] == zeros[k - sw.i];
      }
    }
  }

  /** Resolving the label whose tag is at i: the tag is removed, the name
      after it is bound to i + start, no other name changes, and the name is
      removed after the inner scan, which never shrinks the list. */
  lemma {:induction false} LabelStep(ops: OpTable, start: Option<int>, sw: Sweep)
    requires sw.i + 1 < |sw.out| && sw.out[sw.i] == Str("LABEL") && sw.out[sw.i + 1].Str?
    requires start.Some?
    ensures var name := sw.out[sw.i + 1].s;
            var symbols' := sw.symbols[name := Some(sw.i + start.value)];
            var popped := sw.out[..sw.i] + sw.out[sw.i + 1..];
            var r := OuterStep(ops, start, sw);
            && (r.Failure? <==> InnerScan(ops, symbols', start, sw.i, Scan(popped, 0, 0)).Failure?)
            && (r.Success? ==>
                  && Lookup(r.value.symbols, name) == Some(sw.i + start.value)
                  && (forall other :: other != name ==> Lookup(r.value.symbols, other) == Lookup(sw.symbols, other))
                  && |r.value.out| >= |sw.out| - 2 && r.value.i == sw.i + 1)
  {
    var popped := sw.out[..sw.i] + sw.out[sw.i + 1..];
    assert popped[sw.i] == sw.out[sw.i + 1];
    var symbols' := sw.symbols[popped[sw.i].s := Some(sw.i + start.value)];
    var found := InnerScan(ops, symbols', start, sw.i, Scan(popped, 0, 0));
    LabelStepResult(ops, start, sw, popped, symbols', found);
  }

  /** The label tag itself raises an exception when there is no start
      address (a `.ORG` to an undefined symbol) or no name after it. */
  lemma {:induction false} LabelErrors(ops: OpTable, start: Option<int>, sw: Sweep)
    requires sw.i < |sw.out| && sw.out[sw.i] == Str("LABEL")
    ensures start.None? ==> OuterStep(ops, start, sw) == Failure(TypeError)
    ensures start.Some? && sw.i + 1 == |sw.out| ==> OuterStep(ops, start, sw) == Failure(IndexError)
  {
  }

  /** More fuel does not change a result that was reached. */
  lemma {:induction false} OuterScanFuel(ops: OpTable, start: Option<int>, sw: Sweep, fuel: nat, more: nat)
    requires OuterScan(ops, start, sw, fuel).Success? && more >= fuel
    ensures OuterScan(ops, start, sw, more) == OuterScan(ops, start, sw, fuel)
    decreases fuel
  {
    if sw.i < |sw.out| {
      assert fuel > 0;
      OuterScanStep(ops, start, sw, fuel);
      var next := OuterStep(ops, start, sw).value;
      OuterScanFuel(ops, start, next, fuel - 1, more - 1);
      OuterScanMore(ops, start, sw, next, fuel, more);
    }
  }

  /** The inductive step of OuterScanFuel: once the first step is known,
      both fuel budgets continue from the same sweep. */
  lemma {:induction false} OuterScanMore(ops: OpTable, start: Option<int>, sw: Sweep, next: Sweep, fuel: nat, more: nat)
    requires sw.i < |sw.out| && 0 < fuel <= more
    requires OuterStep(ops, start, sw) == Success(next)
    requires OuterScan(ops, start, next, more - 1) == OuterScan(ops, start, next, fuel - 1)
    ensures OuterScan(ops, start, sw, more) == OuterScan(ops, start, sw, fuel)
  {
    OuterScanStep(ops, start, sw, fuel);
    OuterScanStep(ops, start, sw, more);
  }

  /** A list with no tag from i on is left as it is, and so is the symbol
      table, given one unit of fuel per remaining item. */
  lemma {:induction false} NothingToResolve(ops: OpTable, start: Option<int>, sw: Sweep, fuel: nat)
    requires forall k :: sw.i <= k < |sw.out| ==> sw.out[k] != Str("ORG") && sw.out[k] != Str("LABEL")
    requires fuel >= |sw.out| - sw.i
    ensures OuterScan(ops, start, sw, fuel) == Success(Sweep(sw.out, sw.symbols, if sw.i <= |sw.out| then |sw.out| else sw.i))
    decreases |sw.out| - sw.i
  {
    if sw.i < |sw.out| {
      NothingToResolve(ops, start, Sweep(sw.out, sw.symbols, sw.i + 1), fuel - 1);
    }
  }
}
