/** The text handling of `assemble` (py65asm/assembler.py:64-93): the
    source is split into lines, each line is stripped, comment lines are
    skipped, a trailing comment is cut off and the rest is split into
    tokens for the per-line pass; the label pass then runs once. */
module Driver {
  import opened Base
  import opened Encoder
  import opened Resolver

  /** The whitespace of `str.strip()` and `str.split()` on ASCII text. */
  predicate IsSpace(c: char)
  {
    c == ' ' || c == '\t' || c == '\n' || c == '\r' || c == '\U{b}' || c == '\U{c}'
  }

  /** `s.split(sep)`: the pieces between the separators, empty ones kept. */
  function Split(s: string, sep: char): (r: seq<string>)
    ensures |r| >= 1
    ensures forall k :: 0 <= k < |r| ==> sep !in r[k]
    decreases |s|
  {
    if s == [] then [[]]
    else if s[0] == sep then [[]] + Split(s[1..], sep)
    else
      var rest := Split(s[1..], sep);
      [[s[0]] + rest[0]] + rest[1..]
  }

  /** `sep.join(parts)`. */
  function Join(parts: seq<string>, sep: char): string
    requires |parts| >= 1
    decreases |parts|
  {
    if |parts| == 1 then parts[0] else parts[0] + [sep] + Join(parts[1..], sep)
  }

  /** Joining the pieces again gives back the text. */
  lemma {:induction false} JoinSplit(s: string, sep: char)
    ensures Join(Split(s, sep), sep) == s
    decreases |s|
  {
    if s != [] {
      JoinSplit(s[1..], sep);
      var rest := Split(s[1..], sep);
      if s[0] == sep {
        assert Split(s, sep)[1..] == rest;
      } else {
        var r := Split(s, sep);
        if |rest| == 1 {
          assert r == [[s[0]] + rest[0]];
        } else {
          assert r[1..] == rest[1..];
          assert Join(r, sep) == [s[0]] + rest[0] + [sep] + Join(rest[1..], sep);
        }
      }
    }
  }

  /** A text without the separator is one piece. */
  lemma {:induction false} SplitNoSeparator(a: string, sep: char)
    requires sep !in a
    ensures Split(a, sep) == [a]
    decreases |a|
  {
    if a != [] {
      SplitNoSeparator(a[1..], sep);
      assert [a[0]] + a[1..] == a;
    }
  }

  /** A piece followed by the separator splits off as the first piece. */
  lemma {:induction false} SplitAppend(a: string, b: string, sep: char)
    requires sep !in a
    ensures Split(a + [sep] + b, sep) == [a] + Split(b, sep)
    decreases |a|
  {
    var s := a + [sep] + b;
    if a == [] {
      assert s[1..] == b;
    } else {
      assert s[1..] == a[1..] + [sep] + b;
      SplitAppend(a[1..], b, sep);
      assert [a[0]] + a[1..] == a;
    }
  }

  /** Splitting pieces that hold no separator, once joined, gives them
      back. */
  lemma {:induction false} SplitJoin(parts: seq<string>, sep: char)
    requires |parts| >= 1 && forall k :: 0 <= k < |parts| ==> sep !in parts[k]
    ensures Split(Join(parts, sep), sep) == parts
    decreases |parts|
  {
    if |parts| == 1 {
      SplitNoSeparator(parts[0], sep);
    } else {
      SplitJoin(parts[1..], sep);
      SplitAppend(parts[0], Join(parts[1..], sep), sep);
      assert [parts[0]] + parts[1..] == parts;
    }
  }

  /** `s.lstrip()`. */
  function TrimLeft(s: string): (r: string)
    ensures r == [] || !IsSpace(r[0])
    ensures |r| <= |s| && r == s[|s| - |r|..]
    ensures forall k :: 0 <= k < |s| - |r| ==> IsSpace(s[k])
    decreases |s|
  {
    if s != [] && IsSpace(s[0]) then TrimLeft(s[1..]) else s
  }

  /** `s.rstrip()`. */
  function TrimRight(s: string): (r: string)
    ensures r == [] || !IsSpace(r[|r| - 1])
    ensures r <= s
    ensures forall k :: |r| <= k < |s| ==> IsSpace(s[k])
    decreases |s|
  {
    if s != [] && IsSpace(s[|s| - 1]) then TrimRight(s[..|s| - 1]) else s
  }

  /** `s.strip()`. */
  function Strip(s: string): (r: string)
    ensures r == [] || (!IsSpace(r[0]) && !IsSpace(r[|r| - 1]))
  {
    TrimRight(TrimLeft(s))
  }

  /** `r` is the slice of `s` that starts at `a`, with nothing but
      whitespace before it and after it. */
  predicate Trimmed(s: string, a: nat, r: string)
  {
    && a + |r| <= |s| && r == s[a..a + |r|]
    && (forall k :: 0 <= k < a ==> IsSpace(s[k]))
    && (forall k :: a + |r| <= k < |s| ==> IsSpace(s[k]))
  }

  /** `s.strip()` is the slice of `s` left between its leading and its
      trailing whitespace. */
  lemma {:induction false} StripSlice(s: string)
    ensures Trimmed(s, |s| - |TrimLeft(s)|, Strip(s))
  {
    SliceOfSuffix(s, TrimLeft(s), Strip(s));
  }

  /** A prefix `r` of a suffix `t` of `s`, where `s` has only whitespace
      before `t` and `t` only whitespace after `r`, is what is left of `s`
      between those two runs. */
  lemma {:induction false} SliceOfSuffix(s: string, t: string, r: string)
    requires |t| <= |s| && t == s[|s| - |t|..] && r <= t
    requires forall k :: 0 <= k < |s| - |t| ==> IsSpace(s[k])
    requires forall k :: |r| <= k < |t| ==> IsSpace(t[k])
    ensures Trimmed(s, |s| - |t|, r)
  {
    var a := |s| - |t|;
    assert r == t[..|r|];
    forall k | a + |r| <= k < |s|
      ensures IsSpace(s[k])
    {
      assert t[k - a] == s[k];
    }
  }

  /** The length of the leading run of non-space characters. */
  function WordEnd(s: string): (n: nat)
    ensures n <= |s| && (n < |s| ==> IsSpace(s[n]))
    ensures forall k :: 0 <= k < n ==> !IsSpace(s[k])
    decreases |s|
  {
    if s == [] || IsSpace(s[0]) then 0 else 1 + WordEnd(s[1..])
  }

  /** `s.split()`: the maximal runs of non-space characters. */
  function Words(s: string): seq<string>
    decreases |s|
  {
    var t := TrimLeft(s);
    if t == [] then []
    else
      var n := WordEnd(t);
      [t[..n]] + Words(t[n..])
  }

  /** A piece of `s.split()` that holds no `c`: non-empty, with neither
      whitespace nor `c` in it. */
  predicate Piece(t: string, c: char)
  {
    t != [] && forall m :: 0 <= m < |t| ==> !IsSpace(t[m]) && t[m] != c
  }

  lemma {:induction false} AvoidsDrop(s: string, c: char, d: nat)
    requires d <= |s| && forall m :: 0 <= m < |s| ==> s[m] != c
    ensures forall m :: 0 <= m < |s[d..]| ==> s[d..][m] != c
  {
    forall m | 0 <= m < |s[d..]|
      ensures s[d..][m] != c
    {
      assert s[d..][m] == s[d + m];
    }
  }

  lemma {:induction false} PiecesCons(head: string, tail: seq<string>, c: char)
    requires Piece(head, c) && forall k :: 0 <= k < |tail| ==> Piece(tail[k], c)
    ensures forall k :: 0 <= k < |[head] + tail| ==> Piece(([head] + tail)[k], c)
  {
    forall k | 0 <= k < |[head] + tail|
      ensures Piece(([head] + tail)[k], c)
    {
      if k > 0 { assert ([head] + tail)[k] == tail[k - 1]; }
    }
  }

  /** Every token is non-empty and holds no whitespace, and a character
      the text does not hold is in none of its tokens. */
  lemma {:induction false} WordsPieces(s: string, c: char)
    requires forall m :: 0 <= m < |s| ==> s[m] != c
    ensures forall k :: 0 <= k < |Words(s)| ==> Piece(Words(s)[k], c)
    decreases |s|
  {
    var t := TrimLeft(s);
    if t != [] {
      AvoidsDrop(s, c, |s| - |t|);
      assert s[|s| - |t|..] == t;
      var n := WordEnd(t);
      AvoidsDrop(t, c, n);
      WordsPieces(t[n..], c);
      assert Piece(t[..n], c);
      PiecesCons(t[..n], Words(t[n..]), c);
      assert Words(s) == [t[..n]] + Words(t[n..]);
    }
  }

  /** The characters of `s` that are not whitespace, in order. */
  function NonSpace(s: string): string
    decreases |s|
  {
    if s == [] then [] else (if IsSpace(s[0]) then [] else [s[0]]) + NonSpace(s[1..])
  }

  function Concat(words: seq<string>): string
    decreases |words|
  {
    if words == [] then [] else words[0] + Concat(words[1..])
  }

  lemma {:induction false} NonSpaceTrimLeft(s: string)
    ensures NonSpace(TrimLeft(s)) == NonSpace(s)
    decreases |s|
  {
    if s != [] && IsSpace(s[0]) { NonSpaceTrimLeft(s[1..]); }
  }

  lemma {:induction false} NonSpaceWord(t: string)
    ensures NonSpace(t) == t[..WordEnd(t)] + NonSpace(t[WordEnd(t)..])
    decreases |t|
  {
    if t != [] && !IsSpace(t[0]) {
      NonSpaceWord(t[1..]);
      assert t[1..][WordEnd(t[1..])..] == t[WordEnd(t)..];
      assert t[..WordEnd(t)] == [t[0]] + t[1..][..WordEnd(t[1..])];
    }
  }

  /** Splitting on whitespace loses exactly the whitespace: the tokens
      side by side are the text's other characters. */
  lemma {:induction false} WordsKeepText(s: string)
    ensures Concat(Words(s)) == NonSpace(s)
    decreases |s|
  {
    var t := TrimLeft(s);
    NonSpaceTrimLeft(s);
    if t != [] {
      var n := WordEnd(t);
      WordsKeepText(t[n..]);
      NonSpaceWord(t);
      assert Words(s) == [t[..n]] + Words(t[n..]);
      assert Words(s)[1..] == Words(t[n..]);
    }
  }

  /** A token runs up to the first whitespace. */
  lemma {:induction false} WordEndOf(w: string, rest: string)
    requires forall k :: 0 <= k < |w| ==> !IsSpace(w[k])
    requires rest == [] || IsSpace(rest[0])
    ensures WordEnd(w + rest) == |w|
    decreases |w|
  {
    if w != [] {
      assert (w + rest)[1..] == w[1..] + rest;
      WordEndOf(w[1..], rest);
    }
  }

  /** A word followed by whitespace or nothing is the first token. */
  lemma {:induction false} WordsOf(w: string, rest: string)
    requires w != [] && forall k :: 0 <= k < |w| ==> !IsSpace(w[k])
    requires rest == [] || IsSpace(rest[0])
    ensures Words(w + rest) == [w] + Words(rest)
  {
    var s := w + rest;
    assert s[0] == w[0];
    assert TrimLeft(s) == s;
    WordEndOf(w, rest);
    assert s[..|w|] == w && s[|w|..] == rest;
  }

  /** Leading whitespace does not change the tokens. */
  lemma {:induction false} WordsSkip(s: string)
    requires s != [] && IsSpace(s[0])
    ensures Words(s) == Words(s[1..])
  {
    assert TrimLeft(s) == TrimLeft(s[1..]);
  }

  /** Splitting words joined by single blanks gives the words back: the
      cuts fall exactly at the whitespace. */
  lemma {:induction false} WordsJoin(ws: seq<string>)
    requires |ws| >= 1 && forall k :: 0 <= k < |ws| ==> Piece(ws[k], ' ')
    ensures Words(Join(ws, ' ')) == ws
    decreases |ws|
  {
    assert Piece(ws[0], ' ');
    if |ws| == 1 {
      WordsAlone(ws[0]);
    } else {
      var rest := Join(ws[1..], ' ');
      JoinCons(ws, ' ');
      WordsBlank(ws[0], rest);
      PiecesTail(ws, ' ');
      WordsJoin(ws[1..]);
      HeadTail(ws);
    }
  }

  lemma {:induction false} HeadTail<T>(s: seq<T>)
    requires s != []
    ensures [s[0]] + s[1..] == s
  {
  }

  /** Joining two or more parts puts the first, then the separator, then
      the join of the rest. */
  lemma {:induction false} JoinCons(parts: seq<string>, sep: char)
    requires |parts| >= 2
    ensures Join(parts, sep) == parts[0] + [sep] + Join(parts[1..], sep)
  {
  }

  /** A word and a blank split off as the first token. */
  lemma {:induction false} WordsBlank(w: string, rest: string)
    requires Piece(w, ' ')
    ensures Words(w + [' '] + rest) == [w] + Words(rest)
  {
    var tail := [' '] + rest;
    assert w + [' '] + rest == w + tail;
    WordsOf(w, tail);
    WordsSkip(tail);
    assert tail[1..] == rest;
  }

  lemma {:induction false} PiecesTail(ws: seq<string>, c: char)
    requires |ws| >= 1 && forall k :: 0 <= k < |ws| ==> Piece(ws[k], c)
    ensures forall k :: 0 <= k < |ws[1..]| ==> Piece(ws[1..][k], c)
  {
    forall k | 0 <= k < |ws[1..]|
      ensures Piece(ws[1..][k], c)
    {
      assert ws[1..][k] == ws[k + 1];
    }
  }

  /** A word alone is one token. */
  lemma {:induction false} WordsAlone(w: string)
    requires w != [] && forall k :: 0 <= k < |w| ==> !IsSpace(w[k])
    ensures Words(w) == [w]
  {
    var e: string := [];
    WordsOf(w, e);
    assert w + e == w;
    assert Words(e) == [];
  }

  /** `l[:l.index(";")]` when the line holds a ';', else the line. */
  function BeforeComment(l: string): (r: string)
    ensures r <= l && ';' !in r
    ensures |r| < |l| ==> l[|r|] == ';'
    decreases |l|
  {
    if l == [] then []
    else if l[0] == ';' then []
    else [l[0]] + BeforeComment(l[1..])
  }

  /** The tokens of one source line, or None for a blank or comment line. */
  function LineTokens(line: string): Option<seq<string>>
  {
    var l := Strip(line);
    if l == [] || l[0] == ';' then None
    else Some(Words(BeforeComment(l)))
  }

  /** A line that is not skipped gives at least one token, and no token is
      empty or holds whitespace or a ';'. */
  lemma {:induction false} LineTokensShape(line: string)
    requires LineTokens(line).Some?
    ensures LineTokens(line).value != []
    ensures forall k :: 0 <= k < |LineTokens(line).value| ==> Piece(LineTokens(line).value[k], ';')
  {
    var l := Strip(line);
    var b := BeforeComment(l);
    assert b == [l[0]] + BeforeComment(l[1..]);
    assert TrimLeft(b) == b;
    assert LineTokens(line).value == Words(b);
    assert forall m :: 0 <= m < |b| ==> b[m] in b;
    WordsPieces(b, ';');
  }

  /** One line of the per-line pass: a blank or comment line leaves the
      state as it is, any other line goes through `assembleTokens`. */
  function LineStep(ops: OpTable, st: State, line: string): Result<State>
  {
    var tokens := LineTokens(line);
    if tokens.None? then Success(st) else EncodeLine(ops, st, tokens.value)
  }

  /** A line is skipped, leaving the state as it was, exactly when it is
      blank or its first non-whitespace character is ';'. */
  lemma {:induction false} SkippedLine(ops: OpTable, st: State, line: string)
    ensures var t := TrimLeft(line);
            LineTokens(line).None? <==> (t == [] || t[0] == ';')
    ensures LineTokens(line).None? ==> LineStep(ops, st, line) == Success(st)
  {
    var t := TrimLeft(line);
    StripSlice(line);
    if t != [] {
      assert Strip(line) != [] && Strip(line)[0] == t[0] by {
        assert !IsSpace(t[0]) && line[|line| - |t|] == t[0];
      }
    }
  }

  /** The per-line pass over all lines in order, stopping at the first
      exception. */
  function EncodeLines(ops: OpTable, st: State, lines: seq<string>): Result<State>
    decreases |lines|
  {
    if lines == [] then Success(st)
    else
      var st' :- LineStep(ops, st, lines[0]);
      EncodeLines(ops, st', lines[1..])
  }

  /** One line of the per-line pass, unfolded. */
  lemma {:induction false} EncodeLinesStep(ops: OpTable, st: State, lines: seq<string>, k: nat)
    requires k < |lines|
    ensures var s := LineStep(ops, st, lines[k]);
            EncodeLines(ops, st, lines[k..])
            == if s.Failure? then Failure(s.error) else EncodeLines(ops, s.value, lines[k + 1..])
  {
    assert lines[k..][1..] == lines[k + 1..];
  }

  /** `assemble(asm)` on a string: the output is reset (the symbol table
      and start address are kept), every line is assembled, and the labels
      are resolved with at most `fuel` steps of the outer scan. */
  function AssembleSpec(ops: OpTable, st: State, asm: string, fuel: nat): Result<State>
  {
    var st' :- EncodeLines(ops, st.(out := []), Split(asm, '\n'));
    ResolveSpec(ops, st', fuel)
  }

  /** `assemble` starts from an empty output list: whatever the list
      held before the call does not change the outcome. */
  lemma {:induction false} AssembleDiscardsOutput(ops: OpTable, st: State, asm: string, fuel: nat, old_out: seq<Item>)
    ensures AssembleSpec(ops, st.(out := old_out), asm, fuel) == AssembleSpec(ops, st, asm, fuel)
  {
    assert st.(out := old_out).(out := []) == st.(out := []);
  }

  /** The per-line pass only appends to the output. */
  lemma {:induction false} EncodeLinesAppendOnly(ops: OpTable, st: State, lines: seq<string>)
    requires EncodeLines(ops, st, lines).Success?
    ensures Extends(st.out, EncodeLines(ops, st, lines).value.out)
    decreases |lines|
  {
    if lines == [] {
      assert st.out[..|st.out|] == st.out;
    } else {
      var tokens := LineTokens(lines[0]);
      if tokens.None? {
        EncodeLinesAppendOnly(ops, st, lines[1..]);
      } else {
        var st' := LineStep(ops, st, lines[0]).value;
        AppendOnly(ops, st, tokens.value);
        EncodeLinesAppendOnly(ops, st', lines[1..]);
        ExtendsTrans(st.out, st'.out, EncodeLines(ops, st, lines).value.out);
      }
    }
  }
}
