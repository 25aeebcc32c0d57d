# py65asm assembler core in Dafny

This project models the `Assembler` class of py65asm. py65asm is a two-pass
assembler for the 6502 processor, written in Python. The modelled class
lives in `py65asm/assembler.py`. It assembles source text into a list
whose items are opcode and operand bytes.

- **First pass: per-line emission** (`assembleTokens`). Every line is split
  into tokens. Each line appends opcode and operand items to the output
  list. A line may instead bind a variable or move the start address.
  - A reference to a label that is not yet defined is left in the list as
    text.
  - `.ORG` directives and label declarations are recorded as the string
    tags `"ORG"` and `"LABEL"`.
- **Second pass: label resolution** (`resolveLabels`). It walks the list
  once:
  - each `"ORG"` tag is replaced by zero padding;
  - each `"LABEL"` tag binds its name to its address;
  - every textual reference to that name is then rewritten in place.
- **Driver** (`assemble`). It splits the source into lines, strips them and
  drops comments. Then it runs both passes and returns the list.

The model is split into these modules:

| module | file | contents |
|---|---|---|
| `Base` | `base.dfy` | `Option`, `Result`, the exceptions the code can raise, and the items of the output list (`Num`, `Str`, `NoneItem`) |
| `Numbers` | `numbers.dfy` | `getNumber`: the five number formats, the symbol fallback, and `str`/`int` on integers |
| `Operands` | `operands.dfy` | `getArgument`: the accumulator shorthand, the seven operand patterns in their order, zero-page to absolute promotion, and reduction of negative values |
| `Encoder` | `encoder.dfy` | `assembleTokens`, as the function `EncodeLine` from the state before a line to the state after it, with one lemma per kind of line |
| `Resolver` | `resolver.dfy` | `resolveLabels` (details below) |
| `Driver` | `driver.dfy` | the string driver of `assemble`: `split('\n')`, `strip()`, the comment rules, `split()` into tokens, the line loop, and the spec function `AssembleSpec` of the whole call |
| `Assembler` | `assembler.dfy` | the class (details below) |
| `Examples` | `examples.dfy` | concrete operands and lines, plus a five-line program with a forward jump, on a three-mnemonic opcode table |

The `Resolver` module models `resolveLabels` as follows:
- the inner loop is `Step`/`InnerScan`, and its termination is proved;
- the outer loop is `OuterStep`/`OuterScan`;
- `ResolveSpec` is the whole call;
- Python's negative index `out[j-1]` at `j == 0` and its slices are modelled exactly.

The `Assembler` module holds the class `Assembler`. Its fields are:
- `symbols`, `out`, `start` and `org`, which the methods update in place;
- `ops`, the opcode table, fixed at construction.

Its methods follow the source's loops. Each method's `ensures` ties its
outcome and the new fields to the spec function of the matching module.

These choices shape the model:

- **Exceptions.** A Python exception becomes a `Fail(error)` outcome of a
  method, or a `Failure(error)` result of a function.
  - The error names the exception: `IndexError`, `KeyError`, `ValueError`,
    `TypeError`, `UnboundLocalError`.
  - The "Branch target too far" exception at line 201 is `BranchTooFar`.
- **Values.** A symbol may be bound to `None` (`x = undefined`), so symbol
  values are `Option<int>`.
  - The start address is `Option<int>` too: `.ORG` to an undefined name
    before any code sets it to `None`.
  - Integers are unbounded, as in Python. `n & 0xff` and `n >> 8` are
    `LowByte` and `HighPart`, with Python's semantics on negative numbers.
- **Opcode table.** The table `ops` (py65asm/ops.py is not part of this
  model) is a parameter. It maps mnemonic to mode to byte.

## Model

| member | source | states |
|---|---|---|
| Base.LowByte | py65asm/assembler.py:110 | `n & 0xff` lies in [0, 256) and agrees with n modulo 256, also for negative n |
| Base.HighPart | py65asm/assembler.py:111 | `n >> 8` times 256 plus the low byte gives n back: the two bytes together encode the value |
| Numbers.DigitValue | py65asm/assembler.py:229 | a digit's value is below 16, below 10 for a decimal digit and below 8 for an octal digit |
| Numbers.DigitAlphabet | py65asm/assembler.py:229 | a digit's value is its position in `int()`'s digit alphabet "0123456789abcdef", letters of either case |
| Numbers.Span | py65asm/assembler.py:12-15 | the greedy quantifier `{1,limit}` consumes at most `limit` characters, all of the class, and stops at the limit, at the end or before a character outside the class |
| Numbers.Dashes | py65asm/assembler.py:15 | `-*` consumes exactly the leading run of '-' |
| Numbers.DecimalGroupIsInt | py65asm/assembler.py:250-252 | on a match of `-*\d{1,5}`, `int(v, 10)` gives exactly what Python's `int()` gives the text, the ValueError of two or more dashes included |
| Numbers.PrefixOf | py65asm/assembler.py:227 | `re.match` is a prefix match: a lead character and a maximal run of digits yields their value whatever follows |
| Numbers.GetNumberHex | py65asm/assembler.py:224-229 | "$" and 1-4 hex digits read as base 16, whatever follows the run |
| Numbers.GetNumberBinary | py65asm/assembler.py:224-229 | "%" and 1-16 binary digits read as base 2 |
| Numbers.GetNumberOctal | py65asm/assembler.py:224-229 | "0" and 1-6 octal digits read as base 8 |
| Numbers.GetNumberDecimal | py65asm/assembler.py:224-229 | up to five decimal digits read as base 10 whatever follows the run, unless a leading '0' followed by an octal digit lets the earlier octal format take the prefix |
| Numbers.GetNumberNegative | py65asm/assembler.py:224-229 | one '-' before up to five decimal digits negates their value |
| Numbers.NegativePrefix | py65asm/assembler.py:15 | the decimal format matches "-" and digits and yields the negated value |
| Numbers.GetNumberDoubleDash | py65asm/assembler.py:224-229 | "--" before digits raises ValueError (the pattern matches, `int` refuses) |
| Numbers.GetNumberErrors | py65asm/assembler.py:224-231 | the only exception is ValueError, raised only for text starting "--"; a negative result comes only from a leading '-' or from a symbol |
| Numbers.DecimalPrefixCases | py65asm/assembler.py:225-229 | the decimal format fails only with ValueError and only for two or more dashes, and is negative only with exactly one |
| Numbers.GetNumberSymbol | py65asm/assembler.py:224-231 | text starting with anything other than '$', '%', '-' or a digit is looked up as a symbol, giving None when undefined |
| Numbers.ShowNat | py65asm/assembler.py:141 | `str(n)` of a natural number is non-empty decimal digits |
| Numbers.ShowInt | py65asm/assembler.py:141 | `str(n)` is non-empty |
| Numbers.ValueOfShowNat | py65asm/assembler.py:141 | reading back the decimal text of n gives n |
| Numbers.ParseShowInt | py65asm/assembler.py:140-161 | `int(str(n)) == n`: the `.ORG` target that line 141 writes as text is the number that line 161 reads back |
| Numbers.DigitChar | py65asm/assembler.py:141 | the character of a decimal digit has that digit value |
| Numbers.ParseIntCases | py65asm/assembler.py:161 | `int(x)` on text raises only ValueError, accepts no empty text, is negative only after a '-', and reads plain digits in base 10 |
| Numbers.IntOfItemCases | py65asm/assembler.py:161 | `int(x)` passes an int through, raises TypeError exactly for None, and ValueError for unreadable text |
| Operands.Absolute | py65asm/assembler.py:257-258 | `t.replace("z", "a")` maps z to a, zx to ax and zy to ay, and leaves every other mode alone |
| Operands.ClassifyBody | py65asm/assembler.py:11-17 | whatever one of the five number formats matches is a well-formed literal of that format |
| Operands.ClassifyHex | py65asm/assembler.py:12 | "$" and a body is a hex literal exactly when the body is 1-4 hex digits |
| Operands.ClassifyBinary | py65asm/assembler.py:13 | "%" and a body is a binary literal exactly when the body is 1-16 binary digits |
| Operands.ClassifyOctal | py65asm/assembler.py:14 | "0" and 1-6 octal digits is an octal literal |
| Operands.ClassifyDecimal | py65asm/assembler.py:15 | dashes and 1-5 decimal digits are a decimal literal unless the octal format takes them first |
| Operands.ClassifyName | py65asm/assembler.py:16 | word characters that no number format takes are a name |
| Operands.ClassifyNone | py65asm/assembler.py:11-17 | a body holding a character outside all five formats is no literal |
| Operands.LiteralValueCases | py65asm/assembler.py:241-255 | only a decimal literal with two or more dashes fails, with ValueError; only a name can be without a value; a negative value comes from a name or one leading '-' |
| Operands.DecimalLiteralIsInt | py65asm/assembler.py:250-252 | a decimal literal takes the value `int()` gives its text, and fails exactly when `int()` does |
| Operands.Try | py65asm/assembler.py:21-49 | a pattern that matches yields a well-formed literal |
| Operands.Match | py65asm/assembler.py:238-240 | the pattern chosen matches the operand, with the literal it found |
| Operands.GetArgument | py65asm/assembler.py:234-263 | a leading 'A' is the accumulator (in both directions); a resolved value is never negative; no matching pattern raises UnboundLocalError; ValueError and UnboundLocalError are the only exceptions |
| Operands.LiteralBase | py65asm/assembler.py:238-263 | the value of a matched operand is its digits read in base 16, 2, 8 or 10 by the format that matched; one dash gives the low byte of the negation; two or more raise ValueError |
| Operands.LiteralChars | py65asm/assembler.py:11-17 | every character of a literal is '$', '%', '-' or a word character, so none is '#', '(', ')' or ',' |
| Operands.NotLiteral | py65asm/assembler.py:11-17 | text holding '#', '(', ')' or ',' matches no number format |
| Operands.ImmediateSyntax | py65asm/assembler.py:21-24 | `#v` is immediate, with the literal v |
| Operands.ZeroPageSyntax | py65asm/assembler.py:25-27 | a bare `v` is zero page |
| Operands.ZeroPageXSyntax | py65asm/assembler.py:28-30 | `v,X` and `v,x` are zero page X |
| Operands.ZeroPageYSyntax | py65asm/assembler.py:31-33 | `v,Y` and `v,y` are zero page Y |
| Operands.IndexedIndirectSyntax | py65asm/assembler.py:34-38 | `(v,X)` is indexed indirect, and no earlier pattern takes it |
| Operands.IndirectIndexedSyntax | py65asm/assembler.py:39-43 | `(v),Y` is indirect indexed, and no earlier pattern takes it |
| Operands.IndirectSyntax | py65asm/assembler.py:44-48 | `(v)` is indirect, and no earlier pattern takes it |
| Operands.NotEarlierIndexed | py65asm/assembler.py:21-38 | `(v),Y` matches none of the first five patterns |
| Operands.NotEarlier | py65asm/assembler.py:21-33 | `(v)` matches none of the four unparenthesised patterns |
| Operands.NotIndexed | py65asm/assembler.py:34-43 | `(v)` matches neither indexed indirect pattern |
| Operands.MatchIndexedIndirect | py65asm/assembler.py:238-243 | the loop takes the first pattern that matches: indexed indirect when the four before it fail |
| Operands.MatchIndirectIndexed | py65asm/assembler.py:238-243 | indirect indexed when the five before it fail |
| Operands.MatchIndirect | py65asm/assembler.py:238-243 | indirect when the six before it fail |
| Operands.PromotionRule | py65asm/assembler.py:257-261 | a zero-page mode becomes absolute exactly when the value is non-zero and either exceeds 0xFF or its text has four characters; other modes never change; a negative value is reduced to its low byte |
| Operands.UndefinedSymbol | py65asm/assembler.py:253-258 | an undefined symbol keeps the pattern's own mode and has no value |
| Operands.NameOperand | py65asm/assembler.py:234-263 | a bare name not starting with 'A' is zero page with no value while undefined; once defined it has its value (low byte if negative), promoted to absolute when non-zero and either above 0xFF or four characters long |
| Encoder.UpperLetters | py65asm/assembler.py:96 | `upper()` keeps the length, turns each lower-case ASCII letter into the capital at the same place in the alphabet, and keeps every other character |
| Encoder.StripColons | py65asm/assembler.py:152 | `rstrip(":")` is a prefix ending in no ':', and only colons were dropped |
| Encoder.EmitMode | py65asm/assembler.py:104-106 | the emitted mode is absolute exactly when the operand is zero page and the mnemonic has no zero-page opcode, and the operand's mode otherwise |
| Encoder.InstructionItemsNotNone | py65asm/assembler.py:108-118 | an instruction line never appends None |
| Encoder.AppendOnly | py65asm/assembler.py:95-154 | a line only appends to the output: earlier items are kept and no appended item is None |
| Encoder.AppendsItems | py65asm/assembler.py:95-154 | appending items that are not None extends the list |
| Encoder.DirectiveAppends | py65asm/assembler.py:119-149 | a directive or assignment line only appends |
| Encoder.DataAppends | py65asm/assembler.py:119-132 | a `.BYTE` or `.WORD` line only appends |
| Encoder.OrgAppends | py65asm/assembler.py:133-141 | a `.ORG` line only appends |
| Encoder.AssignmentAppends | py65asm/assembler.py:143-149 | an assignment or `name = *` line only appends |
| Encoder.WhatChanges | py65asm/assembler.py:133-149 | the start address changes only on a line with `.ORG`, and the symbol table only on a line with `=` |
| Encoder.InstructionKeeps | py65asm/assembler.py:97-118 | an instruction line changes neither the start address nor the symbol table |
| Encoder.DirectiveKeeps | py65asm/assembler.py:119-141 | a `.BYTE`, `.WORD` or `.ORG` line keeps the symbol table, and only `.ORG` moves the start address |
| Encoder.AssignmentKeeps | py65asm/assembler.py:143-149 | an assignment keeps the start address and changes the table only with a value after the '=' |
| Encoder.ImpliedLine | py65asm/assembler.py:98-100 | a mnemonic alone succeeds iff it has an implied ('im') opcode, appends exactly that byte, and otherwise raises KeyError |
| Encoder.UnresolvedInstruction | py65asm/assembler.py:114-118 | an undefined operand appends the mnemonic and operand text, and a blank filler unless the mnemonic is a branch |
| Encoder.ResolvedInstruction | py65asm/assembler.py:102-113 | a known operand appends its mode's opcode, then low and high byte for two-byte modes or the value itself; a missing mode raises KeyError (iff) |
| Encoder.ByteLine | py65asm/assembler.py:119-124 | `.BYTE v` appends one item: the value when known and non-zero (iff), otherwise the operand text |
| Encoder.WordLine | py65asm/assembler.py:125-132 | `.WORD v` appends two items: low and high byte of a known non-zero value, otherwise "WORD" and the operand text |
| Encoder.OrgLine | py65asm/assembler.py:133-141 | `.ORG v` before any int sets the start address and appends nothing; afterwards it appends "ORG" and text that reads back as v |
| Encoder.AssignmentLine | py65asm/assembler.py:147-149 | `name = v` binds name to v's value and changes no other name, the output or the start |
| Encoder.StarLabelLine | py65asm/assembler.py:144-146 | `name = *` appends "LABEL" and the name |
| Encoder.LabelLine | py65asm/assembler.py:150-154 | a label appends "LABEL" and its name without trailing colons, then assembles the rest of the line |
| Encoder.EncodeLineErrors | py65asm/assembler.py:95-154 | an empty token list raises IndexError; any exception a line raises is IndexError, KeyError, ValueError or UnboundLocalError |
| Encoder.InstructionErrors | py65asm/assembler.py:97-118 | an instruction line raises only those four exceptions |
| Encoder.DirectiveErrors | py65asm/assembler.py:119-149 | a directive or assignment line raises only those four exceptions |
| Encoder.DataErrors | py65asm/assembler.py:119-141 | a `.BYTE`, `.WORD` or `.ORG` line raises only those four exceptions |
| Resolver.TakePrefix | py65asm/assembler.py:161 | `s[:m]` is a prefix of s: its first m items, or all but the last -m for negative m, and never more than s |
| Resolver.Drop | py65asm/assembler.py:161 | `s[m:]` holds the items from m on |
| Resolver.Zeros | py65asm/assembler.py:161 | `[0]*k` is k zeros, none for a negative k |
| Resolver.PrevIndexWraps | py65asm/assembler.py:179-190 | `out[j-1]` reads the item just before j cyclically: the index after it, modulo the length, is j |
| Resolver.RefersToSpec | py65asm/assembler.py:176-177 | the reference test holds iff the token is some '(' and '#' characters, the name, then ')', ',' or the end |
| Resolver.RefersToFound | py65asm/assembler.py:176-177 | a reference the recursive matcher finds is a pattern match at some index |
| Resolver.FoundRefersTo | py65asm/assembler.py:176-177 | a pattern match at any index is found by the recursive matcher |
| Resolver.Rewritten | py65asm/assembler.py:188-215 | the rewritten list's length: unchanged for j ≥ 1, except one more for a non-branch whose operand is the last item; doubled at j = 0 for a branch, and grown by the slice overlap for any other mnemonic |
| Resolver.Step | py65asm/assembler.py:173-217 | one inner iteration makes progress: j moves on, or a placeholder at j is consumed |
| Resolver.InnerScan | py65asm/assembler.py:166-217 | the inner loop terminates and never shrinks the list |
| Resolver.InnerScanStep | py65asm/assembler.py:173-217 | the inner loop is its step followed by the rest of the loop, stopping at an exception |
| Resolver.StepPassesOver | py65asm/assembler.py:173-177 | an item that is not a reference to the label is passed over, and a "LABEL" tag is counted |
| Resolver.StepByte | py65asm/assembler.py:179-181 | after a `.BYTE` placeholder the reference becomes its value, or None, in place; nothing else changes and the error is getNumber's |
| Resolver.StepWord | py65asm/assembler.py:182-187 | after a "WORD" tag the tag becomes the low byte and the reference the high byte, in that order; an undefined value raises TypeError; nothing else changes |
| Resolver.StepRewrite | py65asm/assembler.py:188-215 | after a mnemonic the reference is rewritten as `Rewritten` says and j moves on; getArgument's exception propagates, and a None before it raises AttributeError |
| Resolver.CountAppend | py65asm/assembler.py:176 | the "LABEL" tags of two lists side by side are the tags of each added up |
| Resolver.StepKeepsCount | py65asm/assembler.py:170-217 | one step keeps `num_labels` equal to the number of "LABEL" tags before j |
| Resolver.RewriteKeepsCount | py65asm/assembler.py:188-215 | a rewrite puts numbers in place of the mnemonic and operand, so the count of tags up to the new j is unchanged |
| Resolver.WordKeepsCount | py65asm/assembler.py:182-187 | filling a "WORD" placeholder keeps the count of tags before j |
| Resolver.InnerScanCounts | py65asm/assembler.py:166-217 | from a state where the count is right, every state the inner loop reaches has it right |
| Resolver.ScanFromStart | py65asm/assembler.py:166-217 | for a table without a "LABEL" mnemonic, `num_labels` is the number of tags before j in every state of the inner loop |
| Resolver.RewriteKeepsLast | py65asm/assembler.py:188-217 | an instruction rewrite with 1 <= j and j + 1 < len(out) keeps the length, and the last item is kept or becomes a number |
| Resolver.PassKeepsList | py65asm/assembler.py:173-177 | an item that is no reference to the label leaves the list alone and moves j on |
| Resolver.ByteKeepsLast | py65asm/assembler.py:179-181 | a `.BYTE` fill keeps the length and the last item |
| Resolver.WordKeepsLast | py65asm/assembler.py:182-187 | a `.WORD` fill keeps the length and writes only numbers |
| Resolver.RewriteStepKeepsLast | py65asm/assembler.py:188-217 | an instruction rewrite by the inner loop away from both ends keeps the length |
| Resolver.ReferenceKeepsLast | py65asm/assembler.py:179-217 | every kind of reference step away from both ends keeps the length, and the last item is kept or becomes a number |
| Resolver.StepKeepsLength | py65asm/assembler.py:173-217 | one inner step from a state whose last item is not a string, and where no reference sits at j = 0, keeps the length and that condition |
| Resolver.InnerScanKeepsLength | py65asm/assembler.py:166-217 | while no reference sits at j = 0 and the last item is not a string (so no operand is last), the whole inner loop keeps the list's length |
| Resolver.OuterStep | py65asm/assembler.py:158-221 | a successful outer iteration moves i to i + 1 |
| Resolver.OuterScanStep | py65asm/assembler.py:158-221 | the outer loop is its step followed by the rest of the loop, stopping at an exception |
| Resolver.OuterScanEnds | py65asm/assembler.py:158 | `while i < len(out)`: the outer loop ends only with i at or past the end of the list |
| Resolver.LabelStepFails | py65asm/assembler.py:162-217 | at a "LABEL" tag an exception of the inner loop is the outer step's |
| Resolver.LabelStepPasses | py65asm/assembler.py:162-219 | at a "LABEL" tag a finished inner loop is followed by popping the name and moving i on |
| Resolver.LabelStepIs | py65asm/assembler.py:162-165 | at a "LABEL" tag whose name is a string, the outer step is the resolution of that label, bound to i + start, on the list without the tag |
| Resolver.ResolveLabelFails | py65asm/assembler.py:166-217 | an exception of the inner loop is the exception of the label's resolution |
| Resolver.ResolveLabelPasses | py65asm/assembler.py:166-219 | after the inner loop finishes, the name at index i is popped and i moves on |
| Resolver.LabelStepResult | py65asm/assembler.py:162-219 | at a "LABEL" tag: pop it, bind the name to i + start, run the inner scan, pop the name |
| Resolver.ResolveSpecScan | py65asm/assembler.py:156-221 | resolution succeeds iff the outer scan from 0 does, then holds the scan's list and table, and otherwise fails with the scan's exception |
| Resolver.BranchRewrite | py65asm/assembler.py:192-205 | a branch at j ≥ 1 fails with BranchTooFar iff the offset leaves [-128, 127]; otherwise it keeps length and other items and writes the zero-page opcode and an offset byte that lands on the target |
| Resolver.WideRewrite | py65asm/assembler.py:207-215 | any other instruction gets its absolute opcode and the operand's two bytes; a missing opcode raises KeyError (iff) and an operand without a value TypeError |
| Resolver.WrapAroundRewrite | py65asm/assembler.py:190-205 | a branch operand at index 0 reads its mnemonic from the end, and the rewrite doubles the list |
| Resolver.OrgStep | py65asm/assembler.py:160-161 | "ORG" and its operand become padding zeros so that the next item lands at target − start; no operand raises IndexError; a missing start raises TypeError |
| Resolver.LabelStep | py65asm/assembler.py:162-219 | a label binds its name to i + start, changes no other name, fails iff the inner scan fails, and moves on to i + 1 |
| Resolver.LabelErrors | py65asm/assembler.py:162-164 | a "LABEL" tag raises TypeError without a start address and IndexError without a name after it |
| Resolver.OuterScanFuel | py65asm/assembler.py:158-221 | more fuel does not change a result that was reached |
| Resolver.NothingToResolve | py65asm/assembler.py:158-221 | a list with no tags from i on is left as it is, table included |
| Driver.Split | py65asm/assembler.py:68 | `split('\n')` gives at least one piece, and no piece holds the separator |
| Driver.JoinSplit | py65asm/assembler.py:68 | joining the pieces with the separator gives back the text |
| Driver.SplitNoSeparator | py65asm/assembler.py:68 | text without the separator is one piece |
| Driver.SplitAppend | py65asm/assembler.py:68 | a piece followed by the separator splits off first |
| Driver.SplitJoin | py65asm/assembler.py:68 | splitting joined pieces gives back the pieces |
| Driver.TrimLeft | py65asm/assembler.py:73 | `lstrip()` drops exactly the leading whitespace |
| Driver.TrimRight | py65asm/assembler.py:73 | `rstrip()` drops exactly the trailing whitespace |
| Driver.Strip | py65asm/assembler.py:73 | `strip()` neither begins nor ends with whitespace |
| Driver.StripSlice | py65asm/assembler.py:73 | `strip()` is the slice of the line between its leading and its trailing whitespace |
| Driver.WordEnd | py65asm/assembler.py:81 | the first token ends at the first whitespace |
| Driver.WordsPieces | py65asm/assembler.py:81 | `split()` tokens are non-empty, hold no whitespace, and hold no character the text lacks |
| Driver.WordsKeepText | py65asm/assembler.py:81 | the tokens side by side are exactly the text's non-whitespace characters |
| Driver.WordEndOf | py65asm/assembler.py:81 | the first token of a word followed by whitespace ends where the word does |
| Driver.WordsOf | py65asm/assembler.py:81 | `split()` cuts a word off at the first whitespace after it |
| Driver.WordsSkip | py65asm/assembler.py:81 | leading whitespace makes no token |
| Driver.WordsAlone | py65asm/assembler.py:81 | a word without whitespace is one token |
| Driver.WordsJoin | py65asm/assembler.py:81 | `split()` of tokens joined by single spaces gives back the tokens: it cuts exactly at whitespace |
| Driver.WordsBlank | py65asm/assembler.py:81 | a word and one blank split off as the first token |
| Driver.JoinCons | py65asm/assembler.py:68 | joining two or more parts is the first part, the separator, then the join of the rest |
| Driver.BeforeComment | py65asm/assembler.py:78-79 | `l[:l.index(";")]` is the prefix before the first ';', or the whole line without one |
| Driver.LineTokensShape | py65asm/assembler.py:72-83 | a line that is not skipped gives at least one token, none empty or holding whitespace or ';' |
| Driver.SkippedLine | py65asm/assembler.py:73-76 | a line is skipped, the state unchanged, exactly when it is blank or its first non-whitespace character is ';' |
| Driver.EncodeLinesStep | py65asm/assembler.py:72-83 | the line loop is one line followed by the rest, stopping at an exception |
| Driver.EncodeLinesAppendOnly | py65asm/assembler.py:72-83 | the whole first pass only appends to the output |
| Driver.AssembleDiscardsOutput | py65asm/assembler.py:65 | `self.out = []`: what the output list held before the call does not change the outcome |
| Assembler.Assembler.constructor | py65asm/assembler.py:54-62 | empty table and output; org and start are the given origin, or 0 |
| Assembler.Assembler.AssembleTokens | py65asm/assembler.py:95-154 | the new fields are `EncodeLine` of the old ones, exactly when it succeeds, and the exception is its exception |
| Assembler.Assembler.AssembleInstruction | py65asm/assembler.py:97-118 | the instruction branch agrees with `EncodeLine` |
| Assembler.Assembler.EmitInstruction | py65asm/assembler.py:102-118 | appends exactly the instruction's items, touching nothing else |
| Assembler.Assembler.AssembleDirective | py65asm/assembler.py:119-141 | the `.BYTE`/`.WORD`/`.ORG` branch agrees with `EncodeLine` |
| Assembler.Assembler.RewriteReference | py65asm/assembler.py:176-215 | the in-place rewrite of a reference agrees with one inner step |
| Assembler.Assembler.RewriteInstruction | py65asm/assembler.py:188-215 | the list becomes `Rewritten`, or the same exception is raised |
| Assembler.Assembler.ScanReferences | py65asm/assembler.py:166-217 | the inner loop leaves the list `InnerScan` computes, or fails as it does |
| Assembler.Assembler.ScanStep | py65asm/assembler.py:173-217 | one inner iteration agrees with `Step` |
| Assembler.Assembler.PadOrg | py65asm/assembler.py:160-161 | the "ORG" case agrees with the outer step |
| Assembler.Assembler.ResolveLabelAt | py65asm/assembler.py:162-219 | the "LABEL" case agrees with the outer step |
| Assembler.Assembler.OuterStepAt | py65asm/assembler.py:158-221 | one outer iteration agrees with `OuterStep` |
| Assembler.Assembler.OuterIteration | py65asm/assembler.py:158-221 | after an iteration the rest of the scan computes what the whole scan does; a failure is the scan's failure |
| Assembler.Assembler.ResolveLabels | py65asm/assembler.py:156-221 | the new fields are `ResolveSpec` of the old ones, or its exception |
| Assembler.Assembler.AssembleLine | py65asm/assembler.py:73-83 | one line agrees with `LineStep`: skipped when blank or a comment, else its tokens are assembled |
| Assembler.Assembler.AssembleLines | py65asm/assembler.py:72-83 | the line loop agrees with `EncodeLines` |
| Assembler.Assembler.Assemble | py65asm/assembler.py:64-93 | returns the output list that `AssembleSpec` computes and leaves the fields as it says, or raises its exception |
| Examples.FourDigitsAreAbsolute | tests/test_assembler.py:64 | "$00FF" is absolute with value 255 |
| Examples.TwoDigitsAreZeroPage | tests/test_assembler.py:36 | "$FF" is zero page with value 255 |
| Examples.BinaryOperand | tests/test_assembler.py:37 | "%10101011" is zero page 171 |
| Examples.OctalOperand | tests/test_assembler.py:38 | "010" is zero page 8 |
| Examples.DecimalOperand | tests/test_assembler.py:39 | "123" is zero page 123 |
| Examples.OctalAbsolute | tests/test_assembler.py:66 | "01110" is absolute 584 |
| Examples.DecimalAbsolute | tests/test_assembler.py:67 | "1234" is absolute 1234 |
| Examples.OctalClaimsLeadingZero | py65asm/assembler.py:224-229 | "0089" reads as the octal prefix "00", value 0: the formats are tried in order with a prefix match |
| Examples.DecimalLeadingZero | py65asm/assembler.py:224-229 | "08" reads as decimal 8: the octal format finds no octal digit after the '0' |
| Examples.AccumulatorOperand | tests/test_assembler.py:117 | "A" is the accumulator, and so is any operand starting with 'A' |
| Examples.ForwardReference | py65asm/assembler.py:253-258 | an undefined name is zero page with no value |
| Examples.ImmediateOperand | py65asm/assembler.py:21-24 | "#$55" is immediate 0x55 |
| Examples.ImmediateLine | py65asm/assembler.py:102-113 | `LDA #$55` appends 0xA9 and 0x55 |
| Examples.WideOperand | py65asm/assembler.py:257-258 | "$555" is promoted to absolute |
| Examples.AbsoluteLine | py65asm/assembler.py:102-113 | `LDA $555` appends 0xAD, 0x55 and 0x05 |
| Examples.ProgramLines | py65asm/assembler.py:68 | the program splits into its five lines |
| Examples.TwoWordLine | py65asm/assembler.py:81 | two words separated by one space are two tokens |
| Examples.JumpLine | py65asm/assembler.py:114-118 | `JMP label` before the label appends "JMP", "label" and a blank |
| Examples.DexLine | py65asm/assembler.py:98-100 | `DEX` appends 0xCA |
| Examples.NameLine | py65asm/assembler.py:150-152 | `label` alone appends "LABEL" and the name |
| Examples.FirstPass | py65asm/assembler.py:72-83 | the first pass leaves the jump unresolved, three 0xCA and the label tag |
| Examples.DefinedOperand | py65asm/assembler.py:253-258 | once bound to 6 the name is zero page 6 |
| Examples.JumpRewritten | py65asm/assembler.py:207-215 | the jump becomes 0x4C, 6, 0 |
| Examples.OperandStep | py65asm/assembler.py:176-217 | the inner step at the operand performs that rewrite |
| Examples.InnerPass | py65asm/assembler.py:166-217 | the inner loop for the label rewrites the one reference |
| Examples.LabelAtSix | py65asm/assembler.py:162-219 | at the tag the label becomes 6, and the tag and name are removed |
| Examples.Resolution | py65asm/assembler.py:156-221 | the second pass yields `JMP $0006` and three `DEX` |
| Examples.ProgramAssembles | py65asm/assembler.py:64-93 | the whole program assembles to 4C 06 00 CA CA CA with `label` = 6, given enough fuel |

## Left out

- File input (`asm` as a file object, lines 69-70) and the binary output file (`output_dest`, lines 87-89) are I/O and are not modelled. `bytearray` would refuse items outside 0-255; the model returns the list as it is.
- The opcode table py65asm/ops.py is not part of this model. It is a parameter, and the examples use a three-mnemonic table.
- Regular expressions are modelled by hand for the patterns the code uses. The reference test at line 177 splices the label name into a pattern; the model matches the name literally. A name holding regex metacharacters is therefore not modelled.
- Character classes are ASCII only: `\d`, `\w`, `upper()` and `split()`'s whitespace (space, tab, newline, carriage return, vertical tab, form feed). Unicode categories are not modelled.
- `int(s)` (line 161) accepts only an optional sign and decimal digits. The model does not accept surrounding whitespace or underscores, which the `ORG` text written at line 141 never holds.
- Resolver.OuterStep, Resolver.Step: the model fails with the marker error `Unmodelled` whenever the item after a processed "LABEL" tag is not a string. It fails at the binding of line 164 (`OuterStep`; `ResolveLabelAt` in the class), where Python binds a non-string key. It also fails when the inner scan at line 177 finds that the name slot at index i no longer holds a string (`Step`; `ScanStep` in the class), where Python formats the item into the pattern. One way this happens is a branch rewrite at j = 0, which doubles the list (`out[:-1] + new + out[1:]`). The doubling leaves the last label's "LABEL" tag followed by the branch opcode, so the outer loop later meets that tag before a number.
- The Python 2/3 compatibility shim (lines 5-9) is not modelled. `setup.py` is packaging and is not modelled.
- Assembler.Assembler.ResolveLabels: runs at most `fuel` outer iterations and fails with `OutOfFuel` after that. A rewrite at index 0 can double the list, so the source's outer loop is not known to terminate. The inner loop is modelled without fuel. After an exception the output list and table are left unspecified.
- Assembler.Assembler.Assemble: takes the fuel of `ResolveLabels`. After an exception the fields are left unspecified.
- Assembler.Assembler.AssembleTokens: after an exception the fields are left unspecified (the source may have appended part of a line).
- Assembler.Assembler.AssembleInstruction: after an exception the fields are left unspecified.
- Assembler.Assembler.EmitInstruction: after an exception the output list is left unspecified.
- Assembler.Assembler.AssembleDirective: after an exception the fields are left unspecified.
- Assembler.Assembler.AssembleLine: after an exception the fields are left unspecified.
- Assembler.Assembler.AssembleLines: after an exception the fields are left unspecified.
- Assembler.Assembler.RewriteReference: after an exception the output list is left unspecified.
- Assembler.Assembler.RewriteInstruction: after an exception the output list is left unspecified.
- Assembler.Assembler.ScanReferences: after an exception the output list is left unspecified.
- Assembler.Assembler.ScanStep: after an exception the output list is left unspecified.
- Assembler.Assembler.PadOrg: after an exception the output list is left unspecified.
- Assembler.Assembler.ResolveLabelAt: after an exception the output list and table are left unspecified.
- Assembler.Assembler.OuterStepAt: after an exception the output list and table are left unspecified.
- Assembler.Assembler.OuterIteration: after an exception the output list and table are left unspecified.
- Resolver.Rewritten: its own contract states only the length of the result. The contents are stated by `BranchRewrite` (a branch at j ≥ 1), `WideRewrite` (any other mnemonic, for 1 ≤ j and j + 1 < |out|) and `WrapAroundRewrite` (a branch at j = 0). The contents of a non-branch rewrite at j = 0 or with its operand last are given only by the definition.
- Resolver.InnerScan: its own contract states termination and that the list never shrinks. `InnerScanKeepsLength` gives the exact length when no reference sits at j = 0 and no operand is last. The list it computes is its definition, which `ScanReferences` is proved against.
- Resolver.LabelStep: states the list's length only as a lower bound. `LabelStepResult` gives the exact list.
- The branch compensation `num_labels` follows the code and counts the "LABEL" tags the inner loop has passed before j. It does not count tags still ahead of the reference.
- After a label, `i += 1` passes over the item that follows the popped name, as the code does. A label immediately followed by a second one therefore leaves the second unresolved.
