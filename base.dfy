/** Shared vocabulary of the assembler model: optional values, Python
    exceptions as explicit failures, and the items of the output list. */
module Base {

  datatype Option<+T> = None | Some(value: T)

  /** The Python exceptions the core can raise, plus the model's own
      resource bound on the resolution pass. */
  datatype Error =
    | IndexError        // a list index out of range (`tokens[1]`, `out[i+1]`, ...)
    | KeyError          // a missing mnemonic or addressing mode in the opcode table
    | ValueError        // `int()` of a malformed digit string (`--5`)
    | TypeError         // arithmetic on None, on a string, or with `start` = None
    | UnboundLocalError // `getArgument` on an operand that matches no pattern
    | AttributeError    // `None.upper()`
    | BranchTooFar      // "Branch target too far"
    | Unmodelled        // a label-name slot that is no longer a string
    | OutOfFuel         // the model's bound on the outer resolution scan

  datatype Result<+T> = Success(value: T) | Failure(error: Error) {
    predicate IsFailure() { Failure? }
    function PropagateFailure<U>(): Result<U>
      requires Failure?
    {
      Failure(error)
    }
    function Extract(): T
      requires Success?
    {
      value
    }
  }

  datatype Outcome = Pass | Fail(error: Error)

  /** One element of the assembler's mixed output list `self.out`: a Python
      int, a Python str (placeholder tokens and the sentinels "LABEL", "ORG",
      "WORD", ""), or None. */
  datatype Item = Num(n: int) | Str(s: string) | NoneItem

  /** The symbol table: Python's `symbols.get(name, None)`. */
  function Lookup(symbols: map<string, Option<int>>, name: string): Option<int>
  {
    if name in symbols then symbols[name] else None
  }

  /** Python's `n & 0xff` on an unbounded integer (two's complement). */
  function LowByte(n: int): (r: int)
    ensures 0 <= r < 256 && (n - r) % 256 == 0
  {
    n % 256
  }

  /** Python's `n >> 8`, an arithmetic (flooring) shift. */
  function HighPart(n: int): (r: int)
    ensures r * 256 + LowByte(n) == n
  {
    n / 256
  }
}
