/**
 * The error reporter the stages share. The source prints each diagnostic
 * to the error stream and raises a process-wide flag; here the reporter
 * is an object every stage holds, and each report is appended to its
 * `diagnostics` sequence.
 */
module Reports {
  import opened Tokens

  /**
   * A compile-time diagnostic renders as `[line N] Error<where>: message`;
   * a runtime one as `message` followed by `[line N]`.
   */
  datatype Diagnostic =
    | CompileError(line: int, where: string, message: string)
    | RuntimeFailure(line: int, message: string)

  /** Where a diagnostic about a token points: " at end" for end of input, else " at '<lexeme>'". */
  function Location(token: Token): string
  {
    if token.kind == Eof then " at end" else " at '" + token.lexeme + "'"
  }

  /** The diagnostic an error on a token produces. */
  function ErrorAt(token: Token, message: string): Diagnostic
  {
    CompileError(token.line, Location(token), message)
  }

  /** Whether a diagnostic is a compile-time one (the driver's `hadError`). */
  predicate IsCompileError(d: Diagnostic)
  {
    d.CompileError?
  }

  class Reporter {
    var diagnostics: seq<Diagnostic>

    constructor ()
      ensures diagnostics == []
    {
      diagnostics := [];
    }

    /** A diagnostic tied to a line only (the scanner's errors). */
    method Error(line: int, message: string)
      modifies this
      ensures diagnostics == old(diagnostics) + [CompileError(line, "", message)]
    {
      diagnostics := diagnostics + [CompileError(line, "", message)];
    }

    /** A diagnostic tied to a token (the parser's and the resolver's errors). */
    method ErrorAtToken(token: Token, message: string)
      modifies this
      ensures diagnostics == old(diagnostics) + [ErrorAt(token, message)]
    {
      diagnostics := diagnostics + [ErrorAt(token, message)];
    }

    /** A runtime error, reported with the line of the token it arose at. */
    method RuntimeError(line: int, message: string)
      modifies this
      ensures diagnostics == old(diagnostics) + [RuntimeFailure(line, message)]
    {
      diagnostics := diagnostics + [RuntimeFailure(line, message)];
    }
  }
}
