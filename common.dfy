/// Values shared by every stage of the assembler: the failure-carrying
/// result type that replaces the C++ exceptions, and the error kinds.
module Common {

  datatype Option<+T> = None | Some(value: T)

  /// One constructor per kind of fatal error the assembler can raise.
  datatype Error =
    | DuplicateLabel(name: string)
    | UndefinedLabel(name: string)
    | InvalidRegister
    | ImmediateOutOfRange
    | MisalignedOffset
    | InvalidConditionCode
    | UnknownCondition(suffix: string)
    | UnknownMnemonic(name: string)
    | SyntaxError(expected: string)
    | TooFewOperands
    | ExtraTokens
    | MissingOperand
    | InvalidNumber
    | NumberOutOfRange
    | UnknownTokenType
    | UnknownOperator(op: string)
    | NotARegister(text: string)
    | EmptyOperand
    | CompileFailed

  /// Either a value or the error that aborted the computation; usable with `:-`.
  datatype Result<+T> = Ok(value: T) | Err(error: Error) {
    predicate IsFailure() { Err? }

    function PropagateFailure<U>(): Result<U>
      requires Err?
    {
      Err(error)
    }

    function Extract(): T
      requires Ok?
    {
      value
    }
  }

  /// A byte of emitted machine code.
  type Byte = b: int | 0 <= b < 256

  /// No element occurs twice.
  predicate NoDuplicates<T(==)>(s: seq<T>) {
    forall i, j :: 0 <= i < j < |s| ==> s[i] != s[j]
  }
}
