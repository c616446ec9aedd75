/** Failure-compatible result types and the errors the image program signals. */
module Outcomes {

  /** One constructor per failure the program signals. The comment on each says which Java
      exception the program throws for it. */
  datatype Error =
    | OutOfRange          // IllegalArgumentException: a pixel channel outside [0, 255]
    | InvalidDimensions   // IllegalArgumentException: width, height or maxValue not positive
    | NullGrid            // IllegalArgumentException: the pixel grid is null
    | NullPixel           // IllegalArgumentException: a cell of the pixel grid is null
    | DimensionMismatch   // IllegalArgumentException: grid is not width x height (strict check only)
    | IndexOutOfBounds    // ArrayIndexOutOfBoundsException
    | NullSelector        // IllegalArgumentException: greyscale component type is null
    | NullFlipType        // IllegalArgumentException: flip type is null
    | NonPositiveValue    // IllegalArgumentException: brighten/darken by a value <= 0
    | NullKernel          // IllegalArgumentException: filter kernel is null
    | InvalidKernelShape  // IllegalArgumentException: kernel not square or of even size
    | NullMatrix          // IllegalArgumentException: colour matrix is null
    | InvalidMatrixShape  // IllegalArgumentException: colour matrix not 3 x 3
    | InvalidPercent      // IllegalArgumentException: downsize percentage outside [0, 100)
    | NotFound            // IllegalArgumentException: no image stored under that name
    | NullImage           // IllegalArgumentException: storing a null image
    | InvalidFile         // IllegalArgumentException: path too short or unknown suffix (load)
    | InvalidFilename     // IllegalArgumentException: unknown suffix (save)
    | FileNotFound        // IllegalArgumentException: the PPM file cannot be opened
    | EmptyLine           // StringIndexOutOfBoundsException: charAt(0) on an empty line
    | BadMagic            // IllegalArgumentException: first token is not P3
    | NoSuchElement       // NoSuchElementException: the token stream ran out
    | InputMismatch       // InputMismatchException: a token is not a Java int
    | NegativeArraySize   // NegativeArraySizeException: a negative width or height

  /** True when the program reports this failure as an IllegalArgumentException. */
  predicate IsIllegalArgument(e: Error) {
    !(e.IndexOutOfBounds? || e.EmptyLine? || e.NoSuchElement? || e.InputMismatch? || e.NegativeArraySize?)
  }

  /** A Java reference that may be null. */
  datatype Option<+T> = None | Some(value: T)

  /** A value, or the exception raised instead of producing it. */
  datatype Result<+T> = Success(value: T) | Failure(error: Error) {
    predicate IsFailure() { Failure? }
    function PropagateFailure<U>(): Result<U> requires Failure? { Failure(error) }
    function Extract(): T requires Success? { value }
  }

  /** The completion of a void Java method: normally, or by an exception. */
  datatype Outcome = Pass | Fail(error: Error)

  function OutcomeOf<T>(r: Result<T>): (o: Outcome)
    ensures o.Pass? <==> r.Success?
    ensures r.Failure? ==> o.error == r.error
  {
    if r.Success? then Pass else Fail(r.error)
  }
}
