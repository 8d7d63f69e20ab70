/**
 * The exceptions the two readers raise. Only which exception fires, and for
 * the readers' own checks the line number and line it names, is modelled;
 * the message text is not.
 */
module Errors {
  import opened Results

  /** The messages `raise_parser_error` is called with in read_mesh.py. */
  datatype ParserMessage =
    | IncludeWithoutInput    // "*INCLUDE definition must have INPUT."
    | KeywordContinuation    // "Continuation of keyword lines not supported."
    | ElementWithoutType     // "*ELEMENT definition must have TYPE."
    | NodeFieldCount         // "Node must have 4 parts: ..."
    | GenerateFieldCount     // "GENERATE data line must contain 2 or 3 elements."

  /** What a `ValueError` was raised for. */
  datatype ValueCause =
    | ElementFieldLimit(lineNum: int, line: string)      // more than 16 element fields (both readers)
    | InpNodeFieldCount(lineNum: int, line: string)      // read_inp: node line without 4 fields
    | InpElementWithoutType(lineNum: int, line: string)  // read_inp: *ELEMENT without TYPE
    | NotAnInteger(token: string)                        // int() rejected its argument
    | NotAFloat(token: string)                           // float() rejected its argument
    | ZeroRangeStep                                      // range() called with step 0
    | UnpackParameter(field: string)                     // `key, value = ...` on a field with several '='
    | FormatSyntax                                       // str.format: a lone brace, an unclosed field, a bad conversion
    | FieldNumbering                                     // str.format: a numbered field after an automatic one

  datatype Error =
    | ParserError(message: ParserMessage, lineNum: int, line: string)
    | ValueError(cause: ValueCause)
    | TypeError              // os.path.join given a bare INPUT flag instead of a path
    | IndexError             // str.format: an automatic field beyond the one argument
    | KeyError(key: string)  // str.format: a named field, with no keyword arguments given
    | FileNotFound(path: string)
    | NestedInclude(path: string)  // an *INCLUDE met inside an included file; the model stops here

  // ---------------------------------------------------------------- errors up to their line number

  /** An error with the line number it names set to 0. */
  function Forget(e: Error): (r: Error)
    ensures r.ParserError? <==> e.ParserError?
    ensures e.ParserError? ==> r == e.(lineNum := 0)
    ensures !e.ParserError? && !e.ValueError? ==> r == e
  {
    match e
    case ParserError(message, _, line) => ParserError(message, 0, line)
    case ValueError(ElementFieldLimit(_, line)) => ValueError(ElementFieldLimit(0, line))
    case ValueError(InpNodeFieldCount(_, line)) => ValueError(InpNodeFieldCount(0, line))
    case ValueError(InpElementWithoutType(_, line)) => ValueError(InpElementWithoutType(0, line))
    case _ => e
  }

  /** An outcome with the line number of its error, if any, set to 0. */
  function ForgetLine<T>(r: Result<T, Error>): (f: Result<T, Error>)
    ensures f.Success? <==> r.Success?
    ensures r.Success? ==> f == r
  {
    match r
    case Success(v) => Success(v)
    case Failure(e) => Failure(Forget(e))
  }
}
