/** The exceptions the modelled code raises or catches. */
module Errors {

  /** `msgspec.DecodeError` (and its subclass `ValidationError`): a line or an
      embedded document that does not decode into the expected struct. */
  datatype DecodeError = DecodeError(message: string)

  /** An exception that escapes a record and aborts the partition or the run. */
  datatype Fault =
    | Undecodable(error: DecodeError) // the line itself does not decode
    | AttributeOfNone(attribute: string) // AttributeError: 'NoneType' object has no attribute
    | SliceOfNone(what: string) // TypeError: 'NoneType' object is not subscriptable
    | IterateNone(what: string) // TypeError: 'NoneType' object is not iterable
    | JoinOfNone(what: string) // TypeError: sequence item: expected str instance, NoneType found
    | MissingHeader // RuntimeError: generator raised StopIteration (`next(reader)` on an empty file)
    | RowTooShort // IndexError: `row[1]` of a row with fewer than two fields
    | MissingArguments(names: seq<string>) // TypeError: required arguments are missing, all of them named
    | UnexpectedArgument(name: string) // TypeError: an unexpected keyword argument
    | InvalidPoolSize // ValueError: Number of processes must be at least 1
    | NoSuchAttribute(attribute: string) // AttributeError: a struct field that is not declared
    | NewlineInBinaryMode // ValueError: `gzip.open` in binary mode refuses a `newline` argument
}
