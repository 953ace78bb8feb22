/** Optional values and the exceptions the modelled C# code can raise. */
module Wrappers {

  datatype Option<T> = None | Some(value: T)
  {
    predicate IsSome() { Some? }
  }

  /** The .NET exception kinds that the modelled code throws, by cause. */
  datatype Fault =
    | ArgumentFault          // ArgumentException / ArgumentNullException
    | IndexOutOfRange        // IndexOutOfRangeException
    | InvalidOperation       // InvalidOperationException
    | NotImplemented         // NotImplementedException
    | DivideByZero           // DivideByZeroException
    | NegativeSize           // OverflowException from a negative array size
    | FormatFault            // FormatException from Convert.ToInt32
    | NullReference          // NullReferenceException

  /** The outcome of a call that may throw. */
  datatype Result<T> = Ok(value: T) | Err(fault: Fault)
  {
    predicate IsOk() { Ok? }
  }
}
