// Outcome of an operation that the source may refuse with an error.
module Results {

  datatype Option<+T> = None | Some(value: T)

  datatype Error =
    | EmptyQueue | InvalidIndex | IndexOutOfRange | QueueFull
    | EntryNotFound
    | InvalidIteratorState
    | ShardsNotPowerOfTwo

  datatype Result<+T> = Ok(value: T) | Err(error: Error)
}
