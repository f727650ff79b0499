/** Outcome types shared by the registry handlers. */
module Results {

  /** Why a registration was refused. */
  datatype Error = InvalidEndpoint(url: string)

  /** A handler's return: a value, or the error that stopped the chain. */
  datatype Result<T> = Ok(value: T) | Err(error: Error)

  datatype Option<T> = None | Some(value: T)

  /** The empty reply of `Unregister`. */
  datatype Empty = Empty
}
