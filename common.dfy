/** Failure-carrying results and the error kinds the core raises. */
module Common {

  datatype Option<+T> = None | Some(value: T)

  /** The exceptions thrown on the modelled paths, as values. */
  datatype Error =
    /** ResourceNotFoundException(resource, field, id), e.g. ("Product", "id", 7). */
    | NotFound(resource: string, field: string, id: int)
    /** InsufficientStockException(productName, requested, available). */
    | InsufficientStock(productName: string, requested: int, available: int)
    /** IllegalStateException(message), thrown by Product.decreaseQuantity. */
    | IllegalState(message: string)

  datatype Result<+T> = Ok(value: T) | Err(error: Error)

  /** The outcome of a void method that may throw. */
  datatype Outcome = Pass | Fail(error: Error)
}
