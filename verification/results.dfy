/** Optional values (Java's nullable references) and results (a value or
    what was thrown), shared by every module of the model. */
module Results {

  /** A Java reference that may be null: `None` stands for null. */
  datatype Option<+T> = None | Some(value: T)

  /** The outcome of a Java call that either returns a value or throws. */
  datatype Result<+T, +E> = Ok(value: T) | Err(error: E)

  /** `java.util.concurrent.TimeUnit`, the units the lock and counter calls use. */
  datatype TimeUnit = Milliseconds | Seconds | Minutes | Hours | Days
}
