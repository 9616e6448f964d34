/** Option and the outcome of a computation that may panic or fail to finish. */
module Wrappers {

  /** Rust's `Option`. */
  datatype Option<+T> = None | Some(value: T)

  /** Why an `unwrap`, `expect` or `assert_eq!` in the library aborts the process. */
  datatype PanicReason =
    | ReadDirFailed          // `read_dir().unwrap()` on a directory that cannot be listed
    | LinkTargetNotFileName  // `assert_eq!(target.file_name(), Some(target.as_os_str()))`
    | HomeNotSet             // `expect("$HOME is not set")` when the roots are first computed

  /** The outcome of running library code: it returns a value, it panics, or it is
      still running when the step budget given to a specification runs out. */
  datatype Outcome<+T> = Done(value: T) | Panicked(reason: PanicReason) | OutOfFuel
}
