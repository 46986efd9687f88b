/** Wrappers shared by the Elixir provider model:
    `Option` for Rust's `Option`, `Result` for `anyhow::Result`, and the
    two kinds of error this part of the provider can raise. */
module Wrappers {

  /** Rust's `Option<T>`. */
  datatype Option<+T> = None | Some(value: T)

  /** Rust's `Result<T, E>`; the `?` operator becomes an explicit match. */
  datatype Result<+T, +E> = Ok(value: T) | Err(error: E)

  /** The errors that reach the caller through `anyhow::Result`. */
  datatype Error =
    /** `app.read_file("mix.exs")` failed although the file exists. */
    | ReadFailed(reason: string)
    /** `str::parse::<f64>()` rejected the matched version token. */
    | InvalidFloat(literal: string)
}
