/** The two result shapes the model uses in place of Rust's `Option` and `Result`. */
module Wrappers {
  datatype Option<+T> = None | Some(value: T)

  /** `Err` stands for every refusal (`bail!`, `?`): which message it carries is not modelled. */
  datatype Result<+T> = Ok(value: T) | Err
}
