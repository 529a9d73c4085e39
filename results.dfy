/** Value-or-failure wrappers used throughout the reply layer. */
module Results {

  /** A nullable pointer: `None` stands for `nullptr`. */
  datatype Option<+T> = None | Some(value: T)

  /** The library's `::result<T, std::string>`: either a value (`ok`) or a
      failure carrying a descriptive text (`failed`). */
  datatype Result<+T> = Ok(value: T) | Failed(error: string)
}
