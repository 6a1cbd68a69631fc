/** Option and Result values used across the model: `None` stands for a
    pandas NaN (the mean of an empty selection), `Err` for a Python exception. */
module Results {

  datatype Option<+T> = None | Some(value: T)

  datatype Result<+T> = Ok(value: T) | Err(error: string)
}
