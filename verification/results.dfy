/** Option and Result in the shape the binding's Rust signatures use:
    `Option<&mut [u8]>` for the sense buffer and `Result<T, std::io::Error>`
    for every operation. */
module Results {

  datatype Option<+T> = None | Some(value: T)

  datatype Result<+T, +E> = Ok(value: T) | Err(error: E)
}
