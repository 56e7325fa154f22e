/** Optional values and the outcomes of operations (src/error.rs). */
module Results {

  datatype Option<T> = None | Some(value: T)

  datatype ExFatError =
    | DiskFull
    | InvalidClusterId(id: nat)
    | EndOfFatChain
    | SeekOutOfRange
    | ReadNotEnabled
    | WriteNotEnabled
    | InvalidFileName
    | DirectoryFull
    | FileNotFound
    | AlreadyExists
    | Underflow  // `remaining_bytes_in_cluster -= n` below zero: not an error value but a panic

  datatype Result<T> = Ok(value: T) | Err(error: ExFatError)
}
