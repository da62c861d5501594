/** Options, results and the pager's error values. */
module Results {

  datatype Option<+T> = None | Some(value: T)

  datatype Error =
    | Io
    | InvalidPageSize
    | CorruptSuperblock
    | CorruptMetadata
    | OutOfBounds
    | ReservedPage
    | DoubleFree
    | Unavailable
    | CorruptProtectedDirectory
    | CorruptDirectoryIndex
    | DirectoryFull

  datatype Result<+T> = Ok(value: T) | Err(error: Error)
}
