/** Values shared by every package of the image previewer: bytes, Go's error values,
    optional results and the reply of a cache lookup. */
module Common {

  /** One byte of a blob. */
  newtype byte = b: int | 0 <= b < 256

  /** The contents of a blob, a downloaded image or an encoded image. */
  type Bytes = seq<byte>

  datatype Option<+T> = None | Some(value: T)

  /** The package that declares an error value. Two packages may declare values
      with the same text, which `errors.Is` still tells apart. */
  datatype Pkg = AppPkg | ServerPkg | ProcessorPkg

  /** Go's `error` values as they occur in the system. */
  datatype Error =
    | NotEnoughParameters(pkg: Pkg)       // a request parameter is empty
    | InvalidSize(pkg: Pkg)               // the target size is larger than the original
    | CacheSizeZeroOrLess                 // IMPR_CACHE_SIZE is not positive
    | FileTooLarge                        // a blob is larger than the whole cache
    | NotFound                            // declared by the cache package, never returned
    | Syntax(fn: string, input: string)   // strconv: not a decimal integer
    | Range(fn: string, input: string)    // strconv: a decimal integer outside int64
    | IO(op: string, name: string)        // a storage operation on a blob failed
    | Wrapped(msg: string, cause: Error)  // fmt.Errorf("msg: %w", cause)
    | External(msg: string)               // an error of the downloader or an image codec

  /** A value or the error that prevented it, for Go's `(T, error)` pairs. */
  datatype Result<+T> = Ok(value: T) | Err(error: Error)

  /** The reply of `Cache.Get`, Go's `([]byte, error)`: `(nil, nil)` is a miss,
      `(data, nil)` a hit and `(nil, err)` a failure. */
  datatype Lookup = Miss | Hit(data: Bytes) | Failed(err: Error)
}
