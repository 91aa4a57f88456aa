/**
 * The backing file of a template store and the exceptions the two
 * store variants can raise.  The file is modelled by what reading it
 * back would give: bz2 compression and pickling are one abstract step,
 * `Persist` writes the whole value and `Load` reads it back.
 */
module Backing {
  import opened Wrappers
  import opened PyDict

  /** The Python exceptions that reach the stores. */
  datatype PyError =
    | FileNotFoundError   // open() of a path that does not exist
    | OSError             // any other failure of open(): permissions, a directory, ...
    | DecodeError         // the contents do not decode: bz2's data errors and pickle's errors, under one label
    | KeyError(key: string)
    | AttributeError      // `None.update(...)`

  /**
   * The state of the file at the store's path.  `Pickled(v)` is a file
   * that decodes to `v`: a dict, or `None` when a store without contents
   * was saved.
   */
  datatype FileState<Img> =
    | Missing
    | Unreadable
    | Undecodable
    | Pickled(value: Option<Dict<string, Img>>)
  {
    /** Unpickling a dict gives distinct keys. */
    predicate WellFormed()
    {
      Pickled? && value.Some? ==> UniqueKeys(value.value)
    }
  }

  /**
   * `open(path, "rb")` followed by `decompress_pickle`: the decoded
   * value, or the exception the read raises.
   */
  function Load<Img>(f: FileState<Img>): (r: Result<Option<Dict<string, Img>>, PyError>)
    ensures r.Success? <==> f.Pickled?
    ensures f.Pickled? ==> r == Success(f.value)
    ensures r.Failure? ==> r.error in {FileNotFoundError, OSError, DecodeError}
    ensures r == Failure(FileNotFoundError) <==> f.Missing?
  {
    match f
    case Missing => Failure(FileNotFoundError)
    case Unreadable => Failure(OSError)
    case Undecodable => Failure(DecodeError)
    case Pickled(v) => Success(v)
  }

  /**
   * `compressed_pickle(path, data)`: the file is rewritten in full and
   * reading it back gives exactly `data`.
   */
  function Persist<Img>(data: Option<Dict<string, Img>>): (f: FileState<Img>)
    ensures Load(f) == Success(data)
    ensures data.Some? && UniqueKeys(data.value) ==> f.WellFormed()
  {
    Pickled(data)
  }
}
