/** The blob store behind the cache, as the cache sees it through its `storage`
    interface: named blobs that can be read, written and deleted. The directory on
    disk becomes a map from names to contents; the file system's failures become a
    set of names whose operations fail. */
module Storage {
  import opened Common

  /** A blob can be read or deleted when it exists and its name is not failing. */
  predicate Present(blobs: map<string, Bytes>, faults: set<string>, name: string)
  {
    name in blobs && name !in faults
  }

  /** The errors the store reports, wrapped as `Storage.Read` and `Storage.Write` wrap them. */
  function ReadError(name: string): Error
  {
    Wrapped("failed to read file", IO("open", name))
  }

  function WriteError(name: string): Error
  {
    Wrapped("failed to write file", IO("open", name))
  }

  function DeleteError(name: string): Error
  {
    IO("remove", name)
  }

  class Store {
    /** The blobs in the cache directory, by name. */
    var blobs: map<string, Bytes>
    /** The names whose file operations fail, for whatever reason the file system has. */
    var faults: set<string>

    /** A store over an empty directory. */
    constructor (faults: set<string>)
      ensures blobs == map[] && this.faults == faults
    {
      blobs := map[];
      this.faults := faults;
    }

    /** `Read`: the blob's contents, or an error when it is missing or failing. */
    method Read(name: string) returns (r: Result<Bytes>)
      ensures Present(blobs, faults, name) ==> r == Ok(blobs[name])
      ensures !Present(blobs, faults, name) ==> r == Err(ReadError(name))
    {
      if name in blobs && name !in faults {
        r := Ok(blobs[name]);
      } else {
        r := Err(ReadError(name));
      }
    }

    /** `Write`: create or overwrite the blob, unless its name is failing. */
    method Write(name: string, data: Bytes) returns (err: Option<Error>)
      modifies this`blobs
      ensures name !in faults ==> err == None && blobs == old(blobs)[name := data]
      ensures name in faults ==> err == Some(WriteError(name)) && blobs == old(blobs)
    {
      if name in faults {
        err := Some(WriteError(name));
      } else {
        blobs := blobs[name := data];
        err := None;
      }
    }

    /** `Delete`: remove the blob; removing a missing or failing one is an error. */
    method Delete(name: string) returns (err: Option<Error>)
      modifies this`blobs
      ensures Present(old(blobs), faults, name) ==> err == None && blobs == old(blobs) - {name}
      ensures !Present(old(blobs), faults, name) ==> err == Some(DeleteError(name)) && blobs == old(blobs)
    {
      if name in blobs && name !in faults {
        blobs := blobs - {name};
        err := None;
      } else {
        err := Some(DeleteError(name));
      }
    }
  }
}
