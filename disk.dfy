/** The local disk as the downloader sees it: a mutable map from path to file contents. */
module Disk {
  import opened Wrappers

  /** The MD5 hex digest of some bytes (`hashlib.md5(data).hexdigest()`; the hash itself is
      outside this model). */
  type Digest = seq<byte> -> string

  class FileSystem {
    var files: map<string, seq<byte>>

    constructor (files: map<string, seq<byte>>)
      ensures this.files == files
    {
      this.files := files;
    }

    predicate Exists(path: string)
      reads this
    {
      path in files
    }

    /** `path.stat().st_size` of an existing file. */
    function Size(path: string): (r: nat)
      reads this
      requires Exists(path)
    {
      |files[path]|
    }

    /** Opening the file with mode 'wb' and writing `data`. */
    method Write(path: string, data: seq<byte>)
      modifies this
      ensures files == old(files)[path := data]
    {
      files := files[path := data];
    }

    /** Opening the file with mode 'ab' and writing `data` at its end (a missing file is created). */
    method Append(path: string, data: seq<byte>)
      modifies this
      ensures files == old(files)[path := (if path in old(files) then old(files)[path] else []) + data]
    {
      var before := if path in files then files[path] else [];
      files := files[path := before + data];
    }

    /** `path.unlink(missing_ok=True)`: the file is gone afterwards, whether or not it was there. */
    method Unlink(path: string)
      modifies this
      ensures files == old(files) - {path}
    {
      files := files - {path};
    }
  }
}
