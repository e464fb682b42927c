/** The two external stores the core writes to: the Redis key space used
    for locks (`SET NX`, `SETNX`, `GET`, `DEL`) and Django's file storage
    (open for writing, write, exists, delete). Paths are storage names
    relative to the media root. */
module Stores {

  newtype Byte = b: int | 0 <= b < 256

  type Bytes = seq<Byte>

  /** The Redis keys that are currently set; their values do not matter. */
  class LockStore {
    var keys: set<string>

    constructor (keys: set<string>)
      ensures this.keys == keys
    {
      this.keys := keys;
    }

    /** `SET key value NX` (and `SETNX`): sets the key only when it is
        absent and says whether it did. */
    method SetNx(key: string) returns (ok: bool)
      modifies this
      ensures ok <==> key !in old(keys)
      ensures keys == old(keys) + {key}
    {
      ok := key !in keys;
      keys := keys + {key};
    }

    /** `GET key` is truthy. */
    predicate Get(key: string)
      reads this
    {
      key in keys
    }

    /** `DEL key`: removes the key whether or not it is set. */
    method Delete(key: string)
      modifies this
      ensures keys == old(keys) - {key}
    {
      keys := keys - {key};
    }
  }

  /** Django's default storage: the content stored under each name. */
  class FileStore {
    var files: map<string, Bytes>

    constructor (files: map<string, Bytes>)
      ensures this.files == files
    {
      this.files := files;
    }

    /** `default_storage.exists(name)` */
    predicate Exists(name: string)
      reads this
    {
      name in files
    }

    /** `default_storage.open(name, 'wb')`: creates or truncates. */
    method Open(name: string)
      modifies this
      ensures files == old(files)[name := []]
    {
      files := files[name := []];
    }

    /** `destination.write(chunk)` on a file opened for writing. */
    method Append(name: string, chunk: Bytes)
      requires name in files
      modifies this
      ensures files == old(files)[name := old(files)[name] + chunk]
    {
      files := files[name := files[name] + chunk];
    }

    /** Opens `name` for writing and writes `content` in one piece. */
    method Write(name: string, content: Bytes)
      modifies this
      ensures files == old(files)[name := content]
    {
      Open(name);
      Append(name, content);
      assert [] + content == content;
    }

    /** `default_storage.delete(name)` */
    method Delete(name: string)
      modifies this
      ensures files == old(files) - {name}
    {
      files := files - {name};
    }
  }
}
