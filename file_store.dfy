/** The file system as the logger sees it: a map from path to file contents and a
    set of paths that cannot be opened. A path absent from the map is a file that
    does not exist yet; opening it for appending or for writing creates it. */
module FileStore {

  /** Contents of `path`; a missing file reads as empty. */
  function Contents(files: map<string, string>, path: string): string
  {
    if path in files then files[path] else ""
  }

  /** Whether an open of `path` succeeds. The empty path (which is also what an
      unregistered log name turns into) never opens. */
  predicate Openable(unopenable: set<string>, path: string)
  {
    path != "" && path !in unopenable
  }

  /** The files after `data` is written to `path` opened in append mode. */
  function Appended(files: map<string, string>, path: string, data: string): (r: map<string, string>)
    ensures Contents(r, path) == Contents(files, path) + data
    ensures r.Keys == files.Keys + {path}
    ensures forall q :: q in files && q != path ==> r[q] == files[q]
  {
    files[path := Contents(files, path) + data]
  }

  /** The files after `path` is opened in write mode, which truncates it. */
  function Truncated(files: map<string, string>, path: string): (r: map<string, string>)
    ensures Contents(r, path) == ""
    ensures r.Keys == files.Keys + {path}
    ensures forall q :: q in files && q != path ==> r[q] == files[q]
  {
    files[path := ""]
  }

  /** Truncating and then appending one line leaves exactly that line in the file. */
  lemma ClearThenAppend(files: map<string, string>, path: string, line: string)
    ensures Contents(Appended(Truncated(files, path), path, line), path) == line
  {
    assert Contents(Truncated(files, path), path) + line == line;
  }

  /** The disk the logger writes to. Files are changed in place. */
  class Disk {
    var files: map<string, string>
    var unopenable: set<string>

    constructor (files: map<string, string>, unopenable: set<string>)
      ensures this.files == files && this.unopenable == unopenable
    {
      this.files := files;
      this.unopenable := unopenable;
    }

    /** Open `path` in append mode, write `data`, close. On a failed open nothing
        is written. */
    method Append(path: string, data: string) returns (ok: bool)
      modifies this
      ensures ok == Openable(old(unopenable), path)
      ensures files == if ok then Appended(old(files), path, data) else old(files)
      ensures unopenable == old(unopenable)
    {
      ok := Openable(unopenable, path);
      if ok {
        files := files[path := Contents(files, path) + data];
      }
    }

    /** Open `path` in write mode, which empties it. */
    method Truncate(path: string) returns (ok: bool)
      modifies this
      ensures ok == Openable(old(unopenable), path)
      ensures files == if ok then Truncated(old(files), path) else old(files)
      ensures unopenable == old(unopenable)
    {
      ok := Openable(unopenable, path);
      if ok {
        files := files[path := ""];
      }
    }
  }
}
