/**
 * The part of the operating system the file engines touch: named files,
 * each seen as the sequence of lines a line scanner yields, and the text
 * written to standard output, one `Print` per entry.
 */
module FileSystem {

  class Os {
    var files: map<string, seq<string>>
    var stdout: seq<string>

    constructor (initial: map<string, seq<string>>)
      ensures files == initial && stdout == []
    {
      files := initial;
      stdout := [];
    }

    /** os.Remove: the path is gone afterwards (removing a missing path changes nothing). */
    method Remove(path: string)
      modifies this
      ensures files == old(files) - {path}
      ensures stdout == old(stdout)
    {
      files := files - {path};
    }

    /**
     * os.Rename: the content moves from `src` to `dst`, replacing what `dst`
     * held.  A missing `src` is an error and changes nothing.
     */
    method Rename(src: string, dst: string) returns (ok: bool)
      modifies this
      ensures ok <==> src in old(files)
      ensures ok ==> files == (old(files) - {src})[dst := old(files)[src]]
      ensures !ok ==> files == old(files)
      ensures stdout == old(stdout)
    {
      ok := src in files;
      if ok {
        var content := files[src];
        files := (files - {src})[dst := content];
      }
    }

    /** os.Create followed by writes: the path holds exactly `content`. */
    method Write(path: string, content: seq<string>)
      modifies this
      ensures files == old(files)[path := content]
      ensures stdout == old(stdout)
    {
      files := files[path := content];
    }

    /** One write to standard output. */
    method Print(text: string)
      modifies this
      ensures stdout == old(stdout) + [text]
      ensures files == old(files)
    {
      stdout := stdout + [text];
    }
  }
}
