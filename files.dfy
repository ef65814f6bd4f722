/**
 * An abstract file store standing in for the directories the bot touches:
 * the sounds directory (which also holds the speech slot), the music
 * directory and the directory of saved speech. The shell commands and
 * `fs` calls of the speech pipeline become operations on this store.
 */
module Files {

  datatype Dir = Sounds | Music | Saved

  /** A file is addressed by its directory and its name in that directory. */
  datatype Path = Path(dir: Dir, name: string)

  type Bytes = seq<bv8>

  /** A snapshot of the store: the directories that exist and the files they hold. */
  datatype Fs = Fs(dirs: set<Dir>, files: map<Path, Bytes>)

  /** Every file lives in a directory that exists. */
  predicate Valid(fs: Fs)
  {
    forall p :: p in fs.files ==> p.dir in fs.dirs
  }

  /** `rm -f` of every path in `doomed`; paths that do not exist are ignored. */
  function Removed(fs: Fs, doomed: set<Path>): (r: Fs)
    ensures r.dirs == fs.dirs
    ensures forall p :: p in r.files <==> p in fs.files && p !in doomed
    ensures forall p :: p in r.files ==> r.files[p] == fs.files[p]
    ensures Valid(fs) ==> Valid(r)
  {
    fs.(files := fs.files - doomed)
  }

  /** `writeFileSync` succeeds only when the target directory exists. */
  predicate CanWrite(fs: Fs, p: Path)
  {
    p.dir in fs.dirs
  }

  /** `writeFileSync(p, data)`: creates or overwrites `p`. */
  function Written(fs: Fs, p: Path, data: Bytes): (r: Fs)
    requires CanWrite(fs, p)
    ensures r.dirs == fs.dirs
    ensures p in r.files && r.files[p] == data
    ensures forall q :: q != p ==> (q in r.files <==> q in fs.files)
    ensures forall q :: q != p && q in r.files ==> r.files[q] == fs.files[q]
    ensures Valid(fs) ==> Valid(r)
  {
    fs.(files := fs.files[p := data])
  }

  /** `mkdir -p d`: creates `d` if it is missing and never fails. */
  function MadeDir(fs: Fs, d: Dir): (r: Fs)
    ensures r.dirs == fs.dirs + {d}
    ensures r.files == fs.files
    ensures Valid(fs) ==> Valid(r)
  {
    fs.(dirs := fs.dirs + {d})
  }

  /** `cp src dst` succeeds when the source exists and the target's directory exists. */
  predicate CanCopy(fs: Fs, src: Path, dst: Path)
  {
    src in fs.files && dst.dir in fs.dirs
  }

  /** `cp src dst`: `dst` gets the bytes of `src`, overwriting what was there. */
  function Copied(fs: Fs, src: Path, dst: Path): (r: Fs)
    requires CanCopy(fs, src, dst)
    ensures r.dirs == fs.dirs
    ensures dst in r.files && r.files[dst] == fs.files[src]
    ensures forall q :: q != dst ==> (q in r.files <==> q in fs.files)
    ensures forall q :: q != dst && q in r.files ==> r.files[q] == fs.files[q]
    ensures Valid(fs) ==> Valid(r)
  {
    fs.(files := fs.files[dst := fs.files[src]])
  }

  /** The mutable store the pipeline works on; each method is one effect. */
  class FileStore {
    var dirs: set<Dir>
    var files: map<Path, Bytes>

    function State(): Fs
      reads this
    {
      Fs(dirs, files)
    }

    constructor (dirs0: set<Dir>, files0: map<Path, Bytes>)
      ensures State() == Fs(dirs0, files0)
    {
      dirs := dirs0;
      files := files0;
    }

    method Remove(doomed: set<Path>)
      modifies this
      ensures State() == Removed(old(State()), doomed)
    {
      files := files - doomed;
    }

    method Write(p: Path, data: Bytes) returns (ok: bool)
      modifies this
      ensures ok == CanWrite(old(State()), p)
      ensures State() == if ok then Written(old(State()), p, data) else old(State())
    {
      ok := p.dir in dirs;
      if ok {
        files := files[p := data];
      }
    }

    method MakeDir(d: Dir)
      modifies this
      ensures State() == MadeDir(old(State()), d)
    {
      dirs := dirs + {d};
    }

    method Copy(src: Path, dst: Path) returns (ok: bool)
      modifies this
      ensures ok == CanCopy(old(State()), src, dst)
      ensures State() == if ok then Copied(old(State()), src, dst) else old(State())
    {
      ok := src in files && dst.dir in dirs;
      if ok {
        files := files[dst := files[src]];
      }
    }
  }
}
