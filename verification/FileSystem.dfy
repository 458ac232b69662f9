/**
 * Files as a map from paths to contents. A path is a directory and a name in it, and two paths
 * are the same file exactly when they are equal: links, case folding and I/O errors are not modelled.
 */
module FileSystem {
  import opened Util

  datatype Path = Path(dir: string, name: string)

  type Files = map<Path, Bytes>

  function Size(fs: Files, p: Path): nat {
    if p in fs then |fs[p]| else 0
  }

  function Content(fs: Files, p: Path): Bytes {
    if p in fs then fs[p] else []
  }

  /** Open for append, creating when absent, and write `block`. */
  function Appended(fs: Files, p: Path, block: Bytes): Files {
    fs[p := Content(fs, p) + block]
  }

  /** What truncating to `size` leaves of `c`; a shorter file is extended with zero bytes. */
  function Resized(c: Bytes, size: nat): (r: Bytes)
    ensures |r| == size
  {
    if size <= |c| then c[..size] else c + seq(size - |c|, i => 0)
  }

  /** Truncate when the file exists; an absent file stays absent. */
  function Truncated(fs: Files, p: Path, size: nat): Files {
    if p in fs then fs[p := Resized(fs[p], size)] else fs
  }

  function Without(fs: Files, ps: set<Path>): Files {
    map p | p in fs && p !in ps :: fs[p]
  }

  function Removed(fs: Files, p: Path): Files {
    Without(fs, {p})
  }

  /** Remove every file directly in `dir`. */
  function WithoutDir(fs: Files, dir: string): Files {
    map p | p in fs && p.dir != dir :: fs[p]
  }

  /** The names that exist in `dir`. */
  function Names(fs: Files, dir: string): set<string> {
    set p | p in fs && p.dir == dir :: p.name
  }

  /** The bytes of a string of ASCII characters. */
  function Ascii(s: string): Bytes {
    seq(|s|, i requires 0 <= i < |s| => if s[i] as int < 128 then s[i] as int as byte else 63)
  }

  function PathSet(ps: seq<Path>): set<Path> {
    set p | p in ps
  }

  function TruncatedTo(fs: Files, sizes: map<Path, nat>): Files {
    map p | p in fs :: if p in sizes then Resized(fs[p], sizes[p]) else fs[p]
  }

  /** Truncates file after file, in whatever order the map yields them. */
  method TruncateEach(fs: Files, sizes: map<Path, nat>) returns (r: Files)
    ensures r == TruncatedTo(fs, sizes)
  {
    r := fs;
    var todo := sizes.Keys;
    while todo != {}
      invariant todo <= sizes.Keys
      invariant r.Keys == fs.Keys
      invariant forall p :: p in fs ==>
        r[p] == if p in sizes && p !in todo then Resized(fs[p], sizes[p]) else fs[p]
      decreases |todo|
    {
      var p :| p in todo;
      r := Truncated(r, p, sizes[p]);
      todo := todo - {p};
    }
  }

  /** Removes file after file; one that is already gone is passed over. */
  method RemoveEach(fs: Files, ps: seq<Path>) returns (r: Files)
    ensures r == Without(fs, PathSet(ps))
  {
    r := fs;
    var i := 0;
    while i < |ps|
      invariant 0 <= i <= |ps|
      invariant r == Without(fs, PathSet(ps[..i]))
    {
      r := Removed(r, ps[i]);
      assert ps[..i + 1] == ps[..i] + [ps[i]];
      i := i + 1;
    }
    assert ps[..i] == ps;
  }
}
