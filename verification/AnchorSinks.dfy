/**
 * The sinks of the room daemon (room-go) and of mesh-rs, which remember one append-file and one
 * truncation offset. Re-anchoring on every text_file change forgets what was appended before it, so
 * `clear --all` is never destructive, but it is an exact revert only where the anchor still is the
 * size the file had before the session.
 */
module AnchorSinks {
  import opened Util
  import opened Items
  import opened FileSystem
  import opened SinkEvents
  import opened DedupPath

  datatype Envelope = Envelope(
    kind: Kind, device: Bytes, sender: Bytes, stamp: Bytes, text: Bytes,
    filename: string, hash: Digest, data: Bytes)

  datatype Session = Session(
    fs: Files, path: Option<Path>, off: nat, saved: seq<Path>,
    textFile: Option<Path>, saveDir: Option<string>)

  function Entry(env: Envelope): Bytes {
    var device :=
      if env.device != [] then env.device
      else if env.sender != [] then env.sender
      else Ascii("peer");
    Ascii("\n---\n") + device + Ascii(" ") + env.stamp + Ascii("\n") + env.text + Ascii("\n")
  }

  /** filepath.Base. */
  function Base(name: string): string {
    if name == "" then "."
    else if Last(name) == '/' then (if |name| == 1 then "/" else Base(Front(name)))
    else AfterSlash(name)
  }

  function AfterSlash(name: string): string {
    if name == "" || Last(name) == '/' then "" else AfterSlash(Front(name)) + [Last(name)]
  }

  function SaveName(env: Envelope): (name: string)
    ensures name != ""
  {
    if env.filename != "" then
      assert Base(env.filename) != "" by { BaseNotEmpty(env.filename); }
      Base(env.filename)
    else if env.kind == Image then env.hash + ".png"
    else env.hash
  }

  lemma {:induction false} BaseNotEmpty(name: string)
    ensures Base(name) != ""
  {
    if |name| > 1 && Last(name) == '/' {
      BaseNotEmpty(Front(name));
    }
  }

  // ---- what each operation does to the session ----

  /** setTextFile: a change of path re-captures the offset at the file's present size. */
  function Anchor(s: Session, path: Option<Path>): Session {
    if path == s.path then s
    else s.(path := path, off := if path.None? then 0 else Size(s.fs, path.value))
  }

  function AppendText(s: Session, path: Path, env: Envelope): Session {
    var t := Anchor(s, Some(path));
    t.(fs := Appended(t.fs, path, Entry(env)))
  }

  function WriteSaveDir(s: Session, dir: string, name: string, data: Bytes): Session {
    var p := Path(dir, FreeName(Names(s.fs, dir), name));
    s.(fs := s.fs[p := data], saved := s.saved + [p])
  }

  function RouteSinks(s: Session, env: Envelope): Session {
    if env.kind == Text then
      (if s.textFile.Some? then AppendText(s, s.textFile.value, env) else s)
    else
      (if s.saveDir.Some? then WriteSaveDir(s, s.saveDir.value, SaveName(env), env.data) else s)
  }

  /** The anchored file is truncated only when it has grown past the offset. */
  function ClearSinks(s: Session): Session {
    var fs := if s.path.Some? && Size(s.fs, s.path.value) > s.off
              then Truncated(s.fs, s.path.value, s.off) else s.fs;
    s.(fs := Without(fs, PathSet(s.saved)), saved := [])
  }

  function ClearScope(s: Session, blobDir: string, all: bool): Session {
    var t := s.(fs := WithoutDir(s.fs, blobDir));
    if all then ClearSinks(t) else t
  }

  function Step(s: Session, blobDir: string, e: Event<Envelope>): Session {
    match e
    case Receive(env) => RouteSinks(s, env)
    case StoreBlob(name, data) => s.(fs := s.fs[Path(blobDir, name) := data])
    case SetTextFile(path) => Anchor(s.(textFile := path), path)
    case SetSaveDir(dir) => s.(saveDir := dir)
    case Clear(all) => ClearScope(s, blobDir, all)
  }

  function Start(fs: Files, textFile: Option<Path>, saveDir: Option<string>): Session {
    Anchor(Session(fs, None, 0, [], textFile, saveDir), textFile)
  }

  function Run(s: Session, blobDir: string, es: seq<Event<Envelope>>): Session {
    if es == [] then s else Step(Run(s, blobDir, Front(es)), blobDir, Last(es))
  }

  // ---- non-destruction, over every run ----

  ghost predicate Kept(fs0: Files, s: Session, p: Path) {
    p in fs0 ==>
      && p in s.fs && fs0[p] <= s.fs[p] && p !in s.saved
      && (s.path == Some(p) ==> |fs0[p]| <= s.off <= |s.fs[p]|)
  }

  ghost predicate Inv(fs0: Files, blobDir: string, w: Places, s: Session) {
    && s.path == s.textFile
    && (s.textFile.Some? ==> s.textFile.value.dir in w.text)
    && (s.saveDir.Some? ==> s.saveDir.value in w.save)
    && (forall p :: p in s.saved ==> p.dir in w.save)
    && (forall p: Path :: p.dir != blobDir ==> Kept(fs0, s, p))
  }

  lemma SaveKeeps(fs0: Files, blobDir: string, w: Places, s: Session, env: Envelope)
    requires Inv(fs0, blobDir, w, s) && env.kind != Text && s.saveDir.Some?
    ensures Inv(fs0, blobDir, w, RouteSinks(s, env))
  {
    var t := RouteSinks(s, env);
    var q := Path(s.saveDir.value, FreeName(Names(s.fs, s.saveDir.value), SaveName(env)));
    assert q !in s.fs by {
      assert q in s.fs ==> q.name in Names(s.fs, q.dir);
    }
    forall p: Path | p.dir != blobDir ensures Kept(fs0, t, p) {
      assert Kept(fs0, s, p);
    }
  }

  lemma StepKeeps(fs0: Files, blobDir: string, w: Places, s: Session, e: Event<Envelope>)
    requires Inv(fs0, blobDir, w, s) && BlobsApart(w, blobDir) && EventIn(e, w)
    ensures Inv(fs0, blobDir, w, Step(s, blobDir, e))
  {
    if e.Receive? && e.env.kind != Text && s.saveDir.Some? {
      SaveKeeps(fs0, blobDir, w, s, e.env);
    } else {
      var t := Step(s, blobDir, e);
      forall p: Path | p.dir != blobDir ensures Kept(fs0, t, p) {
        assert Kept(fs0, s, p);
      }
    }
  }

  /**
   * Non-destruction: at every moment of every session, each file that existed before it still
   * exists with its original bytes as a prefix, and the anchor never cuts into them.
   */
  lemma {:induction false} NonDestruction(
    fs0: Files, blobDir: string, w: Places, tf: Option<Path>, sd: Option<string>, es: seq<Event<Envelope>>)
    requires BlobsApart(w, blobDir) && RunIn(w, tf, sd, es)
    ensures
      var s := Run(Start(fs0, tf, sd), blobDir, es);
      && Inv(fs0, blobDir, w, s)
      && forall p :: p in fs0 && p.dir != blobDir ==> p in s.fs && fs0[p] <= s.fs[p]
  {
    if es == [] {
      var s := Start(fs0, tf, sd);
      assert forall p: Path :: Kept(fs0, s, p);
    } else {
      NonDestruction(fs0, blobDir, w, tf, sd, Front(es));
      StepKeeps(fs0, blobDir, w, Run(Start(fs0, tf, sd), blobDir, Front(es)), Last(es));
    }
    var s := Run(Start(fs0, tf, sd), blobDir, es);
    forall p | p in fs0 && p.dir != blobDir ensures p in s.fs && fs0[p] <= s.fs[p] {
      assert Kept(fs0, s, p);
    }
  }

  /**
   * When `clear --all` reverts a pre-session file exactly: if and only if the file has not grown,
   * or it is the anchored text_file and the anchor is its pre-session size.
   */
  lemma ExactRevertIff(
    fs0: Files, blobDir: string, w: Places, tf: Option<Path>, sd: Option<string>, es: seq<Event<Envelope>>, p: Path)
    requires BlobsApart(w, blobDir) && RunIn(w, tf, sd, es) && p in fs0 && p.dir != blobDir
    ensures
      var s := Run(Start(fs0, tf, sd), blobDir, es);
      var f := ClearScope(s, blobDir, true).fs;
      && p in s.fs && p in f
      && (f[p] == fs0[p] <==> s.fs[p] == fs0[p] || (s.path == Some(p) && s.off == |fs0[p]|))
  {
    NonDestruction(fs0, blobDir, w, tf, sd, es);
    var s := Run(Start(fs0, tf, sd), blobDir, es);
    assert Kept(fs0, s, p);
  }

  // ---- what the present anchor promises ----

  /**
   * A session together with what its anchored file held when it was anchored, and whether the session
   * had saved that file itself since the last clear.
   */
  datatype Traced = Traced(s: Session, base: Bytes, own: bool)

  function TraceStep(t: Traced, blobDir: string, e: Event<Envelope>): Traced {
    var s := Step(t.s, blobDir, e);
    if s.path == t.s.path then Traced(s, t.base, t.own)
    else if s.path.None? then Traced(s, [], false)
    else Traced(s, Content(t.s.fs, s.path.value), s.path.value in t.s.saved)
  }

  function TraceRun(
    fs0: Files, tf: Option<Path>, sd: Option<string>, blobDir: string, es: seq<Event<Envelope>>): Traced {
    if es == [] then Traced(Start(fs0, tf, sd), if tf.None? then [] else Content(fs0, tf.value), false)
    else TraceStep(TraceRun(fs0, tf, sd, blobDir, Front(es)), blobDir, Last(es))
  }

  /** The offset is the size at anchoring; unless the file was the session's own, its content then is kept. */
  ghost predicate Anchored(t: Traced) {
    t.s.path.Some? ==>
      var p := t.s.path.value;
      && t.s.off == |t.base|
      && (!t.own ==> t.base <= Content(t.s.fs, p) && (p in t.s.saved ==> t.base == []))
  }

  lemma {:induction false} AnchorHolds(
    fs0: Files, blobDir: string, w: Places, tf: Option<Path>, sd: Option<string>, es: seq<Event<Envelope>>)
    requires BlobsApart(w, blobDir) && RunIn(w, tf, sd, es)
    ensures
      var t := TraceRun(fs0, tf, sd, blobDir, es);
      t.s == Run(Start(fs0, tf, sd), blobDir, es) && Anchored(t)
  {
    if es != [] {
      AnchorHolds(fs0, blobDir, w, tf, sd, Front(es));
      NonDestruction(fs0, blobDir, w, tf, sd, Front(es));
      var t := TraceRun(fs0, tf, sd, blobDir, Front(es));
      AnchorStep(fs0, blobDir, w, t, Last(es));
    }
  }

  lemma AnchorStep(fs0: Files, blobDir: string, w: Places, t: Traced, e: Event<Envelope>)
    requires Inv(fs0, blobDir, w, t.s) && BlobsApart(w, blobDir)
    requires EventIn(e, w) && Anchored(t)
    ensures Anchored(TraceStep(t, blobDir, e))
  {
    match e
    case Receive(env) =>
      if env.kind != Text && t.s.saveDir.Some? {
        var q := Path(t.s.saveDir.value, FreeName(Names(t.s.fs, t.s.saveDir.value), SaveName(env)));
        assert q in t.s.fs ==> q.name in Names(t.s.fs, q.dir);
      }
    case _ =>
  }

  /**
   * What `clear --all` makes of the current text_file, in any reachable state: what it held when last
   * anchored, if and only if that is still a prefix of it, or is nothing while the session saved the file.
   */
  lemma ClearRestoresAnchorIff(
    fs0: Files, blobDir: string, w: Places, tf: Option<Path>, sd: Option<string>, es: seq<Event<Envelope>>)
    requires BlobsApart(w, blobDir) && RunIn(w, tf, sd, es)
    ensures
      var t := TraceRun(fs0, tf, sd, blobDir, es);
      && t.s == Run(Start(fs0, tf, sd), blobDir, es) && t.s.path == t.s.textFile
      && (t.s.path.Some? ==>
           var p := t.s.path.value;
           Content(ClearScope(t.s, blobDir, true).fs, p) == t.base <==>
             if p in t.s.saved then t.base == [] else t.base <= Content(t.s.fs, p))
  {
    AnchorHolds(fs0, blobDir, w, tf, sd, es);
    NonDestruction(fs0, blobDir, w, tf, sd, es);
  }

  /**
   * `clear --all` brings the current text_file back to what it held when it was last anchored, unless
   * it was a non-empty file the session itself had saved.
   */
  lemma ClearRestoresAnchor(
    fs0: Files, blobDir: string, w: Places, tf: Option<Path>, sd: Option<string>, es: seq<Event<Envelope>>)
    requires BlobsApart(w, blobDir) && RunIn(w, tf, sd, es)
    requires var t := TraceRun(fs0, tf, sd, blobDir, es); !t.own || t.base == []
    ensures
      var t := TraceRun(fs0, tf, sd, blobDir, es);
      t.s.path.Some? ==> Content(ClearScope(t.s, blobDir, true).fs, t.s.path.value) == t.base
  {
    ClearRestoresAnchorIff(fs0, blobDir, w, tf, sd, es);
    AnchorHolds(fs0, blobDir, w, tf, sd, es);
  }

  /** A session that saves a file of one byte and makes it the text_file loses that byte by `clear --all`. */
  lemma OwnFileIsNotRestored(blobDir: string, dir: string, env: Envelope)
    requires dir != blobDir && env.kind == File && env.filename == "a" && |env.data| == 1
    ensures
      var p := Path(dir, "a");
      var t := TraceRun(map[], None, Some(dir), blobDir, [Receive(env), SetTextFile(Some(p))]);
      && t.s.path == Some(p) && t.own && t.base == env.data
      && Content(ClearScope(t.s, blobDir, true).fs, p) == []
  {
    var p := Path(dir, "a");
    var es := [Receive(env), SetTextFile(Some(p))];
    assert Front(es) == [Receive(env)] && Front(Front(es)) == [];
    var s0 := Start(map[], None, Some(dir));
    var s1 := Session(map[p := env.data], None, 0, [p], None, Some(dir));
    assert Step(s0, blobDir, Receive(env)) == s1 by {
      assert SaveName(env) == "a" by {
        assert AfterSlash("a") == AfterSlash("") + ['a'];
      }
      assert Names(s0.fs, dir) == {};
      assert FreeName({}, "a") == Candidate("a", 1);
    }
    assert TraceRun(map[], None, Some(dir), blobDir, []) == Traced(s0, [], false);
    assert TraceRun(map[], None, Some(dir), blobDir, Front(es)) == Traced(s1, [], false);
  }

  /** A session that never leaves its text_file reverts every pre-session file exactly. */
  lemma SteadySinkRevertsExactly(
    fs0: Files, blobDir: string, w: Places, tf: Option<Path>, sd: Option<string>, es: seq<Event<Envelope>>)
    requires BlobsApart(w, blobDir) && RunIn(w, tf, sd, es)
    requires forall i :: 0 <= i < |es| && es[i].SetTextFile? ==> es[i].path == tf
    ensures
      var f := ClearScope(Run(Start(fs0, tf, sd), blobDir, es), blobDir, true).fs;
      forall p :: p in fs0 && p.dir != blobDir ==> p in f && f[p] == fs0[p]
  {
    SteadyRun(fs0, blobDir, w, tf, sd, es);
    forall p | p in fs0 && p.dir != blobDir
      ensures p in ClearScope(Run(Start(fs0, tf, sd), blobDir, es), blobDir, true).fs
      ensures ClearScope(Run(Start(fs0, tf, sd), blobDir, es), blobDir, true).fs[p] == fs0[p]
    {
      ExactRevertIff(fs0, blobDir, w, tf, sd, es, p);
    }
  }

  /** A step touches no pre-session file outside the blob directory but the text_file. */
  lemma StepTouchesOnlySink(fs0: Files, blobDir: string, w: Places, s: Session, e: Event<Envelope>, p: Path)
    requires Inv(fs0, blobDir, w, s) && BlobsApart(w, blobDir) && EventIn(e, w)
    requires p in fs0 && p.dir != blobDir && s.path != Some(p)
    ensures p in s.fs && p in Step(s, blobDir, e).fs && Step(s, blobDir, e).fs[p] == s.fs[p]
  {
    assert Kept(fs0, s, p);
    if e.Receive? && e.env.kind != Text && s.saveDir.Some? {
      var q := Path(s.saveDir.value, FreeName(Names(s.fs, s.saveDir.value), SaveName(e.env)));
      assert q in s.fs ==> q.name in Names(s.fs, q.dir);
    }
  }

  lemma {:induction false} SteadyRun(
    fs0: Files, blobDir: string, w: Places, tf: Option<Path>, sd: Option<string>, es: seq<Event<Envelope>>)
    requires BlobsApart(w, blobDir) && RunIn(w, tf, sd, es)
    requires forall i :: 0 <= i < |es| && es[i].SetTextFile? ==> es[i].path == tf
    ensures
      var s := Run(Start(fs0, tf, sd), blobDir, es);
      && s.path == tf
      && (tf.Some? ==> s.off == Size(fs0, tf.value))
      && forall p :: p in fs0 && p.dir != blobDir && tf != Some(p) ==> p in s.fs && s.fs[p] == fs0[p]
  {
    if es != [] {
      SteadyRun(fs0, blobDir, w, tf, sd, Front(es));
      NonDestruction(fs0, blobDir, w, tf, sd, Front(es));
      var s := Run(Start(fs0, tf, sd), blobDir, Front(es));
      var e := Last(es);
      assert e == es[|es| - 1] && EventIn(e, w);
      forall p | p in fs0 && p.dir != blobDir && tf != Some(p)
        ensures p in Step(s, blobDir, e).fs && Step(s, blobDir, e).fs[p] == fs0[p]
      {
        StepTouchesOnlySink(fs0, blobDir, w, s, e, p);
      }
    }
  }

  /**
   * Leaving a text_file and coming back forgets what was appended before: whatever the first
   * message was, it stays in the pre-session file after `clear --all`.
   */
  lemma SwitchingForgets(blobDir: string, a: Path, b: Path, original: Bytes, env: Envelope)
    requires a != b && a.dir != blobDir && b.dir != blobDir && env.kind == Text
    ensures
      var es := [Receive(env), SetTextFile(Some(b)), SetTextFile(Some(a))];
      var f := ClearScope(Run(Start(map[a := original], Some(a), None), blobDir, es), blobDir, true).fs;
      a in f && f[a] == original + Entry(env) && f[a] != original
  {
    var es := [Receive(env), SetTextFile(Some(b)), SetTextFile(Some(a))];
    var s0 := Start(map[a := original], Some(a), None);
    var s1 := Step(s0, blobDir, es[0]);
    var s2 := Step(s1, blobDir, es[1]);
    var s3 := Step(s2, blobDir, es[2]);
    assert Front(es) == es[..2] && Front(es[..2]) == es[..1] && Front(es[..1]) == [];
    assert Run(s0, blobDir, es[..1]) == s1;
    assert Run(s0, blobDir, es) == s3;
    assert s3.fs[a] == original + Entry(env) && s3.off == |s3.fs[a]|;
  }

  // ---- the session object ----

  class AnchorSession {
    const blobDir: string
    var fs: Files
    var textFilePath: Option<Path>
    var textFileOffset: nat
    var savedFiles: seq<Path>
    var textFile: Option<Path>
    var saveDir: Option<string>

    function Model(): Session
      reads this
    {
      Session(fs, textFilePath, textFileOffset, savedFiles, textFile, saveDir)
    }

    constructor (blobDir: string, fs: Files, textFile: Option<Path>, saveDir: Option<string>)
      ensures this.blobDir == blobDir
      ensures Model() == Start(fs, textFile, saveDir)
    {
      this.blobDir := blobDir;
      this.fs, this.textFile, this.saveDir := fs, textFile, saveDir;
      textFilePath, textFileOffset, savedFiles := None, 0, [];
      if textFile.Some? {
        textFilePath := textFile;
        textFileOffset := Size(fs, textFile.value);
      }
    }

    method SetAnchor(path: Option<Path>)
      modifies this`textFilePath, this`textFileOffset
      ensures Model() == Anchor(old(Model()), path)
    {
      if path == textFilePath {
        return;
      }
      textFilePath := path;
      if path.None? {
        textFileOffset := 0;
        return;
      }
      textFileOffset := Size(fs, path.value);
    }

    method ConfigSetTextFile(path: Option<Path>)
      modifies this`textFile, this`textFilePath, this`textFileOffset
      ensures Model() == Step(old(Model()), blobDir, SetTextFile(path))
    {
      textFile := path;
      SetAnchor(path);
    }

    method Route(env: Envelope)
      modifies this`fs, this`textFilePath, this`textFileOffset, this`savedFiles
      ensures Model() == RouteSinks(old(Model()), env)
    {
      match env.kind
      case Text =>
        if textFile.Some? {
          SetAnchor(textFile);
          fs := Appended(fs, textFile.value, Entry(env));
        }
      case _ =>
        if saveDir.Some? {
          var free := DedupName(Names(fs, saveDir.value), SaveName(env));
          fs := fs[Path(saveDir.value, free) := env.data];
          savedFiles := savedFiles + [Path(saveDir.value, free)];
        }
    }

    method RevertSinks()
      modifies this`fs, this`savedFiles
      ensures Model() == ClearSinks(old(Model()))
    {
      var saved := savedFiles;
      savedFiles := [];
      if textFilePath.Some? {
        if Size(fs, textFilePath.value) > textFileOffset {
          fs := Truncated(fs, textFilePath.value, textFileOffset);
        }
      }
      fs := RemoveEach(fs, saved);
    }

    /** An unknown scope keeps everything, as "never" does. */
    method ApplyClearScope(scope: string)
      modifies this`fs, this`savedFiles
      ensures Model() ==
        if scope == "all" || scope == "transient" then ClearScope(old(Model()), blobDir, scope == "all")
        else old(Model())
    {
      if scope == "all" || scope == "transient" {
        fs := WithoutDir(fs, blobDir);
        if scope == "all" {
          RevertSinks();
        }
      }
    }
  }
}
