/**
 * The folder and append-file sinks of the experiments daemon, and the clearing that undoes them.
 * Every text_file path seen in the session keeps its own baseline size, so `clear --all` can bring
 * back each pre-session file byte for byte however often the configuration changed in between.
 */
module SharedSinks {
  import opened Util
  import opened Items
  import opened FileSystem
  import opened SinkEvents
  import opened DedupPath

  /** The envelope fields the sinks read; `stamp` is the RFC 3339 rendering of its timestamp. */
  datatype Envelope = Envelope(
    kind: Kind, device: Bytes, sender: Bytes, stamp: Bytes, text: Bytes,
    filename: string, blobHash: Option<string>, data: Bytes)

  datatype Session = Session(
    fs: Files, baseline: map<Path, nat>, saved: seq<Path>,
    textFile: Option<Path>, saveDir: Option<string>)

  function Short(id: Bytes): Bytes {
    if |id| <= 16 then id else id[..16] + [226, 128, 166]
  }

  function Block(env: Envelope): Bytes {
    Ascii("\n---\n") + (if env.device == [] then Short(env.sender) else env.device)
    + Ascii(" ") + env.stamp + Ascii("\n") + env.text + Ascii("\n")
  }

  function ImageSinkName(env: Envelope): string {
    Stem(if env.filename == "" && env.blobHash.Some? then env.blobHash.value else env.filename) + ".png"
  }

  function FileSinkName(env: Envelope): string {
    if env.filename != "" then env.filename
    else if env.blobHash.Some? then env.blobHash.value
    else "file"
  }

  // ---- what each operation does to the session ----

  function RecordBaseline(s: Session, path: Option<Path>): Session {
    if path.None? || path.value in s.baseline then s
    else s.(baseline := s.baseline[path.value := Size(s.fs, path.value)])
  }

  function AppendText(s: Session, path: Path, env: Envelope): Session {
    var t := RecordBaseline(s, Some(path));
    t.(fs := Appended(t.fs, path, Block(env)))
  }

  function SaveToDir(s: Session, dir: string, name: string, data: Bytes): Session {
    var p := Path(dir, FreeName(Names(s.fs, dir), name));
    s.(fs := s.fs[p := data], saved := s.saved + [p])
  }

  function RouteSinks(s: Session, env: Envelope): Session {
    match env.kind
    case Text => if s.textFile.Some? then AppendText(s, s.textFile.value, env) else s
    case Image => if s.saveDir.Some? then SaveToDir(s, s.saveDir.value, ImageSinkName(env), env.data) else s
    case File => if s.saveDir.Some? then SaveToDir(s, s.saveDir.value, FileSinkName(env), env.data) else s
  }

  function ClearSinks(s: Session): Session {
    s.(fs := Without(TruncatedTo(s.fs, s.baseline), PathSet(s.saved)), saved := [])
  }

  function ClearAll(s: Session, blobDir: string, all: bool): Session {
    var t := s.(fs := WithoutDir(s.fs, blobDir));
    if all then ClearSinks(t) else t
  }

  function Step(s: Session, blobDir: string, e: Event<Envelope>): Session {
    match e
    case Receive(env) => RouteSinks(s, env)
    case StoreBlob(name, data) => s.(fs := s.fs[Path(blobDir, name) := data])
    case SetTextFile(path) => RecordBaseline(s.(textFile := path), path)
    case SetSaveDir(dir) => s.(saveDir := dir)
    case Clear(all) => ClearAll(s, blobDir, all)
  }

  function Start(fs: Files, textFile: Option<Path>, saveDir: Option<string>): Session {
    RecordBaseline(Session(fs, map[], [], textFile, saveDir), textFile)
  }

  function Run(s: Session, blobDir: string, es: seq<Event<Envelope>>): Session {
    if es == [] then s else Step(Run(s, blobDir, Front(es)), blobDir, Last(es))
  }

  // ---- what holds at every moment ----

  ghost predicate PathOk(fs0: Files, s: Session, p: Path) {
    && (p in fs0 ==>
      && p in s.fs && fs0[p] <= s.fs[p] && p !in s.saved
      && (p in s.baseline ==> s.baseline[p] == |fs0[p]|)
      && (p !in s.baseline ==> s.fs[p] == fs0[p]))
    && (p !in fs0 && p in s.fs ==> p in s.saved || p in s.baseline)
  }

  ghost predicate Inv(fs0: Files, blobDir: string, w: Places, s: Session) {
    && (s.textFile.Some? ==> s.textFile.value.dir in w.text)
    && (s.saveDir.Some? ==> s.saveDir.value in w.save)
    && (forall p :: p in s.baseline ==> p.dir in w.text)
    && (forall p :: p in s.saved ==> p.dir in w.save)
    && (forall p: Path :: p.dir != blobDir ==> PathOk(fs0, s, p))
  }

  lemma BaselineKeeps(fs0: Files, blobDir: string, w: Places, s: Session, path: Option<Path>)
    requires Inv(fs0, blobDir, w, s) && BlobsApart(w, blobDir)
    requires path.Some? ==> path.value.dir in w.text
    ensures Inv(fs0, blobDir, w, RecordBaseline(s, path))
  {
    var t := RecordBaseline(s, path);
    forall p: Path | p.dir != blobDir ensures PathOk(fs0, t, p) {
      assert PathOk(fs0, s, p);
    }
  }

  lemma AppendKeeps(fs0: Files, blobDir: string, w: Places, s: Session, path: Path, env: Envelope)
    requires Inv(fs0, blobDir, w, s) && BlobsApart(w, blobDir) && path.dir in w.text
    ensures Inv(fs0, blobDir, w, AppendText(s, path, env))
  {
    BaselineKeeps(fs0, blobDir, w, s, Some(path));
    var m := RecordBaseline(s, Some(path));
    var t := AppendText(s, path, env);
    forall p: Path | p.dir != blobDir ensures PathOk(fs0, t, p) {
      assert PathOk(fs0, m, p);
    }
  }

  lemma SaveKeeps(fs0: Files, blobDir: string, w: Places, s: Session, dir: string, name: string, data: Bytes)
    requires Inv(fs0, blobDir, w, s) && BlobsApart(w, blobDir) && dir in w.save
    ensures Inv(fs0, blobDir, w, SaveToDir(s, dir, name, data))
  {
    var t := SaveToDir(s, dir, name, data);
    var q := Path(dir, FreeName(Names(s.fs, dir), name));
    assert q !in s.fs by {
      assert q in s.fs ==> q.name in Names(s.fs, dir);
    }
    forall p: Path | p.dir != blobDir ensures PathOk(fs0, t, p) {
      assert PathOk(fs0, s, p);
    }
  }

  lemma ClearKeeps(fs0: Files, blobDir: string, w: Places, s: Session, all: bool)
    requires Inv(fs0, blobDir, w, s)
    ensures Inv(fs0, blobDir, w, ClearAll(s, blobDir, all))
  {
    var t := ClearAll(s, blobDir, all);
    forall p: Path | p.dir != blobDir ensures PathOk(fs0, t, p) {
      assert PathOk(fs0, s, p);
    }
  }

  lemma StepKeeps(fs0: Files, blobDir: string, w: Places, s: Session, e: Event<Envelope>)
    requires Inv(fs0, blobDir, w, s) && BlobsApart(w, blobDir) && EventIn(e, w)
    ensures Inv(fs0, blobDir, w, Step(s, blobDir, e))
  {
    match e
    case Receive(env) =>
      if env.kind == Text && s.textFile.Some? {
        AppendKeeps(fs0, blobDir, w, s, s.textFile.value, env);
      } else if env.kind == Image && s.saveDir.Some? {
        SaveKeeps(fs0, blobDir, w, s, s.saveDir.value, ImageSinkName(env), env.data);
      } else if env.kind == File && s.saveDir.Some? {
        SaveKeeps(fs0, blobDir, w, s, s.saveDir.value, FileSinkName(env), env.data);
      }
    case StoreBlob(name, data) =>
      var t := Step(s, blobDir, e);
      forall p: Path | p.dir != blobDir ensures PathOk(fs0, t, p) {
        assert PathOk(fs0, s, p);
      }
    case SetTextFile(path) =>
      var t := s.(textFile := path);
      forall p: Path | p.dir != blobDir ensures PathOk(fs0, t, p) {
        assert PathOk(fs0, s, p);
      }
      BaselineKeeps(fs0, blobDir, w, t, path);
    case SetSaveDir(dir) =>
      var t := Step(s, blobDir, e);
      forall p: Path | p.dir != blobDir ensures PathOk(fs0, t, p) {
        assert PathOk(fs0, s, p);
      }
    case Clear(all) =>
      ClearKeeps(fs0, blobDir, w, s, all);
  }

  lemma {:induction false} RunKeeps(
    fs0: Files, blobDir: string, w: Places, tf: Option<Path>, sd: Option<string>, es: seq<Event<Envelope>>)
    requires BlobsApart(w, blobDir) && RunIn(w, tf, sd, es)
    ensures Inv(fs0, blobDir, w, Run(Start(fs0, tf, sd), blobDir, es))
  {
    if es == [] {
      var s := Session(fs0, map[], [], tf, sd);
      assert Inv(fs0, blobDir, w, s);
      BaselineKeeps(fs0, blobDir, w, s, tf);
    } else {
      RunKeeps(fs0, blobDir, w, tf, sd, Front(es));
      StepKeeps(fs0, blobDir, w, Run(Start(fs0, tf, sd), blobDir, Front(es)), Last(es));
    }
  }

  /**
   * Exact revert. After any session, `clear --all` gives back every file that existed before it,
   * byte for byte; what it leaves besides them is only a text_file, at its recorded baseline size;
   * and the blob directory is empty.
   */
  lemma ExactRevert(
    fs0: Files, blobDir: string, w: Places, tf: Option<Path>, sd: Option<string>, es: seq<Event<Envelope>>)
    requires BlobsApart(w, blobDir) && RunIn(w, tf, sd, es)
    ensures
      var s := Run(Start(fs0, tf, sd), blobDir, es);
      var f := ClearAll(s, blobDir, true).fs;
      && (forall p :: p in fs0 && p.dir != blobDir ==> p in f && f[p] == fs0[p])
      && (forall p :: p in f && p !in fs0 ==> p in s.baseline && p !in s.saved && |f[p]| == s.baseline[p])
      && (forall p :: p in f ==> p.dir != blobDir)
  {
    RunKeeps(fs0, blobDir, w, tf, sd, es);
    var s := Run(Start(fs0, tf, sd), blobDir, es);
    var f := ClearAll(s, blobDir, true).fs;
    forall p: Path | p.dir != blobDir
      ensures p in fs0 ==> p in f && f[p] == fs0[p]
      ensures p in f && p !in fs0 ==> p in s.baseline && p !in s.saved && |f[p]| == s.baseline[p]
    {
      assert PathOk(fs0, s, p);
    }
  }

  /**
   * What `clear --all` leaves behind of a file that did not exist before the session: something if and
   * only if the file is there, was not saved since the last clear, and has a positive baseline.
   */
  lemma LeftoverIff(
    fs0: Files, blobDir: string, w: Places, tf: Option<Path>, sd: Option<string>, es: seq<Event<Envelope>>, p: Path)
    requires BlobsApart(w, blobDir) && RunIn(w, tf, sd, es) && p !in fs0 && p.dir != blobDir
    ensures
      var s := Run(Start(fs0, tf, sd), blobDir, es);
      var f := ClearAll(s, blobDir, true).fs;
      p in f && f[p] != [] <==> p in s.fs && p !in s.saved && p in s.baseline && s.baseline[p] > 0
  {
    RunKeeps(fs0, blobDir, w, tf, sd, es);
    assert PathOk(fs0, Run(Start(fs0, tf, sd), blobDir, es), p);
  }

  // ---- when a session-saved file becomes the text_file ----

  /** The step records a positive baseline for a file the session itself has saved. */
  predicate Adopts(s: Session, e: Event<Envelope>) {
    && e.SetTextFile? && e.path.Some?
    && e.path.value in s.saved && e.path.value !in s.baseline && Size(s.fs, e.path.value) > 0
  }

  ghost predicate NeverAdopts(s: Session, blobDir: string, es: seq<Event<Envelope>>) {
    es == [] || (NeverAdopts(s, blobDir, Front(es)) && !Adopts(Run(s, blobDir, Front(es)), Last(es)))
  }

  ghost predicate NewBaselinesZero(fs0: Files, s: Session) {
    forall p :: p in s.baseline && p !in fs0 ==> s.baseline[p] == 0
  }

  /** The configured text_file always has a baseline. */
  ghost predicate SinkRecorded(s: Session) {
    s.textFile.Some? ==> s.textFile.value in s.baseline
  }

  lemma BaselinePush(fs0: Files, s: Session, t: Session, p: Path, size: nat)
    requires p !in s.baseline && t.baseline == s.baseline[p := size]
    ensures NewBaselinesZero(fs0, t) <==> NewBaselinesZero(fs0, s) && (size == 0 || p in fs0)
  {
    assert forall q :: q in s.baseline ==> t.baseline[q] == s.baseline[q];
    assert t.baseline[p] == size;
  }

  lemma AdoptionStep(fs0: Files, blobDir: string, w: Places, s: Session, e: Event<Envelope>)
    requires Inv(fs0, blobDir, w, s) && BlobsApart(w, blobDir) && EventIn(e, w) && SinkRecorded(s)
    ensures SinkRecorded(Step(s, blobDir, e))
    ensures NewBaselinesZero(fs0, Step(s, blobDir, e)) <==> NewBaselinesZero(fs0, s) && !Adopts(s, e)
  {
    var t := Step(s, blobDir, e);
    if e.SetTextFile? && e.path.Some? && e.path.value !in s.baseline {
      var p := e.path.value;
      assert PathOk(fs0, s, p);
      assert t.baseline == s.baseline[p := Size(s.fs, p)];
      assert Size(s.fs, p) == 0 || p in fs0 <==> !Adopts(s, e);
      BaselinePush(fs0, s, t, p, Size(s.fs, p));
    } else {
      assert t.baseline == s.baseline;
    }
  }

  /**
   * Over every run: all files that did not exist at the start have baseline zero if and only if no
   * step made a non-empty session-saved file the text_file for the first time.
   */
  lemma {:induction false} NewBaselinesZeroIff(
    fs0: Files, blobDir: string, w: Places, tf: Option<Path>, sd: Option<string>, es: seq<Event<Envelope>>)
    requires BlobsApart(w, blobDir) && RunIn(w, tf, sd, es)
    ensures SinkRecorded(Run(Start(fs0, tf, sd), blobDir, es))
    ensures NewBaselinesZero(fs0, Run(Start(fs0, tf, sd), blobDir, es))
       <==> NeverAdopts(Start(fs0, tf, sd), blobDir, es)
  {
    if es != [] {
      NewBaselinesZeroIff(fs0, blobDir, w, tf, sd, Front(es));
      RunKeeps(fs0, blobDir, w, tf, sd, Front(es));
      AdoptionStep(fs0, blobDir, w, Run(Start(fs0, tf, sd), blobDir, Front(es)), Last(es));
    }
  }

  /**
   * A session that never adopts a file it saved is reverted completely: nothing it created survives
   * outside the blob directory, except empty text_files that did not exist before.
   */
  lemma CompleteRevert(
    fs0: Files, blobDir: string, w: Places, tf: Option<Path>, sd: Option<string>, es: seq<Event<Envelope>>)
    requires BlobsApart(w, blobDir) && RunIn(w, tf, sd, es) && NeverAdopts(Start(fs0, tf, sd), blobDir, es)
    ensures
      var f := ClearAll(Run(Start(fs0, tf, sd), blobDir, es), blobDir, true).fs;
      && (forall p :: p in fs0 && p.dir != blobDir ==> p in f && f[p] == fs0[p])
      && (forall p :: p in f && p !in fs0 ==> f[p] == [] && p.dir in w.text)
  {
    ExactRevert(fs0, blobDir, w, tf, sd, es);
    RunKeeps(fs0, blobDir, w, tf, sd, es);
    NewBaselinesZeroIff(fs0, blobDir, w, tf, sd, es);
    var f := ClearAll(Run(Start(fs0, tf, sd), blobDir, es), blobDir, true).fs;
    forall p | p in f && p !in fs0 ensures f[p] == [] {
      LeftoverIff(fs0, blobDir, w, tf, sd, es, p);
    }
  }

  /** Text_files outside the save directories are one way never to adopt. */
  lemma {:induction false} SeparateSinksNeverAdopt(
    fs0: Files, blobDir: string, w: Places, tf: Option<Path>, sd: Option<string>, es: seq<Event<Envelope>>)
    requires BlobsApart(w, blobDir) && RunIn(w, tf, sd, es) && w.text !! w.save
    ensures NeverAdopts(Start(fs0, tf, sd), blobDir, es)
  {
    if es != [] {
      SeparateSinksNeverAdopt(fs0, blobDir, w, tf, sd, Front(es));
      RunKeeps(fs0, blobDir, w, tf, sd, Front(es));
      assert EventIn(Last(es), w);
    }
  }

  lemma RunFour(
    s: Session, blobDir: string, a: Event<Envelope>, b: Event<Envelope>, c: Event<Envelope>, d: Event<Envelope>)
    ensures Run(s, blobDir, [a, b, c, d])
         == Step(Step(Step(Step(s, blobDir, a), blobDir, b), blobDir, c), blobDir, d)
  {
    assert Front([a, b, c, d]) == [a, b, c] && Front([a, b, c]) == [a, b];
    assert Front([a, b]) == [a] && Front([a]) == [];
    assert Run(s, blobDir, [a, b]) == Step(Run(s, blobDir, [a]), blobDir, b);
  }

  /**
   * An adoption and what it leaves behind: when a session-saved file becomes the text_file, its size
   * is kept as a baseline past the clear that removes it, and the next clear leaves that many bytes
   * of session text. The first step saves `env`, the last receives `text`.
   */
  lemma LeftoverInsideSaveDir(blobDir: string, dir: string, env: Envelope, text: Envelope)
    requires dir != blobDir
    requires env.kind == File && env.filename == "a" && |env.data| == 1 && text.kind == Text
    ensures
      var p := Path(dir, "a");
      var es := [Receive(env), SetTextFile(Some(p)), Clear(true), Receive(text)];
      var f := ClearAll(Run(Start(map[], None, Some(dir)), blobDir, es), blobDir, true).fs;
      p in f && f[p] == Ascii("\n")
  {
    var p := Path(dir, "a");
    var s0 := Start(map[], None, Some(dir));
    var s1 := Session(map[p := env.data], map[], [p], None, Some(dir));
    var s2 := s1.(textFile := Some(p), baseline := map[p := 1]);
    var s3 := Session(map[], map[p := 1], [], Some(p), Some(dir));
    var s4 := s3.(fs := map[p := Block(text)]);
    assert Step(s0, blobDir, Receive(env)) == s1 by {
      assert Names(s0.fs, dir) == {};
      assert FreeName({}, "a") == Candidate("a", 1);
    }
    assert Step(s1, blobDir, SetTextFile(Some(p))) == s2;
    assert Step(s2, blobDir, Clear(true)) == s3;
    assert Step(s3, blobDir, Receive(text)) == s4 by {
      assert [] + Block(text) == Block(text);
    }
    RunFour(s0, blobDir, Receive(env), SetTextFile(Some(p)), Clear(true), Receive(text));
    BlockHead(text);
  }

  lemma BlockHead(env: Envelope)
    ensures |Block(env)| >= 1 && Block(env)[..1] == Ascii("\n")
  {
  }

  // ---- the daemon that updates these fields in place ----

  class SinkDaemon {
    const blobDir: string
    var fs: Files
    var textBaseline: map<Path, nat>
    var sessionSaveFiles: seq<Path>
    var textFile: Option<Path>
    var saveDir: Option<string>

    function Model(): Session
      reads this
    {
      Session(fs, textBaseline, sessionSaveFiles, textFile, saveDir)
    }

    constructor (blobDir: string, fs: Files, textFile: Option<Path>, saveDir: Option<string>)
      ensures this.blobDir == blobDir
      ensures Model() == Start(fs, textFile, saveDir)
    {
      this.blobDir := blobDir;
      this.fs, this.textFile, this.saveDir := fs, textFile, saveDir;
      textBaseline, sessionSaveFiles := map[], [];
      new;
      RecordTextBaseline(textFile);
    }

    method RecordTextBaseline(path: Option<Path>)
      modifies this`textBaseline
      ensures Model() == RecordBaseline(old(Model()), path)
    {
      if path.None? {
        return;
      }
      if path.value in textBaseline {
        return;
      }
      var size := 0;
      if path.value in fs {
        size := |fs[path.value]|;
      }
      textBaseline := textBaseline[path.value := size];
    }

    method AppendTextFile(path: Path, env: Envelope)
      modifies this`fs, this`textBaseline
      ensures Model() == AppendText(old(Model()), path, env)
    {
      RecordTextBaseline(Some(path));
      var device := env.device;
      if device == [] {
        device := Short(env.sender);
      }
      var block := Ascii("\n---\n") + device + Ascii(" ") + env.stamp + Ascii("\n") + env.text + Ascii("\n");
      fs := Appended(fs, path, block);
    }

    method SaveFile(dir: string, name: string, data: Bytes)
      modifies this`fs, this`sessionSaveFiles
      ensures Model() == SaveToDir(old(Model()), dir, name, data)
    {
      var free := DedupName(Names(fs, dir), name);
      var path := Path(dir, free);
      fs := fs[path := data];
      sessionSaveFiles := sessionSaveFiles + [path];
    }

    method Route(env: Envelope)
      modifies this`fs, this`textBaseline, this`sessionSaveFiles
      ensures Model() == RouteSinks(old(Model()), env)
    {
      match env.kind
      case Text =>
        if textFile.Some? {
          AppendTextFile(textFile.value, env);
        }
      case Image =>
        if saveDir.Some? {
          SaveFile(saveDir.value, ImageSinkName(env), env.data);
        }
      case File =>
        if saveDir.Some? {
          SaveFile(saveDir.value, FileSinkName(env), env.data);
        }
    }

    method ConfigSetTextFile(path: Option<Path>)
      modifies this`textFile, this`textBaseline
      ensures Model() == Step(old(Model()), blobDir, SetTextFile(path))
    {
      textFile := path;
      RecordTextBaseline(path);
    }

    method RevertSinks()
      modifies this`fs, this`sessionSaveFiles
      ensures Model() == ClearSinks(old(Model()))
    {
      var files := sessionSaveFiles;
      sessionSaveFiles := [];
      fs := TruncateEach(fs, textBaseline);
      fs := RemoveEach(fs, files);
    }

    method ClearSession(all: bool)
      modifies this`fs, this`sessionSaveFiles
      ensures Model() == ClearAll(old(Model()), blobDir, all)
    {
      fs := WithoutDir(fs, blobDir);
      if all {
        RevertSinks();
      }
    }
  }
}
