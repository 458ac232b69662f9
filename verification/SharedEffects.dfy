/**
 * What the sinks of the experiments daemon write, byte by byte: the text_file is its old content and a
 * log of the received texts, and every other item is in the folder under its name.
 */
module SharedEffects {
  import opened Util
  import opened Items
  import opened FileSystem
  import opened SinkEvents
  import opened DedupPath
  import opened SharedSinks
  import L = TextLog

  // ---- texts ----

  /** The entry of a text: the device name, else the sender cut to 16 bytes and an ellipsis; the stamp; the text. */
  function NoteOf(env: Envelope): L.Note {
    var name :=
      if |env.device| >= 1 then env.device
      else if |env.sender| <= 16 then env.sender
      else env.sender[..16] + [226, 128, 166];
    L.Note(name, env.stamp, env.text)
  }

  lemma BlockIsEntry(env: Envelope)
    ensures SharedSinks.Block(env) == L.Entry(NoteOf(env))
  {
    assert Ascii("\n---\n") == L.SEPARATOR && Ascii(" ") == [L.SPACE] && Ascii("\n") == [L.NEWLINE];
    var n := NoteOf(env);
    assert L.SEPARATOR + n.name + [L.SPACE] + n.stamp == L.SEPARATOR + L.Header(n);
  }

  /** A received text is appended to the configured text_file, and no other file changes. */
  lemma TextIsAppended(s: Session, blobDir: string, env: Envelope)
    requires env.kind == Text
    ensures Step(s, blobDir, Receive(env)).fs ==
      if s.textFile.None? then s.fs
      else s.fs[s.textFile.value := Content(s.fs, s.textFile.value) + L.Entry(NoteOf(env))]
  {
    BlockIsEntry(env);
  }

  /** The texts received in a session, in order. */
  function Texts(es: seq<Event<Envelope>>): seq<L.Note> {
    if |es| == 0 then []
    else if Last(es).Receive? && Last(es).env.kind == Text then Texts(Front(es)) + [NoteOf(Last(es).env)]
    else Texts(Front(es))
  }

  // ---- images and files ----

  function NameOf(env: Envelope): string {
    var given := if |env.filename| >= 1 then Some(env.filename) else env.blobHash;
    if env.kind == Image then Stem(if given.Some? then given.value else "") + ['.', 'p', 'n', 'g']
    else if given.Some? then given.value
    else ['f', 'i', 'l', 'e']
  }

  /** A received image or file is saved with its bytes under the first free name, and no other file changes. */
  lemma ItemIsSaved(s: Session, blobDir: string, env: Envelope)
    requires env.kind != Text
    ensures
      var t := Step(s, blobDir, Receive(env));
      if s.saveDir.None? then t == s
      else
        var dir := s.saveDir.value;
        var p := Path(dir, FreeName(Names(s.fs, dir), NameOf(env)));
        p !in s.fs && t.fs == s.fs[p := env.data] && t.saved == s.saved + [p]
  {
    if s.saveDir.Some? {
      var q := Path(s.saveDir.value, FreeName(Names(s.fs, s.saveDir.value), NameOf(env)));
      assert q in s.fs ==> q.name in Names(s.fs, q.dir);
    }
  }

  // ---- over sessions ----

  lemma StepKeepsOthers(s: Session, blobDir: string, e: Event<Envelope>, p: Path)
    requires p in s.fs && p.dir != blobDir && s.textFile != Some(p)
    requires !e.SetTextFile? && !(e.Clear? && e.all)
    ensures p in Step(s, blobDir, e).fs && Step(s, blobDir, e).fs[p] == s.fs[p]
    ensures Step(s, blobDir, e).textFile == s.textFile
  {
    if e.Receive? && e.env.kind != Text {
      ItemIsSaved(s, blobDir, e.env);
    }
  }

  /** Until a full clear or another text_file, what is in a file stays in it, save for the text_file. */
  lemma {:induction false} OtherFilesStay(s: Session, blobDir: string, es: seq<Event<Envelope>>, p: Path)
    requires p in s.fs && p.dir != blobDir && s.textFile != Some(p) && Steady(es)
    ensures
      var r := Run(s, blobDir, es);
      p in r.fs && r.fs[p] == s.fs[p] && r.textFile == s.textFile
  {
    if |es| > 0 {
      OtherFilesStay(s, blobDir, Front(es), p);
      assert !es[|es| - 1].SetTextFile? && !(es[|es| - 1].Clear? && es[|es| - 1].all);
      StepKeepsOthers(Run(s, blobDir, Front(es)), blobDir, Last(es), p);
    }
  }

  /** A received image or file is in the folder, with its bytes, until a full clear or another text_file. */
  lemma SavedItemStays(s: Session, blobDir: string, env: Envelope, es: seq<Event<Envelope>>)
    requires env.kind != Text && s.saveDir.Some? && s.saveDir.value != blobDir && Steady(es)
    requires s.textFile.Some? ==> s.textFile.value.dir != s.saveDir.value
    ensures
      var dir := s.saveDir.value;
      var p := Path(dir, FreeName(Names(s.fs, dir), NameOf(env)));
      var r := Run(Step(s, blobDir, Receive(env)), blobDir, es);
      p in r.fs && r.fs[p] == env.data
  {
    var dir := s.saveDir.value;
    var p := Path(dir, FreeName(Names(s.fs, dir), NameOf(env)));
    ItemIsSaved(s, blobDir, env);
    OtherFilesStay(Step(s, blobDir, Receive(env)), blobDir, es, p);
  }

  ghost predicate LogSoFar(s: Session, r: Session, p: Path, ns: seq<L.Note>) {
    r.textFile == Some(p) && (p in s.fs ==> p in r.fs) && Content(r.fs, p) == Content(s.fs, p) + L.Log(ns)
  }

  lemma LogStep(s: Session, r: Session, blobDir: string, e: Event<Envelope>, p: Path, ns: seq<L.Note>)
    requires LogSoFar(s, r, p, ns) && p.dir != blobDir && !e.SetTextFile? && !(e.Clear? && e.all)
    requires p in s.fs || r.saveDir != Some(p.dir)
    ensures
      var more := if e.Receive? && e.env.kind == Text then ns + [NoteOf(e.env)] else ns;
      LogSoFar(s, Step(r, blobDir, e), p, more)
  {
    if e.Receive? && e.env.kind == Text {
      TextIsAppended(r, blobDir, e.env);
      L.LogPush(ns, NoteOf(e.env));
      Assoc(Content(s.fs, p), L.Log(ns), L.Entry(NoteOf(e.env)));
    } else if e.Receive? {
      ItemIsSaved(r, blobDir, e.env);
    }
  }

  lemma {:induction false} SaveDirIsLastSet(s: Session, blobDir: string, es: seq<Event<Envelope>>)
    ensures Run(s, blobDir, es).saveDir == SaveDirAfter(es, s.saveDir)
  {
    if |es| > 0 {
      SaveDirIsLastSet(s, blobDir, Front(es));
    }
  }

  /**
   * Over every session without a full clear and another text_file, the text_file is its old content
   * and then the log of exactly the texts received, in order.
   */
  lemma {:induction false} TextFileIsLog(s: Session, blobDir: string, es: seq<Event<Envelope>>, p: Path)
    requires s.textFile == Some(p) && p.dir != blobDir && Steady(es)
    requires p in s.fs || SavesElsewhere(s.saveDir, es, p.dir)
    ensures LogSoFar(s, Run(s, blobDir, es), p, Texts(es))
  {
    if |es| > 0 {
      TextFileIsLog(s, blobDir, Front(es), p);
      assert !es[|es| - 1].SetTextFile? && !(es[|es| - 1].Clear? && es[|es| - 1].all);
      var r := Run(s, blobDir, Front(es));
      SaveDirIsLastSet(s, blobDir, Front(es));
      if p !in s.fs {
        ElsewhereAfter(Front(es), s.saveDir, p.dir);
      }
      LogStep(s, r, blobDir, Last(es), p, Texts(Front(es)));
    }
  }

  /** Two such sessions whose texts differ in one place leave different text_files. */
  lemma TextsShowInFile(
    s: Session, blobDir: string, es: seq<Event<Envelope>>, fs: seq<Event<Envelope>>, p: Path, k: nat, t: Bytes)
    requires s.textFile == Some(p) && p.dir != blobDir && p in s.fs && Steady(es) && Steady(fs)
    requires k < |Texts(es)| && t != Texts(es)[k].text
    requires Texts(fs) == Texts(es)[k := Texts(es)[k].(text := t)]
    ensures Content(Run(s, blobDir, es).fs, p) != Content(Run(s, blobDir, fs).fs, p)
  {
    TextFileIsLog(s, blobDir, es, p);
    TextFileIsLog(s, blobDir, fs, p);
    L.OneTextDiffers(Texts(es), k, t);
    L.SameFront(Content(s.fs, p), L.Log(Texts(es)), L.Log(Texts(fs)));
  }

  /** When all texts and headers are single lines, the text_file tells the texts received, and their order. */
  lemma FileTellsTexts(
    s: Session, blobDir: string, es: seq<Event<Envelope>>, fs: seq<Event<Envelope>>, p: Path)
    requires s.textFile == Some(p) && p.dir != blobDir && p in s.fs && Steady(es) && Steady(fs)
    requires L.AllOneLine(Texts(es)) && L.AllOneLine(Texts(fs))
    ensures Content(Run(s, blobDir, es).fs, p) == Content(Run(s, blobDir, fs).fs, p) <==> Texts(es) == Texts(fs)
  {
    TextFileIsLog(s, blobDir, es, p);
    TextFileIsLog(s, blobDir, fs, p);
    L.SameFront(Content(s.fs, p), L.Log(Texts(es)), L.Log(Texts(fs)));
    if L.Log(Texts(es)) == L.Log(Texts(fs)) {
      L.OneLineLogsDecode(Texts(es), Texts(fs));
    }
  }

  // ---- the blob directory ----

  /** No sink is kept in the blob directory. */
  ghost predicate SinksApart(s: Session, blobDir: string) {
    && (s.textFile.Some? ==> s.textFile.value.dir != blobDir) && s.saveDir != Some(blobDir)
    && (forall p :: p in s.saved ==> p.dir != blobDir) && (forall p :: p in s.baseline ==> p.dir != blobDir)
  }

  lemma RunApart(fs0: Files, blobDir: string, w: Places, tf: Option<Path>, sd: Option<string>,
      es: seq<Event<Envelope>>)
    requires BlobsApart(w, blobDir) && RunIn(w, tf, sd, es)
    ensures SinksApart(Run(Start(fs0, tf, sd), blobDir, es), blobDir)
  {
    RunKeeps(fs0, blobDir, w, tf, sd, es);
  }

  lemma BlobStep(s: Session, blobDir: string, e: Event<Envelope>, name: string)
    requires SinksApart(s, blobDir)
    ensures FileAt(Step(s, blobDir, e).fs, Path(blobDir, name)) ==
            BlobAfter([e], FileAt(s.fs, Path(blobDir, name)), name)
  {
    assert Front([e]) == [] && Last([e]) == e;
  }

  lemma BlobAfterPush(es: seq<Event<Envelope>>, e: Event<Envelope>, initial: Option<Bytes>, name: string)
    ensures BlobAfter(es + [e], initial, name) == BlobAfter([e], BlobAfter(es, initial, name), name)
  {
    assert Front(es + [e]) == es && Front([e]) == [];
  }

  /**
   * In every session a file of the blob directory is the newest blob stored under its name since the
   * last clear, of either kind; nothing is there that was not stored, and only a clear takes it away.
   */
  lemma {:induction false} BlobsAreCache(fs0: Files, blobDir: string, w: Places, tf: Option<Path>, sd: Option<string>,
      es: seq<Event<Envelope>>, name: string)
    requires BlobsApart(w, blobDir) && RunIn(w, tf, sd, es)
    ensures FileAt(Run(Start(fs0, tf, sd), blobDir, es).fs, Path(blobDir, name)) ==
            BlobAfter(es, FileAt(fs0, Path(blobDir, name)), name)
  {
    if |es| >= 1 {
      assert forall i :: 0 <= i < |es| - 1 ==> Front(es)[i] == es[i];
      BlobsAreCache(fs0, blobDir, w, tf, sd, Front(es), name);
      RunApart(fs0, blobDir, w, tf, sd, Front(es));
      BlobStep(Run(Start(fs0, tf, sd), blobDir, Front(es)), blobDir, Last(es), name);
      BlobAfterPush(Front(es), Last(es), FileAt(fs0, Path(blobDir, name)), name);
      assert es == Front(es) + [Last(es)];
    }
  }
}
