/**
 * What happens to the sinks in a session, and where a session keeps them: the directories of its
 * text_files and its save directories. Both kinds of sink bookkeeping are measured on such sessions.
 */
module SinkEvents {
  import opened Util
  import opened FileSystem

  datatype Event<E> =
    | Receive(env: E)
    | StoreBlob(name: string, data: Bytes)
    | SetTextFile(path: Option<Path>)
    | SetSaveDir(dir: Option<string>)
    | Clear(all: bool)

  /** Where the configured sinks live: text_file directories, save directories. */
  datatype Places = Places(text: set<string>, save: set<string>)

  ghost predicate EventIn<E>(e: Event<E>, w: Places) {
    match e
    case SetTextFile(path) => path.Some? ==> path.value.dir in w.text
    case SetSaveDir(dir) => dir.Some? ==> dir.value in w.save
    case _ => true
  }

  /** A session over `w`: initial configuration and every later change stay inside it. */
  ghost predicate RunIn<E>(w: Places, tf: Option<Path>, sd: Option<string>, es: seq<Event<E>>) {
    && (tf.Some? ==> tf.value.dir in w.text)
    && (sd.Some? ==> sd.value in w.save)
    && forall i :: 0 <= i < |es| ==> EventIn(es[i], w)
  }

  /** No sink is configured inside the blob directory. */
  ghost predicate BlobsApart(w: Places, blobDir: string) {
    blobDir !in w.text && blobDir !in w.save
  }

  /** No full clear and no other text_file; blobs, transient clears and save directories may come and go. */
  ghost predicate Steady<E>(es: seq<Event<E>>) {
    forall i :: 0 <= i < |es| ==> !es[i].SetTextFile? && !(es[i].Clear? && es[i].all)
  }

  /** Nothing is saved in directory `dir`. */
  ghost predicate SavesElsewhere<E>(saveDir: Option<string>, es: seq<Event<E>>, dir: string) {
    && saveDir != Some(dir)
    && forall i :: 0 <= i < |es| && es[i].SetSaveDir? ==> es[i].dir != Some(dir)
  }

  /** The save directory in force, by the settings alone. */
  function SaveDirAfter<E>(es: seq<Event<E>>, initial: Option<string>): Option<string> {
    if |es| == 0 then initial
    else if Last(es).SetSaveDir? then Last(es).dir
    else SaveDirAfter(Front(es), initial)
  }

  lemma {:induction false} ElsewhereAfter<E>(es: seq<Event<E>>, initial: Option<string>, dir: string)
    requires SavesElsewhere(initial, es, dir)
    ensures SaveDirAfter(es, initial) != Some(dir)
  {
    if |es| > 0 {
      assert es[|es| - 1].SetSaveDir? ==> es[|es| - 1].dir != Some(dir);
      ElsewhereAfter(Front(es), initial, dir);
    }
  }

  /** A file of the blob directory, by the blobs stored and the clears of either kind alone. */
  function BlobAfter<E>(es: seq<Event<E>>, initial: Option<Bytes>, name: string): Option<Bytes> {
    if |es| == 0 then initial
    else
      match Last(es)
      case StoreBlob(n, data) => if n == name then Some(data) else BlobAfter(Front(es), initial, name)
      case Clear(all) => None
      case _ => BlobAfter(Front(es), initial, name)
  }

  function FileAt(fs: Files, p: Path): Option<Bytes> {
    if p in fs then Some(fs[p]) else None
  }
}
