/**
 * What a poll, a delivery and a paste do to the network and to the clipboards, said in terms of the
 * contents: which copies go out, to whom, and what is on a clipboard afterwards.
 */
module WatcherEffects {
  import opened Util
  import opened Watcher

  // ---- who is sent what ----

  ghost predicate Reaches(msgs: seq<Message>, x: nat) {
    exists i :: 0 <= i < |msgs| && msgs[i].to == x
  }

  /** One message with `item` for each of the `n` devices but `d`, and no other. */
  ghost predicate OneEach(msgs: seq<Message>, n: nat, d: nat, item: Item) {
    && (forall i :: 0 <= i < |msgs| ==> msgs[i].to < n && msgs[i].to != d && msgs[i].item == item)
    && (forall i, j :: 0 <= i < j < |msgs| ==> msgs[i].to != msgs[j].to)
    && (forall x: nat :: x < n && x != d ==> Reaches(msgs, x))
  }

  lemma {:induction false} ToPeersIsOneEach(n: nat, d: nat, item: Item)
    ensures OneEach(ToPeers(n, d, item), n, d, item)
  {
    if n > 0 {
      ToPeersIsOneEach(n - 1, d, item);
      var less, more := ToPeers(n - 1, d, item), ToPeers(n, d, item);
      forall x: nat | x < n && x != d ensures Reaches(more, x) {
        if x == n - 1 {
          assert more[|less|].to == x;
        } else {
          assert Reaches(less, x);
          var i :| 0 <= i < |less| && less[i].to == x;
          assert more[i].to == x;
        }
      }
    }
  }

  /** The network after something was sent. */
  ghost predicate SentToPeers(net: seq<Message>, net': seq<Message>, n: nat, d: nat, item: Item) {
    net <= net' && OneEach(net'[|net|..], n, d, item)
  }

  lemma SendReachesPeers(hash: Hash, enc: Bytes -> Bytes, w: World, d: nat, item: Item)
    requires d < |w.devices|
    ensures
      var v := Next(hash, enc, w, Send(d, item));
      && SentToPeers(w.net, v.net, |w.devices|, d, item)
      && v.devices == w.devices && v.copies == w.copies && v.broadcasts == w.broadcasts
  {
    ToPeersIsOneEach(|w.devices|, d, item);
    var msgs := ToPeers(|w.devices|, d, item);
    assert (w.net + msgs)[|w.net|..] == msgs;
  }

  // ---- a poll ----

  /** The bytes whose hash stands for a clipboard; an empty clipboard and an empty text have none. */
  function Contents(c: Clip): Option<Bytes> {
    match c
    case Empty => None
    case Text(t) => if |t| == 0 then None else Some(t)
    case Image(rgba) => Some(rgba)
  }

  /** The item that carries a clipboard: a text as it is, an image encoded. */
  function Carrier(c: Clip, enc: Bytes -> Bytes): Item
    requires Contents(c).Some?
  {
    match c
    case Text(t) => TextItem(t)
    case Image(rgba) => ImageItem(enc(rgba), rgba)
  }

  /**
   * A readable poll with the mode on, of contents that differ from the baseline and from the recorded
   * write, when the daemon has not written the clipboard in the last 2000 ms.
   */
  predicate Due(hash: Hash, dev: Device, now: nat, ok: bool) {
    && dev.watching && ok && Contents(dev.clip).Some?
    && var h := hash(Contents(dev.clip).value);
    && dev.seen.Some? && dev.seen.value != h && dev.lastWritten != Some(h)
    && (dev.writtenAt.None? || now - dev.writtenAt.value >= 2000)
  }

  lemma TickIsDue(hash: Hash, dev: Device, now: nat, ok: bool)
    ensures
      var (after, out) := Tick(hash, dev, now, ok);
      && out == (if Due(hash, dev, now, ok) then Some(dev.clip) else None)
      && after == dev.(seen := if !dev.watching then None
                               else if ok && Contents(dev.clip).Some? then Some(hash(Contents(dev.clip).value))
                               else dev.seen)
  {
  }

  /**
   * A poll, in any world: contents that are due go out, once to every other device, and nothing else
   * does; the device keeps all but its baseline, and nobody else changes.
   */
  lemma PollSendsIffDue(hash: Hash, enc: Bytes -> Bytes, w: World, d: nat, now: nat, ok: bool)
    requires d < |w.devices|
    ensures
      var v, dev := Next(hash, enc, w, Poll(d, now, ok)), w.devices[d];
      && (if Due(hash, dev, now, ok) then
            && v.broadcasts == w.broadcasts + 1
            && SentToPeers(w.net, v.net, |w.devices|, d, Carrier(dev.clip, enc))
          else v.broadcasts == w.broadcasts && v.net == w.net)
      && |v.devices| == |w.devices| && v.devices[d] == dev.(seen := v.devices[d].seen) && v.copies == w.copies
      && (forall x :: 0 <= x < |w.devices| && x != d ==> v.devices[x] == w.devices[x])
  {
    TickIsDue(hash, w.devices[d], now, ok);
    if Due(hash, w.devices[d], now, ok) {
      var item := Carrier(w.devices[d].clip, enc);
      ToPeersIsOneEach(|w.devices|, d, item);
      var msgs := ToPeers(|w.devices|, d, item);
      assert (w.net + msgs)[|w.net|..] == msgs;
    }
  }

  /** What a poll makes of the baseline. */
  lemma PollSetsBaseline(hash: Hash, enc: Bytes -> Bytes, w: World, d: nat, now: nat, ok: bool)
    requires d < |w.devices|
    ensures
      var dev := w.devices[d];
      Next(hash, enc, w, Poll(d, now, ok)).devices[d].seen ==
        if !dev.watching then None
        else if ok && Contents(dev.clip).Some? then Some(hash(Contents(dev.clip).value))
        else dev.seen
  {
    TickIsDue(hash, w.devices[d], now, ok);
  }

  /**
   * A user's copy goes out, in every run, whatever its timing: a readable poll with the mode on of a
   * device that still owes the copy sends it to every other device, if and only if the copy is not
   * empty and differs from the baseline and the recorded write, and the grace window is over.
   */
  lemma OwedCopyGoesOutIff(hash: Hash, enc: Bytes -> Bytes, l: Ledger, es: seq<Step>, d: nat, now: nat)
    requires Fresh(l) && d < |After(hash, enc, l, es).w.devices|
    requires After(hash, enc, l, es).owed[d].Some? && After(hash, enc, l, es).w.devices[d].watching
    ensures
      var m := After(hash, enc, l, es);
      var r, copy, dev := Advance(hash, enc, m, Poll(d, now, true)), m.owed[d].value, m.w.devices[d];
      && dev.clip == copy
      && (r.w.broadcasts == m.w.broadcasts + 1 <==>
           && Contents(copy).Some? && dev.seen.Some? && dev.seen.value != hash(Contents(copy).value)
           && dev.lastWritten != Some(hash(Contents(copy).value))
           && (dev.writtenAt.None? || now - dev.writtenAt.value >= 2000))
      && (r.w.broadcasts == m.w.broadcasts + 1 ==>
           && Contents(copy).Some? && SentToPeers(m.w.net, r.w.net, |m.w.devices|, d, Carrier(copy, enc))
           && r.owed[d] == None)
  {
    RunKeepsAccounts(hash, enc, l, es);
    var m := After(hash, enc, l, es);
    assert Accounted(hash, m.w.devices[d], m.owed[d]);
    PollSendsIffDue(hash, enc, m.w, d, now, true);
    TickIsDue(hash, m.w.devices[d], now, true);
  }

  // ---- a delivery and a paste ----

  /** What an item is on the clipboard, and the hash recorded for it. */
  ghost predicate Placed(hash: Hash, dev: Device, item: Item) {
    match item
    case TextItem(t) => dev.clip == Text(t) && dev.lastWritten == Some(hash(t))
    case ImageItem(png, pixels) => dev.clip == Image(pixels) && dev.lastWritten == Some(hash(png))
    case FileItem(path) => dev.clip == Text(path) && dev.lastWritten == Some(hash(path))
  }

  /** The world with an item placed at `d`: its clipboard, recorded hash and time, and nothing else. */
  ghost predicate PlacedAt(hash: Hash, w: World, v: World, d: nat, item: Item, now: nat)
    requires d < |w.devices|
  {
    && |v.devices| == |w.devices| && v.net == w.net && v.copies == w.copies && v.broadcasts == w.broadcasts
    && (forall x :: 0 <= x < |w.devices| && x != d ==> v.devices[x] == w.devices[x])
    && Placed(hash, v.devices[d], item) && v.devices[d].writtenAt == Some(now)
    && v.devices[d] == w.devices[d].(clip := v.devices[d].clip, lastWritten := v.devices[d].lastWritten,
                                     writtenAt := v.devices[d].writtenAt)
  }

  lemma DeliveryPlacesIff(hash: Hash, enc: Bytes -> Bytes, w: World, m: nat, now: nat)
    requires Enabled(w, Deliver(m, now))
    ensures
      var v := Next(hash, enc, w, Deliver(m, now));
      if w.devices[w.net[m].to].autoCopy then PlacedAt(hash, w, v, w.net[m].to, w.net[m].item, now) else v == w
  {
  }

  lemma PastePlaces(hash: Hash, enc: Bytes -> Bytes, w: World, d: nat, item: Item, now: nat)
    requires d < |w.devices|
    ensures PlacedAt(hash, w, Next(hash, enc, w, Paste(d, item, now)), d, item, now)
  {
  }

  /**
   * From clipboard to clipboard: what is due at device `a` goes out with its next poll, and when it is
   * delivered to a device `b` with auto_copy on, `b` has on its clipboard what `a` has on its own.
   */
  lemma ClipboardArrives(
    hash: Hash, enc: Bytes -> Bytes, w: World, a: nat, b: nat, now: nat, later: nat) returns (m: nat)
    requires a < |w.devices| && b < |w.devices| && a != b
    requires Due(hash, w.devices[a], now, true) && w.devices[b].autoCopy
    ensures
      var v := Next(hash, enc, w, Poll(a, now, true));
      && |w.net| <= m < |v.net| && v.net[m].to == b && Enabled(v, Deliver(m, later))
      && Next(hash, enc, v, Deliver(m, later)).devices[b].clip == w.devices[a].clip
  {
    PollSendsIffDue(hash, enc, w, a, now, true);
    var v := Next(hash, enc, w, Poll(a, now, true));
    var msgs := v.net[|w.net|..];
    assert Reaches(msgs, b);
    var i :| 0 <= i < |msgs| && msgs[i].to == b;
    m := |w.net| + i;
    assert v.net[m] == msgs[i];
    DeliveryPlacesIff(hash, enc, v, m, later);
  }

  // ---- the modes ----

  /** The watcher mode of device `d` after a run, by the settings alone. */
  function WatchingAfter(es: seq<Step>, d: nat, initial: bool): bool {
    if |es| == 0 then initial
    else if Last(es).SetWatching? && Last(es).d == d then Last(es).on
    else WatchingAfter(Front(es), d, initial)
  }

  function AutoCopyAfter(es: seq<Step>, d: nat, initial: bool): bool {
    if |es| == 0 then initial
    else if Last(es).SetAutoCopy? && Last(es).d == d then Last(es).on
    else AutoCopyAfter(Front(es), d, initial)
  }

  lemma ModeStep(hash: Hash, enc: Bytes -> Bytes, l: Ledger, e: Step, d: nat)
    requires Sized(l) && d < |l.w.devices|
    ensures
      var r, dev := Advance(hash, enc, l, e).w.devices, l.w.devices[d];
      && |r| == |l.w.devices|
      && r[d].watching == (if e.SetWatching? && e.d == d then e.on else dev.watching)
      && r[d].autoCopy == (if e.SetAutoCopy? && e.d == d then e.on else dev.autoCopy)
  {
  }

  /** Over every run the modes are what was last set, whatever else happens. */
  lemma {:induction false} ModesAreLastSet(hash: Hash, enc: Bytes -> Bytes, l: Ledger, es: seq<Step>, d: nat)
    requires Sized(l) && d < |l.w.devices|
    ensures
      var dev := l.w.devices[d];
      var r := After(hash, enc, l, es).w.devices;
      && |r| == |l.w.devices|
      && r[d].watching == WatchingAfter(es, d, dev.watching) && r[d].autoCopy == AutoCopyAfter(es, d, dev.autoCopy)
  {
    if |es| > 0 {
      ModesAreLastSet(hash, enc, l, Front(es), d);
      ModeStep(hash, enc, After(hash, enc, l, Front(es)), Last(es), d);
    }
  }
}
