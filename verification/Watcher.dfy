/**
 * The broadcast_on_copy watcher of mesh-rs on any number of devices. Users copy, daemons write what
 * they receive, watchers poll and broadcast, modes are toggled and messages delivered in any order.
 * The loop guard is shown to work over whole runs: watchers never broadcast more often than users copy.
 */
module Watcher {
  import opened Util

  /** The BLAKE3 digest; nothing about it is assumed. */
  type Hash = Bytes -> string

  /** What the OS clipboard holds; an image by its raw pixels. */
  datatype Clip = Empty | Text(t: Bytes) | Image(rgba: Bytes)

  /** An item on its way to, or buffered at, a device: `png` is opaque, `pixels` what it decodes to. */
  datatype Item = TextItem(t: Bytes) | ImageItem(png: Bytes, pixels: Bytes) | FileItem(path: Bytes)

  const ECHO_GRACE := 2000

  datatype Device = Device(
    clip: Clip,
    watching: bool,              // broadcast_on_copy == "on"
    autoCopy: bool,              // auto_copy == "on" with a clipboard available
    seen: Option<string>,        // clip_watch_seen
    lastWritten: Option<string>, // Dedup.last_written
    writtenAt: Option<nat>)      // clip_written_at, in milliseconds

  /** read_snapshot: nothing for an empty clipboard or an empty text. */
  function Snapshot(c: Clip): Option<Clip> {
    if c == Empty || c == Text([]) then None else Some(c)
  }

  function Sig(hash: Hash, c: Clip): string
    requires c != Empty
  {
    match c
    case Text(t) => hash(t)
    case Image(rgba) => hash(rgba)
  }

  /** clip_payload: what is placed on the clipboard, and the hash recorded for it. */
  function Payload(hash: Hash, item: Item): (Clip, string) {
    match item
    case TextItem(t) => (Text(t), hash(t))
    case ImageItem(png, pixels) => (Image(pixels), hash(png))
    case FileItem(path) => (Text(path), hash(path))
  }

  // ---- one device ----

  function WriteClipboard(hash: Hash, d: Device, item: Item, now: nat): Device {
    var (c, h) := Payload(hash, item);
    d.(clip := c, lastWritten := Some(h), writtenAt := Some(now))
  }

  predicate WroteWithin(d: Device, now: nat) {
    d.writtenAt.Some? && now - d.writtenAt.value < ECHO_GRACE
  }

  /**
   * One poll at time `now`. `ok` is false when the clipboard read fails, which looks like an empty
   * clipboard. The second component is what goes out to the peers, if anything does.
   */
  function Tick(hash: Hash, d: Device, now: nat, ok: bool): (Device, Option<Clip>) {
    if !d.watching then (d.(seen := None), None)
    else
      var snap := if ok then Snapshot(d.clip) else None;
      if snap.None? then (d, None)
      else
        var sig := Sig(hash, snap.value);
        var e := d.(seen := Some(sig));
        if d.seen.None? || d.seen == Some(sig) then (e, None)
        else if d.lastWritten == Some(sig) || WroteWithin(d, now) then (e, None)
        else (e, Some(snap.value))
  }

  // ---- the network ----

  datatype Step =
    | UserCopy(d: nat, c: Clip)               // the user of device d copies
    | Send(d: nat, item: Item)                // an explicit send, handed to every peer
    | Poll(d: nat, now: nat, ok: bool)        // the watcher of device d
    | SetWatching(d: nat, on: bool)
    | SetAutoCopy(d: nat, on: bool)
    | Deliver(m: nat, now: nat)               // message m of the network arrives (again, at worst)
    | Paste(d: nat, item: Item, now: nat)     // the user asks the daemon to place an item

  datatype Message = Message(to: nat, item: Item)

  /** `copies` and `broadcasts` count what the bound is about; `net` only grows. */
  datatype World = World(devices: seq<Device>, net: seq<Message>, copies: nat, broadcasts: nat)

  /** One message for each of the first `n` devices but `d`. */
  function ToPeers(n: nat, d: nat, item: Item): seq<Message> {
    if n == 0 then []
    else ToPeers(n - 1, d, item) + (if n - 1 == d then [] else [Message(n - 1, item)])
  }

  /** A broadcast clipboard image is encoded again: the PNG bytes are the encoder's, `enc`. */
  function ItemOf(c: Clip, enc: Bytes -> Bytes): Item
    requires c != Empty
  {
    match c
    case Text(t) => TextItem(t)
    case Image(rgba) => ImageItem(enc(rgba), rgba)
  }

  predicate Enabled(w: World, e: Step) {
    match e
    case Deliver(m, now) => m < |w.net| && w.net[m].to < |w.devices|
    case _ => e.d < |w.devices|
  }

  function Next(hash: Hash, enc: Bytes -> Bytes, w: World, e: Step): World
    requires Enabled(w, e)
  {
    match e
    case UserCopy(d, c) =>
      w.(devices := w.devices[d := w.devices[d].(clip := c)], copies := w.copies + 1)
    case Send(d, item) => w.(net := w.net + ToPeers(|w.devices|, d, item))
    case Poll(d, now, ok) =>
      var (dev, out) := Tick(hash, w.devices[d], now, ok);
      var v := w.(devices := w.devices[d := dev]);
      if out.None? || out.value == Empty then v
      else v.(net := v.net + ToPeers(|w.devices|, d, ItemOf(out.value, enc)), broadcasts := v.broadcasts + 1)
    case SetWatching(d, on) => w.(devices := w.devices[d := w.devices[d].(watching := on)])
    case SetAutoCopy(d, on) => w.(devices := w.devices[d := w.devices[d].(autoCopy := on)])
    case Deliver(m, now) =>
      var Message(to, item) := w.net[m];
      if w.devices[to].autoCopy
      then w.(devices := w.devices[to := WriteClipboard(hash, w.devices[to], item, now)]) else w
    case Paste(d, item, now) =>
      w.(devices := w.devices[d := WriteClipboard(hash, w.devices[d], item, now)])
  }

  // ---- runs and their ledger ----

  /** Per device: the user's copy that is still on the clipboard and not yet broadcast; the last poll. */
  datatype Ledger = Ledger(w: World, owed: seq<Option<Clip>>, polled: seq<nat>)

  predicate Sized(l: Ledger) {
    |l.owed| == |l.w.devices| && |l.polled| == |l.w.devices|
  }

  /** The clipboard write a step performs, if any: device, item and time. */
  function DaemonWrite(w: World, e: Step): Option<(nat, Item, nat)>
    requires Enabled(w, e)
  {
    match e
    case Deliver(m, now) =>
      if w.devices[w.net[m].to].autoCopy then Some((w.net[m].to, w.net[m].item, now)) else None
    case Paste(d, item, now) => Some((d, item, now))
    case _ => None
  }

  function Broadcast(hash: Hash, w: World, e: Step): Option<Clip>
    requires Enabled(w, e)
  {
    if e.Poll? then Tick(hash, w.devices[e.d], e.now, e.ok).1 else None
  }

  /** One step; a step that is not enabled does nothing. */
  function Advance(hash: Hash, enc: Bytes -> Bytes, l: Ledger, e: Step): (r: Ledger)
    requires Sized(l)
    ensures Sized(r)
  {
    if !Enabled(l.w, e) then l
    else
      var v := Next(hash, enc, l.w, e);
      var write := DaemonWrite(l.w, e);
      if write.Some? then Ledger(v, l.owed[write.value.0 := None], l.polled)
      else
        match e
        case UserCopy(d, c) => Ledger(v, l.owed[d := Some(c)], l.polled)
        case Poll(d, now, ok) =>
          Ledger(v, if Broadcast(hash, l.w, e).Some? then l.owed[d := None] else l.owed, l.polled[d := now])
        case _ => Ledger(v, l.owed, l.polled)
  }

  function After(hash: Hash, enc: Bytes -> Bytes, l: Ledger, es: seq<Step>): (r: Ledger)
    requires Sized(l)
    ensures Sized(r)
  {
    if es == [] then l else Advance(hash, enc, After(hash, enc, l, Front(es)), Last(es))
  }

  /**
   * What a device with an image write owes its watcher: polls less than 2000 ms apart whose
   * clipboard reads succeed. Devices in `calm` never get an image from their daemon and owe nothing.
   */
  ghost predicate Allowed(calm: nat -> bool, l: Ledger, e: Step)
    requires Sized(l) && Enabled(l.w, e)
  {
    var write := DaemonWrite(l.w, e);
    && (write.Some? && write.value.1.ImageItem? ==>
         !calm(write.value.0) && l.polled[write.value.0] <= write.value.2)
    && (e.Poll? && !calm(e.d) ==>
         e.now < l.polled[e.d] + ECHO_GRACE && (l.w.devices[e.d].watching ==> e.ok))
  }

  /** `es` is a run from `l` in which every step is enabled and allowed. */
  ghost predicate Runs(hash: Hash, enc: Bytes -> Bytes, calm: nat -> bool, l: Ledger, es: seq<Step>)
    requires Sized(l)
  {
    forall k :: 0 <= k < |es| ==> StepOk(hash, enc, calm, l, es, k)
  }

  ghost predicate StepOk(hash: Hash, enc: Bytes -> Bytes, calm: nat -> bool, l: Ledger, es: seq<Step>, k: nat)
    requires Sized(l) && k < |es|
  {
    var m := After(hash, enc, l, es[..k]);
    Enabled(m.w, es[k]) && Allowed(calm, m, es[k])
  }

  ghost predicate Fresh(l: Ledger) {
    && Sized(l) && l.w.net == [] && l.w.copies == 0 && l.w.broadcasts == 0
    && forall d :: 0 <= d < |l.w.devices| ==>
         l.owed[d] == None && l.w.devices[d].seen == None
  }

  /**
   * What is on the clipboard is the user's undelivered copy, or the watcher will not send it: there is
   * no baseline, it is the baseline, it is the recorded write, or it is an image inside the grace window.
   */
  ghost predicate Guarded(hash: Hash, calm: bool, dev: Device, owed: Option<Clip>, polled: nat) {
    && (owed.Some? ==> dev.clip == owed.value)
    && (owed.None? && dev.clip != Empty && dev.seen.Some? ==>
         var sig := Sig(hash, dev.clip);
         || dev.seen == Some(sig)
         || dev.lastWritten == Some(sig)
         || (!calm && dev.clip.Image? && dev.writtenAt.Some? && polled <= dev.writtenAt.value))
  }

  ghost predicate Inv(hash: Hash, calm: nat -> bool, l: Ledger) {
    && Sized(l)
    && forall d :: 0 <= d < |l.w.devices| ==>
         Guarded(hash, calm(d), l.w.devices[d], l.owed[d], l.polled[d])
  }

  function Owing(owed: seq<Option<Clip>>): nat {
    if owed == [] then 0 else Owing(Front(owed)) + (if Last(owed).Some? then 1 else 0)
  }

  lemma {:induction false} OwingUpdate(owed: seq<Option<Clip>>, d: nat, x: Option<Clip>)
    requires d < |owed|
    ensures Owing(owed[d := x]) ==
            Owing(owed) - (if owed[d].Some? then 1 else 0) + (if x.Some? then 1 else 0)
  {
    if d == |owed| - 1 {
      assert Front(owed[d := x]) == Front(owed);
    } else {
      assert Front(owed[d := x]) == Front(owed)[d := x];
      OwingUpdate(Front(owed), d, x);
    }
  }

  lemma RunPrefix(hash: Hash, enc: Bytes -> Bytes, calm: nat -> bool, l: Ledger, es: seq<Step>)
    requires Sized(l) && es != [] && Runs(hash, enc, calm, l, es)
    ensures Runs(hash, enc, calm, l, Front(es))
    ensures
      var m := After(hash, enc, l, Front(es));
      Enabled(m.w, Last(es)) && Allowed(calm, m, Last(es))
  {
    assert StepOk(hash, enc, calm, l, es, |es| - 1);
    forall k | 0 <= k < |Front(es)| ensures StepOk(hash, enc, calm, l, Front(es), k) {
      assert StepOk(hash, enc, calm, l, es, k);
      assert Front(es)[..k] == es[..k];
    }
  }

  /** A poll that broadcasts sends the user's own copy, which was still owed. */
  lemma PollSendsOwed(hash: Hash, calm: nat -> bool, l: Ledger, e: Step)
    requires Inv(hash, calm, l) && Enabled(l.w, e) && Allowed(calm, l, e)
    requires Broadcast(hash, l.w, e).Some?
    ensures l.owed[e.d] == Broadcast(hash, l.w, e)
  {
    assert Guarded(hash, calm(e.d), l.w.devices[e.d], l.owed[e.d], l.polled[e.d]);
  }

  lemma StepKeepsGuard(hash: Hash, enc: Bytes -> Bytes, calm: nat -> bool, l: Ledger, e: Step)
    requires Inv(hash, calm, l) && Enabled(l.w, e) && Allowed(calm, l, e)
    ensures Inv(hash, calm, Advance(hash, enc, l, e))
  {
    var r := Advance(hash, enc, l, e);
    forall d | 0 <= d < |r.w.devices|
      ensures Guarded(hash, calm(d), r.w.devices[d], r.owed[d], r.polled[d])
    {
      assert Guarded(hash, calm(d), l.w.devices[d], l.owed[d], l.polled[d]);
    }
  }

  lemma {:induction false} NoneOwing(owed: seq<Option<Clip>>)
    requires forall d :: 0 <= d < |owed| ==> owed[d] == None
    ensures Owing(owed) == 0
  {
    if owed != [] {
      NoneOwing(Front(owed));
    }
  }

  // ---- echoes ----

  /** A poll that broadcasts something that is not the user's unsent copy. */
  ghost predicate Echoes(hash: Hash, l: Ledger, e: Step)
    requires Sized(l)
  {
    && e.Poll? && Enabled(l.w, e) && Broadcast(hash, l.w, e).Some?
    && l.owed[e.d] != Broadcast(hash, l.w, e)
  }

  /**
   * A readable poll, 2000 ms or more after the last daemon write, of an image that nobody copied
   * since, that is not the baseline and whose signature is not the recorded hash.
   */
  ghost predicate LatePoll(hash: Hash, l: Ledger, e: Step)
    requires Sized(l)
  {
    && e.Poll? && Enabled(l.w, e) && e.ok
    && l.owed[e.d].None?
    && var dev := l.w.devices[e.d];
    && dev.watching && dev.clip.Image? && dev.seen.Some?
    && dev.seen != Some(Sig(hash, dev.clip)) && dev.lastWritten != Some(Sig(hash, dev.clip))
    && dev.writtenAt.Some? && e.now - dev.writtenAt.value >= ECHO_GRACE
  }

  /**
   * What is on the clipboard is the user's unsent copy; or there is no baseline, it is the baseline, it
   * is the recorded write, or it is an image and the daemon has written the clipboard at some time.
   */
  ghost predicate Accounted(hash: Hash, dev: Device, owed: Option<Clip>) {
    && (owed.Some? ==> dev.clip == owed.value)
    && (owed.None? && dev.clip != Empty && dev.seen.Some? ==>
         var sig := Sig(hash, dev.clip);
         || dev.seen == Some(sig)
         || dev.lastWritten == Some(sig)
         || (dev.clip.Image? && dev.writtenAt.Some?))
  }

  ghost predicate AllAccounted(hash: Hash, l: Ledger) {
    && Sized(l)
    && forall d :: 0 <= d < |l.w.devices| ==> Accounted(hash, l.w.devices[d], l.owed[d])
  }

  lemma StepKeepsAccounts(hash: Hash, enc: Bytes -> Bytes, l: Ledger, e: Step)
    requires AllAccounted(hash, l)
    ensures AllAccounted(hash, Advance(hash, enc, l, e))
  {
    var r := Advance(hash, enc, l, e);
    forall d | 0 <= d < |r.w.devices| ensures Accounted(hash, r.w.devices[d], r.owed[d]) {
      assert Accounted(hash, l.w.devices[d], l.owed[d]);
    }
  }

  lemma {:induction false} RunKeepsAccounts(hash: Hash, enc: Bytes -> Bytes, l: Ledger, es: seq<Step>)
    requires Fresh(l)
    ensures AllAccounted(hash, After(hash, enc, l, es))
  {
    if es != [] {
      RunKeepsAccounts(hash, enc, l, Front(es));
      StepKeepsAccounts(hash, enc, After(hash, enc, l, Front(es)), Last(es));
    }
  }

  /**
   * When the loop guard fails, in any run whatever its timing: a poll sends back what the daemon
   * wrote if and only if it is a late poll of an image.
   */
  lemma EchoIffLatePoll(hash: Hash, enc: Bytes -> Bytes, l: Ledger, es: seq<Step>, e: Step)
    requires Fresh(l)
    ensures
      var m := After(hash, enc, l, es);
      Echoes(hash, m, e) <==> LatePoll(hash, m, e)
  {
    RunKeepsAccounts(hash, enc, l, es);
    var m := After(hash, enc, l, es);
    if e.Poll? && Enabled(m.w, e) {
      assert Accounted(hash, m.w.devices[e.d], m.owed[e.d]);
    }
  }

  ghost function EchoCount(hash: Hash, enc: Bytes -> Bytes, l: Ledger, es: seq<Step>): nat
    requires Sized(l)
  {
    if es == [] then 0
    else EchoCount(hash, enc, l, Front(es)) + (if Echoes(hash, After(hash, enc, l, Front(es)), Last(es)) then 1 else 0)
  }

  /** Of each step: what goes out is paid for by an owed copy, or it is an echo. */
  lemma StepBudget(hash: Hash, enc: Bytes -> Bytes, l: Ledger, e: Step)
    requires Sized(l)
    ensures
      var r := Advance(hash, enc, l, e);
      r.w.broadcasts + Owing(r.owed) - r.w.copies <=
        l.w.broadcasts + Owing(l.owed) - l.w.copies + (if Echoes(hash, l, e) then 1 else 0)
  {
    if Enabled(l.w, e) {
      var write := DaemonWrite(l.w, e);
      if write.Some? {
        OwingUpdate(l.owed, write.value.0, None);
      } else if e.UserCopy? {
        OwingUpdate(l.owed, e.d, Some(e.c));
      } else if Broadcast(hash, l.w, e).Some? {
        OwingUpdate(l.owed, e.d, None);
      }
    }
  }

  /** In every run of any number of devices, whatever its timing, broadcasts stay within copies and echoes. */
  lemma {:induction false} BroadcastsWithinCopiesAndEchoes(hash: Hash, enc: Bytes -> Bytes, l: Ledger, es: seq<Step>)
    requires Fresh(l)
    ensures
      var r := After(hash, enc, l, es);
      r.w.broadcasts + Owing(r.owed) <= r.w.copies + EchoCount(hash, enc, l, es)
  {
    if es == [] {
      NoneOwing(l.owed);
    } else {
      BroadcastsWithinCopiesAndEchoes(hash, enc, l, Front(es));
      StepBudget(hash, enc, After(hash, enc, l, Front(es)), Last(es));
    }
  }

  ghost predicate NeverLate(hash: Hash, enc: Bytes -> Bytes, l: Ledger, es: seq<Step>)
    requires Sized(l)
  {
    es == []
    || (NeverLate(hash, enc, l, Front(es)) && !LatePoll(hash, After(hash, enc, l, Front(es)), Last(es)))
  }

  /** There is no feedback loop at all if and only if no poll is a late poll of an image. */
  lemma {:induction false} NoEchoIffNeverLate(hash: Hash, enc: Bytes -> Bytes, l: Ledger, es: seq<Step>)
    requires Fresh(l)
    ensures EchoCount(hash, enc, l, es) == 0 <==> NeverLate(hash, enc, l, es)
  {
    if es != [] {
      NoEchoIffNeverLate(hash, enc, l, Front(es));
      EchoIffLatePoll(hash, enc, l, Front(es), Last(es));
    }
  }

  lemma NeverLateBound(hash: Hash, enc: Bytes -> Bytes, l: Ledger, es: seq<Step>)
    requires Fresh(l) && NeverLate(hash, enc, l, es)
    ensures
      var r := After(hash, enc, l, es);
      r.w.broadcasts + Owing(r.owed) <= r.w.copies
  {
    BroadcastsWithinCopiesAndEchoes(hash, enc, l, es);
    NoEchoIffNeverLate(hash, enc, l, es);
  }

  // ---- timed runs ----

  /** A timed run keeps its guard, and none of its polls is late. */
  lemma {:induction false} TimedRunIsNeverLate(
    hash: Hash, enc: Bytes -> Bytes, calm: nat -> bool, l: Ledger, es: seq<Step>)
    requires Fresh(l) && Runs(hash, enc, calm, l, es)
    ensures Inv(hash, calm, After(hash, enc, l, es)) && NeverLate(hash, enc, l, es)
  {
    if es != [] {
      RunPrefix(hash, enc, calm, l, es);
      TimedRunIsNeverLate(hash, enc, calm, l, Front(es));
      var m := After(hash, enc, l, Front(es));
      StepKeepsGuard(hash, enc, calm, m, Last(es));
      EchoIffLatePoll(hash, enc, l, Front(es), Last(es));
      if Echoes(hash, m, Last(es)) {
        PollSendsOwed(hash, calm, m, Last(es));
        assert false;
      }
    }
  }

  /**
   * No feedback loop. In every run of any number of devices, watchers have broadcast at most as
   * often as users have copied, provided each device that gets images from its daemon is polled in time.
   */
  lemma BroadcastsWithinCopies(
    hash: Hash, enc: Bytes -> Bytes, calm: nat -> bool, l: Ledger, es: seq<Step>)
    requires Fresh(l) && Runs(hash, enc, calm, l, es)
    ensures
      var r := After(hash, enc, l, es);
      && Inv(hash, calm, r)
      && r.w.broadcasts + Owing(r.owed) <= r.w.copies
  {
    TimedRunIsNeverLate(hash, enc, calm, l, es);
    NeverLateBound(hash, enc, l, es);
  }

  /**
   * Whatever a watcher broadcasts was put on that clipboard by its user, has not been overwritten by
   * the daemon and has not been broadcast before: received content never goes out again.
   */
  lemma BroadcastIsUsersCopy(
    hash: Hash, enc: Bytes -> Bytes, calm: nat -> bool, l: Ledger, es: seq<Step>, e: Step)
    requires Fresh(l) && Runs(hash, enc, calm, l, es)
    requires Enabled(After(hash, enc, l, es).w, e) && Allowed(calm, After(hash, enc, l, es), e)
    ensures
      var m := After(hash, enc, l, es);
      var out := Broadcast(hash, m.w, e);
      out.Some? ==>
        && m.owed[e.d] == out && m.w.devices[e.d].clip == out.value
        && Advance(hash, enc, m, e).owed[e.d] == None
  {
    BroadcastsWithinCopies(hash, enc, calm, l, es);
    var m := After(hash, enc, l, es);
    if Broadcast(hash, m.w, e).Some? {
      PollSendsOwed(hash, calm, m, e);
    }
  }

  /** When daemons write no images (text and file paths only), the bound needs no timing at all. */
  lemma TextNeverLoops(hash: Hash, enc: Bytes -> Bytes, l: Ledger, es: seq<Step>)
    requires Fresh(l)
    requires forall k :: 0 <= k < |es| ==> WritesNoImage(hash, enc, l, es, k)
    ensures
      var r := After(hash, enc, l, es);
      r.w.broadcasts <= r.w.copies
  {
    var calm := (d: nat) => true;
    forall k | 0 <= k < |es| ensures StepOk(hash, enc, calm, l, es, k) {
      assert WritesNoImage(hash, enc, l, es, k);
    }
    BroadcastsWithinCopies(hash, enc, calm, l, es);
  }

  ghost predicate WritesNoImage(hash: Hash, enc: Bytes -> Bytes, l: Ledger, es: seq<Step>, k: nat)
    requires Sized(l) && k < |es|
  {
    var m := After(hash, enc, l, es[..k]);
    && Enabled(m.w, es[k])
    && (DaemonWrite(m.w, es[k]).Some? ==> !DaemonWrite(m.w, es[k]).value.1.ImageItem?)
  }

  lemma {:induction false} SameDevices(hash: Hash, enc: Bytes -> Bytes, l: Ledger, es: seq<Step>)
    requires Sized(l)
    ensures |After(hash, enc, l, es).w.devices| == |l.w.devices|
  {
    if es != [] {
      SameDevices(hash, enc, l, Front(es));
    }
  }

  // ---- enabling the mode sends nothing that was there ----

  /**
   * Poll `i` of device `d` observed signature `sig` with the mode on, and every later poll of `d`
   * in `es` saw the mode on too.
   */
  ghost predicate BaselineAt(
    hash: Hash, enc: Bytes -> Bytes, l: Ledger, es: seq<Step>, d: nat, i: nat, sig: string)
    requires Sized(l)
  {
    && i < |es| && PollSaw(hash, enc, l, es, d, i, sig)
    && forall k :: i <= k < |es| && PollOf(es[k], d) ==> WatchingAt(hash, enc, l, es, d, k)
  }

  predicate PollOf(e: Step, d: nat) {
    e.Poll? && e.d == d
  }

  ghost predicate WatchingAt(hash: Hash, enc: Bytes -> Bytes, l: Ledger, es: seq<Step>, d: nat, k: nat)
    requires Sized(l) && k < |es|
  {
    var w := After(hash, enc, l, es[..k]).w;
    d < |w.devices| && w.devices[d].watching
  }

  ghost predicate PollSaw(
    hash: Hash, enc: Bytes -> Bytes, l: Ledger, es: seq<Step>, d: nat, i: nat, sig: string)
    requires Sized(l) && i < |es|
  {
    var w := After(hash, enc, l, es[..i]).w;
    && PollOf(es[i], d) && es[i].ok && d < |w.devices|
    && Snapshot(w.devices[d].clip).Some? && Sig(hash, w.devices[d].clip) == sig
  }

  lemma BaselineStarts(hash: Hash, enc: Bytes -> Bytes, l: Ledger, es: seq<Step>, e: Step, d: nat, sig: string)
    requires Sized(l) && PollSaw(hash, enc, l, es + [e], d, |es|, sig) && WatchingAt(hash, enc, l, es + [e], d, |es|)
    ensures BaselineAt(hash, enc, l, es + [e], d, |es|, sig)
  {
  }

  lemma BaselineExtends(
    hash: Hash, enc: Bytes -> Bytes, l: Ledger, es: seq<Step>, e: Step, d: nat, i: nat, sig: string)
    requires Sized(l) && BaselineAt(hash, enc, l, es, d, i, sig)
    requires PollOf(e, d) ==> WatchingAt(hash, enc, l, es + [e], d, |es|)
    ensures BaselineAt(hash, enc, l, es + [e], d, i, sig)
  {
    var fs := es + [e];
    assert fs[..i] == es[..i];
    forall k | i <= k < |fs| && PollOf(fs[k], d) ensures WatchingAt(hash, enc, l, fs, d, k) {
      if k < |es| {
        assert fs[..k] == es[..k];
        assert WatchingAt(hash, enc, l, es, d, k);
      }
    }
  }

  /** One step leaves the baseline alone, unless it is a poll of the device: that sets it to what it saw. */
  lemma BaselineMoves(hash: Hash, enc: Bytes -> Bytes, m: Ledger, e: Step, d: nat)
    requires Sized(m) && d < |m.w.devices| && Advance(hash, enc, m, e).w.devices[d].seen.Some?
    ensures
      var seen := Advance(hash, enc, m, e).w.devices[d].seen;
      && (PollOf(e, d) ==> m.w.devices[d].watching)
      && (seen == m.w.devices[d].seen
          || (&& PollOf(e, d) && e.ok && Snapshot(m.w.devices[d].clip).Some?
              && seen == Some(Sig(hash, m.w.devices[d].clip))))
  {
  }

  /** A device's baseline was set by an actual poll, with the mode on at every poll since. */
  lemma {:induction false} BaselineHasPoll(hash: Hash, enc: Bytes -> Bytes, l: Ledger, es: seq<Step>, d: nat)
    requires Fresh(l) && d < |l.w.devices| == |After(hash, enc, l, es).w.devices|
    ensures
      var seen := After(hash, enc, l, es).w.devices[d].seen;
      seen.Some? ==> exists i: nat :: BaselineAt(hash, enc, l, es, d, i, seen.value)
  {
    if es != [] {
      var fs, e := Front(es), Last(es);
      SameDevices(hash, enc, l, fs);
      BaselineHasPoll(hash, enc, l, fs, d);
      var m, latest := After(hash, enc, l, fs), After(hash, enc, l, es).w.devices[d].seen;
      assert es == fs + [e] && es[..|fs|] == fs;
      if latest.Some? {
        BaselineMoves(hash, enc, m, e, d);
        if latest == m.w.devices[d].seen {
          var i: nat :| BaselineAt(hash, enc, l, fs, d, i, latest.value);
          BaselineExtends(hash, enc, l, fs, e, d, i, latest.value);
        } else {
          BaselineStarts(hash, enc, l, fs, e, d, latest.value);
        }
      }
    }
  }

  /**
   * A watcher broadcasts only a change: an earlier poll of the same device saw a different content,
   * and the mode was on at that poll and at every poll of the device from it to the broadcast.
   */
  lemma BroadcastIsAChange(hash: Hash, enc: Bytes -> Bytes, l: Ledger, es: seq<Step>, e: Step)
    requires Fresh(l) && Enabled(After(hash, enc, l, es).w, e)
    requires Broadcast(hash, After(hash, enc, l, es).w, e).Some?
    ensures
      var out := Broadcast(hash, After(hash, enc, l, es).w, e).value;
      && After(hash, enc, l, es).w.devices[e.d].watching
      && exists i: nat, sig: string :: BaselineAt(hash, enc, l, es, e.d, i, sig) && sig != Sig(hash, out)
  {
    SameDevices(hash, enc, l, es);
    BaselineHasPoll(hash, enc, l, es, e.d);
    var seen := After(hash, enc, l, es).w.devices[e.d].seen;
    var i: nat :| BaselineAt(hash, enc, l, es, e.d, i, seen.value);
  }

  lemma AfterPush(hash: Hash, enc: Bytes -> Bytes, l: Ledger, es: seq<Step>, k: nat)
    requires Sized(l) && k < |es|
    ensures After(hash, enc, l, es[..k + 1]) == Advance(hash, enc, After(hash, enc, l, es[..k]), es[k])
  {
    assert Front(es[..k + 1]) == es[..k];
  }

  lemma AfterSix(hash: Hash, enc: Bytes -> Bytes, l: Ledger, es: seq<Step>)
    requires Sized(l) && |es| == 6
    ensures
      var l2 := Advance(hash, enc, Advance(hash, enc, l, es[0]), es[1]);
      var l4 := Advance(hash, enc, Advance(hash, enc, l2, es[2]), es[3]);
      After(hash, enc, l, es) == Advance(hash, enc, Advance(hash, enc, l4, es[4]), es[5])
  {
    assert es[..0] == [] && es[..6] == es;
    AfterPush(hash, enc, l, es, 0);
    AfterPush(hash, enc, l, es, 1);
    AfterPush(hash, enc, l, es, 2);
    AfterPush(hash, enc, l, es, 3);
    AfterPush(hash, enc, l, es, 4);
    AfterPush(hash, enc, l, es, 5);
  }

  lemma TwoBaselines(hash: Hash, enc: Bytes -> Bytes, a: Bytes, dev: Device)
    requires a != [] && dev == Device(Text(a), true, true, None, None, None)
    ensures
      var based := dev.(seen := Some(hash(a)));
      var l := Ledger(World([dev, dev], [], 0, 0), [None, None], [0, 0]);
      Advance(hash, enc, Advance(hash, enc, l, Poll(0, 0, true)), Poll(1, 0, true))
        == Ledger(World([based, based], [], 0, 0), [None, None], [0, 0])
  {
    var based := dev.(seen := Some(hash(a)));
    var l := Ledger(World([dev, dev], [], 0, 0), [None, None], [0, 0]);
    var m := Advance(hash, enc, l, Poll(0, 0, true));
    assert m.w.devices == [based, dev] && m.polled == [0, 0];
    var r := Advance(hash, enc, m, Poll(1, 0, true));
    assert r.w.devices == [based, based] && r.polled == [0, 0];
  }

  lemma CopyGoesOut(hash: Hash, enc: Bytes -> Bytes, a: Bytes, p: Bytes, based: Device)
    requires based == Device(Text(a), true, true, Some(hash(a)), None, None) && hash(a) != hash(p)
    ensures
      var l := Ledger(World([based, based], [], 0, 0), [None, None], [0, 0]);
      var sent := based.(clip := Image(p), seen := Some(hash(p)));
      Advance(hash, enc, Advance(hash, enc, l, UserCopy(0, Image(p))), Poll(0, 700, true))
        == Ledger(World([sent, based], [Message(1, ImageItem(enc(p), p))], 1, 1), [None, None], [700, 0])
  {
    var l := Ledger(World([based, based], [], 0, 0), [None, None], [0, 0]);
    var copied := based.(clip := Image(p));
    var m := Advance(hash, enc, l, UserCopy(0, Image(p)));
    assert m.w.devices == [copied, based] && m.owed == [Some(Image(p)), None];
    CopiedGoesOut(hash, enc, p, copied, based);
  }

  lemma CopiedGoesOut(hash: Hash, enc: Bytes -> Bytes, p: Bytes, copied: Device, other: Device)
    requires copied.watching && copied.clip == Image(p) && copied.lastWritten == None && copied.writtenAt == None
    requires copied.seen.Some? && copied.seen != Some(hash(p))
    ensures
      var l := Ledger(World([copied, other], [], 1, 0), [Some(Image(p)), None], [0, 0]);
      var sent := copied.(seen := Some(hash(p)));
      Advance(hash, enc, l, Poll(0, 700, true))
        == Ledger(World([sent, other], [Message(1, ImageItem(enc(p), p))], 1, 1), [None, None], [700, 0])
  {
    var l := Ledger(World([copied, other], [], 1, 0), [Some(Image(p)), None], [0, 0]);
    var sent := copied.(seen := Some(hash(p)));
    assert Tick(hash, copied, 700, true) == (sent, Some(Image(p)));
    ToTheOther(ImageItem(enc(p), p));
    var r := Advance(hash, enc, l, Poll(0, 700, true));
    assert r.w.devices == [sent, other] && r.polled == [700, 0] && r.owed == [None, None];
  }

  lemma ToTheOther(item: Item)
    ensures ToPeers(2, 0, item) == [Message(1, item)]
  {
    assert ToPeers(1, 0, item) == [];
  }

  lemma EchoGoesOut(hash: Hash, enc: Bytes -> Bytes, a: Bytes, p: Bytes, l: Ledger)
    requires Sized(l) && |l.w.devices| == 2 && l.w.net == [Message(1, ImageItem(enc(p), p))]
    requires l.w.devices[1] == Device(Text(a), true, true, Some(hash(a)), None, None)
    requires hash(a) != hash(p) && hash(enc(p)) != hash(p)
    ensures
      var r := Advance(hash, enc, Advance(hash, enc, l, Deliver(0, 800)), Poll(1, 2800, true));
      r.w.copies == l.w.copies && r.w.broadcasts == l.w.broadcasts + 1
  {
    var m := Advance(hash, enc, l, Deliver(0, 800));
    assert m.w.devices[1] == WriteClipboard(hash, l.w.devices[1], ImageItem(enc(p), p), 800);
    assert Tick(hash, m.w.devices[1], 2800, true).1 == Some(Image(p));
  }

  /**
   * The grace window is what stops image loops: one user copy and two broadcasts, when the second
   * device is polled 2000 ms after its daemon wrote the image (2800 ms after its previous poll).
   */
  lemma LatePollLoops(hash: Hash, enc: Bytes -> Bytes, a: Bytes, p: Bytes)
    requires a != [] && hash(a) != hash(p) && hash(enc(p)) != hash(p)
    ensures
      var dev := Device(Text(a), true, true, None, None, None);
      var l := Ledger(World([dev, dev], [], 0, 0), [None, None], [0, 0]);
      var es := [Poll(0, 0, true), Poll(1, 0, true), UserCopy(0, Image(p)), Poll(0, 700, true),
                 Deliver(0, 800), Poll(1, 2800, true)];
      var r := After(hash, enc, l, es);
      Fresh(l) && r.w.copies == 1 && r.w.broadcasts == 2
  {
    var dev := Device(Text(a), true, true, None, None, None);
    var l := Ledger(World([dev, dev], [], 0, 0), [None, None], [0, 0]);
    var es := [Poll(0, 0, true), Poll(1, 0, true), UserCopy(0, Image(p)), Poll(0, 700, true),
               Deliver(0, 800), Poll(1, 2800, true)];
    var based := dev.(seen := Some(hash(a)));
    AfterSix(hash, enc, l, es);
    TwoBaselines(hash, enc, a, dev);
    CopyGoesOut(hash, enc, a, p, based);
    var sent := based.(clip := Image(p), seen := Some(hash(p)));
    EchoGoesOut(hash, enc, a, p,
                Ledger(World([sent, based], [Message(1, ImageItem(enc(p), p))], 1, 1), [None, None], [700, 0]));
  }

  // ---- the device's daemon, updated in place ----

  class Daemon {
    const hash: Hash
    var clip: Clip
    var watching: bool
    var autoCopy: bool
    var seen: Option<string>
    var lastWritten: Option<string>
    var writtenAt: Option<nat>

    function Model(): Device
      reads this
    {
      Device(clip, watching, autoCopy, seen, lastWritten, writtenAt)
    }

    constructor (hash: Hash, clip: Clip, watching: bool, autoCopy: bool)
      ensures this.hash == hash && Model() == Device(clip, watching, autoCopy, None, None, None)
    {
      this.hash, this.clip, this.watching, this.autoCopy := hash, clip, watching, autoCopy;
      seen, lastWritten, writtenAt := None, None, None;
    }

    /** One turn of run_clipboard_watch; the result is what goes out to the peers. */
    method PollOnce(now: nat, ok: bool) returns (out: Option<Clip>)
      modifies this`seen
      ensures (Model(), out) == Tick(hash, old(Model()), now, ok)
    {
      if !watching {
        seen := None;
        return None;
      }
      if !ok || Snapshot(clip).None? {
        return None;
      }
      var sig := Sig(hash, clip);
      var prev := seen;
      seen := Some(sig);
      if prev.None? || prev.value == sig {
        return None;
      }
      if lastWritten == Some(sig) || WroteWithin(Model(), now) {
        return None;
      }
      return Some(clip);
    }

    /** write_to_clipboard: the write, then the record of what and when. */
    method Write(item: Item, now: nat)
      modifies this`clip, this`lastWritten, this`writtenAt
      ensures Model() == WriteClipboard(hash, old(Model()), item, now)
    {
      var (payload, h) := Payload(hash, item);
      clip := payload;
      lastWritten := Some(h);
      writtenAt := Some(now);
    }
  }
}
