/**
 * What the chat shows, said by what happened: every message with its sender, time and body, every own
 * text with its result, and where the keys take the selection.
 */
module ChatEffects {
  import opened Util
  import Items
  import opened Chat
  import W = WrapLine

  // ---- the messages of a run ----

  /** What an event adds to the chat: an own text awaiting its result, or an item as it is shown for good. */
  datatype Added =
    | OwnText(number: nat, text: string, ts: nat)
    | Card(msgId: string, sender: string, mine: bool, ts: nat, body: Body, note: Option<string>)

  function BlobOf(env: Envelope): Blob {
    if env.blob.Some? then env.blob.value else Blob("", 0, 0, 0)
  }

  function ItemBody(env: Envelope, path: Option<string>): Body {
    match env.kind
    case Text => Body.Text(if env.text.Some? then env.text.value else "")
    case Image => Body.Image(BlobOf(env), path)
    case File => Body.File(BlobOf(env), if env.filename.Some? then env.filename.value else "file", path)
  }

  /** The device's name, else the first twelve characters of the sender's identity. */
  function SenderShown(env: Envelope): string {
    if |env.deviceName| >= 1 then env.deviceName
    else if |env.sender| >= 12 then env.sender[..12] else env.sender
  }

  /** The composer's lines, joined and trimmed. */
  function Typed(m: Model): string {
    Trim(W.Join(m.composer, '\n'))
  }

  /** Enter, pressed in the composer with no prompt up, on more than white space. */
  predicate Submits(m: Model, k: Key) {
    !k.release && !m.quitPrompt && m.focus == Compose && k.code == Enter && |Typed(m)| >= 1
  }

  function AddedBy(m: Model, e: Event): Option<Added> {
    match e
    case Incoming(env, path) =>
      Some(Card(env.msgId, SenderShown(env), env.sender == m.myId, env.ts, ItemBody(env, path), None))
    case SentImage(env, path, reached) =>
      Some(Card(env.msgId, "you", true, env.ts, Body.Image(BlobOf(env), path),
                if reached == 0 then Some("not delivered (no peers)") else None))
    case Press(k, edited, now) => if Submits(m, k) then Some(OwnText(m.nextSeq, Typed(m), now)) else None
    case _ => None
  }

  function AddedOver(m0: Model, es: seq<Event>): seq<Added> {
    if |es| == 0 then []
    else
      var a := AddedBy(Run(m0, Front(es)), Last(es));
      AddedOver(m0, Front(es)) + if a.Some? then [a.value] else []
  }

  /** An own text before its result, and after either kind of result. */
  predicate TellsResult(b: Message, rs: Results, number: nat) {
    && (b.pending <==> number !in rs)
    && (if number !in rs then b.msgId == "" && b.note == None
        else match rs[number]
          case Sent(id, reached) =>
            b.msgId == id && b.note == (if reached == 0 then Some("not delivered (no peers)") else None)
          case Failed(error) => b.msgId == "" && b.note == Some("send failed: " + error))
  }

  predicate Shows(b: Message, a: Added, rs: Results) {
    match a
    case OwnText(number, text, ts) =>
      && b.clientSeq == Some(number) && b.body == Body.Text(text) && b.ts == ts && b.mine && b.sender == "you"
      && TellsResult(b, rs, number)
    case Card(msgId, sender, mine, ts, body, note) =>
      && b.clientSeq == None && b.msgId == msgId && b.sender == sender && b.mine == mine && b.ts == ts
      && b.body == body && b.note == note && !b.pending
  }

  ghost predicate AllShown(ms: seq<Message>, added: seq<Added>, rs: Results) {
    |ms| == |added| && forall i :: 0 <= i < |ms| ==> Shows(ms[i], added[i], rs)
  }

  lemma ShownPush(ms: seq<Message>, added: seq<Added>, rs: Results, b: Message, a: Added)
    requires AllShown(ms, added, rs) && Shows(b, a, rs)
    ensures AllShown(ms + [b], added + [a], rs)
  {
  }

  lemma ShownResult(ms: seq<Message>, added: seq<Added>, rs: Results, next: nat, number: nat, r: SendResult)
    requires AllShown(ms, added, rs) && Numbered(ms, next) && 1 <= number < next && number !in rs
    ensures AllShown(Result(ms, number, r), added, rs[number := r])
  {
    var at := First(HasSeq(number), ms).value;
    var after := Result(ms, number, r);
    assert after == ms[at := Answered(ms[at], r)];
    forall i | 0 <= i < |ms| ensures Shows(after[i], added[i], rs[number := r]) {
      assert Shows(ms[i], added[i], rs);
      assert i != at ==> ms[i].clientSeq != Some(number);
    }
  }

  lemma ShownCopied(ms: seq<Message>, added: seq<Added>, rs: Results, id: string)
    requires AllShown(ms, added, rs)
    ensures AllShown(MarkCopied(ms, id), added, rs)
  {
  }

  lemma ShownKey(m: Model, added: seq<Added>, rs: Results, k: Key, edited: Lines, now: nat)
    requires AllShown(m.messages, added, rs) && m.nextSeq !in rs
    ensures
      var a := AddedBy(m, Press(k, edited, now));
      AllShown(HandleKey(m, k, edited, now).0.messages, added + (if a.Some? then [a.value] else []), rs)
  {
    KeySubmitsOrKeeps(m, k, edited, now);
    if Submits(m, k) {
      var b := PendingBubble(Typed(m), m.nextSeq, now);
      ShownPush(m.messages, added, rs, b, OwnText(m.nextSeq, Typed(m), now));
    } else {
      assert added + [] == added;
    }
  }

  lemma ShownStep(m: Model, added: seq<Added>, rs: Results, e: Event)
    requires AllShown(m.messages, added, rs) && Numbered(m.messages, m.nextSeq) && m.nextSeq !in rs
    requires e.Late? ==> 1 <= e.number < m.nextSeq && e.number !in rs
    ensures
      var a := AddedBy(m, e);
      AllShown(Step(m, e).messages, added + (if a.Some? then [a.value] else []),
               if e.Late? then rs[e.number := e.r] else rs)
  {
    assert added + [] == added;
    match e
    case Status(mode) =>
    case Press(k, edited, now) => ShownKey(m, added, rs, k, edited, now);
    case Late(number, r) => ShownResult(m.messages, added, rs, m.nextSeq, number, r);
    case Copied(id) => ShownCopied(m.messages, added, rs, id);
    case Incoming(env, path) =>
      ShownPush(m.messages, added, rs, IncomingBubble(m, env, path), AddedBy(m, e).value);
    case SentImage(env, path, reached) =>
      ShownPush(m.messages, added, rs, Last(PushSentImage(m, env, path, reached).messages), AddedBy(m, e).value);
  }

  lemma {:induction false} RepliesBelow(m0: Model, es: seq<Event>)
    requires AnsweredOnce(m0, es)
    ensures forall n :: n in Replies(es) ==> n < Run(m0, es).nextSeq
  {
    if |es| > 0 {
      RepliesBelow(m0, Front(es));
      NextSeqGrows(Run(m0, Front(es)), Last(es));
    }
  }

  /**
   * In every reachable state the chat shows exactly what happened, in order: each item with its id,
   * sender, time, body and note, and each own text with the words that were typed and the outcome of
   * its result, whenever that came.
   */
  lemma {:induction false} ChatShowsWhatHappened(myId: string, mode: string, es: seq<Event>)
    requires AnsweredOnce(Start(myId, mode), es)
    ensures
      var m0 := Start(myId, mode);
      AllShown(Run(m0, es).messages, AddedOver(m0, es), Replies(es))
  {
    if |es| > 0 {
      var m0 := Start(myId, mode);
      var m := Run(m0, Front(es));
      ChatShowsWhatHappened(myId, mode, Front(es));
      NumbersAlwaysDistinct(myId, mode, Front(es));
      RepliesBelow(m0, Front(es));
      ShownStep(m, AddedOver(m0, Front(es)), Replies(Front(es)), Last(es));
    }
  }

  /** The bubble of submit `number`: its outcome is that of its result, in every reachable state. */
  lemma BubbleTellsResult(myId: string, mode: string, es: seq<Event>, number: nat) returns (at: nat)
    requires AnsweredOnce(Start(myId, mode), es) && 1 <= number < Run(Start(myId, mode), es).nextSeq
    ensures
      var ms := Run(Start(myId, mode), es).messages;
      && at < |ms| && ms[at].clientSeq == Some(number) && ms[at].mine
      && TellsResult(ms[at], Replies(es), number)
  {
    ChatShowsWhatHappened(myId, mode, es);
    NumbersAlwaysDistinct(myId, mode, es);
    var m0 := Start(myId, mode);
    var ms := Run(m0, es).messages;
    at := First(HasSeq(number), ms).value;
    assert Shows(ms[at], AddedOver(m0, es)[at], Replies(es));
  }

  /** What is sent is what is added: a submit hands over its number and its trimmed text, and no other key sends. */
  lemma SendsIffSubmits(m: Model, k: Key, edited: Lines, now: nat)
    ensures
      var out := HandleKey(m, k, edited, now).1;
      && (out.Send? <==> Submits(m, k))
      && (Submits(m, k) ==> out == Send(m.nextSeq, Typed(m)))
  {
  }

  // ---- the offer to copy ----

  /** The mode in force, by the status messages alone. */
  function ModeAfter(es: seq<Event>, mode: string): string {
    if |es| == 0 then mode
    else if Last(es).Status? then Last(es).autoCopy
    else ModeAfter(Front(es), mode)
  }

  lemma {:induction false} ModeIsLastStatus(myId: string, mode: string, es: seq<Event>)
    ensures Run(Start(myId, mode), es).autoCopy == ModeAfter(es, mode) && Run(Start(myId, mode), es).myId == myId
  {
    if |es| >= 1 {
      ModeIsLastStatus(myId, mode, Front(es));
      var m := Run(Start(myId, mode), Front(es));
      if Last(es).Press? {
        KeySubmitsOrKeeps(m, Last(es).k, Last(es).edited, Last(es).now);
      }
    }
  }

  /** An arriving item offers to be copied if and only if it is foreign and the mode last told is notify. */
  lemma ArrivalOffersIff(myId: string, mode: string, es: seq<Event>, env: Envelope, path: Option<string>)
    ensures
      var m := Run(Start(myId, mode), es);
      var ms := Step(m, Incoming(env, path)).messages;
      && |ms| == |m.messages| + 1 && ms[..|m.messages|] == m.messages
      && (Last(ms).acceptPending <==> env.sender != myId && ModeAfter(es, mode) == "notify")
  {
    ModeIsLastStatus(myId, mode, es);
  }

  /** A copy takes the offer back from the first message with the id, and changes nothing else. */
  lemma CopyTakesOfferBack(m: Model, id: string, at: nat)
    requires at < |m.messages| && m.messages[at].msgId == id
    requires forall i :: 0 <= i < at ==> m.messages[i].msgId != id
    ensures Step(m, Copied(id)) == m.(messages := m.messages[at := m.messages[at].(acceptPending := false)])
  {
    FirstIs(HasId(id), m.messages, at);
  }

  lemma CopyOfUnknown(m: Model, id: string)
    requires forall i :: 0 <= i < |m.messages| ==> m.messages[i].msgId != id
    ensures Step(m, Copied(id)) == m
  {
  }

  // ---- moving the selection ----

  /** A key that is looked at, with no prompt up and not Ctrl-C. */
  predicate Plain(m: Model, k: Key) {
    !k.release && !m.quitPrompt && !(k.ctrl && k.code == Char('c'))
  }

  /** The keys that move the selection: the arrows anywhere, `k` and `j` while browsing. */
  predicate MovesUp(m: Model, k: Key) {
    Plain(m, k) && (k.code == Up || (m.focus == Browse && k.code == Char('k')))
  }

  predicate MovesDown(m: Model, k: Key) {
    Plain(m, k) && (k.code == Down || (m.focus == Browse && k.code == Char('j')))
  }

  /** The same key, `n` times. */
  function Pressed(m: Model, k: Key, n: nat): Model {
    if n == 0 then m else Step(Pressed(m, k, n - 1), Press(k, m.composer, 0))
  }

  /** From the end, n keys up select the n-th message from the end, and stop at the first. */
  lemma {:induction false} UpsSelect(m: Model, k: Key, n: nat)
    requires SelectionOk(m) && m.follow && |m.messages| >= 1 && MovesUp(m, k) && n >= 1
    ensures Pressed(m, k, n) ==
      m.(follow := false, selected := Some(if n <= |m.messages| then |m.messages| - n else 0))
  {
    if n > 1 {
      UpsSelect(m, k, n - 1);
    } else {
      assert Pressed(m, k, 0) == m;
    }
  }

  /** Keys down select the messages that follow, and past the last one the view follows again. */
  lemma {:induction false} DownsSelect(m: Model, k: Key, n: nat)
    requires SelectionOk(m) && m.selected.Some? && MovesDown(m, k)
    ensures Pressed(m, k, n) ==
      if m.selected.value + n < |m.messages| then m.(selected := Some(m.selected.value + n))
      else m.(follow := true, selected := None)
  {
    if n > 0 {
      DownsSelect(m, k, n - 1);
    }
  }

  // ---- the composer ----

  /** A key the text widget is given. */
  predicate Edits(m: Model, k: Key) {
    && Plain(m, k) && m.focus == Compose && !(k.ctrl && k.code == Char('v'))
    && k.code != Enter && k.code != Esc && k.code != Up && k.code != Down
  }

  /** The composer takes what the widget makes of a key, is emptied by a submit, and else stays as it is. */
  lemma ComposerAfter(m: Model, k: Key, edited: Lines, now: nat)
    ensures HandleKey(m, k, edited, now).0.composer ==
      if Edits(m, k) then edited else if Submits(m, k) then [""] else m.composer
  {
  }

  lemma NothingTyped(m: Model)
    requires m.composer == [""]
    ensures Typed(m) == ""
  {
    assert W.Join([""], '\n') == "";
    assert DropFront(IsSpace, "") == "" && DropBack(IsSpace, "") == "";
  }

  /** After a submit the view follows its bubble, and Enter again does nothing. */
  lemma SecondEnterSendsNothing(m: Model, k: Key, edited: Lines, now: nat, edited': Lines, now': nat)
    requires Submits(m, k)
    ensures
      var after := HandleKey(m, k, edited, now).0;
      && after.follow && after.selected.None?
      && HandleKey(after, k, edited', now') == (after, Nothing)
  {
    var after := HandleKey(m, k, edited, now).0;
    ComposerAfter(m, k, edited, now);
    NothingTyped(after);
    assert !Submits(after, k);
  }

  // ---- which key asks for what ----

  /** Each request to the shell comes from its key, in its focus, and from no other. */
  lemma RequestsIffKeys(m: Model, k: Key, edited: Lines, now: nat)
    ensures
      var out := HandleKey(m, k, edited, now).1;
      && (out.Copy? <==> Plain(m, k) && m.focus == Browse && k.code == Char('y'))
      && (out.Save? <==> Plain(m, k) && m.focus == Browse && k.code == Char('s'))
      && (out.Open? <==> Plain(m, k) && m.focus == Browse && k.code == Char('o'))
      && (out.SendClipboardImage? <==> Plain(m, k) && m.focus == Compose && k.ctrl && k.code == Char('v'))
  {
  }

  /** Esc goes from the composer to the last message and back to the composer; `i` also goes back. */
  lemma EscTogglesFocus(m: Model, k: Key, edited: Lines, now: nat)
    requires SelectionOk(m) && Plain(m, k) && (k.code == Esc || (m.focus == Browse && k.code == Char('i')))
    ensures
      var after := HandleKey(m, k, edited, now).0;
      if m.focus == Browse then after == m.(focus := Compose)
      else after.focus == Browse && after.messages == m.messages && after.composer == m.composer
           && after.selected == (if m.selected.Some? || |m.messages| == 0 then m.selected else Some(|m.messages| - 1))
  {
  }
}
