/**
 * The state of the mesh-rs chat view, apart from terminal and network: incoming items, optimistic
 * outgoing bubbles and their late results, browsing, and the prompt on quitting.
 */
module Chat {
  import opened Util
  import Items
  import W = WrapLine

  // ---- data ----

  datatype Blob = Blob(hash: string, size: nat, w: nat, h: nat)

  const BLANK_BLOB := Blob("", 0, 0, 0)

  datatype Envelope = Envelope(msgId: string, kind: Items.Kind, sender: string, deviceName: string, ts: nat,
                               text: Option<string>, blob: Option<Blob>, filename: Option<string>)

  datatype Body =
    | Text(t: string)
    | Image(blob: Blob, localPath: Option<string>)
    | File(blob: Blob, filename: string, localPath: Option<string>)

  datatype Message = Message(msgId: string, sender: string, mine: bool, ts: nat, body: Body, pending: bool,
                             note: Option<string>, acceptPending: bool, clientSeq: Option<nat>)

  datatype Focus = Compose | Browse

  type Lines = ls: seq<string> | |ls| >= 1 witness [""]

  datatype Model = Model(myId: string, autoCopy: string, messages: seq<Message>, selected: Option<nat>,
                         follow: bool, focus: Focus, composer: Lines, nextSeq: nat,
                         receivedAny: bool, quitPrompt: bool)

  datatype SendResult = Sent(msgId: string, reached: nat) | Failed(error: string)

  datatype Code = Char(c: char) | Enter | Esc | Up | Down | Other

  datatype Key = Key(code: Code, ctrl: bool, release: bool)

  datatype Outcome =
    | Nothing | Redraw | Quit
    | Send(number: nat, text: string)
    | SendClipboardImage | Copy | Save | Open
    | ClearAndQuit(all: bool)

  function Start(myId: string, autoCopy: string): Model {
    Model(myId, autoCopy, [], None, true, Compose, [""], 1, false, false)
  }

  // ---- trimming ----

  /** Unicode White_Space, which str::trim removes. */
  predicate IsSpace(c: char) {
    || '\U{0009}' <= c <= '\U{000D}' || c == ' ' || c == '\U{0085}' || c == '\U{00A0}' || c == '\U{1680}'
    || '\U{2000}' <= c <= '\U{200A}' || c == '\U{2028}' || c == '\U{2029}' || c == '\U{202F}'
    || c == '\U{205F}' || c == '\U{3000}'
  }

  function DropFront<T>(p: T -> bool, xs: seq<T>): seq<T> {
    if |xs| >= 1 && p(xs[0]) then DropFront(p, xs[1..]) else xs
  }

  function DropBack<T>(p: T -> bool, xs: seq<T>): seq<T> {
    if |xs| >= 1 && p(Last(xs)) then DropBack(p, Front(xs)) else xs
  }

  function Trim(s: string): string {
    DropBack(IsSpace, DropFront(IsSpace, s))
  }

  ghost predicate All<T>(p: T -> bool, xs: seq<T>) {
    forall i :: 0 <= i < |xs| ==> p(xs[i])
  }

  lemma {:induction false} DropFrontCuts<T>(p: T -> bool, xs: seq<T>) returns (pre: seq<T>)
    ensures xs == pre + DropFront(p, xs) && All(p, pre)
    ensures |DropFront(p, xs)| >= 1 ==> !p(DropFront(p, xs)[0])
  {
    if |xs| >= 1 && p(xs[0]) {
      var more := DropFrontCuts(p, xs[1..]);
      pre := [xs[0]] + more;
    } else {
      pre := [];
    }
  }

  lemma {:induction false} DropBackCuts<T>(p: T -> bool, xs: seq<T>) returns (post: seq<T>)
    ensures xs == DropBack(p, xs) + post && All(p, post)
    ensures |DropBack(p, xs)| >= 1 ==> !p(Last(DropBack(p, xs)))
  {
    if |xs| >= 1 && p(Last(xs)) {
      var more := DropBackCuts(p, Front(xs));
      post := more + [Last(xs)];
      Assoc(DropBack(p, xs), more, [Last(xs)]);
      assert xs == Front(xs) + [Last(xs)];
    } else {
      post := [];
    }
  }

  /** Trimming cuts white space off both ends and nothing else, and leaves none there. */
  lemma TrimCuts(s: string) returns (pre: string, post: string)
    ensures s == pre + Trim(s) + post && All(IsSpace, pre) && All(IsSpace, post)
    ensures |Trim(s)| >= 1 ==> !IsSpace(Trim(s)[0]) && !IsSpace(Last(Trim(s)))
  {
    pre := DropFrontCuts(IsSpace, s);
    post := DropBackCuts(IsSpace, DropFront(IsSpace, s));
    assert |Trim(s)| >= 1 ==> Trim(s)[0] == DropFront(IsSpace, s)[0];
    Assoc(pre, Trim(s), post);
  }

  // ---- operations ----

  function Short(id: string): string {
    if |id| <= 12 then id else id[..12]
  }

  function OrElse<T>(o: Option<T>, d: T): T {
    if o.Some? then o.value else d
  }

  function BodyOf(env: Envelope, localPath: Option<string>): Body {
    match env.kind
    case Text => Text(OrElse(env.text, ""))
    case Image => Image(OrElse(env.blob, BLANK_BLOB), localPath)
    case File => File(OrElse(env.blob, BLANK_BLOB), OrElse(env.filename, "file"), localPath)
  }

  function IncomingBubble(m: Model, env: Envelope, localPath: Option<string>): Message {
    var mine := env.sender == m.myId;
    var sender := if |env.deviceName| == 0 then Short(env.sender) else env.deviceName;
    Message(env.msgId, sender, mine, env.ts, BodyOf(env, localPath), false, None, m.autoCopy == "notify" && !mine, None)
  }

  function PushIncoming(m: Model, env: Envelope, localPath: Option<string>): Model {
    m.(receivedAny := m.receivedAny || env.sender != m.myId,
       messages := m.messages + [IncomingBubble(m, env, localPath)],
       selected := if m.follow then None else m.selected)
  }

  function Composed(m: Model): string {
    Trim(W.Join(m.composer, '\n'))
  }

  function PendingBubble(text: string, number: nat, now: nat): Message {
    Message("", "you", true, now, Text(text), true, None, false, Some(number))
  }

  /** An empty composer sends nothing and changes nothing. */
  function SubmitText(m: Model, now: nat): (Model, Outcome) {
    if |Composed(m)| == 0 then (m, Nothing)
    else (m.(composer := [""], nextSeq := m.nextSeq + 1, selected := None, follow := true,
             messages := m.messages + [PendingBubble(Composed(m), m.nextSeq, now)]),
          Send(m.nextSeq, Composed(m)))
  }

  const UNDELIVERED := "not delivered (no peers)"

  function Answered(b: Message, r: SendResult): Message {
    match r
    case Sent(id, reached) =>
      b.(pending := false, msgId := id, note := if reached == 0 then Some(UNDELIVERED) else b.note)
    case Failed(e) => b.(pending := false, note := Some("send failed: " + e))
  }

  /** The first place that satisfies `p`. */
  function First<T>(p: T -> bool, xs: seq<T>): (r: Option<nat>)
    ensures r.Some? ==> r.value < |xs| && p(xs[r.value]) && forall j :: 0 <= j < r.value ==> !p(xs[j])
    ensures r.None? ==> forall j :: 0 <= j < |xs| ==> !p(xs[j])
  {
    if |xs| == 0 then None
    else
      var r := First(p, Front(xs));
      if r.Some? then r else if p(Last(xs)) then Some(|xs| - 1) else None
  }

  function HasSeq(number: nat): Message -> bool {
    (b: Message) => b.clientSeq == Some(number)
  }

  function HasId(id: string): Message -> bool {
    (b: Message) => b.msgId == id
  }

  function Result(ms: seq<Message>, number: nat, r: SendResult): seq<Message> {
    var at := First(HasSeq(number), ms);
    if at.None? then ms else ms[at.value := Answered(ms[at.value], r)]
  }

  function MarkCopied(ms: seq<Message>, id: string): seq<Message> {
    var at := First(HasId(id), ms);
    if at.None? then ms else ms[at.value := ms[at.value].(acceptPending := false)]
  }

  function PushSentImage(m: Model, env: Envelope, localPath: Option<string>, reached: nat): Model {
    var body := Image(OrElse(env.blob, BLANK_BLOB), localPath);
    var note := if reached == 0 then Some(UNDELIVERED) else None;
    m.(messages := m.messages + [Message(env.msgId, "you", true, env.ts, body, false, note, false, None)],
       selected := None, follow := true)
  }

  function SelectUp(m: Model): Model {
    if |m.messages| == 0 then m
    else
      var cur := OrElse(m.selected, |m.messages|);
      var up := if cur == 0 then 0 else cur - 1;
      m.(follow := false, selected := Some(if up < |m.messages| then up else |m.messages| - 1))
  }

  function SelectDown(m: Model): Model {
    if |m.messages| == 0 || m.selected.None? then m
    else if m.selected.value >= |m.messages| - 1 then m.(follow := true, selected := None)
    else m.(selected := Some(m.selected.value + 1))
  }

  function RequestQuit(m: Model): (Model, Outcome) {
    if m.receivedAny then (m.(quitPrompt := true), Redraw) else (m, Quit)
  }

  function ToBrowse(m: Model): Model {
    if m.selected.None? && |m.messages| >= 1 then
      m.(focus := Browse, follow := false, selected := Some(|m.messages| - 1))
    else m.(focus := Browse)
  }

  function AnswerPrompt(k: Key): Outcome {
    if k.code == Char('t') then ClearAndQuit(false)
    else if k.code == Char('a') then ClearAndQuit(true)
    else if k.code == Char('n') || k.code == Esc then Quit
    else Nothing
  }

  /** `edited` is what the text widget makes of a key it is given. */
  function ComposeKey(m: Model, k: Key, edited: Lines, now: nat): (Model, Outcome) {
    if k.ctrl && k.code == Char('v') then (m, SendClipboardImage)
    else match k.code
      case Enter => SubmitText(m, now)
      case Esc => (ToBrowse(m), Redraw)
      case Up => (SelectUp(m), Redraw)
      case Down => (SelectDown(m), Redraw)
      case _ => (m.(composer := edited), Redraw)
  }

  function BrowseKey(m: Model, k: Key): (Model, Outcome) {
    if k.code == Esc || k.code == Char('i') then (m.(focus := Compose), Redraw)
    else if k.code == Char('q') then RequestQuit(m)
    else if k.code == Up || k.code == Char('k') then (SelectUp(m), Redraw)
    else if k.code == Down || k.code == Char('j') then (SelectDown(m), Redraw)
    else (m, if k.code == Char('y') then Copy else if k.code == Char('s') then Save
             else if k.code == Char('o') then Open else Nothing)
  }

  function HandleKey(m: Model, k: Key, edited: Lines, now: nat): (Model, Outcome) {
    if k.release then (m, Nothing)
    else if m.quitPrompt then (m, AnswerPrompt(k))
    else if k.ctrl && k.code == Char('c') then RequestQuit(m)
    else if m.focus == Compose then ComposeKey(m, k, edited, now)
    else BrowseKey(m, k)
  }

  // ---- runs ----

  datatype Event =
    | Incoming(env: Envelope, localPath: Option<string>)
    | Status(autoCopy: string)
    | Late(number: nat, r: SendResult)                     // a send result
    | SentImage(env: Envelope, localPath: Option<string>, reached: nat)
    | Copied(id: string)
    | Press(k: Key, edited: Lines, now: nat)

  function Step(m: Model, e: Event): Model {
    match e
    case Incoming(env, path) => PushIncoming(m, env, path)
    case Status(mode) => m.(autoCopy := mode)
    case Late(number, r) => m.(messages := Result(m.messages, number, r))
    case SentImage(env, path, reached) => PushSentImage(m, env, path, reached)
    case Copied(id) => m.(messages := MarkCopied(m.messages, id))
    case Press(k, edited, now) => HandleKey(m, k, edited, now).0
  }

  function Run(m: Model, es: seq<Event>): Model {
    if |es| == 0 then m else Step(Run(m, Front(es)), Last(es))
  }

  // ---- selection and follow ----

  ghost predicate SelectionOk(m: Model) {
    && (m.follow <==> m.selected.None?)
    && (m.selected.Some? ==> m.selected.value < |m.messages|)
  }

  lemma SelectionKey(m: Model, k: Key, edited: Lines, now: nat)
    requires SelectionOk(m)
    ensures SelectionOk(ComposeKey(m, k, edited, now).0)
    ensures SelectionOk(BrowseKey(m, k).0)
  {
  }

  lemma SelectionStep(m: Model, e: Event)
    requires SelectionOk(m)
    ensures SelectionOk(Step(m, e))
  {
    if e.Press? {
      SelectionKey(m, e.k, e.edited, e.now);
    }
  }

  /** The view follows exactly while nothing is selected, and what is selected exists. */
  lemma {:induction false} SelectionAlwaysOk(myId: string, mode: string, es: seq<Event>)
    ensures SelectionOk(Run(Start(myId, mode), es))
  {
    if |es| >= 1 {
      SelectionAlwaysOk(myId, mode, Front(es));
      SelectionStep(Run(Start(myId, mode), Front(es)), Last(es));
    }
  }

  // ---- bubbles and their numbers ----

  /** Own bubbles carry the numbers 1, 2, 3 and so on, in this order, each once and none left out. */
  ghost predicate Numbered(ms: seq<Message>, next: nat) {
    && next >= 1
    && (forall i :: 0 <= i < |ms| && ms[i].clientSeq.Some? ==> 1 <= ms[i].clientSeq.value < next)
    && (forall i, j :: 0 <= i < j < |ms| && ms[i].clientSeq.Some? && ms[j].clientSeq.Some? ==>
          ms[i].clientSeq.value < ms[j].clientSeq.value)
    && (forall n :: 1 <= n < next ==> First(HasSeq(n), ms).Some?)
  }

  lemma {:induction false} FirstPush<T>(p: T -> bool, xs: seq<T>, x: T)
    ensures First(p, xs + [x]) == if First(p, xs).Some? then First(p, xs) else if p(x) then Some(|xs|) else None
  {
    assert Front(xs + [x]) == xs;
  }

  /** Changing one element leaves every first place alone when it keeps the property there. */
  lemma FirstSame<T>(p: T -> bool, xs: seq<T>, ys: seq<T>)
    requires |xs| == |ys| && forall i :: 0 <= i < |xs| ==> p(xs[i]) == p(ys[i])
    ensures First(p, xs) == First(p, ys)
  {
  }

  lemma NumberedPush(ms: seq<Message>, next: nat, b: Message)
    requires Numbered(ms, next) && (b.clientSeq.None? || b.clientSeq == Some(next))
    ensures Numbered(ms + [b], if b.clientSeq.Some? then next + 1 else next)
  {
    var more, after := ms + [b], if b.clientSeq.Some? then next + 1 else next;
    forall n | 1 <= n < after ensures First(HasSeq(n), more).Some? {
      FirstPush(HasSeq(n), ms, b);
    }
  }

  lemma NumberedSame(ms: seq<Message>, ns: seq<Message>, next: nat)
    requires Numbered(ms, next) && |ms| == |ns|
    requires forall i :: 0 <= i < |ms| ==> ms[i].clientSeq == ns[i].clientSeq
    ensures Numbered(ns, next)
  {
    forall n | 1 <= n < next ensures First(HasSeq(n), ns).Some? {
      FirstSame(HasSeq(n), ms, ns);
    }
  }

  /** A key changes the messages only by submitting. */
  lemma KeySubmitsOrKeeps(m: Model, k: Key, edited: Lines, now: nat)
    ensures
      var after := HandleKey(m, k, edited, now).0;
      && after.receivedAny == m.receivedAny && after.myId == m.myId && after.autoCopy == m.autoCopy
      && (if !k.release && !m.quitPrompt && m.focus == Compose && k.code == Enter && |Composed(m)| >= 1 then
            && after.messages == m.messages + [PendingBubble(Composed(m), m.nextSeq, now)]
            && after.nextSeq == m.nextSeq + 1
          else after.messages == m.messages && after.nextSeq == m.nextSeq)
  {
  }

  lemma NumberedKey(m: Model, k: Key, edited: Lines, now: nat)
    requires Numbered(m.messages, m.nextSeq)
    ensures
      var after := HandleKey(m, k, edited, now).0;
      Numbered(after.messages, after.nextSeq)
  {
    KeySubmitsOrKeeps(m, k, edited, now);
    var after := HandleKey(m, k, edited, now).0;
    if after.nextSeq == m.nextSeq + 1 {
      NumberedPush(m.messages, m.nextSeq, PendingBubble(Composed(m), m.nextSeq, now));
    }
  }

  lemma NumberedStep(m: Model, e: Event)
    requires Numbered(m.messages, m.nextSeq)
    ensures Numbered(Step(m, e).messages, Step(m, e).nextSeq)
  {
    match e
    case Status(mode) =>
    case Press(k, edited, now) => NumberedKey(m, k, edited, now);
    case Late(number, r) => NumberedSame(m.messages, Result(m.messages, number, r), m.nextSeq);
    case Copied(id) => NumberedSame(m.messages, MarkCopied(m.messages, id), m.nextSeq);
    case Incoming(env, path) => NumberedPush(m.messages, m.nextSeq, IncomingBubble(m, env, path));
    case SentImage(env, path, reached) =>
      NumberedPush(m.messages, m.nextSeq, Last(PushSentImage(m, env, path, reached).messages));
  }

  lemma {:induction false} NumbersAlwaysDistinct(myId: string, mode: string, es: seq<Event>)
    ensures
      var m := Run(Start(myId, mode), es);
      Numbered(m.messages, m.nextSeq)
  {
    if |es| >= 1 {
      NumbersAlwaysDistinct(myId, mode, Front(es));
      NumberedStep(Run(Start(myId, mode), Front(es)), Last(es));
    }
  }

  /** In any reachable state a result reaches the one bubble of its submit, and changes nothing else. */
  lemma ResultChangesOwnBubble(myId: string, mode: string, es: seq<Event>, number: nat, r: SendResult) returns (at: nat)
    requires 1 <= number < Run(Start(myId, mode), es).nextSeq
    ensures
      var m := Run(Start(myId, mode), es);
      && at < |m.messages| && m.messages[at].clientSeq == Some(number)
      && (forall i :: 0 <= i < |m.messages| && i != at ==> m.messages[i].clientSeq != Some(number))
      && Step(m, Late(number, r)) == m.(messages := m.messages[at := Answered(m.messages[at], r)])
  {
    NumbersAlwaysDistinct(myId, mode, es);
    at := First(HasSeq(number), Run(Start(myId, mode), es).messages).value;
  }

  // ---- late results ----

  type Results = map<nat, SendResult>

  function Answer(b: Message, rs: Results): Message {
    if b.clientSeq.Some? && b.clientSeq.value in rs then Answered(b, rs[b.clientSeq.value]) else b
  }

  /** Every bubble with its result filled in. */
  function AnswerAll(ms: seq<Message>, rs: Results): (r: seq<Message>)
    ensures |r| == |ms| && forall i :: 0 <= i < |ms| ==> r[i] == Answer(ms[i], rs)
  {
    seq(|ms|, i requires 0 <= i < |ms| => Answer(ms[i], rs))
  }

  function Reconciled(m: Model, rs: Results): Model {
    m.(messages := AnswerAll(m.messages, rs))
  }

  /** The run without its results, and the results alone. */
  function Quiet(es: seq<Event>): seq<Event> {
    if |es| == 0 then [] else if Last(es).Late? then Quiet(Front(es)) else Quiet(Front(es)) + [Last(es)]
  }

  function Replies(es: seq<Event>): Results {
    if |es| == 0 then map[]
    else if Last(es).Late? then Replies(Front(es))[Last(es).number := Last(es).r] else Replies(Front(es))
  }

  /** Results come after their submit, at most one each. */
  ghost predicate AnsweredOnce(m: Model, es: seq<Event>) {
    |es| == 0
    || (&& AnsweredOnce(m, Front(es))
        && (Last(es).Late? ==>
             1 <= Last(es).number < Run(m, Front(es)).nextSeq && Last(es).number !in Replies(Front(es))))
  }

  /** No foreign item has the empty id or the id of an own text; `ids` are those of foreign items. */
  ghost predicate IdsApart(myId: string, es: seq<Event>, ids: set<string>) {
    && "" !in ids
    && forall i :: 0 <= i < |es| ==> IdApart(myId, es[i], ids)
  }

  ghost predicate IdApart(myId: string, e: Event, ids: set<string>) {
    && (e.Incoming? && e.env.sender != myId ==> e.env.msgId in ids)
    && (e.Late? && e.r.Sent? ==> e.r.msgId !in ids)
  }

  ghost predicate NoCopies(es: seq<Event>) {
    forall i :: 0 <= i < |es| ==> !es[i].Copied?
  }

  lemma AnswerPush(ms: seq<Message>, b: Message, rs: Results)
    requires b.clientSeq.Some? ==> b.clientSeq.value !in rs
    ensures AnswerAll(ms + [b], rs) == AnswerAll(ms, rs) + [b]
  {
  }

  lemma ResultFillsIn(ms: seq<Message>, next: nat, rs: Results, number: nat, r: SendResult)
    requires Numbered(ms, next) && 1 <= number < next && number !in rs
    ensures Result(AnswerAll(ms, rs), number, r) == AnswerAll(ms, rs[number := r])
  {
    var before, after := AnswerAll(ms, rs), AnswerAll(ms, rs[number := r]);
    FirstSame(HasSeq(number), ms, before);
    var at := First(HasSeq(number), ms).value;
    forall i | 0 <= i < |ms| ensures Result(before, number, r)[i] == after[i] {
      assert i != at ==> ms[i].clientSeq != Some(number);
    }
  }

  // ---- results and copying ----

  /** Own bubbles have no id yet; what waits to be copied is foreign. */
  ghost predicate Tidy(ms: seq<Message>, ids: set<string>) {
    forall i :: 0 <= i < |ms| ==> TidyMessage(ms[i], ids)
  }

  ghost predicate TidyMessage(b: Message, ids: set<string>) {
    && (b.clientSeq.Some? ==> b.msgId == "" && !b.acceptPending)
    && (b.acceptPending ==> b.msgId in ids)
  }

  lemma TidyStep(m: Model, e: Event, ids: set<string>)
    requires Tidy(m.messages, ids) && IdApart(m.myId, e, ids) && !e.Late?
    ensures Tidy(Step(m, e).messages, ids) && Step(m, e).myId == m.myId
  {
    if e.Press? {
      KeySubmitsOrKeeps(m, e.k, e.edited, e.now);
    }
  }

  lemma {:induction false} TidyRun(myId: string, mode: string, es: seq<Event>, ids: set<string>)
    requires IdsApart(myId, es, ids)
    ensures
      var m := Run(Start(myId, mode), Quiet(es));
      Tidy(m.messages, ids) && m.myId == myId
  {
    if |es| >= 1 {
      TidyRun(myId, mode, Front(es), ids);
      if !Last(es).Late? {
        assert IdApart(myId, Last(es), ids);
        RunPush(Start(myId, mode), Quiet(Front(es)), Last(es));
        TidyStep(Run(Start(myId, mode), Quiet(Front(es))), Last(es), ids);
      }
    }
  }

  lemma RunPush(m: Model, es: seq<Event>, e: Event)
    ensures Run(m, es + [e]) == Step(Run(m, es), e)
  {
    assert Front(es + [e]) == es;
  }

  ghost predicate RepliesApart(rs: Results, ids: set<string>) {
    forall n :: n in rs && rs[n].Sent? ==> rs[n].msgId !in ids
  }

  lemma {:induction false} RepliesStayApart(myId: string, es: seq<Event>, ids: set<string>)
    requires IdsApart(myId, es, ids)
    ensures RepliesApart(Replies(es), ids)
  {
    if |es| >= 1 {
      RepliesStayApart(myId, Front(es), ids);
      assert IdApart(myId, Last(es), ids);
    }
  }

  lemma CopyOfOwn(ms: seq<Message>, id: string)
    requires forall i :: 0 <= i < |ms| && ms[i].msgId == id ==> !ms[i].acceptPending
    ensures MarkCopied(ms, id) == ms
  {
  }

  lemma CopyCommutes(ms: seq<Message>, rs: Results, ids: set<string>, id: string)
    requires Tidy(ms, ids) && RepliesApart(rs, ids) && "" !in ids
    ensures MarkCopied(AnswerAll(ms, rs), id) == AnswerAll(MarkCopied(ms, id), rs)
  {
    var filled := AnswerAll(ms, rs);
    if id in ids {
      forall i | 0 <= i < |ms| ensures HasId(id)(ms[i]) == HasId(id)(filled[i]) {
        assert TidyMessage(ms[i], ids);
      }
      FirstSame(HasId(id), ms, filled);
      var at := First(HasId(id), ms);
      if at.Some? {
        assert TidyMessage(ms[at.value], ids);
        assert filled[at.value] == ms[at.value];
        assert MarkCopied(filled, id) == AnswerAll(MarkCopied(ms, id), rs);
      }
    } else {
      forall i | 0 <= i < |ms| ensures ms[i].acceptPending ==> ms[i].msgId != id && filled[i] == ms[i] {
        assert TidyMessage(ms[i], ids);
      }
      CopyOfOwn(ms, id);
      CopyOfOwn(filled, id);
    }
  }

  // ---- reconciliation ----

  lemma SubmitCommutes(m: Model, rs: Results, now: nat)
    requires m.nextSeq !in rs
    ensures SubmitText(Reconciled(m, rs), now) == (Reconciled(SubmitText(m, now).0, rs), SubmitText(m, now).1)
  {
    AnswerPush(m.messages, PendingBubble(Composed(m), m.nextSeq, now), rs);
  }

  lemma SelectionCommutes(m: Model, rs: Results)
    ensures SelectUp(Reconciled(m, rs)) == Reconciled(SelectUp(m), rs)
    ensures SelectDown(Reconciled(m, rs)) == Reconciled(SelectDown(m), rs)
    ensures ToBrowse(Reconciled(m, rs)) == Reconciled(ToBrowse(m), rs)
  {
  }

  lemma ComposeCommutes(m: Model, rs: Results, k: Key, edited: Lines, now: nat)
    requires m.nextSeq !in rs
    ensures
      var (after, out) := ComposeKey(m, k, edited, now);
      ComposeKey(Reconciled(m, rs), k, edited, now) == (Reconciled(after, rs), out)
  {
    if k.code == Enter {
      SubmitCommutes(m, rs, now);
    } else {
      SelectionCommutes(m, rs);
    }
  }

  lemma BrowseCommutes(m: Model, rs: Results, k: Key)
    ensures BrowseKey(Reconciled(m, rs), k) == (Reconciled(BrowseKey(m, k).0, rs), BrowseKey(m, k).1)
  {
    SelectionCommutes(m, rs);
  }

  lemma KeyCommutes(m: Model, rs: Results, k: Key, edited: Lines, now: nat)
    requires m.nextSeq !in rs
    ensures
      var (after, out) := HandleKey(m, k, edited, now);
      HandleKey(Reconciled(m, rs), k, edited, now) == (Reconciled(after, rs), out)
  {
    if !k.release && !m.quitPrompt && !(k.ctrl && k.code == Char('c')) {
      if m.focus == Compose {
        ComposeCommutes(m, rs, k, edited, now);
      } else {
        BrowseCommutes(m, rs, k);
      }
    }
  }

  lemma StepCommutes(m: Model, rs: Results, e: Event)
    requires m.nextSeq !in rs && !e.Late? && !e.Copied?
    ensures Step(Reconciled(m, rs), e) == Reconciled(Step(m, e), rs)
  {
    match e
    case Status(mode) =>
    case Press(k, edited, now) => KeyCommutes(m, rs, k, edited, now);
    case Incoming(env, path) => AnswerPush(m.messages, IncomingBubble(m, env, path), rs);
    case SentImage(env, path, reached) =>
      AnswerPush(m.messages, Last(PushSentImage(m, env, path, reached).messages), rs);
  }

  lemma NextSeqGrows(m: Model, e: Event)
    ensures Step(m, e).nextSeq >= m.nextSeq
  {
    if e.Press? {
      KeySubmitsOrKeeps(m, e.k, e.edited, e.now);
    }
  }

  /** A step that is no result, on a state with results filled in. */
  lemma FilledStep(quiet: Model, rs: Results, e: Event, ids: set<string>)
    requires quiet.nextSeq !in rs && !e.Late?
    requires e.Copied? ==> Tidy(quiet.messages, ids) && RepliesApart(rs, ids) && "" !in ids
    ensures Step(Reconciled(quiet, rs), e) == Reconciled(Step(quiet, e), rs)
  {
    if e.Copied? {
      CopyCommutes(quiet.messages, rs, ids, e.id);
    } else {
      StepCommutes(quiet, rs, e);
    }
  }

  lemma FilledResult(quiet: Model, rs: Results, number: nat, r: SendResult)
    requires Numbered(quiet.messages, quiet.nextSeq) && 1 <= number < quiet.nextSeq && number !in rs
    ensures Step(Reconciled(quiet, rs), Late(number, r)) == Reconciled(quiet, rs[number := r])
  {
    ResultFillsIn(quiet.messages, quiet.nextSeq, rs, number, r);
  }

  /** The messages are those of the run without results, each bubble with its own result filled in. */
  lemma {:induction false} ResultsFillIn(myId: string, mode: string, es: seq<Event>, ids: set<string>)
    requires AnsweredOnce(Start(myId, mode), es)
    requires NoCopies(es) || IdsApart(myId, es, ids)
    ensures Run(Start(myId, mode), es) == Reconciled(Run(Start(myId, mode), Quiet(es)), Replies(es))
    ensures forall n :: n in Replies(es) ==> n < Run(Start(myId, mode), es).nextSeq
  {
    var m0 := Start(myId, mode);
    if |es| >= 1 {
      var front, e := Front(es), Last(es);
      ResultsFillIn(myId, mode, front, ids);
      var quiet, rs := Run(m0, Quiet(front)), Replies(front);
      if e.Late? {
        NumbersAlwaysDistinct(myId, mode, Quiet(front));
        FilledResult(quiet, rs, e.number, e.r);
      } else {
        RunPush(m0, Quiet(front), e);
        NextSeqGrows(Run(m0, front), e);
        if e.Copied? {
          TidyRun(myId, mode, front, ids);
          RepliesStayApart(myId, front, ids);
        }
        FilledStep(quiet, rs, e, ids);
      }
    }
  }

  /** Runs that differ only in when their results arrive end in the same state. */
  lemma ResultOrderIsIrrelevant(myId: string, mode: string, es: seq<Event>, other: seq<Event>, ids: set<string>)
    requires AnsweredOnce(Start(myId, mode), es) && AnsweredOnce(Start(myId, mode), other)
    requires (NoCopies(es) && NoCopies(other)) || (IdsApart(myId, es, ids) && IdsApart(myId, other, ids))
    requires Quiet(es) == Quiet(other) && Replies(es) == Replies(other)
    ensures Run(Start(myId, mode), es) == Run(Start(myId, mode), other)
  {
    ResultsFillIn(myId, mode, es, ids);
    ResultsFillIn(myId, mode, other, ids);
  }

  // ---- when a result and a copy commute ----

  lemma FirstIs<T>(p: T -> bool, xs: seq<T>, k: nat)
    requires k < |xs| && p(xs[k]) && forall i :: 0 <= i < k ==> !p(xs[i])
    ensures First(p, xs) == Some(k)
  {
  }

  /** The first of: the first in front of a place, the place, the first behind it. */
  function FirstOf(front: Option<nat>, here: bool, at: nat, behind: Option<nat>): Option<nat> {
    if front.Some? then front
    else if here then Some(at)
    else if behind.Some? then Some(at + 1 + behind.value)
    else None
  }

  lemma FrontMisses<T>(p: T -> bool, xs: seq<T>, at: nat, i: nat)
    requires i < at <= |xs| && (First(p, xs[..at]).None? || i < First(p, xs[..at]).value)
    ensures !p(xs[i])
  {
    assert xs[..at][i] == xs[i];
  }

  lemma BehindMisses<T>(p: T -> bool, xs: seq<T>, at: nat, i: nat)
    requires at < i < |xs| && (First(p, xs[at + 1..]).None? || i - at - 1 < First(p, xs[at + 1..]).value)
    ensures !p(xs[i])
  {
    assert xs[at + 1..][i - at - 1] == xs[i];
  }

  lemma FirstOfParts<T>(p: T -> bool, xs: seq<T>, at: nat, front: Option<nat>, behind: Option<nat>)
    requires at < |xs| && (front.Some? ==> front.value < at && p(xs[front.value]))
    requires behind.Some? ==> at + 1 + behind.value < |xs| && p(xs[at + 1 + behind.value])
    requires forall i :: 0 <= i < at && (front.None? || i < front.value) ==> !p(xs[i])
    requires forall i :: at < i < |xs| && (behind.None? || i - at - 1 < behind.value) ==> !p(xs[i])
    ensures First(p, xs) == FirstOf(front, p(xs[at]), at, behind)
  {
    var k := FirstOf(front, p(xs[at]), at, behind);
    if k.Some? {
      FirstIs(p, xs, k.value);
    }
  }

  lemma FirstSplit<T>(p: T -> bool, xs: seq<T>, at: nat)
    requires at < |xs|
    ensures First(p, xs) == FirstOf(First(p, xs[..at]), p(xs[at]), at, First(p, xs[at + 1..]))
  {
    var front, behind := First(p, xs[..at]), First(p, xs[at + 1..]);
    forall i | 0 <= i < at && (front.None? || i < front.value) ensures !p(xs[i]) {
      FrontMisses(p, xs, at, i);
    }
    forall i | at < i < |xs| && (behind.None? || i - at - 1 < behind.value) ensures !p(xs[i]) {
      BehindMisses(p, xs, at, i);
    }
    FirstOfParts(p, xs, at, front, behind);
  }

  /** The list with the copy affordance of one place gone. */
  function Cleared(ms: seq<Message>, i: Option<nat>): seq<Message>
    requires i.Some? ==> i.value < |ms|
  {
    if i.None? then ms else ms[i.value := ms[i.value].(acceptPending := false)]
  }

  predicate Offers(ms: seq<Message>, i: Option<nat>) {
    i.Some? && i.value < |ms| && ms[i.value].acceptPending
  }

  lemma ClearedAgreeIff(ms: seq<Message>, f: Option<nat>, g: Option<nat>)
    requires (f.Some? ==> f.value < |ms|) && (g.Some? ==> g.value < |ms|)
    ensures Cleared(ms, f) == Cleared(ms, g) <==> f == g || (!Offers(ms, f) && !Offers(ms, g))
  {
    if f != g {
      if Offers(ms, f) {
        assert Cleared(ms, f)[f.value] != Cleared(ms, g)[f.value];
      } else if Offers(ms, g) {
        assert Cleared(ms, f)[g.value] != Cleared(ms, g)[g.value];
      }
    }
  }

  /**
   * The bubble at `at` has id `y` either before or after its answer gives it id `x`, but not both, no
   * message in front of it has that id, and the first one behind it that has it waits to be copied.
   */
  predicate Clash(ms: seq<Message>, at: nat, x: string, y: string)
    requires at < |ms|
  {
    && (y == "") != (y == x)
    && First(HasId(y), ms[..at]).None?
    && Offers(ms[at + 1..], First(HasId(y), ms[at + 1..]))
  }

  /** Whom a copy finds first, before the answer of the bubble at `at` and after it. */
  lemma FirstAroundAnswer(ms: seq<Message>, at: nat, r: SendResult, y: string)
    requires at < |ms| && ms[at].msgId == "" && !ms[at].acceptPending
    ensures
      var after := ms[at := Answered(ms[at], r)];
      var id := if r.Sent? then r.msgId else "";
      var front, behind := First(HasId(y), ms[..at]), First(HasId(y), ms[at + 1..]);
      && First(HasId(y), ms) == FirstOf(front, y == "", at, behind)
      && First(HasId(y), after) == FirstOf(front, y == id, at, behind)
  {
    var after := ms[at := Answered(ms[at], r)];
    assert after[..at] == ms[..at] && after[at + 1..] == ms[at + 1..];
    FirstSplit(HasId(y), ms, at);
    FirstSplit(HasId(y), after, at);
  }

  lemma ClashIff(ms: seq<Message>, after: seq<Message>, at: nat, x: string, y: string)
    requires at < |ms| == |after| && after == ms[at := after[at]] && !after[at].acceptPending
    ensures
      var front, behind := First(HasId(y), ms[..at]), First(HasId(y), ms[at + 1..]);
      var f, g := FirstOf(front, y == "", at, behind), FirstOf(front, y == x, at, behind);
      (f == g || (!Offers(after, f) && !Offers(after, g))) <==> !Clash(ms, at, x, y)
  {
    var behind := First(HasId(y), ms[at + 1..]);
    if behind.Some? {
      assert ms[at + 1..][behind.value] == ms[at + 1 + behind.value] == after[at + 1 + behind.value];
    }
  }

  lemma CopyAfterResult(ms: seq<Message>, number: nat, at: nat, r: SendResult, y: string)
    requires First(HasSeq(number), ms) == Some(at)
    ensures
      var after := ms[at := Answered(ms[at], r)];
      MarkCopied(Result(ms, number, r), y) == Cleared(after, First(HasId(y), after))
  {
  }

  lemma ClearedUpdate(ms: seq<Message>, f: Option<nat>, at: nat, b: Message)
    requires at < |ms| && (f.Some? ==> f.value < |ms|) && !b.acceptPending
    ensures Cleared(ms, f)[at := b] == Cleared(ms[at := b], f)
  {
  }

  lemma CopyKeepsSeqs(ms: seq<Message>, number: nat, y: string)
    ensures |MarkCopied(ms, y)| == |ms| && First(HasSeq(number), MarkCopied(ms, y)) == First(HasSeq(number), ms)
  {
    FirstSame(HasSeq(number), ms, MarkCopied(ms, y));
  }

  lemma ResultAfterCopy(ms: seq<Message>, number: nat, at: nat, r: SendResult, y: string)
    requires First(HasSeq(number), ms) == Some(at) && !ms[at].acceptPending
    ensures Result(MarkCopied(ms, y), number, r) == Cleared(ms[at := Answered(ms[at], r)], First(HasId(y), ms))
  {
    CopyKeepsSeqs(ms, number, y);
    assert MarkCopied(ms, y) == Cleared(ms, First(HasId(y), ms));
    assert MarkCopied(ms, y)[at] == ms[at];
    ClearedUpdate(ms, First(HasId(y), ms), at, Answered(ms[at], r));
  }

  lemma ResultAndCopyCommuteIff(ms: seq<Message>, number: nat, at: nat, r: SendResult, y: string)
    requires First(HasSeq(number), ms) == Some(at) && ms[at].msgId == "" && !ms[at].acceptPending
    ensures MarkCopied(Result(ms, number, r), y) == Result(MarkCopied(ms, y), number, r)
       <==> !(r.Sent? && Clash(ms, at, r.msgId, y))
  {
    var after := ms[at := Answered(ms[at], r)];
    CopyAfterResult(ms, number, at, r, y);
    ResultAfterCopy(ms, number, at, r, y);
    ClearedAgreeIff(after, First(HasId(y), ms), First(HasId(y), after));
    FirstAroundAnswer(ms, at, r, y);
    ClashIff(ms, after, at, if r.Sent? then r.msgId else "", y);
  }

  /** An own bubble never waits to be copied, and has no id before its result. */
  ghost predicate BubbleOk(b: Message, rs: Results) {
    b.clientSeq.Some? ==> !b.acceptPending && (b.clientSeq.value !in rs ==> b.msgId == "")
  }

  lemma BubbleStep(m: Model, e: Event, rs: Results, i: nat)
    requires forall j :: 0 <= j < |m.messages| ==> BubbleOk(m.messages[j], rs)
    requires i < |Step(m, e).messages|
    ensures BubbleOk(Step(m, e).messages[i], if e.Late? then rs[e.number := e.r] else rs)
  {
    if e.Press? {
      KeySubmitsOrKeeps(m, e.k, e.edited, e.now);
    }
    if i < |m.messages| {
      assert BubbleOk(m.messages[i], rs);
    }
  }

  lemma {:induction false} BubblesOk(myId: string, mode: string, es: seq<Event>, i: nat)
    requires i < |Run(Start(myId, mode), es).messages|
    ensures BubbleOk(Run(Start(myId, mode), es).messages[i], Replies(es))
  {
    if |es| >= 1 {
      var m := Run(Start(myId, mode), Front(es));
      forall j | 0 <= j < |m.messages| ensures BubbleOk(m.messages[j], Replies(Front(es))) {
        BubblesOk(myId, mode, Front(es), j);
      }
      BubbleStep(m, Last(es), Replies(Front(es)), i);
    }
  }

  lemma RunPushTwo(m0: Model, es: seq<Event>, a: Event, b: Event)
    ensures Run(m0, es + [a] + [b]) == Step(Step(Run(m0, es), a), b)
  {
    RunPush(m0, es, a);
    RunPush(m0, es + [a], b);
  }

  lemma RunResultThenCopy(m0: Model, es: seq<Event>, number: nat, r: SendResult, y: string)
    ensures
      var m := Run(m0, es);
      Run(m0, es + [Late(number, r)] + [Copied(y)]) == m.(messages := MarkCopied(Result(m.messages, number, r), y))
  {
    RunPushTwo(m0, es, Late(number, r), Copied(y));
  }

  lemma RunCopyThenResult(m0: Model, es: seq<Event>, number: nat, r: SendResult, y: string)
    ensures
      var m := Run(m0, es);
      Run(m0, es + [Copied(y)] + [Late(number, r)]) == m.(messages := Result(MarkCopied(m.messages, y), number, r))
  {
    RunPushTwo(m0, es, Copied(y), Late(number, r));
  }

  /** The bubble of a submit that is not answered yet. */
  lemma UnansweredBubble(myId: string, mode: string, es: seq<Event>, number: nat) returns (at: nat)
    requires 1 <= number < Run(Start(myId, mode), es).nextSeq && number !in Replies(es)
    ensures
      var ms := Run(Start(myId, mode), es).messages;
      && First(HasSeq(number), ms) == Some(at) && ms[at].clientSeq == Some(number)
      && ms[at].msgId == "" && !ms[at].acceptPending
  {
    NumbersAlwaysDistinct(myId, mode, es);
    at := First(HasSeq(number), Run(Start(myId, mode), es).messages).value;
    BubblesOk(myId, mode, es, at);
  }

  /**
   * In any reachable state, for any submit still unanswered: its result and a copy have the same effect
   * in either order if and only if they do not clash.
   */
  lemma SwapIff(myId: string, mode: string, es: seq<Event>, number: nat, r: SendResult, y: string) returns (at: nat)
    requires 1 <= number < Run(Start(myId, mode), es).nextSeq && number !in Replies(es)
    ensures
      var m0, ms := Start(myId, mode), Run(Start(myId, mode), es).messages;
      var same := Run(m0, es + [Late(number, r)] + [Copied(y)]) == Run(m0, es + [Copied(y)] + [Late(number, r)]);
      && First(HasSeq(number), ms) == Some(at)
      && (same <==> !(r.Sent? && Clash(ms, at, r.msgId, y)))
  {
    at := UnansweredBubble(myId, mode, es, number);
    ResultAndCopyCommuteIff(Run(Start(myId, mode), es).messages, number, at, r, y);
    RunResultThenCopy(Start(myId, mode), es, number, r, y);
    RunCopyThenResult(Start(myId, mode), es, number, r, y);
  }

  /** "hi" is typed and sent, and a foreign item arrives. */
  function TypedSentReceived(env: Envelope): seq<Event> {
    [Press(Key(Char('i'), false, false), ["hi"], 0), Press(Key(Enter, false, false), [""], 0), Incoming(env, None)]
  }

  lemma TypedSentReceivedState(env: Envelope)
    requires env.sender != "me"
    ensures
      var m := Run(Start("me", "notify"), TypedSentReceived(env));
      && m.messages == [PendingBubble("hi", 1, 0), IncomingBubble(m, env, None)]
      && m.autoCopy == "notify" && m.myId == "me" && m.nextSeq == 2
  {
    var m0, es := Start("me", "notify"), TypedSentReceived(env);
    assert Front(es) == es[..2] && Front(es[..2]) == es[..1] && Front(es[..1]) == [];
    assert Run(m0, es[..1]) == m0.(composer := ["hi"]);
    assert Trim("hi") == "hi" by {
      assert DropFront(IsSpace, "hi") == "hi" && Last("hi") == 'i';
    }
    var m2 := Run(m0, es[..2]);
    assert m2.messages == [PendingBubble("hi", 1, 0)];
    assert Run(m0, es) == PushIncoming(m2, env, None);
  }

  /** A clash: a foreign item reuses the id of an own text. */
  lemma ReusedIdMatters(env: Envelope)
    requires env.sender != "me" && env.msgId != ""
    ensures
      var m0, es := Start("me", "notify"), TypedSentReceived(env);
      var late, copied := Late(1, Sent(env.msgId, 1)), Copied(env.msgId);
      Run(m0, es + [late] + [copied]) != Run(m0, es + [copied] + [late])
  {
    var es, id := TypedSentReceived(env), env.msgId;
    TypedSentReceivedState(env);
    assert Replies(es) == map[] by {
      assert Front(es) == es[..2] && Front(es[..2]) == es[..1] && Front(es[..1]) == [];
      assert Replies(es[..1]) == map[] && Replies(es[..2]) == map[];
    }
    var ms := Run(Start("me", "notify"), es).messages;
    var at := SwapIff("me", "notify", es, 1, Sent(id, 1), id);
    assert at == 0 && ms[..0] == [] && ms[1..] == [ms[1]];
    assert First(HasId(id), [ms[1]]) == Some(0);
  }

  // ---- quitting ----

  ghost predicate AllMine(ms: seq<Message>) {
    forall i :: 0 <= i < |ms| ==> ms[i].mine
  }

  /** Something counts as received exactly when the chat shows a foreign item; only then the prompt can be up. */
  ghost predicate PromptOk(m: Model) {
    && (m.receivedAny <==> !AllMine(m.messages))
    && (m.quitPrompt ==> m.receivedAny)
  }

  lemma PromptSame(ms: seq<Message>, ns: seq<Message>)
    requires |ms| == |ns| && forall i :: 0 <= i < |ms| ==> ms[i].mine == ns[i].mine
    ensures AllMine(ms) == AllMine(ns)
  {
  }

  lemma PromptPush(ms: seq<Message>, b: Message)
    ensures AllMine(ms + [b]) == (AllMine(ms) && b.mine)
  {
    assert (ms + [b])[|ms|] == b;
    assert forall i :: 0 <= i < |ms| ==> (ms + [b])[i] == ms[i];
  }

  lemma PromptKey(m: Model, k: Key, edited: Lines, now: nat)
    requires PromptOk(m)
    ensures PromptOk(HandleKey(m, k, edited, now).0)
  {
    KeySubmitsOrKeeps(m, k, edited, now);
    PromptPush(m.messages, PendingBubble(Composed(m), m.nextSeq, now));
  }

  lemma PromptStep(m: Model, e: Event)
    requires PromptOk(m)
    ensures PromptOk(Step(m, e))
  {
    match e
    case Status(mode) =>
    case Press(k, edited, now) => PromptKey(m, k, edited, now);
    case Late(number, r) => PromptSame(m.messages, Result(m.messages, number, r));
    case Copied(id) => PromptSame(m.messages, MarkCopied(m.messages, id));
    case Incoming(env, path) => PromptPush(m.messages, IncomingBubble(m, env, path));
    case SentImage(env, path, reached) =>
      PromptPush(m.messages, Last(PushSentImage(m, env, path, reached).messages));
  }

  lemma {:induction false} PromptAlwaysOk(myId: string, mode: string, es: seq<Event>)
    ensures PromptOk(Run(Start(myId, mode), es))
  {
    if |es| >= 1 {
      PromptAlwaysOk(myId, mode, Front(es));
      PromptStep(Run(Start(myId, mode), Front(es)), Last(es));
    }
  }

  /**
   * In any reachable state, a key leaves the app at once only if every message shown is own; otherwise
   * the prompt must be up and the key be one of its answers. While it is up no key changes the state.
   */
  lemma QuittingAsksFirst(myId: string, mode: string, es: seq<Event>, k: Key, edited: Lines, now: nat)
    ensures
      var m := Run(Start(myId, mode), es);
      var (after, out) := HandleKey(m, k, edited, now);
      && (out.Quit? && !AllMine(m.messages) ==> m.quitPrompt && (k.code == Char('n') || k.code == Esc))
      && (out.ClearAndQuit? ==> m.quitPrompt && !AllMine(m.messages) && k.code == Char(if out.all then 'a' else 't'))
      && (m.quitPrompt ==> after == m)
      && (!m.quitPrompt && after.quitPrompt ==> !AllMine(m.messages) && after == m.(quitPrompt := true))
  {
    PromptAlwaysOk(myId, mode, es);
  }

  // ---- the app ----

  class App {
    var myId: string
    var autoCopy: string
    var messages: seq<Message>
    var selected: Option<nat>
    var follow: bool
    var focus: Focus
    var composer: Lines
    var nextSeq: nat
    var receivedAny: bool
    var quitPrompt: bool

    constructor (id: string, mode: string)
      ensures State() == Start(id, mode)
    {
      myId, autoCopy, messages, selected, follow := id, mode, [], None, true;
      focus, composer, nextSeq, receivedAny, quitPrompt := Compose, [""], 1, false, false;
    }

    function State(): Model
      reads this
    {
      Model(myId, autoCopy, messages, selected, follow, focus, composer, nextSeq, receivedAny, quitPrompt)
    }

    method PushIncomingItem(env: Envelope, localPath: Option<string>)
      modifies this
      ensures State() == PushIncoming(old(State()), env, localPath)
    {
      var mine := env.sender == myId;
      var sender := if |env.deviceName| == 0 then Short(env.sender) else env.deviceName;
      receivedAny := receivedAny || !mine;
      var notify := autoCopy == "notify";
      messages := messages
        + [Message(env.msgId, sender, mine, env.ts, BodyOf(env, localPath), false, None, notify && !mine, None)];
      if follow {
        selected := None;
      }
    }

    method Submit(now: nat) returns (out: Outcome)
      modifies this
      ensures (State(), out) == SubmitText(old(State()), now)
    {
      var text := Trim(W.Join(composer, '\n'));
      if |text| == 0 {
        return Nothing;
      }
      composer := [""];
      var number := nextSeq;
      nextSeq := nextSeq + 1;
      messages := messages + [Message("", "you", true, now, Text(text), true, None, false, Some(number))];
      selected := None;
      follow := true;
      out := Send(number, text);
    }

    /** The scan for the bubble of a submit. */
    method FindSeq(number: nat) returns (at: Option<nat>)
      ensures at == First(HasSeq(number), messages)
    {
      var i := 0;
      while i < |messages|
        invariant 0 <= i <= |messages|
        invariant forall j :: 0 <= j < i ==> messages[j].clientSeq != Some(number)
      {
        if messages[i].clientSeq == Some(number) {
          return Some(i);
        }
        i := i + 1;
      }
      at := None;
    }

    method OnSentResult(number: nat, r: SendResult)
      modifies this`messages
      ensures State() == Step(old(State()), Late(number, r))
    {
      var at := FindSeq(number);
      if at.None? {
        return;
      }
      var b := messages[at.value].(pending := false);
      match r {
        case Sent(id, reached) =>
          b := b.(msgId := id);
          if reached == 0 {
            b := b.(note := Some(UNDELIVERED));
          }
        case Failed(e) =>
          b := b.(note := Some("send failed: " + e));
      }
      messages := messages[at.value := b];
    }

    method MarkItemCopied(id: string)
      modifies this`messages
      ensures State() == Step(old(State()), Copied(id))
    {
      var i := 0;
      while i < |messages| && messages[i].msgId != id
        invariant 0 <= i <= |messages|
        invariant forall j :: 0 <= j < i ==> messages[j].msgId != id
      {
        i := i + 1;
      }
      assert First(HasId(id), messages) == if i < |messages| then Some(i) else None;
      if i < |messages| {
        messages := messages[i := messages[i].(acceptPending := false)];
      }
    }

    method PushOwnImage(env: Envelope, localPath: Option<string>, reached: nat)
      modifies this
      ensures State() == PushSentImage(old(State()), env, localPath, reached)
    {
      var body := Image(OrElse(env.blob, BLANK_BLOB), localPath);
      var note := if reached == 0 then Some(UNDELIVERED) else None;
      messages := messages + [Message(env.msgId, "you", true, env.ts, body, false, note, false, None)];
      selected := None;
      follow := true;
    }

    method MoveUp()
      modifies this`follow, this`selected
      ensures State() == SelectUp(old(State()))
    {
      if |messages| == 0 {
        return;
      }
      follow := false;
      var cur := OrElse(selected, |messages|);
      var up := if cur == 0 then 0 else cur - 1;
      selected := Some(if up < |messages| - 1 then up else |messages| - 1);
    }

    method MoveDown()
      modifies this`follow, this`selected
      ensures State() == SelectDown(old(State()))
    {
      if |messages| == 0 {
        return;
      }
      var last := |messages| - 1;
      match selected {
        case None =>
        case Some(i) =>
          if i >= last {
            follow := true;
            selected := None;
          } else {
            selected := Some(i + 1);
          }
      }
    }

    method AskToQuit() returns (out: Outcome)
      modifies this`quitPrompt
      ensures (State(), out) == RequestQuit(old(State()))
    {
      if receivedAny {
        quitPrompt := true;
        out := Redraw;
      } else {
        out := Quit;
      }
    }

    method OnComposeKey(k: Key, edited: Lines, now: nat) returns (out: Outcome)
      modifies this
      ensures (State(), out) == ComposeKey(old(State()), k, edited, now)
    {
      if k.ctrl && k.code == Char('v') {
        return SendClipboardImage;
      }
      out := Redraw;
      match k.code {
        case Enter => out := Submit(now);
        case Esc =>
          focus := Browse;
          if selected.None? && |messages| != 0 {
            follow := false;
            selected := Some(|messages| - 1);
          }
        case Up => MoveUp();
        case Down => MoveDown();
        case _ => composer := edited;
      }
    }

    method OnBrowseKey(k: Key) returns (out: Outcome)
      modifies this
      ensures (State(), out) == BrowseKey(old(State()), k)
    {
      if k.code == Esc || k.code == Char('i') {
        focus := Compose;
        out := Redraw;
      } else if k.code == Char('q') {
        out := AskToQuit();
      } else if k.code == Up || k.code == Char('k') {
        MoveUp();
        out := Redraw;
      } else if k.code == Down || k.code == Char('j') {
        MoveDown();
        out := Redraw;
      } else if k.code == Char('y') {
        out := Copy;
      } else if k.code == Char('s') {
        out := Save;
      } else if k.code == Char('o') {
        out := Open;
      } else {
        out := Nothing;
      }
    }

    method OnKey(k: Key, edited: Lines, now: nat) returns (out: Outcome)
      modifies this
      ensures (State(), out) == HandleKey(old(State()), k, edited, now)
    {
      if k.release {
        return Nothing;
      }
      if quitPrompt {
        return AnswerPrompt(k);
      }
      if k.ctrl && k.code == Char('c') {
        out := AskToQuit();
        return;
      }
      if focus == Compose {
        out := OnComposeKey(k, edited, now);
      } else {
        out := OnBrowseKey(k);
      }
    }
  }
}
