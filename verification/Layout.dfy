/**
 * The scrollback of the chat view: rows, per-message blocks, scroll offset and image overlay. The
 * drawing widget takes the offset as a 16-bit number, which is where the overlay can go wrong.
 */
module Layout {
  import opened Util
  import W = WrapLine

  const IMG_ROWS := 10
  const IMG_CAPTION_LINES := 2

  datatype Body = Text(t: string) | Image | File(hasPath: bool)

  type Wrapped = ls: seq<string> | |ls| >= 1 witness [""]

  /** A message body once its text is wrapped to the width of the view. */
  datatype Shape = Para(lines: Wrapped) | Picture | Card(hasPath: bool)

  function ShapeOf(b: Body, width: W.Width): Shape {
    match b
    case Text(t) => W.WrappedFits(t, width); Para(W.Wrap(t, width))
    case Image => Picture
    case File(hasPath) => Card(hasPath)
  }

  /** What the app shows: the messages' bodies and the selection. */
  datatype Scene = Scene(bodies: seq<Body>, selected: Option<nat>, follow: bool)

  /** A row of the scrollback, with the message it belongs to. */
  datatype Row =
    | Placeholder
    | Header(msg: nat)
    | TextRow(msg: nat, s: string)
    | Caption(msg: nat)
    | ImageRow(msg: nat, k: nat)
    | CardRow(msg: nat)
    | PathRow(msg: nat)
    | Spacer(msg: nat)

  datatype Line = Line(row: Row, highlighted: bool)

  datatype Block = Block(start: nat, height: nat, img: bool)

  /** The same once the texts are wrapped. */
  datatype View = View(shapes: seq<Shape>, selected: Option<nat>, follow: bool)

  function ViewOf(c: Scene, width: W.Width): (v: View)
    ensures |v.shapes| == |c.bodies|
    ensures forall i :: 0 <= i < |c.bodies| ==> v.shapes[i] == ShapeOf(c.bodies[i], width)
  {
    View(seq(|c.bodies|, i requires 0 <= i < |c.bodies| => ShapeOf(c.bodies[i], width)), c.selected, c.follow)
  }

  function TextRows(i: nat, ls: seq<string>): (r: seq<Row>)
    ensures |r| == |ls|
  {
    seq(|ls|, k requires 0 <= k < |ls| => TextRow(i, ls[k]))
  }

  function ImageRows(i: nat): (r: seq<Row>)
    ensures |r| == IMG_ROWS
  {
    seq(IMG_ROWS, k requires 0 <= k => ImageRow(i, k))
  }

  function BodyRows(i: nat, b: Shape): seq<Row> {
    match b
    case Para(ls) => TextRows(i, ls)
    case Picture => [Caption(i)] + ImageRows(i)
    case Card(hasPath) => [CardRow(i)] + if hasPath then [PathRow(i)] else []
  }

  /** Header, body, and the blank row between bubbles. */
  function BlockRows(i: nat, b: Shape): seq<Row> {
    [Header(i)] + BodyRows(i, b) + [Spacer(i)]
  }

  /** The message an action targets: the highlight, else the latest. */
  function TargetOf(n: nat, selected: Option<nat>): Option<nat> {
    if n == 0 then None else Some(if selected.Some? then selected.value else n - 1)
  }

  predicate Highlights(v: View, i: nat) {
    TargetOf(|v.shapes|, v.selected) == Some(i) && !v.follow
  }

  function Marked(rows: seq<Row>, on: bool): (r: seq<Line>)
    ensures |r| == |rows|
    ensures forall k :: 0 <= k < |rows| ==> r[k] == Line(rows[k], on)
  {
    seq(|rows|, k requires 0 <= k < |rows| => Line(rows[k], on))
  }

  /** The lines of message `i`; none past the last message. */
  function LinesOf(v: View, i: nat): seq<Line> {
    if i < |v.shapes| then Marked(BlockRows(i, v.shapes[i]), Highlights(v, i)) else []
  }

  function BlockLines(v: View): nat -> seq<Line> {
    (i: nat) => LinesOf(v, i)
  }

  /** How many lines precede message `i`. */
  function Start(v: View, i: nat): nat {
    |Joined(BlockLines(v), i)|
  }

  function BlockOf(v: View, i: nat): Block {
    Block(Start(v, i), |LinesOf(v, i)|, i < |v.shapes| && v.shapes[i].Picture?)
  }

  function BlockAt(v: View): nat -> Block {
    (i: nat) => BlockOf(v, i)
  }

  function Blocks(v: View, n: nat): seq<Block> {
    Table(BlockAt(v), n)
  }

  /** The whole scrollback; an empty chat shows one placeholder row. */
  function AllLines(v: View): seq<Line> {
    if |v.shapes| == 0 then [Line(Placeholder, false)] else Joined(BlockLines(v), |v.shapes|)
  }

  /** What the loop over the messages has pushed after `n` of them. */
  ghost predicate Built(v: View, n: nat, lines: seq<Line>, blocks: seq<Block>) {
    lines == Joined(BlockLines(v), n) && blocks == Blocks(v, n)
  }

  lemma BuiltNone(v: View)
    ensures Built(v, 0, [], [])
  {
  }

  lemma LinesPush(v: View, i: nat, rows: seq<Row>)
    requires i < |v.shapes| && rows == BlockRows(i, v.shapes[i])
    ensures Joined(BlockLines(v), i + 1) == Joined(BlockLines(v), i) + Marked(rows, Highlights(v, i))
  {
  }

  lemma BlocksPush(v: View, i: nat)
    ensures Blocks(v, i + 1) == Blocks(v, i) + [BlockOf(v, i)]
  {
    TablePush(BlockAt(v), i);
  }

  lemma BuiltPush(v: View, i: nat, lines: seq<Line>, blocks: seq<Block>, rows: seq<Row>)
    requires i < |v.shapes| && Built(v, i, lines, blocks) && rows == BlockRows(i, v.shapes[i])
    ensures Built(v, i + 1, lines + Marked(rows, Highlights(v, i)),
                  blocks + [Block(|lines|, |rows|, v.shapes[i].Picture?)])
  {
    LinesPush(v, i, rows);
    BlocksPush(v, i);
  }

  lemma ScenePush(
    c: Scene, width: W.Width, i: nat, lines: seq<Line>, blocks: seq<Block>, marked: seq<Line>,
    block: Block)
    requires i < |c.bodies| && Built(ViewOf(c, width), i, lines, blocks)
    requires marked ==
      Marked(BlockRows(i, ShapeOf(c.bodies[i], width)), TargetOf(|c.bodies|, c.selected) == Some(i) && !c.follow)
    requires block == Block(|lines|, |marked|, c.bodies[i].Image?)
    ensures Built(ViewOf(c, width), i + 1, lines + marked, blocks + [block])
  {
    var v := ViewOf(c, width);
    assert v.shapes[i].Picture? == c.bodies[i].Image?;
    BuiltPush(v, i, lines, blocks, BlockRows(i, v.shapes[i]));
  }

  function AllBlocks(v: View): seq<Block> {
    Blocks(v, |v.shapes|)
  }

  // ---- blocks partition the lines ----

  lemma BlockHeight(i: nat, b: Shape)
    ensures |BlockRows(i, b)| >= 3
    ensures b.Picture? ==> |BlockRows(i, b)| == IMG_CAPTION_LINES + IMG_ROWS + 1
  {
  }

  /** Block `i` ends where block `i + 1` starts, or with the last line. */
  ghost predicate EndsWhereNextStarts(v: View, i: nat)
    requires i < |v.shapes|
  {
    var end := AllBlocks(v)[i].start + AllBlocks(v)[i].height;
    end == if i + 1 < |v.shapes| then AllBlocks(v)[i + 1].start else |AllLines(v)|
  }

  /** The lines of block `i` are the rows of message `i`, highlighted iff the message is. */
  ghost predicate HoldsMessage(v: View, i: nat)
    requires i < |v.shapes|
  {
    var b := AllBlocks(v)[i];
    && b.start + b.height <= |AllLines(v)|
    && AllLines(v)[b.start..b.start + b.height] == Marked(BlockRows(i, v.shapes[i]), Highlights(v, i))
  }

  lemma BlockEnds(v: View, i: nat)
    requires i < |v.shapes|
    ensures EndsWhereNextStarts(v, i)
  {
    LinesPush(v, i, BlockRows(i, v.shapes[i]));
    assert AllBlocks(v)[i] == BlockOf(v, i);
    if i + 1 < |v.shapes| {
      assert AllBlocks(v)[i + 1] == BlockOf(v, i + 1);
    }
  }

  lemma BlockHolds(v: View, i: nat)
    requires i < |v.shapes|
    ensures HoldsMessage(v, i)
  {
    JoinedPart(BlockLines(v), |v.shapes|, i);
    assert LinesOf(v, i) == Marked(BlockRows(i, v.shapes[i]), Highlights(v, i));
  }

  /**
   * Blocks are contiguous and disjoint, start at the first row and reach the last; the rows of a
   * block are exactly its message's rows, and a row is highlighted iff its message is.
   */
  lemma BlocksPartitionLines(v: View, i: nat)
    requires i < |v.shapes|
    ensures |AllBlocks(v)| == |v.shapes| && AllBlocks(v)[0].start == 0 && AllBlocks(v)[i].height >= 3
    ensures EndsWhereNextStarts(v, i)
    ensures HoldsMessage(v, i)
  {
    BlockEnds(v, i);
    BlockHolds(v, i);
    BlockHeight(i, v.shapes[i]);
  }

  // ---- the scroll offset ----

  function SatSub(a: nat, b: nat): nat {
    if a <= b then 0 else a - b
  }

  /** Pinned to the bottom while following, else placed so that the highlighted block shows. */
  function Offset(v: View, blocks: seq<Block>, total: nat, viewport: nat): nat {
    var maxOff := SatSub(total, viewport);
    if !v.follow && v.selected.Some? && v.selected.value < |blocks| then
      var b := blocks[v.selected.value];
      var off := SatSub(b.start + b.height, viewport);
      var shown := if off > b.start then b.start else off;
      if shown < maxOff then shown else maxOff
    else maxOff
  }

  function ViewOffset(v: View, viewport: nat): nat {
    Offset(v, AllBlocks(v), |AllLines(v)|, viewport)
  }

  /**
   * The offset never scrolls past the end. A selected block that fits is wholly in the viewport; one
   * that does not has its first row at the top. While following, the last row is in the viewport.
   */
  lemma OffsetShowsSelection(v: View, viewport: nat)
    requires viewport >= 1
    ensures
      var ls, bs := AllLines(v), AllBlocks(v);
      var off := ViewOffset(v, viewport);
      && (off == 0 || off + viewport <= |ls|)
      && (v.follow || v.selected.None? ==> off < |ls| <= off + viewport)
      && (!v.follow && v.selected.Some? && v.selected.value < |bs| ==>
           var b := bs[v.selected.value];
           && (b.height <= viewport ==> off <= b.start && b.start + b.height <= off + viewport)
           && (b.height > viewport ==> off == b.start))
  {
    if !v.follow && v.selected.Some? && v.selected.value < |v.shapes| {
      BlocksPartitionLines(v, v.selected.value);
    }
    if |v.shapes| > 0 {
      BlocksPartitionLines(v, 0);
    }
  }

  // ---- the image overlay ----

  /** Where in the viewport the thumbnail of a block is drawn, if it is drawn. */
  function ThumbnailAt(b: Block, offset: nat, viewport: nat): Option<nat> {
    if !b.img || b.start + IMG_CAPTION_LINES < offset then None
    else
      var rel := b.start + IMG_CAPTION_LINES - offset;
      if rel + IMG_ROWS > viewport then None else Some(rel)
  }

  /** The row the widget paints at height `y`: it is given the offset cut down to 16 bits. */
  function Painted(ls: seq<Line>, offset: nat, y: nat): Option<Row> {
    var at := offset % 65536 + y;
    if at < |ls| then Some(ls[at].row) else None
  }

  /** A thumbnail is drawn over the ten image rows of its own block. */
  ghost predicate CoversOwnRows(v: View, viewport: nat, i: nat, rel: nat) {
    forall k :: 0 <= k < IMG_ROWS ==>
      Painted(AllLines(v), ViewOffset(v, viewport), rel + k) == Some(ImageRow(i, k))
  }

  lemma RowAt(v: View, i: nat, k: nat)
    requires i < |v.shapes| && k < |BlockRows(i, v.shapes[i])|
    ensures
      var p := Start(v, i) + k;
      p < |AllLines(v)| && AllLines(v)[p].row == BlockRows(i, v.shapes[i])[k]
  {
    BlockHolds(v, i);
    var b := AllBlocks(v)[i];
    assert b == BlockOf(v, i);
    SliceAt(AllLines(v), b.start, b.start + b.height, k);
  }

  lemma PictureRow(i: nat, k: nat)
    requires k < IMG_ROWS
    ensures BlockRows(i, Picture)[IMG_CAPTION_LINES + k] == ImageRow(i, k)
  {
    var rows := BlockRows(i, Picture);
    assert rows[1..|rows| - 1] == BodyRows(i, Picture);
    assert rows[IMG_CAPTION_LINES + k] == BodyRows(i, Picture)[k + 1];
  }

  lemma ImageRowsOf(v: View, i: nat, k: nat)
    requires i < |v.shapes| && v.shapes[i].Picture? && k < IMG_ROWS
    ensures
      var p := Start(v, i) + IMG_CAPTION_LINES + k;
      p < |AllLines(v)| && AllLines(v)[p].row == ImageRow(i, k)
  {
    PictureRow(i, k);
    RowAt(v, i, IMG_CAPTION_LINES + k);
  }

  /** The first image row of message `i` is at one place only. */
  lemma FirstImageRowIndex(i: nat, j: nat, b: Shape, k: nat)
    requires k < |BlockRows(j, b)| && BlockRows(j, b)[k] == ImageRow(i, 0)
    ensures i == j && k == IMG_CAPTION_LINES
  {
    var rows := BlockRows(j, b);
    assert rows == [Header(j)] + BodyRows(j, b) + [Spacer(j)];
    assert 1 <= k < |rows| - 1;
    assert rows[k] == BodyRows(j, b)[k - 1];
  }

  lemma RowOwner(v: View, p: nat) returns (j: nat, k: nat)
    requires |v.shapes| >= 1 && p < |AllLines(v)|
    ensures j < |v.shapes| && p == Start(v, j) + k && k < |BlockRows(j, v.shapes[j])|
    ensures AllLines(v)[p].row == BlockRows(j, v.shapes[j])[k]
  {
    j := JoinedOwner(BlockLines(v), |v.shapes|, p);
    k := p - Start(v, j);
    RowAt(v, j, k);
  }

  lemma FirstImageRowUnique(v: View, i: nat, p: nat)
    requires i < |v.shapes| && p < |AllLines(v)|
    requires AllLines(v)[p].row == ImageRow(i, 0)
    ensures p == Start(v, i) + IMG_CAPTION_LINES
  {
    var j, k := RowOwner(v, p);
    FirstImageRowIndex(i, j, v.shapes[j], k);
  }

  lemma OwnRowPainted(v: View, i: nat, offset: nat, rel: nat, k: nat)
    requires i < |v.shapes| && v.shapes[i].Picture? && k < IMG_ROWS
    requires offset < 65536 && offset + rel == Start(v, i) + IMG_CAPTION_LINES
    ensures Painted(AllLines(v), offset, rel + k) == Some(ImageRow(i, k))
  {
    assert offset % 65536 == offset;
    ImageRowsOf(v, i, k);
  }

  lemma ForeignRowPainted(v: View, i: nat, offset: nat, rel: nat)
    requires i < |v.shapes|
    requires offset >= 65536 && offset + rel == Start(v, i) + IMG_CAPTION_LINES
    ensures Painted(AllLines(v), offset, rel + 0) != Some(ImageRow(i, 0))
  {
    var p := offset % 65536 + rel;
    if p < |AllLines(v)| && AllLines(v)[p].row == ImageRow(i, 0) {
      FirstImageRowUnique(v, i, p);
      assert false;
    }
  }

  /** Every thumbnail drawn covers exactly its own ten rows if and only if the offset fits 16 bits. */
  lemma ThumbnailCoversItsRowsIff(v: View, viewport: nat, i: nat)
    requires i < |v.shapes|
    requires ThumbnailAt(BlockOf(v, i), ViewOffset(v, viewport), viewport).Some?
    ensures
      var off := ViewOffset(v, viewport);
      var rel := ThumbnailAt(BlockOf(v, i), off, viewport).value;
      && rel + IMG_ROWS <= viewport
      && (CoversOwnRows(v, viewport, i, rel) <==> off < 65536)
  {
    var off := ViewOffset(v, viewport);
    var rel := ThumbnailAt(BlockOf(v, i), off, viewport).value;
    if off < 65536 {
      forall k | 0 <= k < IMG_ROWS ensures Painted(AllLines(v), off, rel + k) == Some(ImageRow(i, k)) {
        OwnRowPainted(v, i, off, rel, k);
      }
    } else {
      ForeignRowPainted(v, i, off, rel);
    }
  }

  lemma {:induction false} EmptyTextRows(v: View, n: nat)
    requires n <= |v.shapes| && forall i :: 0 <= i < n ==> v.shapes[i] == Para([""])
    ensures Start(v, n) == 3 * n
  {
    if n > 0 {
      EmptyTextRows(v, n - 1);
      assert |BlockRows(n - 1, Para([""]))| == 3;
    }
  }

  lemma EmptyTextIsOneLine(width: W.Width)
    ensures ShapeOf(Text(""), width) == Para([""])
  {
    assert W.AddWords([""], width) == W.Pen([], "");
    FlatMapOne(W.Paragraphs(width), "");
  }

  /** 22000 empty texts and an image, followed to the end. */
  function LongChat(): Scene {
    Scene(seq(22000, i => Text("")) + [Image], None, true)
  }

  lemma LongChatShapes(width: W.Width)
    ensures
      var v := ViewOf(LongChat(), width);
      && v.follow && |v.shapes| == 22001 && v.shapes[22000] == Picture
      && forall i :: 0 <= i < 22000 ==> v.shapes[i] == Para([""])
  {
    EmptyTextIsOneLine(width);
  }

  /** An image behind 66000 rows, followed to the end in 24 rows. */
  lemma EndOffset(v: View, n: nat)
    requires |v.shapes| == n + 1 && v.follow && v.shapes[n] == Picture && Start(v, n) == 66000
    ensures BlockOf(v, n) == Block(66000, 13, true) && ViewOffset(v, 24) == 65989
  {
    BlockHeight(n, Picture);
    BlockEnds(v, n);
    assert AllBlocks(v)[n] == BlockOf(v, n);
  }

  lemma LongChatOffset(width: W.Width)
    ensures
      var v := ViewOf(LongChat(), width);
      BlockOf(v, 22000) == Block(66000, 13, true) && ViewOffset(v, 24) == 65989
  {
    var v := ViewOf(LongChat(), width);
    LongChatShapes(width);
    EmptyTextRows(v, 22000);
    EndOffset(v, 22000);
  }

  /** In that chat, in 24 rows, the thumbnail at the bottom is drawn over foreign rows. */
  lemma LongChatMisplacesThumbnail(width: W.Width)
    ensures
      var v := ViewOf(LongChat(), width);
      var at := ThumbnailAt(BlockOf(v, 22000), ViewOffset(v, 24), 24);
      at.Some? && !CoversOwnRows(v, 24, 22000, at.value)
  {
    LongChatOffset(width);
    ThumbnailCoversItsRowsIff(ViewOf(LongChat(), width), 24, 22000);
  }

  // ---- the loop ----

  /** build_lines: the placeholder, then one pass over the messages. */
  method BuildLines(c: Scene, givenWidth: nat) returns (lines: seq<Line>, blocks: seq<Block>, total: nat)
    ensures lines == AllLines(ViewOf(c, W.AtLeastOne(givenWidth)))
    ensures blocks == AllBlocks(ViewOf(c, W.AtLeastOne(givenWidth)))
    ensures total == |lines|
  {
    var width := W.AtLeastOne(givenWidth);
    if |c.bodies| == 0 {
      lines, blocks := [Line(Placeholder, false)], [];
    } else {
      lines, blocks := BuildBlocks(c, width);
    }
    total := |lines|;
  }

  method BuildBlocks(c: Scene, width: W.Width) returns (lines: seq<Line>, blocks: seq<Block>)
    ensures Built(ViewOf(c, width), |c.bodies|, lines, blocks)
  {
    lines, blocks := [], [];
    BuiltNone(ViewOf(c, width));
    var target := TargetOf(|c.bodies|, c.selected);
    var i := 0;
    while i < |c.bodies|
      invariant 0 <= i <= |c.bodies|
      invariant Built(ViewOf(c, width), i, lines, blocks)
    {
      var marked, block := PushMessage(c, i, width, target, |lines|);
      ScenePush(c, width, i, lines, blocks, marked, block);
      lines := lines + marked;
      blocks := blocks + [block];
      i := i + 1;
    }
  }

  /** One turn of the loop: what message `i` adds. */
  method PushMessage(c: Scene, i: nat, width: W.Width, target: Option<nat>, start: nat)
    returns (marked: seq<Line>, block: Block)
    requires i < |c.bodies|
    ensures marked == Marked(BlockRows(i, ShapeOf(c.bodies[i], width)), target == Some(i) && !c.follow)
    ensures block == Block(start, |marked|, c.bodies[i].Image?)
  {
    var rows := MessageRows(i, c.bodies[i], width);
    marked := Marked(rows, target == Some(i) && !c.follow);
    block := Block(start, |marked|, c.bodies[i].Image?);
  }

  /** The rows pushed for one message. */
  method MessageRows(i: nat, b: Body, width: W.Width) returns (rows: seq<Row>)
    ensures rows == BlockRows(i, ShapeOf(b, width))
  {
    rows := [Header(i)];
    match b {
      case Text(t) =>
        var ls := W.WrapLine(t, width);
        rows := rows + TextRows(i, ls);
      case Image =>
        rows := rows + ([Caption(i)] + ImageRows(i));
      case File(hasPath) =>
        rows := rows + ([CardRow(i)] + if hasPath then [PathRow(i)] else []);
    }
    rows := rows + [Spacer(i)];
  }
}
