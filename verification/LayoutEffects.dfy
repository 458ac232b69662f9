/**
 * What the scrollback shows: the rows of every message where its block says, the exact scroll offset,
 * and exactly which thumbnails are drawn, and where.
 */
module LayoutEffects {
  import opened Util
  import opened Layout
  import W = WrapLine

  /** The message a key would act on is marked, unless the view follows the newest. */
  predicate IsMarked(c: Scene, i: nat) {
    !c.follow && (c.selected == Some(i) || (c.selected.None? && i + 1 == |c.bodies|))
  }

  /** The lines of a block. */
  function Part(lines: seq<Line>, b: Block): seq<Line> {
    if b.start + b.height <= |lines| then lines[b.start..b.start + b.height] else []
  }

  /** The lines where the block of message `i` is. */
  function Shown(c: Scene, width: W.Width, i: nat): seq<Line>
    requires i < |c.bodies|
  {
    Part(AllLines(ViewOf(c, width)), AllBlocks(ViewOf(c, width))[i])
  }

  lemma MarkedIff(c: Scene, width: W.Width, i: nat)
    requires i < |c.bodies|
    ensures Highlights(ViewOf(c, width), i) == IsMarked(c, i)
  {
  }

  lemma ShownIs(c: Scene, width: W.Width, i: nat, shape: Shape)
    requires i < |c.bodies| && ShapeOf(c.bodies[i], width) == shape
    ensures Shown(c, width, i) == Marked(BlockRows(i, shape), IsMarked(c, i))
  {
    BlocksPartitionLines(ViewOf(c, width), i);
    MarkedIff(c, width, i);
  }

  lemma TextPart(part: seq<Line>, i: nat, ls: Wrapped, on: bool)
    requires part == Marked(BlockRows(i, Para(ls)), on)
    ensures |part| == |ls| + 2 && part[0] == Line(Header(i), on) && part[|ls| + 1] == Line(Spacer(i), on)
    ensures forall k :: 0 <= k < |ls| ==> part[k + 1] == Line(TextRow(i, ls[k]), on)
  {
    var rows := BlockRows(i, Para(ls));
    assert rows[1..|ls| + 1] == TextRows(i, ls);
    forall k | 0 <= k < |ls| ensures part[k + 1] == Line(TextRow(i, ls[k]), on) {
      assert rows[k + 1] == rows[1..|ls| + 1][k];
    }
  }

  /** Where a text's block is, there are its header, its wrapped lines in order, and its spacer. */
  lemma TextIsShown(c: Scene, width: W.Width, i: nat)
    requires i < |c.bodies| && c.bodies[i].Text?
    ensures
      var part, ls, on := Shown(c, width, i), W.Wrap(c.bodies[i].t, width), IsMarked(c, i);
      && |part| == |ls| + 2 && part[0] == Line(Header(i), on) && part[|ls| + 1] == Line(Spacer(i), on)
      && forall k :: 0 <= k < |ls| ==> part[k + 1] == Line(TextRow(i, ls[k]), on)
  {
    var ls := W.Wrap(c.bodies[i].t, width);
    W.WrappedFits(c.bodies[i].t, width);
    ShownIs(c, width, i, Para(ls));
    TextPart(Shown(c, width, i), i, ls, IsMarked(c, i));
  }

  lemma ImagePart(part: seq<Line>, i: nat, on: bool)
    requires part == Marked(BlockRows(i, Picture), on)
    ensures |part| == 13 && part[0] == Line(Header(i), on) && part[1] == Line(Caption(i), on)
    ensures part[12] == Line(Spacer(i), on)
    ensures forall k :: 0 <= k < 10 ==> part[k + 2] == Line(ImageRow(i, k), on)
  {
    forall k | 0 <= k < 10 ensures part[k + 2] == Line(ImageRow(i, k), on) {
      PictureRow(i, k);
    }
  }

  /** Where an image's block is, there are its header, its caption, ten blank rows and its spacer. */
  lemma ImageIsShown(c: Scene, width: W.Width, i: nat)
    requires i < |c.bodies| && c.bodies[i].Image?
    ensures
      var part, on := Shown(c, width, i), IsMarked(c, i);
      && |part| == 13 && part[0] == Line(Header(i), on) && part[1] == Line(Caption(i), on)
      && part[12] == Line(Spacer(i), on)
      && forall k :: 0 <= k < 10 ==> part[k + 2] == Line(ImageRow(i, k), on)
  {
    ShownIs(c, width, i, Picture);
    ImagePart(Shown(c, width, i), i, IsMarked(c, i));
  }

  /** Where a file's block is, there are its header, its card, its path if it was saved, and its spacer. */
  lemma FileIsShown(c: Scene, width: W.Width, i: nat)
    requires i < |c.bodies| && c.bodies[i].File?
    ensures
      var on := IsMarked(c, i);
      Shown(c, width, i) == [Line(Header(i), on), Line(CardRow(i), on)]
        + (if c.bodies[i].hasPath then [Line(PathRow(i), on)] else []) + [Line(Spacer(i), on)]
  {
    ShownIs(c, width, i, Card(c.bodies[i].hasPath));
    FilePart(Shown(c, width, i), i, c.bodies[i].hasPath, IsMarked(c, i));
  }

  lemma FilePart(part: seq<Line>, i: nat, saved: bool, on: bool)
    requires part == Marked(BlockRows(i, Card(saved)), on)
    ensures part == [Line(Header(i), on), Line(CardRow(i), on)]
                    + (if saved then [Line(PathRow(i), on)] else []) + [Line(Spacer(i), on)]
  {
    if saved {
      assert BlockRows(i, Card(true)) == [Header(i), CardRow(i), PathRow(i), Spacer(i)];
    } else {
      assert BlockRows(i, Card(false)) == [Header(i), CardRow(i), Spacer(i)];
    }
  }

  /**
   * The offset is exact: a marked block that fits ends at the bottom of the viewport unless all before
   * it fits as well; following shows the end, or everything.
   */
  lemma OffsetIsExact(v: View, viewport: nat)
    requires viewport >= 1
    ensures
      var off, bs, total := ViewOffset(v, viewport), AllBlocks(v), |AllLines(v)|;
      && (v.follow || v.selected.None? ==> if total <= viewport then off == 0 else off + viewport == total)
      && (!v.follow && v.selected.Some? && v.selected.value < |bs| ==>
           var end := bs[v.selected.value].start + bs[v.selected.value].height;
           bs[v.selected.value].height <= viewport ==> if end <= viewport then off == 0 else off + viewport == end)
  {
    if !v.follow && v.selected.Some? && v.selected.value < |v.shapes| {
      BlocksPartitionLines(v, v.selected.value);
    }
  }

  /** A thumbnail is drawn if and only if the block is an image's and all its ten rows are in the viewport. */
  lemma ThumbnailDrawnIff(v: View, viewport: nat, i: nat)
    requires i < |v.shapes|
    ensures
      var b, off := AllBlocks(v)[i], ViewOffset(v, viewport);
      var at := ThumbnailAt(b, off, viewport);
      && (at.Some? <==> v.shapes[i].Picture? && off <= b.start + 2 && b.start + 12 <= off + viewport)
      && (at.Some? ==> off + at.value == b.start + 2)
  {
    BlocksPartitionLines(v, i);
  }
}
