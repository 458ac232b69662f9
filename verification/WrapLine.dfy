/**
 * Word wrapping for the chat view of mesh-rs, counted in characters. The wrapped lines fit the width,
 * carry exactly the words of the text (an over-long one in full-width pieces), and break only where
 * the next word would not have fitted.
 */
module WrapLine {
  import opened Util

  type Width = n: nat | n >= 1 witness 1

  // ---- splitting at a character ----

  /** str::split: the pieces between occurrences of `c`; always at least one. */
  function Split(s: string, c: char): (r: seq<string>)
    ensures |r| >= 1
  {
    if |s| == 0 then [""] else Pushed(Split(Front(s), c), Last(s), c)
  }

  /** The pieces after one more character. */
  function Pushed(ps: seq<string>, x: char, c: char): (r: seq<string>)
    requires |ps| >= 1
    ensures |r| >= 1
  {
    if x == c then ps + [""] else Front(ps) + [Last(ps) + [x]]
  }

  lemma SplitPush(s: string, x: char, c: char)
    ensures Split(s + [x], c) == Pushed(Split(s, c), x, c)
  {
    assert Front(s + [x]) == s;
  }

  ghost predicate Without(ps: seq<string>, c: char) {
    forall i :: 0 <= i < |ps| ==> c !in ps[i]
  }

  function Join(ps: seq<string>, c: char): string
    requires |ps| >= 1
  {
    if |ps| == 1 then ps[0] else Join(Front(ps), c) + [c] + Last(ps)
  }

  lemma JoinPushed(ps: seq<string>, x: char, c: char)
    requires |ps| >= 1
    ensures Join(Pushed(ps, x, c), c) == Join(ps, c) + [x]
  {
    var r := Pushed(ps, x, c);
    if x == c {
      assert Front(r) == ps;
    } else {
      assert Front(r) == Front(ps);
    }
  }

  lemma WithoutPushed(ps: seq<string>, x: char, c: char)
    requires |ps| >= 1 && Without(ps, c)
    ensures Without(Pushed(ps, x, c), c)
  {
    var r := Pushed(ps, x, c);
    forall i | 0 <= i < |r| ensures c !in r[i] {
      assert i < |ps| - 1 ==> r[i] == ps[i];
    }
  }

  /** The pieces hold no separator, and joining them with it gives the string back. */
  lemma {:induction false} SplitJoin(s: string, c: char)
    ensures Without(Split(s, c), c) && Join(Split(s, c), c) == s
  {
    if |s| > 0 {
      var t, x := Front(s), Last(s);
      SplitJoin(t, c);
      JoinPushed(Split(t, c), x, c);
      WithoutPushed(Split(t, c), x, c);
      assert t + [x] == s;
    }
  }

  lemma PushedConcat(p: seq<string>, q: seq<string>, x: char, c: char)
    requires |q| >= 1
    ensures Pushed(p + q, x, c) == p + Pushed(q, x, c)
  {
    assert Front(p + q) == p + Front(q);
  }

  lemma {:induction false} SplitConcat(a: string, b: string, c: char)
    ensures Split(a + [c] + b, c) == Split(a, c) + Split(b, c)
  {
    if |b| == 0 {
      SplitPush(a, c, c);
      assert a + [c] + b == a + [c];
    } else {
      var t, x := Front(b), Last(b);
      SplitConcat(a, t, c);
      SplitPush(a + [c] + t, x, c);
      PushedConcat(Split(a, c), Split(t, c), x, c);
      assert a + [c] + b == (a + [c] + t) + [x];
    }
  }

  lemma {:induction false} SplitWhole(a: string, c: char)
    requires c !in a
    ensures Split(a, c) == [a]
  {
    if |a| > 0 {
      assert a == Front(a) + [Last(a)];
      SplitWhole(Front(a), c);
    }
  }

  // ---- the wrapping ----

  /** What is finished, and the line being filled. */
  datatype Pen = Pen(lines: seq<string>, cur: string)

  /** A word cut into pieces of `width`, the last one possibly shorter. */
  function Chunks(word: string, width: Width): (r: seq<string>)
    ensures |r| >= 1
    decreases |word|
  {
    if |word| <= width then [word] else [word[..width]] + Chunks(word[width..], width)
  }

  /** A word that starts a line. */
  function StartLine(lines: seq<string>, word: string, width: Width): Pen {
    Pen(lines + Front(Chunks(word, width)), Last(Chunks(word, width)))
  }

  function AddWord(p: Pen, word: string, width: Width): Pen {
    if |p.cur| == 0 then StartLine(p.lines, word, width)
    else if |p.cur| + 1 + |word| <= width then Pen(p.lines, p.cur + [' '] + word)
    else StartLine(p.lines + [p.cur], word, width)
  }

  function AddWords(words: seq<string>, width: Width): Pen {
    if |words| == 0 then Pen([], "") else AddWord(AddWords(Front(words), width), Last(words), width)
  }

  /** The lines of a pen that is put down. */
  function Lines(p: Pen): seq<string> {
    p.lines + [p.cur]
  }

  /** The lines of one paragraph. */
  function WrapParagraph(raw: string, width: Width): seq<string> {
    Lines(AddWords(Split(raw, ' '), width))
  }

  function Paragraphs(width: Width): string -> seq<string> {
    raw => WrapParagraph(raw, width)
  }

  function Wrap(s: string, width: Width): seq<string> {
    FlatMap(Paragraphs(width), Split(s, '\n'))
  }

  lemma StartLineLines(lines: seq<string>, word: string, width: Width)
    ensures Lines(StartLine(lines, word, width)) == lines + Chunks(word, width)
  {
  }

  // ---- every line fits ----

  ghost predicate Fits(lines: seq<string>, width: Width) {
    forall i :: 0 <= i < |lines| ==> |lines[i]| <= width
  }

  lemma {:induction false} ChunksFit(word: string, width: Width)
    ensures Fits(Chunks(word, width), width)
    ensures forall i :: 0 <= i < |Chunks(word, width)| - 1 ==> |Chunks(word, width)[i]| == width
    ensures |word| >= 1 ==> forall i :: 0 <= i < |Chunks(word, width)| ==> |Chunks(word, width)[i]| >= 1
    decreases |word|
  {
    if |word| > width {
      ChunksFit(word[width..], width);
    }
  }

  lemma {:induction false} WordsFit(words: seq<string>, width: Width)
    ensures Fits(AddWords(words, width).lines, width) && |AddWords(words, width).cur| <= width
  {
    if |words| > 0 {
      WordsFit(Front(words), width);
      ChunksFit(Last(words), width);
    }
  }

  lemma {:induction false} AllFit(raws: seq<string>, width: Width)
    ensures Fits(FlatMap(Paragraphs(width), raws), width)
    ensures |FlatMap(Paragraphs(width), raws)| >= |raws|
  {
    if |raws| > 0 {
      AllFit(Front(raws), width);
      WordsFit(Split(Last(raws), ' '), width);
    }
  }

  /** There is at least one line, and no line exceeds the width. */
  lemma WrappedFits(s: string, width: Width)
    ensures |Wrap(s, width)| >= 1
    ensures forall i :: 0 <= i < |Wrap(s, width)| ==> |Wrap(s, width)[i]| <= width
  {
    AllFit(Split(s, '\n'), width);
  }

  // ---- no word is lost, moved or split ----

  function OneOrNone(word: string): seq<string> {
    if |word| == 0 then [] else [word]
  }

  /** The words of a line. */
  function Words(line: string): seq<string> {
    FlatMap(OneOrNone, Split(line, ' '))
  }

  function AllWords(lines: seq<string>): seq<string> {
    FlatMap(Words, lines)
  }

  function Cut(width: Width): string -> seq<string> {
    w => Chunks(w, width)
  }

  /** Each word as it may appear: whole when it fits, in full-width pieces otherwise. */
  function Pieces(words: seq<string>, width: Width): seq<string> {
    FlatMap(Cut(width), words)
  }

  /** A word is a line of one word. */
  lemma WordLine(w: string)
    requires ' ' !in w
    ensures Words(w) == OneOrNone(w)
  {
    SplitWhole(w, ' ');
    FlatMapOne(OneOrNone, w);
  }

  lemma {:induction false} FlatMapSelf<A>(f: A -> seq<A>, xs: seq<A>)
    requires forall i :: 0 <= i < |xs| ==> f(xs[i]) == [xs[i]]
    ensures FlatMap(f, xs) == xs
  {
    if |xs| > 0 {
      FlatMapSelf(f, Front(xs));
      assert xs == Front(xs) + [Last(xs)];
    }
  }

  lemma WordLines(ps: seq<string>)
    requires Without(ps, ' ') && forall i :: 0 <= i < |ps| ==> |ps[i]| >= 1
    ensures FlatMap(Words, ps) == ps
  {
    forall i | 0 <= i < |ps| ensures Words(ps[i]) == [ps[i]] {
      WordLine(ps[i]);
    }
    FlatMapSelf(Words, ps);
  }

  lemma {:induction false} ChunksNoSpace(word: string, width: Width)
    requires ' ' !in word
    ensures Without(Chunks(word, width), ' ')
    decreases |word|
  {
    if |word| > width {
      ChunksNoSpace(word[width..], width);
    }
  }

  lemma ChunkWords(word: string, width: Width)
    requires ' ' !in word
    ensures FlatMap(Words, Chunks(word, width)) == Pieces(OneOrNone(word), width)
  {
    if |word| == 0 {
      WordLine(word);
      FlatMapOne(Words, word);
    } else {
      ChunksFit(word, width);
      ChunksNoSpace(word, width);
      WordLines(Chunks(word, width));
      FlatMapOne(Cut(width), word);
    }
  }

  lemma StartLineWords(lines: seq<string>, word: string, width: Width)
    requires ' ' !in word
    ensures AllWords(Lines(StartLine(lines, word, width))) == AllWords(lines) + Pieces(OneOrNone(word), width)
  {
    StartLineLines(lines, word, width);
    FlatMapConcat(Words, lines, Chunks(word, width));
    ChunkWords(word, width);
  }

  lemma JoinedWords(cur: string, word: string)
    requires ' ' !in word
    ensures Words(cur + [' '] + word) == Words(cur) + OneOrNone(word)
  {
    SplitConcat(cur, word, ' ');
    SplitWhole(word, ' ');
    FlatMapPush(OneOrNone, Split(cur, ' '), word);
  }

  lemma ShortWord(word: string, width: Width)
    requires |word| <= width
    ensures Pieces(OneOrNone(word), width) == OneOrNone(word)
  {
    if |word| > 0 {
      FlatMapOne(Cut(width), word);
    }
  }

  lemma AddWordWords(p: Pen, word: string, width: Width)
    requires ' ' !in word
    ensures AllWords(Lines(AddWord(p, word, width))) == AllWords(Lines(p)) + Pieces(OneOrNone(word), width)
  {
    FlatMapPush(Words, p.lines, p.cur);
    if |p.cur| == 0 {
      WordLine(p.cur);
      StartLineWords(p.lines, word, width);
    } else if |p.cur| + 1 + |word| <= width {
      JoinedWords(p.cur, word);
      FlatMapPush(Words, p.lines, p.cur + [' '] + word);
      ShortWord(word, width);
      Assoc(AllWords(p.lines), Words(p.cur), OneOrNone(word));
    } else {
      StartLineWords(Lines(p), word, width);
    }
  }

  lemma {:induction false} AddWordsWords(words: seq<string>, width: Width)
    requires Without(words, ' ')
    ensures AllWords(Lines(AddWords(words, width))) == Pieces(FlatMap(OneOrNone, words), width)
  {
    if |words| == 0 {
      WordLine("");
      FlatMapOne(Words, "");
      assert [] + [""] == [""];
    } else {
      var t, w := Front(words), Last(words);
      AddWordsWords(t, width);
      AddWordWords(AddWords(t, width), w, width);
      FlatMapConcat(Cut(width), FlatMap(OneOrNone, t), OneOrNone(w));
    }
  }

  lemma ParagraphWords(raw: string, width: Width)
    ensures AllWords(WrapParagraph(raw, width)) == Pieces(Words(raw), width)
  {
    SplitJoin(raw, ' ');
    AddWordsWords(Split(raw, ' '), width);
  }

  lemma {:induction false} ParagraphsWords(raws: seq<string>, width: Width)
    ensures AllWords(FlatMap(Paragraphs(width), raws)) == Pieces(AllWords(raws), width)
  {
    if |raws| > 0 {
      var t, raw := Front(raws), Last(raws);
      ParagraphsWords(t, width);
      ParagraphWords(raw, width);
      FlatMapConcat(Words, FlatMap(Paragraphs(width), t), WrapParagraph(raw, width));
      FlatMapConcat(Cut(width), AllWords(t), Words(raw));
    }
  }

  /**
   * The words of the wrapped lines are, in order, the words of the text: each one whole when it has
   * at most `width` characters, and cut into full-width pieces otherwise.
   */
  lemma WordsKept(s: string, width: Width)
    ensures AllWords(Wrap(s, width)) == Pieces(AllWords(Split(s, '\n')), width)
  {
    ParagraphsWords(Split(s, '\n'), width);
  }

  // ---- no character is lost or moved ----

  function InkOf(c: char): string {
    if c == ' ' || c == '\n' then [] else [c]
  }

  /** The characters other than spaces and newlines. */
  function Ink(s: string): string {
    FlatMap(InkOf, s)
  }

  function Self(s: string): string {
    s
  }

  function Concat(ps: seq<string>): string {
    FlatMap(Self, ps)
  }

  lemma ConcatPushed(ps: seq<string>, x: char, c: char)
    requires |ps| >= 1
    ensures Concat(Pushed(ps, x, c)) == Concat(ps) + if x == c then "" else [x]
  {
    if x == c {
      FlatMapPush(Self, ps, "");
    } else {
      FlatMapPush(Self, Front(ps), Last(ps) + [x]);
      Assoc(Concat(Front(ps)), Last(ps), [x]);
    }
  }

  /** Splitting at a blank loses no ink. */
  lemma {:induction false} SplitInk(s: string, c: char)
    requires c == ' ' || c == '\n'
    ensures Ink(Concat(Split(s, c))) == Ink(s)
  {
    if |s| == 0 {
      FlatMapOne(Self, "");
    } else {
      var t, x := Front(s), Last(s);
      SplitInk(t, c);
      ConcatPushed(Split(t, c), x, c);
      if x == c {
        assert Concat(Split(t, c)) + "" == Concat(Split(t, c)) && Ink(t) + [] == Ink(t);
      } else {
        FlatMapPush(InkOf, Concat(Split(t, c)), x);
      }
    }
  }

  lemma {:induction false} NonEmptyKeepsText(ps: seq<string>)
    ensures Concat(FlatMap(OneOrNone, ps)) == Concat(ps)
  {
    if |ps| > 0 {
      var t, x := Front(ps), Last(ps);
      NonEmptyKeepsText(t);
      FlatMapConcat(Self, FlatMap(OneOrNone, t), OneOrNone(x));
      if |x| > 0 {
        FlatMapOne(Self, x);
      }
    }
  }

  lemma LineInk(line: string)
    ensures Ink(Concat(Words(line))) == Ink(line)
  {
    NonEmptyKeepsText(Split(line, ' '));
    SplitInk(line, ' ');
  }

  lemma {:induction false} LinesInk(lines: seq<string>)
    ensures Ink(Concat(AllWords(lines))) == Ink(Concat(lines))
  {
    if |lines| > 0 {
      var t, x := Front(lines), Last(lines);
      LinesInk(t);
      LineInk(x);
      FlatMapConcat(Self, AllWords(t), Words(x));
      FlatMapConcat(InkOf, Concat(AllWords(t)), Concat(Words(x)));
      FlatMapConcat(InkOf, Concat(t), x);
    }
  }

  lemma {:induction false} ChunksText(word: string, width: Width)
    ensures Concat(Chunks(word, width)) == word
    decreases |word|
  {
    if |word| > width {
      var h, t := word[..width], word[width..];
      ChunksText(t, width);
      FlatMapConcat(Self, [h], Chunks(t, width));
      FlatMapOne(Self, h);
      assert h + t == word;
    } else {
      FlatMapOne(Self, word);
    }
  }

  lemma {:induction false} PiecesText(words: seq<string>, width: Width)
    ensures Concat(Pieces(words, width)) == Concat(words)
  {
    if |words| > 0 {
      PiecesText(Front(words), width);
      ChunksText(Last(words), width);
      FlatMapConcat(Self, Pieces(Front(words), width), Chunks(Last(words), width));
    }
  }

  /** Wrapping keeps every character that is not a space or a newline, in order. */
  lemma InkKept(s: string, width: Width)
    ensures Ink(Concat(Wrap(s, width))) == Ink(s)
  {
    var raws := Split(s, '\n');
    LinesInk(Wrap(s, width));
    WordsKept(s, width);
    PiecesText(AllWords(raws), width);
    LinesInk(raws);
    SplitInk(s, '\n');
  }

  // ---- lines break only where they must ----

  function FirstWord(line: string): string {
    Split(line, ' ')[0]
  }

  /** Between neighbouring lines, the first word of the second would not have fitted on the first. */
  ghost predicate Tight(lines: seq<string>, width: Width) {
    forall i :: 0 <= i < |lines| - 1 ==> |lines[i]| + 1 + |FirstWord(lines[i + 1])| > width
  }

  lemma TightAppend(lines: seq<string>, ps: seq<string>, width: Width)
    requires Tight(lines, width) && Tight(ps, width)
    requires |lines| > 0 && |ps| > 0 ==> |Last(lines)| + 1 + |FirstWord(ps[0])| > width
    ensures Tight(lines + ps, width)
  {
  }

  lemma ChunksTight(word: string, width: Width)
    requires ' ' !in word
    ensures Tight(Chunks(word, width), width)
    ensures |FirstWord(Chunks(word, width)[0])| == if |word| < width then |word| else width
  {
    var ps := Chunks(word, width);
    ChunksFit(word, width);
    ChunksNoSpace(word, width);
    SplitWhole(ps[0], ' ');
  }

  lemma StartLineTight(lines: seq<string>, word: string, width: Width)
    requires ' ' !in word && Tight(lines, width)
    requires |lines| > 0 ==> |Last(lines)| + 1 + (if |word| < width then |word| else width) > width
    ensures Tight(Lines(StartLine(lines, word, width)), width)
  {
    ChunksTight(word, width);
    TightAppend(lines, Chunks(word, width), width);
    StartLineLines(lines, word, width);
  }

  lemma TightPrefix(lines: seq<string>, cur: string, width: Width)
    requires Tight(lines + [cur], width)
    ensures Tight(lines, width)
    ensures |lines| > 0 ==> |Last(lines)| + 1 + |FirstWord(cur)| > width
  {
    var all := lines + [cur];
    forall i | 0 <= i < |lines| - 1 ensures |lines[i]| + 1 + |FirstWord(lines[i + 1])| > width {
      assert all[i] == lines[i] && all[i + 1] == lines[i + 1];
    }
    if |lines| > 0 {
      assert all[|lines| - 1] == Last(lines) && all[|lines|] == cur;
    }
  }

  lemma SameFirstWord(lines: seq<string>, cur: string, word: string, width: Width)
    requires ' ' !in word && Tight(lines, width)
    requires |lines| > 0 ==> |Last(lines)| + 1 + |FirstWord(cur)| > width
    ensures Tight(lines + [cur + [' '] + word], width)
  {
    SplitConcat(cur, word, ' ');
    TightAppend(lines, [cur + [' '] + word], width);
  }

  lemma AddWordTight(p: Pen, word: string, width: Width)
    requires ' ' !in word && Tight(Lines(p), width)
    ensures Tight(Lines(AddWord(p, word, width)), width)
  {
    TightPrefix(p.lines, p.cur, width);
    if |p.cur| == 0 {
      assert FirstWord(p.cur) == "";
      StartLineTight(p.lines, word, width);
    } else if |p.cur| + 1 + |word| <= width {
      SameFirstWord(p.lines, p.cur, word, width);
    } else {
      StartLineTight(Lines(p), word, width);
    }
  }

  lemma {:induction false} AddWordsTight(words: seq<string>, width: Width)
    requires Without(words, ' ')
    ensures Tight(Lines(AddWords(words, width)), width)
  {
    if |words| > 0 {
      AddWordsTight(Front(words), width);
      AddWordTight(AddWords(Front(words), width), Last(words), width);
    }
  }

  /** A paragraph is never broken earlier than the width requires. */
  lemma BreaksAreNeeded(raw: string, width: Width)
    ensures Tight(WrapParagraph(raw, width), width)
  {
    SplitJoin(raw, ' ');
    AddWordsTight(Split(raw, ' '), width);
  }

  // ---- the loops ----

  lemma {:induction false} ChunksPush(word: string, c: char, width: Width)
    ensures
      var ps := Chunks(word, width);
      Chunks(word + [c], width) ==
        if |Last(ps)| >= width then ps + [[c]] else Front(ps) + [Last(ps) + [c]]
    decreases |word|
  {
    if |word| > width {
      ChunksPush(word[width..], c, width);
      assert (word + [c])[..width] == word[..width] && (word + [c])[width..] == word[width..] + [c];
    } else if |word| == width {
      assert (word + [c])[..width] == word && (word + [c])[width..] == [c];
    }
  }

  lemma StartLinePush(out: seq<string>, word: string, c: char, width: Width)
    ensures
      var p := StartLine(out, word, width);
      StartLine(out, word + [c], width) ==
        if |p.cur| >= width then Pen(Lines(p), [c]) else Pen(p.lines, p.cur + [c])
  {
    var ps := Chunks(word, width);
    ChunksPush(word, c, width);
    if |Last(ps)| >= width {
      assert Front(ps + [[c]]) == ps;
      StartLineLines(out, word, width);
    } else {
      assert Front(Front(ps) + [Last(ps) + [c]]) == Front(ps);
    }
  }

  /** Pushes the characters of a word that starts a line, breaking whenever the line is full. */
  method PushChars(out: seq<string>, word: string, width: Width) returns (lines: seq<string>, cur: string)
    ensures Pen(lines, cur) == StartLine(out, word, width)
  {
    lines, cur := out, "";
    var i := 0;
    while i < |word|
      invariant 0 <= i <= |word|
      invariant Pen(lines, cur) == StartLine(out, word[..i], width)
    {
      StartLinePush(out, word[..i], word[i], width);
      assert word[..i + 1] == word[..i] + [word[i]];
      if |cur| >= width {
        lines := lines + [cur];
        cur := "";
      }
      cur := cur + [word[i]];
      i := i + 1;
    }
    assert word[..i] == word;
  }

  method WrapWords(words: seq<string>, width: Width) returns (lines: seq<string>, cur: string)
    ensures Pen(lines, cur) == AddWords(words, width)
  {
    lines, cur := [], "";
    var k := 0;
    while k < |words|
      invariant 0 <= k <= |words|
      invariant Pen(lines, cur) == AddWords(words[..k], width)
    {
      var word := words[k];
      assert Front(words[..k + 1]) == words[..k];
      if |cur| == 0 {
        if |word| <= width {
          cur := word;
        } else {
          lines, cur := PushChars(lines, word, width);
        }
      } else if |cur| + 1 + |word| <= width {
        cur := cur + [' '] + word;
      } else {
        lines := lines + [cur];
        if |word| <= width {
          cur := word;
        } else {
          lines, cur := PushChars(lines, word, width);
        }
      }
      k := k + 1;
    }
    assert words[..k] == words;
  }

  function AtLeastOne(width: nat): Width {
    if width == 0 then 1 else width
  }

  /** One paragraph; an empty one is an empty line. */
  method WrapRaw(raw: string, width: Width) returns (out: seq<string>)
    ensures out == WrapParagraph(raw, width)
  {
    if |raw| == 0 {
      assert AddWords([""], width) == Pen([], "");
      out := [""];
    } else {
      var lines, cur := WrapWords(Split(raw, ' '), width);
      out := lines + [cur];
    }
  }

  /** The loop over the paragraphs. */
  method WrapAll(raws: seq<string>, width: Width) returns (out: seq<string>)
    ensures out == FlatMap(Paragraphs(width), raws)
  {
    out := [];
    var i := 0;
    while i < |raws|
      invariant 0 <= i <= |raws|
      invariant out == FlatMap(Paragraphs(width), raws[..i])
    {
      FlatMapNext(Paragraphs(width), raws, i);
      var wrapped := WrapRaw(raws[i], width);
      out := out + wrapped;
      i := i + 1;
    }
    assert raws[..i] == raws;
  }

  /** wrap_line. A zero width counts as one; the result is never empty, so its last guard is moot. */
  method WrapLine(s: string, givenWidth: nat) returns (out: seq<string>)
    ensures out == Wrap(s, AtLeastOne(givenWidth))
    ensures |out| >= 1
  {
    out := WrapAll(Split(s, '\n'), AtLeastOne(givenWidth));
    WrappedFits(s, AtLeastOne(givenWidth));
  }
}
