/**
 * Laws of wrapping: paragraphs are wrapped one by one, no line starts with a space, and exactly the
 * texts that fit, have one paragraph and do not start with a space are left as they are.
 */
module WrapLaws {
  import opened Util
  import opened WrapLine

  /** A newline always breaks: what stands before and behind it is wrapped on its own. */
  lemma ParagraphsApart(a: string, b: string, width: Width)
    ensures Wrap(a + "\n" + b, width) == Wrap(a, width) + Wrap(b, width)
  {
    SplitConcat(a, b, '\n');
    FlatMapConcat(Paragraphs(width), Split(a, '\n'), Split(b, '\n'));
  }

  predicate Indented(line: string) {
    |line| >= 1 && line[0] == ' '
  }

  ghost predicate NoneIndented(lines: seq<string>) {
    forall i :: 0 <= i < |lines| ==> !Indented(lines[i])
  }

  lemma WithoutIsFlush(ps: seq<string>)
    requires Without(ps, ' ')
    ensures NoneIndented(ps)
  {
  }

  lemma AddWordFlush(p: Pen, word: string, width: Width)
    requires ' ' !in word && NoneIndented(Lines(p))
    ensures NoneIndented(Lines(AddWord(p, word, width)))
  {
    ChunksNoSpace(word, width);
    WithoutIsFlush(Chunks(word, width));
    assert Lines(p)[|p.lines|] == p.cur;
    assert forall i :: 0 <= i < |p.lines| ==> Lines(p)[i] == p.lines[i];
    if |p.cur| == 0 {
      StartLineLines(p.lines, word, width);
    } else if |p.cur| + 1 + |word| > width {
      StartLineLines(p.lines + [p.cur], word, width);
    }
  }

  lemma {:induction false} AddWordsFlush(words: seq<string>, width: Width)
    requires Without(words, ' ')
    ensures NoneIndented(Lines(AddWords(words, width)))
  {
    if |words| > 0 {
      AddWordsFlush(Front(words), width);
      AddWordFlush(AddWords(Front(words), width), Last(words), width);
    }
  }

  lemma {:induction false} ParagraphsFlush(raws: seq<string>, width: Width)
    ensures NoneIndented(FlatMap(Paragraphs(width), raws))
  {
    if |raws| > 0 {
      ParagraphsFlush(Front(raws), width);
      SplitJoin(Last(raws), ' ');
      AddWordsFlush(Split(Last(raws), ' '), width);
    }
  }

  /** No line starts with a space: spaces in front of a line's first word are dropped. */
  lemma LinesAreFlush(s: string, width: Width)
    ensures NoneIndented(Wrap(s, width))
  {
    ParagraphsFlush(Split(s, '\n'), width);
  }

  lemma {:induction false} SplitsInTwo(s: string, c: char)
    requires c in s
    ensures |Split(s, c)| >= 2
  {
    if Last(s) != c {
      SplitsInTwo(Front(s), c);
    }
  }

  lemma {:induction false} FirstPiece(s: string, c: char)
    requires |s| >= 1 && s[0] != c
    ensures |Split(s, c)[0]| >= 1
  {
    if |s| >= 2 {
      FirstPiece(Front(s), c);
    }
  }

  /** Words that fit on one line are joined on it, runs of spaces between and behind them included. */
  lemma {:induction false} WordsOnOneLine(words: seq<string>, width: Width)
    requires |words| >= 1 && (|words| >= 2 ==> |words[0]| >= 1) && |Join(words, ' ')| <= width
    ensures AddWords(words, width) == Pen([], Join(words, ' '))
    ensures |words[0]| >= 1 ==> |Join(words, ' ')| >= 1
  {
    var front := Front(words);
    if |words| == 1 {
      assert AddWords(front, width) == Pen([], "");
      assert Chunks(words[0], width) == [words[0]];
      assert [] + Front([words[0]]) == [];
    } else {
      WordsOnOneLine(front, width);
    }
  }

  lemma FittingParagraph(s: string, width: Width)
    requires |s| <= width && !Indented(s)
    ensures WrapParagraph(s, width) == [s]
  {
    SplitJoin(s, ' ');
    if |s| >= 1 {
      FirstPiece(s, ' ');
    }
    WordsOnOneLine(Split(s, ' '), width);
    assert [] + [s] == [s];
  }

  /** A text is left as it is if and only if it fits on a line, has no newline and starts with no space. */
  lemma KeptIff(s: string, width: Width)
    ensures Wrap(s, width) == [s] <==> |s| <= width && '\n' !in s && !Indented(s)
  {
    if |s| <= width && '\n' !in s && !Indented(s) {
      SplitWhole(s, '\n');
      FlatMapOne(Paragraphs(width), s);
      FittingParagraph(s, width);
    } else if Wrap(s, width) == [s] {
      WrappedFits(s, width);
      LinesAreFlush(s, width);
      assert |Wrap(s, width)[0]| <= width && !Indented(Wrap(s, width)[0]);
      SplitsInTwo(s, '\n');
      AllFit(Split(s, '\n'), width);
      assert false;
    }
  }
}
