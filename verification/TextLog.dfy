/**
 * The append-file, byte by byte. An entry is a separator line, a header line with name and stamp, and
 * the text; the log is one entry after another. What can be read back off it is shown exactly.
 */
module TextLog {
  import opened Util

  datatype Note = Note(name: Bytes, stamp: Bytes, text: Bytes)

  const NEWLINE: byte := 10
  const SPACE: byte := 32
  const DASH: byte := 45

  /** A newline, three dashes and a newline. */
  const SEPARATOR := [NEWLINE, DASH, DASH, DASH, NEWLINE]

  function Header(n: Note): Bytes {
    n.name + [SPACE] + n.stamp
  }

  function Entry(n: Note): Bytes {
    SEPARATOR + Header(n) + [NEWLINE] + n.text + [NEWLINE]
  }

  function Log(ns: seq<Note>): Bytes {
    if |ns| == 0 then [] else Log(Front(ns)) + Entry(Last(ns))
  }

  lemma LogPush(ns: seq<Note>, n: Note)
    ensures Log(ns + [n]) == Log(ns) + Entry(n)
  {
    assert Front(ns + [n]) == ns;
  }

  lemma {:induction false} LogConcat(a: seq<Note>, b: seq<Note>)
    ensures Log(a + b) == Log(a) + Log(b)
  {
    if |b| == 0 {
      assert a + b == a;
    } else {
      LogConcat(a, Front(b));
      assert a + b == (a + Front(b)) + [Last(b)];
      LogPush(a + Front(b), Last(b));
      Assoc(Log(a), Log(Front(b)), Entry(Last(b)));
    }
  }

  lemma SplitAround<T>(xs: seq<T>, k: nat)
    requires k < |xs|
    ensures xs == xs[..k] + [xs[k]] + xs[k + 1..]
  {
  }

  lemma LogOf(front: seq<Note>, n: Note, back: seq<Note>)
    ensures Log(front + [n] + back) == Log(front) + Entry(n) + Log(back)
  {
    LogConcat(front + [n], back);
    LogPush(front, n);
  }

  /** The log around entry `k`. */
  lemma LogAround(ns: seq<Note>, k: nat)
    requires k < |ns|
    ensures Log(ns) == Log(ns[..k]) + Entry(ns[k]) + Log(ns[k + 1..])
  {
    SplitAround(ns, k);
    LogOf(ns[..k], ns[k], ns[k + 1..]);
  }

  lemma SameFront(x: Bytes, a: Bytes, b: Bytes)
    ensures x + a == x + b <==> a == b
  {
    assert (x + a)[|x|..] == a && (x + b)[|x|..] == b;
  }

  // ---- reading a text at its place ----

  /** Where the text of entry `k` starts. */
  function TextAt(ns: seq<Note>, k: nat): nat
    requires k < |ns|
  {
    |Log(ns[..k])| + |SEPARATOR| + |Header(ns[k])| + 1
  }

  lemma Middle(a: Bytes, t: Bytes, b: Bytes)
    ensures (a + t + b)[|a|..|a| + |t|] == t
  {
  }

  /** A text inside its entry inside a log. */
  lemma TextInEntry(front: Bytes, n: Note, back: Bytes)
    ensures
      var at := |front| + |SEPARATOR| + |Header(n)| + 1;
      && at + |n.text| < |front + Entry(n) + back|
      && (front + Entry(n) + back)[at..at + |n.text|] == n.text
  {
    var before, after := front + (SEPARATOR + Header(n) + [NEWLINE]), [NEWLINE] + back;
    assert front + Entry(n) + back == before + n.text + after;
    Middle(before, n.text, after);
  }

  /** Each text is in the log, whole, at its place, and the places are in order and apart. */
  lemma TextInLog(ns: seq<Note>, k: nat)
    requires k < |ns|
    ensures TextAt(ns, k) + |ns[k].text| < |Log(ns)|
    ensures Log(ns)[TextAt(ns, k)..TextAt(ns, k) + |ns[k].text|] == ns[k].text
  {
    LogAround(ns, k);
    TextInEntry(Log(ns[..k]), ns[k], Log(ns[k + 1..]));
  }

  lemma TextsApart(ns: seq<Note>, k: nat)
    requires k + 1 < |ns|
    ensures TextAt(ns, k) + |ns[k].text| < TextAt(ns, k + 1)
  {
    assert ns[..k + 1] == ns[..k] + [ns[k]];
    LogPush(ns[..k], ns[k]);
  }

  lemma EntryTextDiffers(front: Bytes, n: Note, t: Bytes, back: Bytes)
    requires t != n.text
    ensures front + Entry(n) + back != front + Entry(n.(text := t)) + back
  {
    var m := n.(text := t);
    TextInEntry(front, n, back);
    TextInEntry(front, m, back);
    if |t| == |n.text| {
      var at := |front| + |SEPARATOR| + |Header(n)| + 1;
      assert (front + Entry(n) + back)[at..at + |t|] != (front + Entry(m) + back)[at..at + |t|];
    } else {
      assert |front + Entry(n) + back| != |front + Entry(m) + back|;
    }
  }

  /** Two logs that differ in one text differ. */
  lemma OneTextDiffers(ns: seq<Note>, k: nat, t: Bytes)
    requires k < |ns| && t != ns[k].text
    ensures Log(ns) != Log(ns[k := ns[k].(text := t)])
  {
    var ms := ns[k := ns[k].(text := t)];
    LogAround(ns, k);
    LogAround(ms, k);
    assert ms[..k] == ns[..k] && ms[k + 1..] == ns[k + 1..];
    EntryTextDiffers(Log(ns[..k]), ns[k], t, Log(ns[k + 1..]));
  }

  // ---- reading the whole log ----

  /** No line break in header or text, and no space in the stamp. */
  predicate OneLine(n: Note) {
    NEWLINE !in n.name && NEWLINE !in n.stamp && NEWLINE !in n.text && SPACE !in n.stamp
  }

  ghost predicate AllOneLine(ns: seq<Note>) {
    forall i :: 0 <= i < |ns| ==> OneLine(ns[i])
  }

  lemma AroundMark(x: Bytes, a: Bytes, c: byte)
    ensures (x + [c] + a)[|x|] == c
    ensures forall i :: |x| < i <= |x| + |a| ==> (x + [c] + a)[i] in a
    ensures (x + [c] + a)[..|x|] == x && (x + [c] + a)[|x| + 1..] == a
  {
  }

  /** What is in front of the last mark, and what is behind it. */
  lemma CutAtLast(x: Bytes, a: Bytes, y: Bytes, b: Bytes, c: byte)
    requires c !in a && c !in b && x + [c] + a == y + [c] + b
    ensures x == y && a == b
  {
    AroundMark(x, a, c);
    AroundMark(y, b, c);
    assert |x + [c] + a| == |y + [c] + b|;
    assert |x| == |y|;
  }

  lemma LastEntry(x: Bytes, n: Note, y: Bytes, m: Note)
    requires OneLine(n) && OneLine(m) && x + Entry(n) == y + Entry(m)
    ensures x == y && n == m
  {
    var front1, front2 := x + SEPARATOR + Header(n), y + SEPARATOR + Header(m);
    assert x + Entry(n) == front1 + [NEWLINE] + n.text + [NEWLINE];
    assert y + Entry(m) == front2 + [NEWLINE] + m.text + [NEWLINE];
    assert (front1 + [NEWLINE] + n.text) == (x + Entry(n))[..|x + Entry(n)| - 1];
    assert (front2 + [NEWLINE] + m.text) == (y + Entry(m))[..|y + Entry(m)| - 1];
    CutAtLast(front1, n.text, front2, m.text, NEWLINE);
    var dashes1, dashes2 := x + [NEWLINE, DASH, DASH, DASH], y + [NEWLINE, DASH, DASH, DASH];
    assert front1 == dashes1 + [NEWLINE] + Header(n) && front2 == dashes2 + [NEWLINE] + Header(m);
    CutAtLast(dashes1, Header(n), dashes2, Header(m), NEWLINE);
    assert x == dashes1[..|dashes1| - 4] && y == dashes2[..|dashes2| - 4];
    CutAtLast(n.name, n.stamp, m.name, m.stamp, SPACE);
  }

  /** Entries of one line each are read back off the log: names, stamps and texts, in order, none missing. */
  lemma {:induction false} OneLineLogsDecode(a: seq<Note>, b: seq<Note>)
    requires AllOneLine(a) && AllOneLine(b) && Log(a) == Log(b)
    ensures a == b
  {
    if |a| > 0 && |b| > 0 {
      assert OneLine(a[|a| - 1]) && OneLine(b[|b| - 1]);
      LastEntry(Log(Front(a)), Last(a), Log(Front(b)), Last(b));
      OneLineLogsDecode(Front(a), Front(b));
      assert a == Front(a) + [Last(a)] && b == Front(b) + [Last(b)];
    } else {
      EmptyLog(a);
      EmptyLog(b);
    }
  }

  lemma EmptyLog(ns: seq<Note>)
    ensures |Log(ns)| == 0 <==> |ns| == 0
  {
  }

  lemma TwoEntriesReadAsOne(n: Note, m: Note)
    ensures Entry(n) + Entry(m) == Entry(Merged(n, m))
  {
    var head := SEPARATOR + Header(n) + [NEWLINE];
    var one := Merged(n, m);
    assert Entry(one) == head + one.text + [NEWLINE] && Entry(n) == head + n.text + [NEWLINE];
    assert Entry(n) + Entry(m) == head + one.text + [NEWLINE];
  }

  /** One entry whose text goes on with another entry. */
  function Merged(n: Note, m: Note): Note {
    n.(text := n.text + [NEWLINE] + SEPARATOR + Header(m) + [NEWLINE] + m.text)
  }

  /** Texts with line breaks are ambiguous: wherever two entries stand, one with a longer text reads the same. */
  lemma AnyTwoReadAsOne(front: seq<Note>, n: Note, m: Note, back: seq<Note>)
    ensures Log(front + [n, m] + back) == Log(front + [Merged(n, m)] + back)
  {
    LogOf(front, Merged(n, m), back);
    LogOf(front + [n], m, back);
    LogPush(front, n);
    assert front + [n, m] + back == (front + [n]) + [m] + back;
    TwoEntriesReadAsOne(n, m);
    Assoc(Log(front), Entry(n), Entry(m));
  }
}
