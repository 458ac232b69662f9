/**
 * Length-prefixed frames of room-go: a 4-byte big-endian length, then the payload. Reading is
 * modelled on a byte stream that arrives in arbitrary chunks, with the error values of io.ReadFull.
 */
module Frames {
  import opened Util

  const MAX_FRAME := 33554432

  datatype Error = Eof | UnexpectedEof | TooLarge

  datatype Result<T> = Ok(value: T) | Err(error: Error)

  // ---- writing ----

  /** The length as an unsigned 32-bit number, most significant byte first. */
  function Header(len: nat): (h: Bytes)
    ensures |h| == 4
  {
    var n := len % 0x1_0000_0000;
    [(n / 0x100_0000) as byte, (n / 0x1_0000 % 256) as byte, (n / 256 % 256) as byte, (n % 256) as byte]
  }

  function Size(h: Bytes): nat
    requires |h| == 4
  {
    0x100_0000 * (h[0] as int) + 0x1_0000 * (h[1] as int) + 256 * (h[2] as int) + (h[3] as int)
  }

  function Frame(p: Bytes): Bytes {
    Header(|p|) + p
  }

  function EncodeAll(ps: seq<Bytes>): Bytes {
    if |ps| == 0 then [] else Frame(ps[0]) + EncodeAll(ps[1..])
  }

  ghost predicate Sendable(ps: seq<Bytes>) {
    forall i :: 0 <= i < |ps| ==> |ps[i]| <= MAX_FRAME
  }

  class Writer {
    var sent: Bytes

    constructor ()
      ensures sent == []
    {
      sent := [];
    }

    /** An over-long payload is refused before a byte is written. */
    method WriteFrame(p: Bytes) returns (r: Result<()>)
      modifies this
      ensures r == if |p| > MAX_FRAME then Err(TooLarge) else Ok(())
      ensures sent == if r.Ok? then old(sent) + Frame(p) else old(sent)
    {
      if |p| > MAX_FRAME {
        return Err(TooLarge);
      }
      sent := sent + Header(|p|);
      sent := sent + p;
      r := Ok(());
    }
  }

  // ---- reading ----

  /** What reading exactly `n` bytes yields, and what is left of the stream. */
  function Take(s: Bytes, n: nat): (Result<Bytes>, Bytes) {
    if n <= |s| then (Ok(s[..n]), s[n..])
    else (Err(if |s| == 0 then Eof else UnexpectedEof), [])
  }

  function Decode(s: Bytes): (Result<Bytes>, Bytes) {
    var (h, rest) := Take(s, 4);
    if h.Err? then (h, rest)
    else if Size(s[..4]) > MAX_FRAME then (Err(TooLarge), rest)
    else Take(rest, Size(s[..4]))
  }

  datatype Outcome = Outcome(payloads: seq<Bytes>, error: Error)

  /** Reading frames until one fails. */
  function DecodeAll(s: Bytes): Outcome
    decreases |s|
  {
    var (r, rest) := Decode(s);
    match r
    case Err(e) => Outcome([], e)
    case Ok(p) =>
      var more := DecodeAll(rest);
      Outcome([p] + more.payloads, more.error)
  }

  /** The bytes of a stream that arrives in chunks. */
  function Flat(chunks: seq<Bytes>): Bytes {
    if |chunks| == 0 then [] else chunks[0] + Flat(chunks[1..])
  }

  class Reader {
    var chunks: seq<Bytes>

    constructor (arriving: seq<Bytes>)
      ensures chunks == arriving
    {
      chunks := arriving;
    }

    ghost function Remaining(): Bytes
      reads this
    {
      Flat(chunks)
    }

    /** At most `n` bytes of the chunk at hand, possibly none; end of file when no chunk is left. */
    method Read(n: nat) returns (got: Bytes, eof: bool)
      requires n >= 1
      modifies this
      ensures |got| <= n && got + Remaining() == old(Remaining())
      ensures eof == (|old(chunks)| == 0) && (eof ==> got == [] && Remaining() == [])
      ensures !eof ==> |chunks| <= |old(chunks)| && (|got| == n || |chunks| < |old(chunks)|)
    {
      if |chunks| == 0 {
        return [], true;
      }
      eof := false;
      if |chunks[0]| <= n {
        got := chunks[0];
        chunks := chunks[1..];
      } else {
        got := chunks[0][..n];
        chunks := [chunks[0][n..]] + chunks[1..];
      }
    }

    /** io.ReadFull. */
    method ReadFull(n: nat) returns (r: Result<Bytes>)
      modifies this
      ensures (r, Remaining()) == Take(old(Remaining()), n)
    {
      var buf := [];
      var eof := false;
      while |buf| < n && !eof
        invariant |buf| <= n && buf + Remaining() == old(Remaining())
        invariant eof ==> Remaining() == []
        decreases !eof, |chunks|, n - |buf|
      {
        var got;
        got, eof := Read(n - |buf|);
        buf := buf + got;
      }
      ghost var s := old(Remaining());
      if |buf| < n {
        assert buf == s;
        r := Err(if |buf| == 0 then Eof else UnexpectedEof);
      } else {
        assert s[..n] == buf && s[n..] == Remaining();
        r := Ok(buf);
      }
    }

    method ReadFrame() returns (r: Result<Bytes>)
      modifies this
      ensures (r, Remaining()) == Decode(old(Remaining()))
    {
      r := ReadFull(4);
      if r.Ok? {
        var n := Size(r.value);
        if n > MAX_FRAME {
          return Err(TooLarge);
        }
        r := ReadFull(n);
      }
    }

    /** The relay's reader loop: frames in arrival order, until one fails. */
    method ReadAll() returns (ps: seq<Bytes>, e: Error)
      modifies this
      ensures Outcome(ps, e) == DecodeAll(old(Remaining()))
    {
      ps := [];
      var r := ReadFrame();
      while r.Ok?
        invariant DecodeAll(old(Remaining())) == match r
          case Ok(p) => Prefixed(ps + [p], DecodeAll(Remaining()))
          case Err(err) => Outcome(ps, err)
        decreases r.Ok?, |Remaining()|
      {
        ps := ps + [r.value];
        ghost var before := Remaining();
        r := ReadFrame();
        assert Decode(before) == (r, Remaining());
        if r.Ok? {
          PrefixedPush(ps, r.value, DecodeAll(Remaining()));
          DecodeShrinks(before);
        }
      }
      e := r.error;
    }
  }

  function Prefixed(ps: seq<Bytes>, o: Outcome): Outcome {
    Outcome(ps + o.payloads, o.error)
  }

  lemma PrefixedPush(ps: seq<Bytes>, p: Bytes, o: Outcome)
    ensures Prefixed(ps, Prefixed([p], o)) == Prefixed(ps + [p], o)
  {
  }

  lemma DecodeShrinks(s: Bytes)
    requires Decode(s).0.Ok?
    ensures |Decode(s).1| < |s|
  {
  }

  // ---- the two are inverse ----

  lemma BigEndian(a: int, b: byte, c: byte, d: byte)
    ensures
      var n := 0x100_0000 * a + 0x1_0000 * (b as int) + 256 * (c as int) + (d as int);
      n / 0x100_0000 == a && n / 0x1_0000 % 256 == b as int && n / 256 % 256 == c as int && n % 256 == d as int
  {
    var n := 0x100_0000 * a + 0x1_0000 * (b as int) + 256 * (c as int) + (d as int);
    assert n / 256 == 0x1_0000 * a + 256 * (b as int) + (c as int);
    assert n / 0x1_0000 == 256 * a + (b as int);
  }

  lemma LowestByte(n: nat, low: nat)
    requires low < 256
    ensures
      var m := 256 * n + low;
      m % 256 == low && m / 256 == n && m / 0x1_0000 == n / 256 && m / 0x100_0000 == n / 0x1_0000
  {
    var m := 256 * n + low;
    assert m / 256 == n;
    assert m / 0x1_0000 == m / 256 / 256 && m / 0x100_0000 == m / 256 / 0x1_0000;
  }

  /** The length is big-endian: its lowest byte comes last, behind the bytes of what is above it. */
  lemma HeaderIsBigEndian(n: nat, low: nat)
    requires low < 256 && n < 0x100_0000
    ensures Header(256 * n + low) == Header(n)[1..] + [low as byte]
    ensures n == 0 ==> Header(n) == [0, 0, 0, 0]
  {
    LowestByte(n, low);
    assert n % 0x1_0000_0000 == n && (256 * n + low) % 0x1_0000_0000 == 256 * n + low;
    assert n / 0x1_0000 % 256 == n / 0x1_0000;
  }

  lemma SizeOfHeader(n: nat)
    requires n <= MAX_FRAME
    ensures Size(Header(n)) == n
  {
    assert n / 0x1_0000 == n / 0x100_0000 * 256 + n / 0x1_0000 % 256;
    assert n / 256 == n / 0x1_0000 * 256 + n / 256 % 256;
  }

  lemma HeaderOfSize(h: Bytes)
    requires |h| == 4 && Size(h) <= MAX_FRAME
    ensures Header(Size(h)) == h
  {
    BigEndian(h[0] as int, h[1], h[2], h[3]);
    var n := Size(h);
    assert n % 0x1_0000_0000 == n;
    assert Header(n)[0] == h[0] && Header(n)[1] == h[1] && Header(n)[2] == h[2] && Header(n)[3] == h[3];
  }

  lemma DecodeFrame(p: Bytes, rest: Bytes)
    requires |p| <= MAX_FRAME
    ensures Decode(Frame(p) + rest) == (Ok(p), rest)
  {
    var s := Frame(p) + rest;
    assert s[..4] == Header(|p|);
    SizeOfHeader(|p|);
    assert s[4..] == p + rest;
    assert (p + rest)[..|p|] == p && (p + rest)[|p|..] == rest;
  }

  /** What is read from any stream at all is what was framed into it. */
  lemma DecodedWasFramed(s: Bytes)
    requires Decode(s).0.Ok?
    ensures
      var (r, rest) := Decode(s);
      |r.value| <= MAX_FRAME && s == Frame(r.value) + rest
  {
    var n := Size(s[..4]);
    HeaderOfSize(s[..4]);
    assert s[4..] == s[4..][..n] + s[4..][n..];
    assert s == s[..4] + s[4..];
  }

  /** Concatenated frames read back as exactly the payloads, then a clean end of file. */
  lemma {:induction false} RoundTrip(ps: seq<Bytes>)
    requires Sendable(ps)
    ensures DecodeAll(EncodeAll(ps)) == Outcome(ps, Eof)
  {
    FramesThen(ps, []);
    assert EncodeAll(ps) + [] == EncodeAll(ps);
  }

  lemma DecodeAllStep(s: Bytes, p: Bytes, rest: Bytes)
    requires Decode(s) == (Ok(p), rest)
    ensures DecodeAll(s) == Prefixed([p], DecodeAll(rest))
  {
  }

  lemma {:induction false} FramesThen(ps: seq<Bytes>, tail: Bytes)
    requires Sendable(ps)
    ensures DecodeAll(EncodeAll(ps) + tail) == Prefixed(ps, DecodeAll(tail))
  {
    if |ps| == 0 {
      assert EncodeAll(ps) + tail == tail;
    } else {
      var p, more, rest := ps[0], ps[1..], EncodeAll(ps[1..]) + tail;
      FramesThen(more, tail);
      DecodeFrame(p, rest);
      DecodeAllStep(Frame(p) + rest, p, rest);
      Assoc(Frame(p), EncodeAll(more), tail);
      Assoc([p], more, DecodeAll(tail).payloads);
      assert [p] + more == ps;
    }
  }

  /** Any stream is the frames read from it and a tail that does not start with a frame. */
  lemma {:induction false} StreamIsFramesAndTail(s: Bytes) returns (tail: Bytes)
    ensures Sendable(DecodeAll(s).payloads)
    ensures s == EncodeAll(DecodeAll(s).payloads) + tail
    ensures Decode(tail).0 == Err(DecodeAll(s).error)
    decreases |s|
  {
    var (r, rest) := Decode(s);
    if r.Err? {
      tail := s;
    } else {
      DecodedWasFramed(s);
      tail := StreamIsFramesAndTail(rest);
      var ps, more := DecodeAll(s).payloads, DecodeAll(rest).payloads;
      assert ps == [r.value] + more && ps[1..] == more;
      assert Frame(r.value) + (EncodeAll(more) + tail) == Frame(r.value) + EncodeAll(more) + tail;
    }
  }

  // ---- truncation ----

  /** How many whole frames the first `k` bytes hold. */
  function Whole(ps: seq<Bytes>, k: nat): (m: nat)
    ensures m <= |ps| && |EncodeAll(ps[..m])| <= k
    ensures m < |ps| ==> k < |EncodeAll(ps[..m])| + |Frame(ps[m])|
  {
    if |ps| == 0 || k < |Frame(ps[0])| then 0
    else
      var m := 1 + Whole(ps[1..], k - |Frame(ps[0])|);
      assert ps[..m][1..] == ps[1..][..m - 1];
      m
  }

  /** How far the cut at `k` reaches into the next frame. */
  function Into(ps: seq<Bytes>, k: nat): nat {
    k - |EncodeAll(ps[..Whole(ps, k)])|
  }

  lemma WholeAtEnd(ps: seq<Bytes>, k: nat)
    requires k <= |EncodeAll(ps)|
    ensures |EncodeAll(ps[..Whole(ps, k)])| + Into(ps, k) == k
    ensures if Whole(ps, k) == |ps| then Into(ps, k) == 0 else Into(ps, k) < |Frame(ps[Whole(ps, k)])|
  {
    if Whole(ps, k) == |ps| {
      assert ps[..Whole(ps, k)] == ps;
    }
  }

  /** What reading a frame that was cut short reports. */
  function CutError(k: nat): Error {
    if k == 0 || k == 4 then Eof else UnexpectedEof
  }

  lemma DecodeCut(p: Bytes, k: nat)
    requires |p| <= MAX_FRAME && k < |Frame(p)|
    ensures Decode(Frame(p)[..k]).0 == Err(CutError(k))
  {
    if k >= 4 {
      assert Frame(p)[..k][..4] == Header(|p|);
      SizeOfHeader(|p|);
    }
  }

  lemma {:induction false} EncodePrefix(ps: seq<Bytes>, m: nat)
    requires m <= |ps|
    ensures EncodeAll(ps) == EncodeAll(ps[..m]) + EncodeAll(ps[m..])
  {
    if m == 0 {
      assert ps[m..] == ps;
    } else {
      EncodePrefix(ps[1..], m - 1);
      assert ps[1..][..m - 1] == ps[..m][1..] && ps[1..][m - 1..] == ps[m..];
      assert Frame(ps[0]) + (EncodeAll(ps[..m][1..]) + EncodeAll(ps[m..]))
          == Frame(ps[0]) + EncodeAll(ps[..m][1..]) + EncodeAll(ps[m..]);
    }
  }

  /** A cut before the end of the first frame leaves no payload. */
  lemma CutTail(ps: seq<Bytes>, k: nat)
    requires Sendable(ps) && if |ps| == 0 then k == 0 else k < |Frame(ps[0])|
    ensures k <= |EncodeAll(ps)| && DecodeAll(EncodeAll(ps)[..k]) == Outcome([], CutError(k))
  {
    if |ps| >= 1 {
      assert EncodeAll(ps)[..k] == Frame(ps[0])[..k];
      DecodeCut(ps[0], k);
    }
  }

  lemma CutSplits(ps: seq<Bytes>, m: nat, into: nat, k: nat)
    requires m <= |ps| && k == |EncodeAll(ps[..m])| + into <= |EncodeAll(ps)|
    ensures into <= |EncodeAll(ps[m..])|
    ensures EncodeAll(ps)[..k] == EncodeAll(ps[..m]) + EncodeAll(ps[m..])[..into]
  {
    EncodePrefix(ps, m);
  }

  /** A cut at `k`, which is `into` bytes behind the first `m` frames. */
  lemma CutAt(ps: seq<Bytes>, m: nat, into: nat, k: nat)
    requires Sendable(ps) && m <= |ps| && k == |EncodeAll(ps[..m])| + into <= |EncodeAll(ps)|
    requires if m == |ps| then into == 0 else into < |Frame(ps[m])|
    ensures DecodeAll(EncodeAll(ps)[..k]) == Outcome(ps[..m], CutError(into))
  {
    CutSplits(ps, m, into, k);
    var tail := EncodeAll(ps[m..])[..into];
    CutTail(ps[m..], into);
    assert DecodeAll(tail) == Outcome([], CutError(into));
    FramesThen(ps[..m], tail);
    assert ps[..m] + [] == ps[..m];
  }

  /**
   * A stream cut anywhere yields exactly its whole frames and then an error. The error is a clean
   * end of file when the cut is between frames, and also right after the length of a frame that has
   * a payload, where io.ReadFull sees no byte of the payload; any other cut is unexpected.
   */
  lemma TruncatedStream(ps: seq<Bytes>, k: nat)
    requires Sendable(ps) && k <= |EncodeAll(ps)|
    ensures DecodeAll(EncodeAll(ps)[..k]) == Outcome(ps[..Whole(ps, k)], CutError(Into(ps, k)))
  {
    var m, into := Whole(ps, k), Into(ps, k);
    WholeAtEnd(ps, k);
    CutAt(ps, m, into, k);
  }
}
