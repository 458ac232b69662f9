/** Value types and sequence facts shared by the models. */
module Util {
  newtype byte = x: int | 0 <= x < 256

  type Bytes = seq<byte>

  /** A BLAKE3 digest in hexadecimal: fixed length, so it can be read back off a file name. */
  type Digest = s: string | |s| == 64 witness seq(64, i => '0')

  datatype Option<+T> = None | Some(value: T)

  function Last<T>(xs: seq<T>): T
    requires |xs| >= 1
  {
    xs[|xs| - 1]
  }

  function Front<T>(xs: seq<T>): seq<T>
    requires |xs| >= 1
  {
    xs[..|xs| - 1]
  }

  /** The newest `n` elements of `xs`, or all of them when there are fewer. */
  function Newest<T>(xs: seq<T>, n: nat): (r: seq<T>)
    ensures |r| == if |xs| <= n then |xs| else n
  {
    if |xs| <= n then xs else xs[|xs| - n..]
  }

  /** Appending and then trimming a window is the same as trimming the appended history. */
  lemma NewestAppend<T>(xs: seq<T>, n: nat, x: T)
    ensures Newest(Newest(xs, n) + [x], n) == Newest(xs + [x], n)
  {
  }

  /** `xs` occurs inside `ys` in order, every element of `ys` being used at most once. */
  ghost predicate Subsequence<T(!new)>(xs: seq<T>, ys: seq<T>) {
    exists at: seq<nat> :: Embeds(at, xs, ys)
  }

  /** `at` names, in strictly increasing order, the places of `ys` that spell `xs`. */
  ghost predicate Embeds<T>(at: seq<nat>, xs: seq<T>, ys: seq<T>) {
    && |at| == |xs|
    && (forall i :: 0 <= i < |at| ==> at[i] < |ys| && ys[at[i]] == xs[i])
    && (forall i, j :: 0 <= i < j < |at| ==> at[i] < at[j])
  }

  lemma EmbedsPush<T>(at: seq<nat>, xs: seq<T>, ys: seq<T>, k: nat)
    requires Embeds(at, xs, ys) && k < |ys| && forall i :: 0 <= i < |at| ==> at[i] < k
    ensures Embeds(at + [k], xs + [ys[k]], ys)
  {
    var more := at + [k];
    forall i, j | 0 <= i < j < |more| ensures more[i] < more[j] {
      assert more[i] == at[i];
    }
  }

  lemma Assoc<T>(a: seq<T>, b: seq<T>, c: seq<T>)
    ensures (a + b) + c == a + (b + c)
  {
  }

  /** `f` applied to each element of `xs`, the results one after another. */
  function FlatMap<A, B>(f: A -> seq<B>, xs: seq<A>): seq<B> {
    if |xs| == 0 then [] else FlatMap(f, Front(xs)) + f(Last(xs))
  }

  lemma FlatMapPush<A, B>(f: A -> seq<B>, xs: seq<A>, x: A)
    ensures FlatMap(f, xs + [x]) == FlatMap(f, xs) + f(x)
  {
    assert Front(xs + [x]) == xs;
  }

  lemma FlatMapNext<A, B>(f: A -> seq<B>, xs: seq<A>, i: nat)
    requires i < |xs|
    ensures FlatMap(f, xs[..i + 1]) == FlatMap(f, xs[..i]) + f(xs[i])
  {
    FlatMapPush(f, xs[..i], xs[i]);
    assert xs[..i + 1] == xs[..i] + [xs[i]];
  }

  lemma FlatMapOne<A, B>(f: A -> seq<B>, x: A)
    ensures FlatMap(f, [x]) == f(x)
  {
    FlatMapPush(f, [], x);
    assert [] + [x] == [x];
    assert [] + f(x) == f(x);
  }

  lemma {:induction false} FlatMapConcat<A, B>(f: A -> seq<B>, xs: seq<A>, ys: seq<A>)
    ensures FlatMap(f, xs + ys) == FlatMap(f, xs) + FlatMap(f, ys)
  {
    if |ys| == 0 {
      assert xs + ys == xs;
    } else {
      FlatMapConcat(f, xs, Front(ys));
      FlatMapPush(f, xs + Front(ys), Last(ys));
      assert xs + ys == (xs + Front(ys)) + [Last(ys)];
      Assoc(FlatMap(f, xs), FlatMap(f, Front(ys)), f(Last(ys)));
    }
  }

  /** `f(0)`, `f(1)` and so on up to `f(n - 1)`, one after another. */
  function Joined<T>(f: nat -> seq<T>, n: nat): seq<T> {
    if n == 0 then [] else Joined(f, n - 1) + f(n - 1)
  }

  /** Part `i` sits behind the parts before it. */
  lemma {:induction false} JoinedPart<T>(f: nat -> seq<T>, n: nat, i: nat)
    requires i < n
    ensures |Joined(f, i)| + |f(i)| == |Joined(f, i + 1)| <= |Joined(f, n)|
    ensures Joined(f, n)[|Joined(f, i)|..|Joined(f, i)| + |f(i)|] == f(i)
    decreases n
  {
    if i < n - 1 {
      JoinedPart(f, n - 1, i);
      var a, b := |Joined(f, i)|, |Joined(f, i)| + |f(i)|;
      assert Joined(f, n)[a..b] == Joined(f, n - 1)[a..b];
    }
  }

  lemma SliceAt<T>(s: seq<T>, a: nat, b: nat, k: nat)
    requires a + k < b <= |s|
    ensures s[a..b][k] == s[a + k]
  {
  }

  /** Element `k` of part `i`. */
  lemma JoinedAt<T>(f: nat -> seq<T>, n: nat, i: nat, k: nat)
    requires i < n && k < |f(i)|
    ensures |Joined(f, i)| + k < |Joined(f, n)| && Joined(f, n)[|Joined(f, i)| + k] == f(i)[k]
  {
    JoinedPart(f, n, i);
    SliceAt(Joined(f, n), |Joined(f, i)|, |Joined(f, i)| + |f(i)|, k);
  }

  /** Every place lies in some part. */
  lemma {:induction false} JoinedOwner<T>(f: nat -> seq<T>, n: nat, p: nat) returns (i: nat)
    requires p < |Joined(f, n)|
    ensures i < n && |Joined(f, i)| <= p < |Joined(f, i)| + |f(i)|
  {
    i := n - 1;
    if p < |Joined(f, n - 1)| {
      i := JoinedOwner(f, n - 1, p);
    }
  }

  /** `f(0)`, `f(1)` and so on up to `f(n - 1)`, as a sequence. */
  function Table<T>(f: nat -> T, n: nat): (r: seq<T>)
    ensures |r| == n
    ensures forall i :: 0 <= i < n ==> r[i] == f(i)
  {
    seq(n, i requires 0 <= i => f(i))
  }

  lemma TablePush<T>(f: nat -> T, n: nat)
    ensures Table(f, n + 1) == Table(f, n) + [f(n)]
  {
  }

  /** The decimal digits of `n`, as strconv.Itoa and Rust's Display print them. */
  function Decimal(n: nat): (s: string)
    ensures |s| >= 1
    ensures forall i :: 0 <= i < |s| ==> '0' <= s[i] <= '9'
    ensures n >= 10 ==> |s| >= 2
  {
    if n < 10 then [Digit(n)] else Decimal(n / 10) + [Digit(n % 10)]
  }

  function Digit(n: nat): (c: char)
    requires n < 10
    ensures '0' <= c <= '9' && c as int - '0' as int == n
  {
    ('0' as int + n) as char
  }

  /** Two numbers that print alike are equal. */
  lemma {:induction false} DecimalInjective(a: nat, b: nat)
    requires Decimal(a) == Decimal(b)
    ensures a == b
  {
    assert Last(Decimal(a)) == Digit(a % 10) && Last(Decimal(b)) == Digit(b % 10);
    if a >= 10 && b >= 10 {
      assert Front(Decimal(a)) == Decimal(a / 10) && Front(Decimal(b)) == Decimal(b / 10);
      DecimalInjective(a / 10, b / 10);
    }
  }
}
