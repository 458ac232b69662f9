/**
 * Collision-free names in the folder sink: `name`, else `name (2).ext`, `name (3).ext`, and so on.
 * The search has no bound in the program; here it is shown to end, because the candidate names are
 * pairwise different and only finitely many of them can be taken.
 */
module DedupPath {
  import opened Util

  /** Index of the last dot of the final path element, or -1 (filepath.Ext's scan). */
  function LastDot(name: string): (k: int)
    ensures -1 <= k < |name|
    ensures k >= 0 ==> name[k] == '.' && forall i :: k < i < |name| ==> name[i] != '.' && name[i] != '/'
    ensures k < 0 ==> forall i :: 0 <= i < |name| && name[i] == '.' ==> exists j :: i < j < |name| && name[j] == '/'
  {
    if name == [] || Last(name) == '/' then -1
    else if Last(name) == '.' then |name| - 1
    else LastDot(Front(name))
  }

  function Ext(name: string): string {
    if LastDot(name) < 0 then "" else name[LastDot(name)..]
  }

  function Stem(name: string): string {
    if LastDot(name) < 0 then name else name[..LastDot(name)]
  }

  function BaseName(name: string): string {
    if name == "" then "file" else name
  }

  /** The names tried, in order: candidate 1 is the name itself, candidate i carries ` (i)`. */
  function Candidate(name: string, i: nat): string
    requires i >= 1
  {
    if i == 1 then BaseName(name)
    else Stem(BaseName(name)) + " (" + Decimal(i) + ")" + Ext(BaseName(name))
  }

  /** The extension of `stem.tail` is `.tail`, when `tail` has no dot and no slash of its own. */
  lemma {:induction false} LastDotAt(stem: string, tail: string)
    requires '.' !in tail && '/' !in tail
    ensures LastDot(stem + "." + tail) == |stem|
  {
    var name := stem + "." + tail;
    if |tail| > 0 {
      LastDotAt(stem, Front(tail));
      assert Front(name) == stem + "." + Front(tail);
      assert Last(name) == Last(tail);
    } else {
      assert Last(name) == '.';
    }
  }

  lemma {:induction false} NoDot(name: string)
    requires '.' !in name
    ensures LastDot(name) == -1
  {
    if |name| > 0 {
      NoDot(Front(name));
    }
  }

  /** The names tried for `stem.tail`: itself, `stem (2).tail`, `stem (3).tail`; none is an overwritten name. */
  lemma CandidatesKeepExtension(stem: string, tail: string, i: nat)
    requires '.' !in tail && '/' !in tail && i >= 2
    ensures Candidate(stem + "." + tail, 1) == stem + "." + tail
    ensures Candidate(stem + "." + tail, i) == stem + " (" + Decimal(i) + ")" + ("." + tail)
  {
    var name := stem + "." + tail;
    LastDotAt(stem, tail);
    assert Stem(name) == stem && Ext(name) == "." + tail;
  }

  /** Without an extension the number goes to the end; an empty name counts as "file". */
  lemma CandidatesWithoutExtension(name: string, i: nat)
    requires '.' !in name && i >= 2
    ensures Candidate(name, i) == (if |name| == 0 then "file" else name) + " (" + Decimal(i) + ")"
  {
    NoDot(BaseName(name));
    assert BaseName(name) + " (" + Decimal(i) + ")" + "" == BaseName(name) + " (" + Decimal(i) + ")";
  }

  lemma StemExt(name: string)
    ensures Stem(name) + Ext(name) == name
  {
  }

  /** No two attempts try the same name. */
  lemma CandidatesDiffer(name: string, i: nat, j: nat)
    requires 1 <= i && 1 <= j && i != j
    ensures Candidate(name, i) != Candidate(name, j)
  {
    var b := BaseName(name);
    StemExt(b);
    if i == 1 || j == 1 {
      var k := if i == 1 then j else i;
      assert |Candidate(name, k)| == |b| + |Decimal(k)| + 3;
      assert Candidate(name, 1) == b;
    } else if Candidate(name, i) == Candidate(name, j) {
      var s := |Stem(b)| + 2;
      assert Candidate(name, i)[s..|Candidate(name, i)| - |Ext(b)| - 1] == Decimal(i);
      assert Candidate(name, j)[s..|Candidate(name, j)| - |Ext(b)| - 1] == Decimal(j);
      DecimalInjective(i, j);
    }
  }

  ghost function Tried(name: string, n: nat): set<string> {
    set i | 1 <= i <= n :: Candidate(name, i)
  }

  lemma {:induction false} TriedSize(name: string, n: nat)
    ensures |Tried(name, n)| == n
  {
    if n == 0 {
      assert Tried(name, 0) == {};
    } else {
      TriedSize(name, n - 1);
      if Candidate(name, n) in Tried(name, n - 1) {
        var i :| 1 <= i <= n - 1 && Candidate(name, i) == Candidate(name, n);
        CandidatesDiffer(name, i, n);
        assert false;
      }
      assert Tried(name, n) == Tried(name, n - 1) + {Candidate(name, n)};
    }
  }

  /** `p` is the answer when `taken` names exist: the first candidate that does not. */
  ghost predicate FirstFree(taken: set<string>, name: string, p: string) {
    exists n: nat :: n >= 1 && p == Candidate(name, n) && p !in taken && Tried(name, n - 1) <= taken
  }

  lemma SubsetSize(a: set<string>, b: set<string>)
    requires a <= b
    ensures |a| <= |b|
  {
    assert b == a + (b - a);
    assert a !! (b - a);
  }

  /** The number of attempts is bounded by the number of taken names plus one (pigeonhole). */
  lemma AttemptBound(taken: set<string>, name: string, n: nat)
    requires Tried(name, n) <= taken
    ensures n <= |taken|
  {
    TriedSize(name, n);
    SubsetSize(Tried(name, n), taken);
  }

  /** Whatever names are taken, the rule picks one name and only one. */
  lemma FirstFreeUnique(taken: set<string>, name: string, p: string, q: string)
    requires FirstFree(taken, name, p) && FirstFree(taken, name, q)
    ensures p == q
  {
    var m: nat :| m >= 1 && p == Candidate(name, m) && p !in taken && Tried(name, m - 1) <= taken;
    var n: nat :| n >= 1 && q == Candidate(name, n) && q !in taken && Tried(name, n - 1) <= taken;
    assert forall k :: 1 <= k <= n - 1 ==> Candidate(name, k) in Tried(name, n - 1);
    assert forall k :: 1 <= k <= m - 1 ==> Candidate(name, k) in Tried(name, m - 1);
  }

  /** The search from candidate `i` on, the earlier candidates being taken. */
  function FreeFrom(taken: set<string>, name: string, i: nat): (p: string)
    requires i >= 1 && Tried(name, i - 1) <= taken
    ensures FirstFree(taken, name, p)
    decreases |taken| + 1 - i
  {
    AttemptBound(taken, name, i - 1);
    if Candidate(name, i) !in taken then Candidate(name, i)
    else
      assert Tried(name, i) == Tried(name, i - 1) + {Candidate(name, i)};
      AttemptBound(taken, name, i);
      FreeFrom(taken, name, i + 1)
  }

  /** The name dedupPath settles on when `taken` are the names that exist in the directory. */
  function FreeName(taken: set<string>, name: string): (p: string)
    ensures FirstFree(taken, name, p)
  {
    FreeFrom(taken, name, 1)
  }

  /** dedupPath's loop: it ends, and it ends with the first free candidate. */
  method DedupName(taken: set<string>, name: string) returns (p: string)
    ensures FirstFree(taken, name, p)
    ensures p == FreeName(taken, name)
  {
    p := Candidate(name, 1);
    if p in taken {
      assert Tried(name, 1) == {Candidate(name, 1)};
      var i := 2;
      p := Candidate(name, 2);
      AttemptBound(taken, name, 1);
      while p in taken
        invariant i >= 2 && p == Candidate(name, i)
        invariant Tried(name, i - 1) <= taken && i - 1 <= |taken|
        decreases |taken| - i
      {
        assert Tried(name, i) == Tried(name, i - 1) + {p};
        AttemptBound(taken, name, i);
        i := i + 1;
        p := Candidate(name, i);
      }
    }
    FirstFreeUnique(taken, name, p, FreeName(taken, name));
  }
}
