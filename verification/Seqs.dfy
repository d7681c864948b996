/** Facts about sequences that several components share. */
module Seqs {

  /** The elements of all parts, in order. */
  function Concat<T>(parts: seq<seq<T>>): seq<T> {
    if parts == [] then [] else parts[0] + Concat(parts[1..])
  }

  lemma Rejoin<T>(a: seq<T>, b: seq<T>)
    requires a != []
    ensures [a[0]] + (a[1..] + b) == a + b
  {
  }

  lemma HeadTail<T>(a: seq<T>)
    requires a != []
    ensures [a[0]] + a[1..] == a
  {
  }

  lemma TakeOneMore<T>(a: seq<T>, k: nat)
    requires k < |a|
    ensures a[..k + 1] == a[..k] + [a[k]] && a[k..] != [] && a[k..][0] == a[k] && a[k..][1..] == a[k + 1..]
  {
  }

  lemma TailOfAppend<T>(a: seq<T>, b: seq<T>)
    requires a != []
    ensures (a + b)[0] == a[0] && (a + b)[1..] == a[1..] + b
  {
  }

  lemma CutAt<T>(a: seq<T>, i: nat, j: nat)
    requires i <= j <= |a|
    ensures a[i..] == a[i..j] + a[j..]
  {
  }

  lemma Associate<T>(a: seq<T>, b: seq<T>, c: seq<T>)
    ensures (a + b) + c == a + (b + c)
  {
  }

  /** Moving `b[i..j]` from what is ahead to what is done. */
  lemma MoveOn<T>(a: seq<T>, b: seq<T>, i: nat, j: nat, c: seq<T>)
    requires i <= j <= |b|
    ensures a + (b[i..] + c) == (a + b[i..j]) + (b[j..] + c)
  {
    CutAt(b, i, j);
    Associate(b[i..j], b[j..], c);
    Associate(a, b[i..j], b[j..] + c);
  }

  lemma {:induction false} ConcatAppend<T>(a: seq<seq<T>>, b: seq<seq<T>>)
    ensures Concat(a + b) == Concat(a) + Concat(b)
  {
    if a == [] {
      assert a + b == b;
    } else {
      ConcatAppend(a[1..], b);
      TailOfAppend(a, b);
      Associate(a[0], Concat(a[1..]), Concat(b));
    }
  }

  lemma ConcatPush<T>(a: seq<seq<T>>, x: seq<T>)
    ensures Concat(a + [x]) == Concat(a) + x
  {
    ConcatAppend(a, [x]);
    assert Concat([x]) == x + Concat([]);
  }

  /** `a` can be obtained from `b` by deleting elements. */
  predicate IsSubsequence<T(==)>(a: seq<T>, b: seq<T>) {
    if a == [] then true
    else if b == [] then false
    else if a[|a| - 1] == b[|b| - 1] then IsSubsequence(a[..|a| - 1], b[..|b| - 1])
    else IsSubsequence(a, b[..|b| - 1])
  }

  /** What that means: strictly increasing positions of `b` that hold the elements of `a`. */
  lemma {:induction false} Positions<T>(a: seq<T>, b: seq<T>) returns (at: seq<nat>)
    requires IsSubsequence(a, b)
    ensures |at| == |a| && forall k | 0 <= k < |a| :: at[k] < |b| && b[at[k]] == a[k]
    ensures forall j, k | 0 <= j < k < |a| :: at[j] < at[k]
    decreases |b|
  {
    if a == [] {
      at := [];
    } else if a[|a| - 1] == b[|b| - 1] {
      at := Positions(a[..|a| - 1], b[..|b| - 1]);
      at := at + [|b| - 1];
    } else {
      at := Positions(a, b[..|b| - 1]);
    }
  }

  lemma {:induction false} SubsequenceIsShorter<T>(a: seq<T>, b: seq<T>)
    requires IsSubsequence(a, b)
    ensures |a| <= |b|
    decreases |b|
  {
    if a != [] {
      SubsequenceIsShorter(if a[|a| - 1] == b[|b| - 1] then a[..|a| - 1] else a, b[..|b| - 1]);
    }
  }

  /** Deleting elements may also delete one that was needed: a weaker match still matches. */
  lemma {:induction false} DropLast<T>(a: seq<T>, b: seq<T>)
    requires a != [] && IsSubsequence(a, b)
    ensures IsSubsequence(a[..|a| - 1], b)
    decreases |b|, 0
  {
    var a', b' := a[..|a| - 1], b[..|b| - 1];
    if a[|a| - 1] == b[|b| - 1] {
      Widen(a', b', b[|b| - 1]);
      assert b' + [b[|b| - 1]] == b;
    } else {
      DropLast(a, b');
      Widen(a', b', b[|b| - 1]);
      assert b' + [b[|b| - 1]] == b;
    }
  }

  lemma {:induction false} Widen<T>(a: seq<T>, b: seq<T>, x: T)
    requires IsSubsequence(a, b)
    ensures IsSubsequence(a, b + [x])
    decreases |b|, 1
  {
    assert (b + [x])[..|b|] == b;
    if a != [] && a[|a| - 1] == x {
      var a' := a[..|a| - 1];
      if b != [] {
        DropLast(a, b);
      }
    }
  }

  lemma Extend<T>(a: seq<T>, b: seq<T>, x: T)
    requires IsSubsequence(a, b)
    ensures IsSubsequence(a + [x], b + [x])
  {
    assert (a + [x])[..|a|] == a && (b + [x])[..|b|] == b;
  }

  /** A prefix of `c` that is long enough to hold `b` keeps every subsequence of `b`. */
  lemma {:induction false} WidenAll<T>(a: seq<T>, b: seq<T>, c: seq<T>)
    requires IsSubsequence(a, b) && b <= c
    ensures IsSubsequence(a, c)
    decreases |c|
  {
    if |b| < |c| {
      var c' := c[..|c| - 1];
      WidenAll(a, b, c');
      Widen(a, c', c[|c| - 1]);
      assert c' + [c[|c| - 1]] == c;
    } else {
      assert b == c;
    }
  }

  lemma {:induction false} TakeOfSubsequence<T>(a: seq<T>, n: nat, b: seq<T>)
    requires IsSubsequence(a, b) && n <= |a|
    ensures IsSubsequence(a[..n], b)
    decreases |a| - n
  {
    if n == |a| {
      assert a[..n] == a;
    } else {
      TakeOfSubsequence(a, n + 1, b);
      DropLast(a[..n + 1], b);
      assert a[..n + 1][..n] == a[..n];
    }
  }

  lemma CutPrefix<T>(a: seq<T>, b: seq<T>, c: seq<T>)
    ensures a + b <= a + c <==> b <= c
  {
    assert (a + b)[|a|..] == b && (a + c)[|a|..] == c;
    if a + b <= a + c {
      assert (a + c)[..|a + b|][|a|..] == c[..|b|];
    }
  }
}
