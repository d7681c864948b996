/** Round-robin choice of an io_context. */
module ContextPool {

  /** Rounds completed and index reached after `k` calls. */
  function Cursor(k: nat, n: nat): (nat, nat)
    requires n > 0
  {
    if k == 0 then (0, 0)
    else
      var (round, i) := Cursor(k - 1, n);
      if i + 1 == n then (round + 1, 0) else (round, i + 1)
  }

  class AsioIOContextPool {
    const size: nat
    var nextIOContext: nat
    ghost var calls: nat

    ghost predicate Valid()
      reads this
    {
      0 < size && nextIOContext == Cursor(calls, size).1
    }

    constructor (n: nat)
      requires n > 0
      ensures Valid() && size == n && calls == 0
    {
      size, nextIOContext, calls := n, 0, 0;
    }

    /** Call number k of all calls returns context k mod size. */
    method GetIOContext() returns (context: nat)
      requires Valid()
      modifies this
      ensures Valid() && calls == old(calls) + 1
      ensures context < size && context == old(calls) % size
    {
      CursorIsRemainder(calls, size);
      context := nextIOContext;
      nextIOContext := nextIOContext + 1;
      if nextIOContext == size {
        nextIOContext := 0;
      }
      calls := calls + 1;
    }
  }

  lemma {:induction false} CursorCounts(k: nat, n: nat)
    requires n > 0
    ensures var (round, i) := Cursor(k, n); i < n && k == round * n + i
  {
    if k > 0 {
      CursorCounts(k - 1, n);
      var (round, i) := Cursor(k - 1, n);
      assert (round + 1) * n == round * n + n;
    }
  }

  lemma CursorIsRemainder(k: nat, n: nat)
    requires n > 0
    ensures Cursor(k, n).1 == k % n && Cursor(k, n).1 < n
  {
    CursorCounts(k, n);
    var (round, i) := Cursor(k, n);
    RemainderOf(round, i, n);
  }

  lemma RemainderOf(q: nat, r: nat, n: nat)
    requires r < n
    ensures (q * n + r) % n == r
  {
    var m := q * n + r;
    var d := m / n - q;
    assert m % n == r - d * n;
  }

  /** How many of the first `k` calls return context `c`. */
  function Served(c: nat, k: nat, n: nat): nat
    requires n > 0
  {
    if k == 0 then 0 else Served(c, k - 1, n) + if (k - 1) % n == c then 1 else 0
  }

  lemma {:induction false} ServedByRounds(c: nat, k: nat, n: nat)
    requires c < n
    ensures var (round, i) := Cursor(k, n); Served(c, k, n) == round + if c < i then 1 else 0
  {
    if k > 0 {
      ServedByRounds(c, k - 1, n);
      CursorIsRemainder(k - 1, n);
    }
  }

  /** After any number of calls no context has been chosen more than once more than another. */
  lemma Balanced(a: nat, b: nat, k: nat, n: nat)
    requires a < n && b < n
    ensures -1 <= Served(a, k, n) - Served(b, k, n) <= 1
  {
    ServedByRounds(a, k, n);
    ServedByRounds(b, k, n);
  }
}
