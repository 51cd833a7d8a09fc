/**
  The deck and hand container of src/lib.rs: a `VecDeque` used as a LIFO
  stack (both `push` and `pop` work at the front) together with a separately
  stored element count.
*/
module Stacks {
  import opened Wrappers

  /** `s` read back to front. */
  function Rev<T>(s: seq<T>): (r: seq<T>)
    ensures |r| == |s|
  {
    if s == [] then [] else [s[|s| - 1]] + Rev(s[..|s| - 1])
  }

  /** The k-th element of the reversal is the k-th element from the end. */
  lemma {:induction false} RevAt<T>(s: seq<T>, k: nat)
    requires k < |s|
    ensures Rev(s)[k] == s[|s| - 1 - k]
  {
    if k > 0 {
      RevAt(s[..|s| - 1], k - 1);
    }
  }

  /** Reversal keeps every element with its multiplicity. */
  lemma {:induction false} RevMultiset<T>(s: seq<T>)
    ensures multiset(Rev(s)) == multiset(s)
  {
    if s != [] {
      RevMultiset(s[..|s| - 1]);
      assert s == s[..|s| - 1] + [s[|s| - 1]];
    }
  }

  /** Reversing twice gives the sequence back. */
  lemma {:induction false} RevRev<T>(s: seq<T>)
    ensures Rev(Rev(s)) == s
  {
    forall k | 0 <= k < |s|
      ensures Rev(Rev(s))[k] == s[k]
    {
      RevAt(Rev(s), k);
      RevAt(s, |s| - 1 - k);
    }
  }

  /** Pushing one more element puts it in front of the reversal of what came before. */
  lemma RevSnoc<T>(s: seq<T>, x: T)
    ensures Rev(s + [x]) == [x] + Rev(s)
  {
    assert (s + [x])[..|s|] == s;
  }

  /** n copies of v. */
  function Repeat<T>(v: T, n: nat): (r: seq<T>)
    ensures |r| == n
    ensures forall i :: 0 <= i < n ==> r[i] == v
  {
    seq(n, _ => v)
  }

  /**
    `Stack<T>(VecDeque<T>, usize)`. `items` is the deque, index 0 being the
    front (the top of the stack); `count` is the tuple's second field.
  */
  class Stack<T(==)> {
    var items: seq<T>
    var count: nat

    /** The stored count mirrors the number of elements in the deque. */
    ghost predicate Valid()
      reads this
    {
      count == |items|
    }

    /** `Stack::new`: an empty deque and a count of zero. */
    constructor ()
      ensures Valid() && items == [] && count == 0
    {
      items := [];
      count := 0;
    }

    /** `len`: the stored count, which is the number of elements while the stack is valid. */
    function Len(): (n: nat)
      reads this
      ensures Valid() ==> n == |items|
    {
      count
    }

    /** `into_iter`: the elements from the front (top) to the back, i.e. in pop order. */
    function IntoIter(): (s: seq<T>)
      reads this
      ensures Valid() ==> |s| == Len()
    {
      items
    }

    /** `push`: one more element at the top, and the count follows. */
    method Push(val: T)
      requires Valid()
      modifies this
      ensures Valid()
      ensures items == [val] + old(items)
      ensures Len() == old(Len()) + 1
    {
      count := count + 1;
      items := [val] + items;
    }

    /**
      `pop`: removes and returns the top element. The source decrements the
      `usize` count before looking at the deque, so on an empty stack the
      subtraction underflows; callers must therefore pop only a non-empty stack.
    */
    method Pop() returns (r: Option<T>)
      requires Valid() && Len() > 0
      modifies this
      ensures Valid()
      ensures r == Some(old(items)[0])
      ensures items == old(items)[1..]
      ensures Len() == old(Len()) - 1
    {
      count := count - 1;
      r := Some(items[0]);
      items := items[1..];
    }

    /**
      `shuffle(times)`: copies the deque into a vector, re-permutes it `times`
      times with an unspecified (random) permutation and stores it back. The
      count is not touched.
    */
    method Shuffle(times: nat)
      requires Valid()
      modifies this
      ensures Valid()
      ensures multiset(items) == multiset(old(items))
      ensures Len() == old(Len())
      ensures times == 0 ==> items == old(items)
    {
      var v := items;
      for round := 0 to times
        invariant multiset(v) == multiset(items)
        invariant round == 0 ==> v == items
      {
        var w :| multiset(w) == multiset(v);
        v := w;
      }
      assert |v| == |multiset(v)| == |multiset(items)| == |items|;
      items := v;
    }

    /** `push_times(val, times)`: `times` copies of `val` on top of the old contents. */
    method PushTimes(val: T, times: nat)
      requires Valid()
      modifies this
      ensures Valid()
      ensures items == Repeat(val, times) + old(items)
      ensures Len() == old(Len()) + times
    {
      for k := 0 to times
        invariant Valid()
        invariant items == Repeat(val, k) + old(items)
      {
        count := count + 1;
        items := [val] + items;
      }
    }
  }

  /**
    Last in, first out: pushing `xs` one by one onto a new stack and then
    popping until it is empty returns `xs` in reverse order.
  */
  method PushAllPopAll<T(==)>(xs: seq<T>) returns (ys: seq<T>)
    ensures ys == Rev(xs)
  {
    var s := new Stack<T>();
    for i := 0 to |xs|
      invariant s.Valid() && s.items == Rev(xs[..i])
    {
      RevSnoc(xs[..i], xs[i]);
      assert xs[..i + 1] == xs[..i] + [xs[i]];
      s.Push(xs[i]);
    }
    assert xs[..|xs|] == xs;
    ys := [];
    while s.Len() > 0
      invariant s.Valid() && Rev(xs) == ys + s.items
      decreases |s.items|
    {
      var r := s.Pop();
      ys := ys + [r.value];
    }
  }
}
