/** Facts about concatenation that the solver needs by name. */
module Seqs {
  lemma Assoc<T>(a: seq<T>, b: seq<T>, c: seq<T>)
    ensures (a + b) + c == a + (b + c)
  {
  }

  lemma Assoc4<T>(a: seq<T>, b: seq<T>, c: seq<T>, d: seq<T>)
    ensures a + b + c + d == a + (b + (c + d))
    ensures a + b + (c + d) == a + (b + (c + d))
    ensures a + (b + c) + d == a + (b + (c + d))
  {
    Assoc(a, b, c + d);
    Assoc(a + b, c, d);
    Assoc(a, b + c, d);
    Assoc(b, c, d);
  }

  lemma HeadTail<T>(a: seq<T>)
    requires a != []
    ensures a == [a[0]] + a[1..]
  {
  }

  /** `[a[0]] + (a[1..] + b)`, and the tail of a sum. */
  lemma ConsAppend<T>(a: seq<T>, b: seq<T>)
    requires a != []
    ensures a + b == [a[0]] + (a[1..] + b)
    ensures (a + b)[0] == a[0] && (a + b)[1..] == a[1..] + b
  {
  }

  lemma Cons<T>(x: T, a: seq<T>)
    ensures ([x] + a)[0] == x && ([x] + a)[1..] == a
  {
  }

  /** The two parts of a sum. */
  lemma Parts<T>(a: seq<T>, b: seq<T>)
    ensures (a + b)[..|a|] == a && (a + b)[|a|..] == b
  {
  }

  lemma SplitAt<T>(a: seq<T>, n: nat)
    requires n <= |a|
    ensures a == a[..n] + a[n..]
  {
  }

  lemma Units<T>(a: seq<T>)
    ensures a + [] == a && [] + a == a && a[0..] == a && a[..|a|] == a
  {
  }
}
