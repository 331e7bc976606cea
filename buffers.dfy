/**
 * The bounded deques of the classifier and the stability vote over the
 * recent-detection buffer.
 */
module Buffers {

  /**
   * Appends x to a deque that holds at most cap entries: when it is full,
   * the oldest entry is dropped first.
   */
  function Append<T>(q: seq<T>, x: T, cap: nat): (r: seq<T>)
    requires 0 < cap && |q| <= cap
    ensures |r| == if |q| < cap then |q| + 1 else cap
    ensures r[|r| - 1] == x
  {
    if |q| < cap then q + [x] else q[1..] + [x]
  }

  /** What Append keeps of the old deque: its newest entries, in order, before x. */
  lemma AppendKeepsNewest<T>(q: seq<T>, x: T, cap: nat)
    requires 0 < cap && |q| <= cap
    ensures var r := Append(q, x, cap); r[..|r| - 1] == q[|q| - (|r| - 1)..]
  {
  }

  /** How many entries of s equal x. */
  function Occurrences<T(==)>(s: seq<T>, x: T): (n: nat)
    ensures n <= |s|
  {
    if s == [] then 0 else (if s[0] == x then 1 else 0) + Occurrences(s[1..], x)
  }

  /** The count agrees with the multiplicity of x in the multiset of s. */
  lemma {:induction false} OccurrencesIsMultiplicity<T>(s: seq<T>, x: T)
    ensures Occurrences(s, x) == multiset(s)[x]
  {
    if s != [] {
      assert s == [s[0]] + s[1..];
      OccurrencesIsMultiplicity(s[1..], x);
    }
  }

  /** Two different values together occupy no more entries than there are. */
  lemma {:induction false} OccurrencesOfTwo<T>(s: seq<T>, x: T, y: T)
    requires x != y
    ensures Occurrences(s, x) + Occurrences(s, y) <= |s|
  {
    if s != [] {
      OccurrencesOfTwo(s[1..], x, y);
    }
  }

  /** The stability vote looks at the newest STABILITY_WINDOW entries ... */
  const STABILITY_WINDOW: nat := 6
  /** ... and needs this many of them to agree. */
  const STABILITY_VOTES: nat := 4

  /**
   * A gesture is stable when the buffer holds at least six entries and at
   * least four of the newest six equal it.
   */
  predicate Stable<T(==)>(buffer: seq<T>, g: T) {
    |buffer| >= STABILITY_WINDOW
    && Occurrences(buffer[|buffer| - STABILITY_WINDOW..], g) >= STABILITY_VOTES
  }

  /** The vote is a majority: at most one value is stable at a time. */
  lemma StableIsUnique<T>(buffer: seq<T>, g: T, h: T)
    requires Stable(buffer, g) && Stable(buffer, h)
    ensures g == h
  {
    if g != h {
      OccurrencesOfTwo(buffer[|buffer| - STABILITY_WINDOW..], g, h);
    }
  }
}
