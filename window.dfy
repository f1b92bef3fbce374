/** The rolling window of recent face encodings: a FIFO bounded to `Capacity`
    entries, which drops its oldest entry when a new one arrives while full.
    Encodings are opaque: the window never looks inside them. */
module Window {

  /** The `maxlen` of the encodings window. */
  const Capacity: nat := 100

  function Min(a: int, b: int): int
  {
    if a <= b then a else b
  }

  /** One bounded append: evict the oldest entry when the window is full. */
  function Push<E>(w: seq<E>, x: E): seq<E>
    requires |w| <= Capacity
  {
    if |w| < Capacity then w + [x] else w[1..] + [x]
  }

  /** The window after appending `xs`, one at a time, to the window `w`.
      Its contract gives the closed form: exactly the last
      min(|w| + |xs|, Capacity) entries of `w + xs`, in append order. */
  function PushAll<E>(w: seq<E>, xs: seq<E>): (r: seq<E>)
    requires |w| <= Capacity
    ensures |r| == Min(|w| + |xs|, Capacity)
    ensures r == (w + xs)[|w| + |xs| - |r|..]
    decreases |xs|
  {
    if xs == [] then w
    else
      var before := PushAll(w, xs[..|xs| - 1]);
      var r := Push(before, xs[|xs| - 1]);
      assert w + xs == (w + xs[..|xs| - 1]) + [xs[|xs| - 1]];
      r
  }

  /** Appending `a` and then `b` leaves the same window as appending `a + b`. */
  lemma {:induction false} PushAllAppend<E>(w: seq<E>, a: seq<E>, b: seq<E>)
    requires |w| <= Capacity
    ensures PushAll(PushAll(w, a), b) == PushAll(w, a + b)
    decreases |b|
  {
    if b != [] {
      var b' := b[..|b| - 1];
      PushAllAppend(w, a, b');
      assert (a + b)[..|a + b| - 1] == a + b';
      assert (a + b)[|a + b| - 1] == b[|b| - 1];
    } else {
      assert a + b == a;
    }
  }

  /** The shared encodings window, mutated in place by the frame loop. */
  class EmbeddingWindow<E> {
    var items: seq<E>

    predicate Valid()
      reads this
    {
      |items| <= Capacity
    }

    constructor ()
      ensures Valid() && items == []
    {
      items := [];
    }

    /** Append one encoding, evicting the oldest when `Capacity` are held. */
    method Append(x: E)
      requires Valid()
      modifies this
      ensures Valid()
      ensures items == PushAll(old(items), [x])
      ensures |old(items)| < Capacity ==> items == old(items) + [x]
      ensures |old(items)| == Capacity ==> items == old(items)[1..] + [x]
    {
      assert [x][..0] == [];
      if |items| < Capacity {
        items := items + [x];
      } else {
        items := items[1..] + [x];
      }
    }

    /** Append each of `xs` in turn, as the frame loop does with a frame's
        encodings. */
    method AppendAll(xs: seq<E>)
      requires Valid()
      modifies this
      ensures Valid()
      ensures items == PushAll(old(items), xs)
    {
      for i := 0 to |xs|
        invariant Valid()
        invariant items == PushAll(old(items), xs[..i])
      {
        Append(xs[i]);
        assert xs[..i + 1][..i] == xs[..i];
      }
      assert xs[..|xs|] == xs;
    }
  }
}
