/** The per-service history: a first-in first-out ring holding the most
    recent statuses, like a `deque` created with `maxlen=100`. */
module History {

  /** The ring's capacity. */
  const Capacity: nat := 100

  /** The last `n` elements of `xs` (all of `xs` when it is shorter). */
  function Newest<T>(xs: seq<T>, n: nat): (r: seq<T>)
    ensures |r| == if |xs| <= n then |xs| else n
    ensures r == xs[|xs| - |r|..]
  {
    if |xs| <= n then xs else xs[|xs| - n..]
  }

  /** `append` on a deque of bounded length: the new element goes at the
      end, and the oldest element is dropped only when the ring is already
      full. A ring never holds more than `Capacity` elements; longer inputs
      are cut down to the newest ones all the same. */
  function Push<T>(ring: seq<T>, x: T): (r: seq<T>)
    ensures |r| <= Capacity
    ensures |r| > 0 && r[|r| - 1] == x
    ensures |ring| < Capacity ==> r == ring + [x]
    ensures |ring| == Capacity ==> r == ring[1..] + [x]
    ensures r == Newest(ring + [x], Capacity)
  {
    if |ring| < Capacity then ring + [x] else ring[|ring| - Capacity + 1..] + [x]
  }

  /** Appends the elements of `xs` one after the other. */
  function PushAll<T>(ring: seq<T>, xs: seq<T>): (r: seq<T>)
    ensures |ring| <= Capacity || |xs| > 0 ==> |r| <= Capacity
    decreases |xs|
  {
    if |xs| == 0 then ring else PushAll(Push(ring, xs[0]), xs[1..])
  }

  /** Keeping the newest `n` of a prefix and then appending loses nothing that
      keeping the newest `n` of the whole would keep. */
  lemma NewestOfNewest<T>(a: seq<T>, b: seq<T>, n: nat)
    ensures Newest(Newest(a, n) + b, n) == Newest(a + b, n)
  {
    if |a| <= n {
      assert Newest(a, n) == a;
    } else {
      var k := |a| - n;
      var s := a[k..] + b;
      assert Newest(a, n) == a[k..];
      assert s == (a + b)[k..];
      if |b| == 0 {
        assert s == a[k..];
        assert a + b == a;
      } else {
        assert Newest(s, n) == s[|b|..];
        assert Newest(a + b, n) == (a + b)[k + |b|..];
        assert s[|b|..] == (a + b)[k + |b|..];
      }
    }
  }

  /** The ring after any sequence of pushes holds the newest `Capacity`
      elements of everything it has seen, oldest first. */
  lemma {:induction false} PushAllKeepsNewest<T>(ring: seq<T>, xs: seq<T>)
    requires |xs| > 0 || |ring| <= Capacity
    ensures PushAll(ring, xs) == Newest(ring + xs, Capacity)
    decreases |xs|
  {
    if |xs| == 0 {
      assert ring + xs == ring;
    } else {
      var x, rest := xs[0], xs[1..];
      assert ring + [x] + rest == ring + xs;
      calc {
        PushAll(ring, xs);
        PushAll(Push(ring, x), rest);
        { PushAllKeepsNewest(Push(ring, x), rest); }
        Newest(Push(ring, x) + rest, Capacity);
        Newest(Newest(ring + [x], Capacity) + rest, Capacity);
        { NewestOfNewest(ring + [x], rest, Capacity); }
        Newest(ring + [x] + rest, Capacity);
      }
    }
  }

  /** Pushing a sequence and then one more element is pushing the extended sequence. */
  lemma PushAllThenPush<T>(ring: seq<T>, xs: seq<T>, x: T)
    ensures Push(PushAll(ring, xs), x) == PushAll(ring, xs + [x])
  {
    if |xs| == 0 {
      assert xs + [x] == [x];
      assert PushAll(ring, [x]) == PushAll(Push(ring, x), []);
    } else {
      assert ring + xs + [x] == ring + (xs + [x]);
      calc {
        Push(PushAll(ring, xs), x);
        Newest(PushAll(ring, xs) + [x], Capacity);
        { PushAllKeepsNewest(ring, xs); }
        Newest(Newest(ring + xs, Capacity) + [x], Capacity);
        { NewestOfNewest(ring + xs, [x], Capacity); }
        Newest(ring + xs + [x], Capacity);
        { PushAllKeepsNewest(ring, xs + [x]); }
        PushAll(ring, xs + [x]);
      }
    }
  }

  /** Starting from an empty ring, after more than `Capacity` pushes the
      oldest pushed element is gone and the newest `Capacity` remain in push
      order. */
  lemma OverflowDropsOldest<T>(xs: seq<T>)
    requires |xs| > Capacity
    ensures PushAll([], xs) == xs[|xs| - Capacity..]
    ensures |PushAll([], xs)| == Capacity
  {
    PushAllKeepsNewest([], xs);
    assert [] + xs == xs;
  }
}
