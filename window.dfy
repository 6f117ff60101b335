/**
 * The bounded FIFO sample window: `PushLossy::push_lossy` on `Vec<T>`
 * (src/lib.rs:128-139). A window is the `Vec`'s contents, a sequence whose
 * index 0 is the oldest sample.
 */
module Window {

  /**
   * The contents of the `Vec` after `push_lossy(element, windowSize)`: when the
   * window already holds `windowSize` or more elements, `remove(0)` drops the
   * oldest one; then `push` appends `element`. `remove(0)` panics on an empty
   * `Vec`, which happens exactly when `windowSize == 0` and the window is empty.
   */
  function PushLossy<T>(window: seq<T>, element: T, windowSize: nat): (r: seq<T>)
    requires windowSize >= 1 || |window| >= 1
    ensures |r| == if |window| < windowSize then |window| + 1 else |window|
    ensures r[|r| - 1] == element
  {
    var kept := if |window| >= windowSize then window[1..] else window;
    kept + [element]
  }

  /** Below capacity, nothing is evicted: the window grows by one at its end. */
  lemma PushLossyBelowCapacity<T>(window: seq<T>, element: T, windowSize: nat)
    requires |window| < windowSize
    ensures PushLossy(window, element, windowSize) == window + [element]
    ensures |PushLossy(window, element, windowSize)| == |window| + 1
  {
  }

  /**
   * At or over capacity, exactly the oldest element is evicted: the others keep
   * their order, the new element comes last, and the length is unchanged.
   */
  lemma PushLossyAtCapacity<T>(window: seq<T>, element: T, windowSize: nat)
    requires |window| >= windowSize
    requires |window| >= 1
    ensures PushLossy(window, element, windowSize) == window[1..] + [element]
    ensures |PushLossy(window, element, windowSize)| == |window|
  {
  }

  /**
   * Apart from the one evicted oldest element, no element is dropped or
   * reordered: the retained elements are a suffix of the old window, in order.
   */
  lemma PushLossyKeepsOrder<T>(window: seq<T>, element: T, windowSize: nat)
    requires windowSize >= 1 || |window| >= 1
    ensures var r := PushLossy(window, element, windowSize);
      var dropped := |window| + 1 - |r|;
      dropped <= 1 && forall i :: 0 <= i < |r| - 1 ==> r[i] == window[i + dropped]
  {
  }

  /** A window within its capacity stays within it. */
  lemma PushLossyKeepsBound<T>(window: seq<T>, element: T, windowSize: nat)
    requires windowSize >= 1
    requires |window| <= windowSize
    ensures |PushLossy(window, element, windowSize)| <= windowSize
  {
  }

  /** The window after pushing `elements` one by one, first to last. */
  function PushAll<T>(window: seq<T>, elements: seq<T>, windowSize: nat): seq<T>
    requires windowSize >= 1 || |window| >= 1
    decreases |elements|
  {
    if elements == [] then window
    else PushAll(PushLossy(window, elements[0], windowSize), elements[1..], windowSize)
  }

  /** The last `n` elements of `s`, in order. */
  function Newest<T>(s: seq<T>, n: nat): seq<T>
    requires n <= |s|
  {
    s[|s| - n..]
  }

  function Min(a: nat, b: nat): nat
  {
    if a <= b then a else b
  }

  /**
   * FIFO: pushing `elements` onto a window within its capacity leaves the
   * newest `min(total, windowSize)` of the old window followed by the pushed
   * elements, in insertion order.
   */
  lemma {:induction false} PushAllKeepsNewest<T>(window: seq<T>, elements: seq<T>, windowSize: nat)
    requires windowSize >= 1
    requires |window| <= windowSize
    ensures |window + elements| >= Min(|window| + |elements|, windowSize)
    ensures PushAll(window, elements, windowSize)
         == Newest(window + elements, Min(|window| + |elements|, windowSize))
    decreases |elements|
  {
    if elements != [] {
      var s := window + elements;
      var n := Min(|s|, windowSize);
      var next := PushLossy(window, elements[0], windowSize);
      var rest := elements[1..];
      assert PushAll(window, elements, windowSize) == PushAll(next, rest, windowSize);
      PushAllKeepsNewest(next, rest, windowSize);
      assert Newest(next + rest, Min(|next + rest|, windowSize)) == Newest(s, n) by {
        if |window| < windowSize {
          assert next + rest == s by {
            assert next == window + [elements[0]];
          }
        } else {
          assert next + rest == s[1..] by {
            assert next == window[1..] + [elements[0]];
          }
          assert s[1..][|s| - 1 - n..] == s[|s| - n..];
        }
      }
    }
  }

  /**
   * Starting from an empty window, after the pushes the window holds exactly the
   * last `min(n, windowSize)` pushed elements in insertion order.
   */
  lemma {:induction false} WindowHoldsLastPushes<T>(elements: seq<T>, windowSize: nat)
    requires windowSize >= 1
    ensures |PushAll([], elements, windowSize)| == Min(|elements|, windowSize)
    ensures PushAll([], elements, windowSize) == elements[|elements| - Min(|elements|, windowSize)..]
  {
    PushAllKeepsNewest([], elements, windowSize);
    assert [] + elements == elements;
  }
}
