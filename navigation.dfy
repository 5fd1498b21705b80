/**
  Circular navigation among the children of the thumbnails' parent element
  (`getPreviousImage` and `getNextImage` in gallery.js).

  An element is an index into `siblings`, the element children of the parent in
  document order.  The navigation does not look at tags: it ranges over every
  element sibling, image or not.
 */
module Navigation {
  import opened Wrappers

  /** One element child of the thumbnails' parent: its tag name and the value of
      its `data-full_image_url` attribute. */
  datatype Thumb = Thumb(tag: string, fullUrl: string)

  /** `previousElementSibling`: the element just before `i`, or none for the first. */
  function PreviousElementSibling(siblings: seq<Thumb>, i: nat): (r: Option<nat>)
    requires i < |siblings|
    ensures r.Some? <==> i > 0
    ensures r.Some? ==> r.value + 1 == i
  {
    if i > 0 then Some(i - 1) else None
  }

  /** `nextElementSibling`: the element just after `i`, or none for the last. */
  function NextElementSibling(siblings: seq<Thumb>, i: nat): (r: Option<nat>)
    requires i < |siblings|
    ensures r.Some? <==> i + 1 < |siblings|
    ensures r.Some? ==> r.value == i + 1
  {
    if i + 1 < |siblings| then Some(i + 1) else None
  }

  /** `parentNode.firstElementChild`. */
  function FirstElementChild(siblings: seq<Thumb>): (r: Option<nat>)
    ensures r.Some? <==> |siblings| > 0
    ensures r.Some? ==> r.value == 0
  {
    if |siblings| > 0 then Some(0) else None
  }

  /** `parentNode.lastElementChild`. */
  function LastElementChild(siblings: seq<Thumb>): (r: Option<nat>)
    ensures r.Some? <==> |siblings| > 0
    ensures r.Some? ==> r.value == |siblings| - 1
  {
    if |siblings| > 0 then Some(|siblings| - 1) else None
  }

  /** `getPreviousImage`: the previous sibling, or the parent's last child when
      `i` is the first.  Stepping back is subtraction of one modulo the number of
      siblings. */
  function PreviousImage(siblings: seq<Thumb>, i: nat): (r: nat)
    requires i < |siblings|
    ensures r < |siblings|
    ensures r == (i - 1) % |siblings|
  {
    match PreviousElementSibling(siblings, i)
    case Some(p) => p
    case None => LastElementChild(siblings).value
  }

  /** `getNextImage`: the next sibling, or the parent's first child when `i` is
      the last.  Stepping forward is addition of one modulo the number of
      siblings. */
  function NextImage(siblings: seq<Thumb>, i: nat): (r: nat)
    requires i < |siblings|
    ensures r < |siblings|
    ensures r == (i + 1) % |siblings|
  {
    match NextElementSibling(siblings, i)
    case Some(n) => n
    case None => FirstElementChild(siblings).value
  }

  /** Previous undoes next, and next undoes previous. */
  lemma NextThenPrevious(siblings: seq<Thumb>, i: nat)
    requires i < |siblings|
    ensures PreviousImage(siblings, NextImage(siblings, i)) == i
    ensures NextImage(siblings, PreviousImage(siblings, i)) == i
  {
  }

  /** The element reached from `i` by `k` clicks on the "next" control. */
  function Forward(siblings: seq<Thumb>, i: nat, k: nat): (r: nat)
    requires i < |siblings|
    ensures r < |siblings|
    decreases k
  {
    if k == 0 then i else NextImage(siblings, Forward(siblings, i, k - 1))
  }

  /** The element reached from `i` by `k` clicks on the "previous" control. */
  function Backward(siblings: seq<Thumb>, i: nat, k: nat): (r: nat)
    requires i < |siblings|
    ensures r < |siblings|
    decreases k
  {
    if k == 0 then i else PreviousImage(siblings, Backward(siblings, i, k - 1))
  }

  /** A product with a factor of at least one is at least the other factor. */
  lemma ProductBound(m: int, n: int)
    requires n > 0 && m >= 1
    ensures m * n >= n
  {
  }

  /** The quotient and remainder of `x` by `n` are the only ones with the
      remainder in `[0, n)`. */
  lemma ModUnique(x: int, n: int, q: int, r: int)
    requires n > 0 && 0 <= r < n && x == q * n + r
    ensures x % n == r
  {
    var q', r' := x / n, x % n;
    assert x == q' * n + r';
    assert (q - q') * n == r' - r;
    if q - q' >= 1 {
      ProductBound(q - q', n);
    } else if q' - q >= 1 {
      ProductBound(q' - q, n);
    }
  }

  /** Adding `d` after reducing modulo `n` is the same as adding it before. */
  lemma ModShift(x: int, d: int, n: int)
    requires n > 0
    ensures (x % n + d) % n == (x + d) % n
  {
    var q, r := (x % n + d) / n, (x % n + d) % n;
    assert x % n + d == q * n + r;
    var p := x / n;
    assert x == p * n + x % n;
    assert x + d == (p + q) * n + r;
    ModUnique(x + d, n, p + q, r);
  }

  /** `k` clicks on "next" move `k` places forward around the circle. */
  lemma {:induction false} ForwardIsRotation(siblings: seq<Thumb>, i: nat, k: nat)
    requires i < |siblings|
    ensures Forward(siblings, i, k) == (i + k) % |siblings|
  {
    if k > 0 {
      var n, j := |siblings|, Forward(siblings, i, k - 1);
      ForwardIsRotation(siblings, i, k - 1);
      RotateStep(j, i + k - 1, 1, n);
      assert Forward(siblings, i, k) == NextImage(siblings, j);
    }
  }

  /** `k` clicks on "previous" move `k` places backward around the circle. */
  lemma {:induction false} BackwardIsRotation(siblings: seq<Thumb>, i: nat, k: nat)
    requires i < |siblings|
    ensures Backward(siblings, i, k) == (i - k) % |siblings|
  {
    if k > 0 {
      var n, j := |siblings|, Backward(siblings, i, k - 1);
      BackwardIsRotation(siblings, i, k - 1);
      RotateStep(j, i - k + 1, -1, n);
      assert Backward(siblings, i, k) == PreviousImage(siblings, j);
    }
  }

  /** One more step from a position reached by `x` steps is `x + d` steps. */
  lemma RotateStep(j: int, x: int, d: int, n: int)
    requires n > 0 && j == x % n
    ensures (j + d) % n == (x + d) % n
  {
    ModShift(x, d, n);
  }

  /** Clicking "next" once per sibling comes back to where it started, and so
      does clicking "previous" once per sibling. */
  lemma FullCircle(siblings: seq<Thumb>, i: nat)
    requires i < |siblings|
    ensures Forward(siblings, i, |siblings|) == i
    ensures Backward(siblings, i, |siblings|) == i
  {
    ForwardIsRotation(siblings, i, |siblings|);
    BackwardIsRotation(siblings, i, |siblings|);
    ModUnique(i + |siblings|, |siblings|, 1, i);
    ModUnique(i - |siblings|, |siblings|, -1, i);
  }

  /** `k` clicks on "previous" undo `k` clicks on "next". */
  lemma ForwardThenBackward(siblings: seq<Thumb>, i: nat, k: nat)
    requires i < |siblings|
    ensures Backward(siblings, Forward(siblings, i, k), k) == i
  {
    var n, j := |siblings|, Forward(siblings, i, k);
    ForwardIsRotation(siblings, i, k);
    BackwardIsRotation(siblings, j, k);
    assert Backward(siblings, j, k) == ((i + k) % n - k) % n;
    ModShift(i + k, -(k as int), n);
    ModUnique(i, n, 0, i);
  }

  /** `k` clicks on "next" undo `k` clicks on "previous". */
  lemma BackwardThenForward(siblings: seq<Thumb>, i: nat, k: nat)
    requires i < |siblings|
    ensures Forward(siblings, Backward(siblings, i, k), k) == i
  {
    var n, j := |siblings|, Backward(siblings, i, k);
    BackwardIsRotation(siblings, i, k);
    ForwardIsRotation(siblings, j, k);
    assert Forward(siblings, j, k) == ((i - k) % n + k) % n;
    ModShift(i - k, k, n);
    ModUnique(i, n, 0, i);
  }
}
