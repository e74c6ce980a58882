/**
 * The photo viewer of an item: it shows one of the item's photos at a
 * time and steps through them cyclically.
 */
module Lightbox {
  import opened Wrappers
  import opened Store

  /** The viewer's state: the index of the photo shown and whether loading it failed. */
  datatype Viewer = Viewer(index: int, imageError: bool)

  /** The viewer as it opens, on the photo the caller asked for. */
  function Open(initialIndex: int): (v: Viewer)
    ensures v.index == initialIndex && !v.imageError
  {
    Viewer(initialIndex, false)
  }

  /** The index before `i` among `n` photos, wrapping from the first to the last. */
  function PreviousIndex(i: int, n: nat): (r: int)
    ensures 0 < i < n ==> r == i - 1
  {
    if i == 0 then n - 1 else i - 1
  }

  /** The index after `i` among `n` photos, wrapping from the last to the first. */
  function NextIndex(i: int, n: nat): (r: int)
    ensures 0 <= i < n - 1 ==> r == i + 1
  {
    if i == n - 1 then 0 else i + 1
  }

  /** Both steps stay among the photos and wrap around at the ends. */
  lemma StepsStayInRange(i: int, n: nat)
    requires 0 <= i < n
    ensures 0 <= PreviousIndex(i, n) < n && 0 <= NextIndex(i, n) < n
    ensures NextIndex(i, n) == (i + 1) % n
    ensures PreviousIndex(i, n) == (i - 1) % n
  {
  }

  /** Stepping forward undoes stepping back, and the other way round. */
  lemma StepsInverse(i: int, n: nat)
    requires 0 <= i < n
    ensures NextIndex(PreviousIndex(i, n), n) == i
    ensures PreviousIndex(NextIndex(i, n), n) == i
  {
  }

  /** `k` steps forward from `i`. */
  function Forward(i: int, n: nat, k: nat): int {
    if k == 0 then i else NextIndex(Forward(i, n, k - 1), n)
  }

  /** Steps compose: `a` steps then `b` steps are `a + b` steps. */
  lemma {:induction false} ForwardAdd(i: int, n: nat, a: nat, b: nat)
    ensures Forward(i, n, a + b) == Forward(Forward(i, n, a), n, b)
  {
    if b > 0 {
      ForwardAdd(i, n, a, b - 1);
    }
  }

  /** Short of the last photo, `k` steps forward are `k` places on. */
  lemma {:induction false} ForwardBelow(i: int, n: nat, k: nat)
    requires 0 <= i && i + k < n
    ensures Forward(i, n, k) == i + k
  {
    if k > 0 {
      ForwardBelow(i, n, k - 1);
    }
  }

  /** Going once round all the photos returns to the one shown. */
  lemma FullTurnReturns(i: int, n: nat)
    requires 0 <= i < n
    ensures Forward(i, n, n) == i
  {
    ForwardBelow(i, n, n - i - 1);
    assert Forward(i, n, n - i) == 0;
    ForwardAdd(i, n, n - i, i);
    ForwardBelow(0, n, i);
  }

  /** The arrow buttons: each step clears a failed load. */
  function GoToPrevious(v: Viewer, n: nat): (r: Viewer)
    ensures !r.imageError
    ensures 0 <= v.index < n ==> 0 <= r.index < n && NextIndex(r.index, n) == v.index
  {
    Viewer(PreviousIndex(v.index, n), false)
  }

  function GoToNext(v: Viewer, n: nat): (r: Viewer)
    ensures !r.imageError
    ensures 0 <= v.index < n ==> 0 <= r.index < n && PreviousIndex(r.index, n) == v.index
  {
    Viewer(NextIndex(v.index, n), false)
  }

  /** The address the viewer loads the shown photo from, when the index names a photo. */
  function PhotoUrl(photos: seq<Photo>, v: Viewer): (r: Option<string>)
    ensures r.Some? <==> 0 <= v.index < |photos|
  {
    if 0 <= v.index < |photos| then Some("/api/photos/" + photos[v.index].id) else None
  }

  /** What the viewer shows around the photo: arrows and a counter, only for several photos. */
  datatype Chrome = Chrome(arrows: bool, counter: Option<(int, nat)>, showsImage: bool)

  function Render(photos: seq<Photo>, v: Viewer): (c: Chrome)
    ensures c.arrows <==> |photos| > 1
    ensures c.counter.Some? <==> |photos| > 1
    ensures c.counter.Some? ==> c.counter.value == (v.index + 1, |photos|)
    ensures c.showsImage <==> PhotoUrl(photos, v).Some? && !v.imageError
  {
    var several := |photos| > 1;
    Chrome(several, if several then Some((v.index + 1, |photos|)) else None, PhotoUrl(photos, v).Some? && !v.imageError)
  }
}
