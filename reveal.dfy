/**
 * The reveal-on-scroll pass: every element carrying data-aos gets the
 * aos-animate class once its box reaches the lower 85% line of the viewport
 * while its bottom edge is not above the viewport. The class is only ever
 * added. A pass runs on load, again 100 ms later, and on every scroll.
 */
module Reveal {
  /** An element's bounding box as the browser reports it, relative to the
      top of the viewport. */
  datatype Rect = Rect(top: real, bottom: real)

  /** window.innerHeight, or documentElement.clientHeight when innerHeight
      is 0. */
  function ViewportHeight(innerHeight: real, clientHeight: real): real {
    if innerHeight != 0.0 then innerHeight else clientHeight
  }

  /** isElementInViewport: the top edge is at or above 85% of the viewport
      height and the bottom edge is at or below the viewport's top. */
  predicate InViewport(r: Rect, h: real) {
    r.top <= h * 0.85 && r.bottom >= 0.0
  }

  /** The same test in whole twentieths of the viewport. */
  lemma InViewportScaled(r: Rect, h: real)
    ensures InViewport(r, h) <==> 20.0 * r.top <= 17.0 * h && r.bottom >= 0.0
  {
  }

  /** The geometry one pass sees: every element's box and the viewport
      height. */
  datatype Frame = Frame(rects: seq<Rect>, height: real)

  /** The animated flags after one pass over frame f. */
  function Pass(animated: seq<bool>, f: Frame): (r: seq<bool>)
    requires |f.rects| == |animated|
    ensures |r| == |animated|
  {
    seq(|animated|, k requires 0 <= k < |animated| =>
      animated[k] || InViewport(f.rects[k], f.height))
  }

  /** A pass is monotone (an animated element stays animated), complete
      (every element in view is animated afterwards) and sound (it animates
      nothing else); a second pass over the same geometry changes nothing. */
  lemma PassEffect(animated: seq<bool>, f: Frame)
    requires |f.rects| == |animated|
    ensures forall k :: 0 <= k < |animated| && animated[k] ==> Pass(animated, f)[k]
    ensures forall k :: 0 <= k < |animated| && InViewport(f.rects[k], f.height) ==> Pass(animated, f)[k]
    ensures forall k :: 0 <= k < |animated| && !animated[k] && !InViewport(f.rects[k], f.height) ==>
              !Pass(animated, f)[k]
    ensures Pass(Pass(animated, f), f) == Pass(animated, f)
  {
  }

  predicate Fits(frames: seq<Frame>, n: nat) {
    forall j :: 0 <= j < |frames| ==> |frames[j].rects| == n
  }

  /** The flags after a series of passes, one per frame, in order. */
  function Passes(animated: seq<bool>, frames: seq<Frame>): (r: seq<bool>)
    requires Fits(frames, |animated|)
    ensures |r| == |animated|
    decreases |frames|
  {
    if frames == [] then animated else Passes(Pass(animated, frames[0]), frames[1..])
  }

  /** Element k was in view in frame j. */
  predicate SeenIn(frames: seq<Frame>, j: nat, k: nat)
    requires j < |frames| && k < |frames[j].rects|
  {
    InViewport(frames[j].rects[k], frames[j].height)
  }

  /** After any series of passes an element is animated exactly when it
      already was or it was in view in at least one of them; in particular
      what the load-time and delayed passes reveal is never hidden again by
      scrolling. */
  lemma {:induction false} PassesEffect(animated: seq<bool>, frames: seq<Frame>, k: nat)
    requires Fits(frames, |animated|) && k < |animated|
    ensures Passes(animated, frames)[k] <==>
              animated[k] || exists j :: 0 <= j < |frames| && SeenIn(frames, j, k)
    decreases |frames|
  {
    if frames != [] {
      var next := Pass(animated, frames[0]);
      PassesEffect(next, frames[1..], k);
      assert next[k] <==> animated[k] || SeenIn(frames, 0, k);
      if exists j :: 0 <= j < |frames| - 1 && SeenIn(frames[1..], j, k) {
        var j :| 0 <= j < |frames| - 1 && SeenIn(frames[1..], j, k);
        assert SeenIn(frames, j + 1, k);
      }
      if exists j :: 0 <= j < |frames| && SeenIn(frames, j, k) {
        var j :| 0 <= j < |frames| && SeenIn(frames, j, k);
        if j == 0 {
          assert next[k];
        } else {
          assert SeenIn(frames[1..], j - 1, k);
        }
      }
    }
  }

  /** handleScrollAnimation over the elements' flags, their boxes and the
      window's two heights. */
  method HandleScrollAnimation(animated: array<bool>, rects: seq<Rect>, innerHeight: real, clientHeight: real)
    requires animated.Length == |rects|
    modifies animated
    ensures animated[..] == Pass(old(animated[..]), Frame(rects, ViewportHeight(innerHeight, clientHeight)))
  {
    ghost var before := animated[..];
    var k := 0;
    while k < animated.Length
      invariant 0 <= k <= animated.Length
      invariant forall i :: 0 <= i < k ==>
                  animated[i] == (before[i] || InViewport(rects[i], ViewportHeight(innerHeight, clientHeight)))
      invariant forall i :: k <= i < animated.Length ==> animated[i] == before[i]
    {
      if InViewport(rects[k], ViewportHeight(innerHeight, clientHeight)) {
        animated[k] := true;
      }
      k := k + 1;
    }
  }
}
