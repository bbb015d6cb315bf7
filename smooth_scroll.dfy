/**
 * Smooth scrolling for in-page links: a click on a link whose href starts
 * with '#' scrolls the window so that the target element's top sits just
 * below the navigation bar.
 */
module SmoothScroll {
  import opened Wrappers

  /** The offset a click on a link with this href scrolls to, if any. tops
      maps each element id on the page to its bounding box's top edge,
      relative to the viewport; pageYOffset is the current scroll offset and
      navbarHeight the bar's offsetHeight. The bare "#" and an href naming no
      element do nothing. */
  function ScrollTarget(href: string, tops: map<string, real>, pageYOffset: real, navbarHeight: real)
    : (r: Option<real>)
    requires |href| > 0 && href[0] == '#'
    ensures r.None? <==> href == "#" || href[1..] !in tops
    ensures r.Some? ==> href[1..] in tops && tops[href[1..]] - (r.value - pageYOffset) == navbarHeight
  {
    if href == "#" then None
    else
      var id := href[1..];
      if id in tops then Some(tops[id] + pageYOffset - navbarHeight) else None
  }
}
