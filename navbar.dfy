/**
 * The navigation bar: the hamburger button and the menu each carry an
 * `active` class that a click on the hamburger toggles and a click on any
 * menu link removes; the bar itself carries `scrolled` while the page is
 * scrolled more than 50 pixels down.
 */
module Navbar {
  import opened Wrappers

  /** The scroll offset past which the bar is drawn as scrolled. */
  const ScrollThreshold: real := 50.0

  datatype NavEvent = HamburgerClick | LinkClick | Scroll(scrollY: real)

  datatype NavState = NavState(hamburgerActive: bool, menuActive: bool, scrolled: bool)

  /** One handler run. */
  function Step(s: NavState, e: NavEvent): NavState {
    match e
    case HamburgerClick => s.(hamburgerActive := !s.hamburgerActive, menuActive := !s.menuActive)
    case LinkClick => s.(hamburgerActive := false, menuActive := false)
    case Scroll(y) => s.(scrolled := y > ScrollThreshold)
  }

  /** The handlers run for each event in turn, oldest first. */
  function Run(s: NavState, events: seq<NavEvent>): NavState
    decreases |events|
  {
    if events == [] then s else Step(Run(s, events[..|events| - 1]), events[|events| - 1])
  }

  /** A scroll event decides `scrolled` from the new offset alone and leaves
      the hamburger and the menu alone; clicks never touch `scrolled`; a
      hamburger click flips both `active` classes and a link click clears
      them. */
  lemma StepEffect(s: NavState, e: NavEvent)
    ensures e.Scroll? ==> Step(s, e).scrolled == (e.scrollY > ScrollThreshold)
                          && Step(s, e).hamburgerActive == s.hamburgerActive
                          && Step(s, e).menuActive == s.menuActive
    ensures !e.Scroll? ==> Step(s, e).scrolled == s.scrolled
    ensures e == HamburgerClick ==> Step(s, e).hamburgerActive == !s.hamburgerActive
                                    && Step(s, e).menuActive == !s.menuActive
    ensures e == LinkClick ==> !Step(s, e).hamburgerActive && !Step(s, e).menuActive
  {
  }

  /** Two clicks on the hamburger undo each other. */
  lemma ToggleTwice(s: NavState)
    ensures Step(Step(s, HamburgerClick), HamburgerClick) == s
  {
  }

  /** A hamburger and a menu that start in step stay in step, whatever
      happens. */
  lemma {:induction false} InSyncPreserved(s: NavState, events: seq<NavEvent>)
    requires s.hamburgerActive == s.menuActive
    ensures Run(s, events).hamburgerActive == Run(s, events).menuActive
    decreases |events|
  {
    if events != [] {
      InSyncPreserved(s, events[..|events| - 1]);
    }
  }

  /** The offset of the latest scroll event, if there was one. */
  function LastScrollY(events: seq<NavEvent>): Option<real>
    decreases |events|
  {
    if events == [] then None
    else if events[|events| - 1].Scroll? then Some(events[|events| - 1].scrollY)
    else LastScrollY(events[..|events| - 1])
  }

  /** `scrolled` holds exactly when the latest scroll offset is past the
      threshold, and is what it was when no scroll happened at all. */
  lemma {:induction false} ScrolledFollowsLastScroll(s: NavState, events: seq<NavEvent>)
    ensures Run(s, events).scrolled == match LastScrollY(events)
                                       case None => s.scrolled
                                       case Some(y) => y > ScrollThreshold
    decreases |events|
  {
    if events != [] {
      ScrolledFollowsLastScroll(s, events[..|events| - 1]);
    }
  }

  /** The three classes as the page holds them. */
  class NavbarView {
    var hamburgerActive: bool
    var menuActive: bool
    var scrolled: bool

    /** The page as loaded: no class set. */
    constructor ()
      ensures State() == NavState(false, false, false)
    {
      hamburgerActive := false;
      menuActive := false;
      scrolled := false;
    }

    function State(): NavState
      reads this
    {
      NavState(hamburgerActive, menuActive, scrolled)
    }

    /** The hamburger's click listener. */
    method OnHamburgerClick()
      modifies this
      ensures State() == Step(old(State()), HamburgerClick)
    {
      hamburgerActive := !hamburgerActive;
      menuActive := !menuActive;
    }

    /** Each menu link's click listener. */
    method OnLinkClick()
      modifies this
      ensures State() == Step(old(State()), LinkClick)
    {
      hamburgerActive := false;
      menuActive := false;
    }

    /** The window's scroll listener. */
    method OnScroll(scrollY: real)
      modifies this
      ensures State() == Step(old(State()), Scroll(scrollY))
    {
      if scrollY > ScrollThreshold {
        scrolled := true;
      } else {
        scrolled := false;
      }
    }
  }
}
