/** The site header of components/layout/Navbar.tsx: hiding on scroll-down,
    the mobile menu, and the active-link highlight. */
module Navbar {
  import Lists

  /** `lastScrollY`, `shouldShowNavbar`, `isOpen` and the current path;
      `pendingHides` counts the slide-up tweens started and not yet completed.
      Each one calls `setShouldShowNavbar(false)` when it ends, and a later
      tween does not cancel an earlier one. */
  datatype NavState = NavState(lastScrollY: real, shown: bool, pendingHides: nat, isOpen: bool, pathname: string)

  datatype NavEvent =
    | Scrolled(y: real)
    | HideTweenDone
    | MenuToggled
    | PathChanged(path: string)

  datatype NavLink = NavLink(href: string, caption: string)

  /** Below this offset the header never hides. */
  const HideThreshold: real := 100.0

  const NavLinks: seq<NavLink> := [
    NavLink("/", "Home"),
    NavLink("/destinations", "Destinations"),
    NavLink("/planner", "Trip Planner")]

  function Initial(pathname: string): NavState {
    NavState(0.0, true, 0, false, pathname)
  }

  /** Whether a scroll to `y` counts as scrolling down past the threshold. */
  predicate ScrollsDown(s: NavState, y: real) {
    y > s.lastScrollY && y > HideThreshold
  }

  /** `controlNavbar` and the other handlers. A downward scroll past the
      threshold starts another slide-up tween if the header is shown (it is
      marked hidden only when a tween completes); any other scroll shows a
      hidden header at once. `HideTweenDone` is the completion of the oldest
      outstanding tween and does nothing when none is outstanding. The path
      effect closes the menu when the path changes. */
  function Next(s: NavState, e: NavEvent): (r: NavState)
    ensures e.Scrolled? ==> r.lastScrollY == e.y && r.isOpen == s.isOpen && r.pathname == s.pathname
    ensures e.Scrolled? && !ScrollsDown(s, e.y) ==> r.shown && r.pendingHides == s.pendingHides
    ensures e.Scrolled? && ScrollsDown(s, e.y) ==> r.shown == s.shown && r.pendingHides == s.pendingHides + (if s.shown then 1 else 0)
    ensures e.HideTweenDone? && s.pendingHides > 0 ==> r == s.(shown := false, pendingHides := s.pendingHides - 1)
    ensures e.HideTweenDone? && s.pendingHides == 0 ==> r == s
    ensures e.MenuToggled? ==> r == s.(isOpen := !s.isOpen)
    ensures e.PathChanged? && e.path != s.pathname ==> r == s.(pathname := e.path, isOpen := false)
    ensures e.PathChanged? && e.path == s.pathname ==> r == s
    ensures !e.Scrolled? ==> r.lastScrollY == s.lastScrollY
  {
    match e
    case Scrolled(y) =>
      if ScrollsDown(s, y) then
        s.(lastScrollY := y, pendingHides := s.pendingHides + if s.shown then 1 else 0)
      else
        s.(lastScrollY := y, shown := true)
    case HideTweenDone =>
      if s.pendingHides > 0 then s.(shown := false, pendingHides := s.pendingHides - 1) else s
    case MenuToggled =>
      s.(isOpen := !s.isOpen)
    case PathChanged(p) =>
      if p != s.pathname then s.(pathname := p, isOpen := false) else s
  }

  /** The state after a run of events, oldest first. */
  function Run(s: NavState, es: seq<NavEvent>): NavState
    decreases |es|
  {
    if |es| == 0 then s else Run(Next(s, es[0]), es[1..])
  }

  /** Opening and closing the menu returns to the same state. */
  lemma ToggleTwice(s: NavState)
    ensures Next(Next(s, MenuToggled), MenuToggled) == s
  {
  }

  /** A downward scroll past the threshold followed by a tween's completion hides a shown header. */
  lemma ScrollDownHides(s: NavState, y: real)
    requires s.shown && ScrollsDown(s, y)
    ensures !Next(Next(s, Scrolled(y)), HideTweenDone).shown
  {
  }

  /** A hidden header reappears on the first scroll that is not downward past the threshold. */
  lemma ScrollUpShows(s: NavState, y: real)
    requires !s.shown && !ScrollsDown(s, y)
    ensures Next(s, Scrolled(y)).shown
  {
  }

  /** While tweens are outstanding the header never stays shown past the next
      completion, whatever the scroll position. */
  lemma PendingTweenHides(s: NavState)
    requires s.pendingHides > 0
    ensures !Next(s, HideTweenDone).shown
  {
  }

  /** The completion callback is not cancelled: scrolling down past the
      threshold and back up before the tween ends still leaves the header
      hidden, until the next scroll event. */
  lemma LateHideAfterScrollUp(pathname: string)
    ensures var s := Run(Initial(pathname), [Scrolled(200.0), Scrolled(150.0), HideTweenDone]);
      !s.shown && s.lastScrollY == 150.0 && s.pendingHides == 0
    ensures var s := Run(Initial(pathname), [Scrolled(200.0), Scrolled(150.0), HideTweenDone]);
      Next(s, Scrolled(140.0)).shown
  {
    var s1 := Next(Initial(pathname), Scrolled(200.0));
    var s2 := Next(s1, Scrolled(150.0));
    var s3 := Next(s2, HideTweenDone);
    assert Run(s3, []) == s3;
    assert Run(s2, [HideTweenDone]) == s3;
    assert Run(s1, [Scrolled(150.0), HideTweenDone]) == s3;
  }

  /** Two scrolls down start two tweens; the second completion hides the
      header again even after a scroll up has shown it in between. */
  lemma EveryTweenHides(pathname: string)
    ensures !Run(Initial(pathname), [Scrolled(200.0), Scrolled(250.0), HideTweenDone, Scrolled(240.0), HideTweenDone]).shown
  {
    var es := [Scrolled(200.0), Scrolled(250.0), HideTweenDone, Scrolled(240.0), HideTweenDone];
    var s1 := Next(Initial(pathname), Scrolled(200.0));
    var s2 := Next(s1, Scrolled(250.0));
    assert s2.pendingHides == 2;
    var s3 := Next(s2, HideTweenDone);
    var s4 := Next(s3, Scrolled(240.0));
    assert s4.shown && s4.pendingHides == 1;
    var s5 := Next(s4, HideTweenDone);
    assert Run(s5, []) == s5;
    assert Run(s4, [HideTweenDone]) == s5;
    assert Run(s3, [Scrolled(240.0), HideTweenDone]) == s5;
    assert Run(s2, [HideTweenDone, Scrolled(240.0), HideTweenDone]) == s5;
    assert Run(s1, es[1..]) == s5;
  }

  /** `isActive`: a link is highlighted when its href is the current path. */
  predicate IsActive(pathname: string, link: NavLink) {
    pathname == link.href
  }

  /** The highlighted links, in menu order. */
  function ActiveLinks(pathname: string, links: seq<NavLink>): (r: seq<NavLink>)
    ensures forall i :: 0 <= i < |r| ==> r[i] in links && IsActive(pathname, r[i])
    ensures forall i :: 0 <= i < |links| && IsActive(pathname, links[i]) ==> links[i] in r
  {
    Lists.Filter(links, (l: NavLink) => IsActive(pathname, l))
  }

  /** The three links have distinct hrefs, so at most one is highlighted on any path. */
  lemma AtMostOneActive(pathname: string)
    ensures |ActiveLinks(pathname, NavLinks)| <= 1
  {
    DistinctHrefsAtMostOne(pathname, NavLinks);
  }

  /** With pairwise distinct hrefs, no path highlights two links. */
  lemma {:induction false} DistinctHrefsAtMostOne(pathname: string, links: seq<NavLink>)
    requires forall i, j :: 0 <= i < j < |links| ==> links[i].href != links[j].href
    ensures |ActiveLinks(pathname, links)| <= 1
  {
    if |links| > 0 {
      var rest := links[1..];
      if IsActive(pathname, links[0]) {
        assert forall i :: 0 <= i < |rest| ==> rest[i].href != links[0].href;
        Lists.FilterDropsAll(rest, (l: NavLink) => IsActive(pathname, l));
      } else {
        DistinctHrefsAtMostOne(pathname, rest);
      }
    }
  }
}
