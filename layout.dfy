/**
 * The site header: a scroll flag that turns the header solid once the page is scrolled past
 * 20 pixels, a mobile menu that the toggle opens and closes and any navigation closes, and
 * the navigation links, one per route, in the desktop bar and in the mobile menu.
 *
 * The window is an input: the scroll position is passed to the scroll handler, and the scroll
 * listener registration is the number of handlers the header has registered.
 */
module Layout {
  import opened Seqs

  datatype Route = Route(path: string, text: string)

  /** The site's routes, in menu order. */
  const ROUTES: seq<Route> := [
    Route("/", "Inicio"),
    Route("/productos", "Catálogo"),
    Route("/servicios", "Servicios"),
    Route("/blog", "Blog"),
    Route("/nosotros", "Nosotros"),
    Route("/contacto", "Contacto")
  ]

  /** The scroll position past which the header is solid. */
  const SCROLL_THRESHOLD: real := 20.0

  /** A navigation link of a menu. */
  datatype NavLink = NavLink(to: string, text: string)

  function LinkOf(r: Route): NavLink {
    NavLink(r.path, r.text)
  }

  /** The links of a menu: one per route, in order (the desktop bar and the mobile menu alike). */
  function MenuLinks(routes: seq<Route>): (links: seq<NavLink>)
    ensures |links| == |routes|
    ensures forall k :: 0 <= k < |routes| ==> links[k].to == routes[k].path && links[k].text == routes[k].text
  {
    Map(LinkOf, routes)
  }

  /** The site's menus have six links, the blog's fourth. */
  lemma SiteMenu()
    ensures |MenuLinks(ROUTES)| == 6
    ensures MenuLinks(ROUTES)[3] == NavLink("/blog", "Blog")
  {
  }

  /** The icon of the mobile toggle. */
  datatype ToggleIcon = MenuIcon | CloseIcon

  /** What the header shows for its state. */
  datatype HeaderView = HeaderView(solid: bool, toggleIcon: ToggleIcon, overlay: bool)

  /** A solid header when scrolled; the close icon and the overlay exactly when the menu is open. */
  function HeaderViewOf(isOpen: bool, scrolled: bool): (v: HeaderView)
    ensures v.solid == scrolled
    ensures v.overlay == isOpen
    ensures v.toggleIcon == CloseIcon <==> isOpen
  {
    HeaderView(scrolled, if isOpen then CloseIcon else MenuIcon, isOpen)
  }

  /** The header's state. */
  class Header {
    var isOpen: bool
    var scrolled: bool
    var scrollListeners: nat

    /** Menu closed, not scrolled, no listener yet. */
    constructor()
      ensures !isOpen && !scrolled && scrollListeners == 0
    {
      isOpen := false;
      scrolled := false;
      scrollListeners := 0;
    }

    function View(): HeaderView
      reads this
    {
      HeaderViewOf(isOpen, scrolled)
    }

    /** Mounting registers the scroll handler. */
    method Mount()
      modifies this
      ensures scrollListeners == old(scrollListeners) + 1
      ensures isOpen == old(isOpen) && scrolled == old(scrolled)
    {
      scrollListeners := scrollListeners + 1;
    }

    /** Tearing down removes the handler that mounting registered (removing an unregistered one does nothing). */
    method Unmount()
      modifies this
      ensures scrollListeners == if old(scrollListeners) > 0 then old(scrollListeners) - 1 else 0
      ensures isOpen == old(isOpen) && scrolled == old(scrolled)
    {
      if scrollListeners > 0 {
        scrollListeners := scrollListeners - 1;
      }
    }

    /** A scroll event: with the handler registered, the flag becomes whether the position is past 20. */
    method OnScroll(scrollY: real)
      modifies this
      ensures scrollListeners > 0 ==> scrolled == (scrollY > SCROLL_THRESHOLD)
      ensures scrollListeners == 0 ==> scrolled == old(scrolled)
      ensures isOpen == old(isOpen) && scrollListeners == old(scrollListeners)
    {
      if scrollListeners > 0 {
        scrolled := scrollY > SCROLL_THRESHOLD;
      }
    }

    /** The mobile toggle flips the menu. */
    method Toggle()
      modifies this
      ensures isOpen == !old(isOpen)
      ensures scrolled == old(scrolled) && scrollListeners == old(scrollListeners)
    {
      isOpen := !isOpen;
    }

    /** Any change of location closes the menu. */
    method LocationChanged()
      modifies this
      ensures !isOpen
      ensures scrolled == old(scrolled) && scrollListeners == old(scrollListeners)
    {
      isOpen := false;
    }
  }

  /** Mounting and then tearing down leaves no listener behind. */
  method MountUnmount(h: Header)
    modifies h
    ensures h.scrollListeners == old(h.scrollListeners)
    ensures h.isOpen == old(h.isOpen) && h.scrolled == old(h.scrolled)
  {
    h.Mount();
    h.Unmount();
  }

  /** Toggling twice restores the menu, and the view. */
  method ToggleTwice(h: Header)
    modifies h
    ensures h.isOpen == old(h.isOpen) && h.View() == old(h.View())
  {
    h.Toggle();
    h.Toggle();
  }
}
