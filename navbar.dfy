/** The navigation bar: a dark/light theme resolved on mount from the saved choice
    and the operating system's preference, written back to storage and to the
    document's class list whenever it changes, and a mobile menu that opens and
    closes. */
module Navbar {
  import opened Js

  const DarkClass := "dark"

  /** The section anchors of the desktop menu, in order. */
  const SectionLinks := ["#home", "#about", "#projects"]

  /** The initial value of `isDark`. Without a `window` (rendering outside a browser) it
      is false. Otherwise a saved `'dark'` wins, any other non-empty saved value means
      light, and a missing or empty saved value defers to the system preference. */
  function ResolveInitialTheme(hasWindow: bool, savedTheme: Option<string>, prefersDark: bool): (isDark: bool)
    ensures !hasWindow ==> !isDark
    ensures hasWindow && savedTheme == Some("dark") ==> isDark
    ensures hasWindow && Truthy(savedTheme) && savedTheme.value != "dark" ==> !isDark
    ensures hasWindow && !Truthy(savedTheme) ==> isDark == prefersDark
  {
    if hasWindow then
      savedTheme == Some("dark") || (!Truthy(savedTheme) && prefersDark)
    else
      false
  }

  /** The value the effect saves under `theme`. */
  function StoredValue(isDark: bool): (v: string)
    ensures v == "dark" <==> isDark
    ensures v != ""
  {
    if isDark then "dark" else "light"
  }

  /** Whatever the effect saved is read back, on the next load, as the same theme,
      whatever the system preference is then. */
  lemma ThemeRoundTrip(isDark: bool, prefersDark: bool)
    ensures ResolveInitialTheme(true, Some(StoredValue(isDark)), prefersDark) == isDark
  {
  }

  /** The component's state together with the two pieces of the browser it writes:
      the saved `theme` entry of local storage and the class list of the document's
      root element. */
  class NavbarState {
    var isOpen: bool
    var isDark: bool
    var savedTheme: Option<string>
    var classList: set<string>

    /** Storage and the class list agree with `isDark`, as they do once the effect has
        run for the current value. */
    predicate Persisted()
      reads this
    {
      savedTheme == Some(StoredValue(isDark)) && (DarkClass in classList <==> isDark)
    }

    /** Mounting: the menu starts closed and the theme is resolved from what storage
        and the system report; nothing is written yet. */
    constructor (hasWindow: bool, saved: Option<string>, prefersDark: bool, classes: set<string>)
      ensures !isOpen
      ensures isDark == ResolveInitialTheme(hasWindow, saved, prefersDark)
      ensures savedTheme == saved && classList == classes
    {
      isOpen := false;
      isDark := ResolveInitialTheme(hasWindow, saved, prefersDark);
      savedTheme := saved;
      classList := classes;
    }

    /** The effect that runs after every change of `isDark`: it adds or removes the
        `dark` class and saves `'dark'` or `'light'`; nothing else changes. */
    method PersistTheme()
      modifies this`savedTheme, this`classList
      ensures Persisted()
      ensures savedTheme == Some(StoredValue(isDark))
      ensures classList == if isDark then old(classList) + {DarkClass} else old(classList) - {DarkClass}
    {
      if isDark {
        classList := classList + {DarkClass};
        savedTheme := Some("dark");
      } else {
        classList := classList - {DarkClass};
        savedTheme := Some("light");
      }
    }

    /** The theme a fresh load would start with, given the system preference then. */
    function ThemeOnReload(prefersDark: bool): (d: bool)
      reads this
      requires Persisted()
      ensures d == isDark
    {
      ResolveInitialTheme(true, savedTheme, prefersDark)
    }

    /** `toggleMenu`: negates `isOpen` and nothing else. */
    method ToggleMenu()
      modifies this`isOpen
      ensures isOpen == !old(isOpen)
    {
      isOpen := !isOpen;
    }

    /** `toggleTheme`: negates `isDark` and nothing else; the effect then runs. */
    method ToggleTheme()
      modifies this`isDark
      ensures isDark == !old(isDark)
    {
      isDark := !isDark;
    }

    /** The links of the mobile menu, in order: the same three sections the desktop
        menu links to while the menu is open, and none while it is closed. */
    function MobileLinks(): (links: seq<string>)
      reads this
      ensures links != [] <==> isOpen
      ensures isOpen ==> links == SectionLinks
    {
      if isOpen then SectionLinks else []
    }

    /** Clicking a mobile link runs `toggleMenu`; a link is only there while the menu is
        open, so the click closes the menu and no link is left. */
    method ClickMobileLink(href: string)
      requires href in MobileLinks()
      modifies this`isOpen
      ensures !isOpen && MobileLinks() == []
    {
      ToggleMenu();
    }
  }

  /** Toggling the theme twice, with the effect after each toggle, leaves the theme,
      the saved value, the class list and the menu as they were. */
  method ToggleThemeTwice(n: NavbarState)
    requires n.Persisted()
    modifies n
    ensures n.isDark == old(n.isDark) && n.isOpen == old(n.isOpen)
    ensures n.savedTheme == old(n.savedTheme) && n.classList == old(n.classList)
    ensures n.Persisted()
  {
    n.ToggleTheme();
    n.PersistTheme();
    n.ToggleTheme();
    n.PersistTheme();
  }

  /** Toggling the menu twice leaves the menu and the theme as they were. */
  method ToggleMenuTwice(n: NavbarState)
    modifies n
    ensures n.isOpen == old(n.isOpen) && n.isDark == old(n.isDark)
    ensures n.savedTheme == old(n.savedTheme) && n.classList == old(n.classList)
  {
    n.ToggleMenu();
    n.ToggleMenu();
  }

  /** The theme survives a reload: mount in a browser from what storage and the system
      report, let the effect run, and a later mount, under any system preference,
      starts with the same theme. */
  method ReloadKeepsTheme(saved: Option<string>, prefersDark: bool, prefersDarkLater: bool)
    returns (first: bool, second: bool)
    ensures first == ResolveInitialTheme(true, saved, prefersDark)
    ensures second == first
  {
    var page := new NavbarState(true, saved, prefersDark, {});
    page.PersistTheme();
    first := page.isDark;
    var reloaded := new NavbarState(true, page.savedTheme, prefersDarkLater, {});
    second := reloaded.isDark;
  }
}
