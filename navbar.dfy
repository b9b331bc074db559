/**
 * The Navbar's theme toggle. `isDark` starts from the saved theme in local
 * storage, the toggle button flips it, and an effect that runs whenever it
 * changes mirrors it into local storage (key "theme") and onto the class list
 * of the document root (class "dark").
 *
 * Browser holds the two pieces of global browser state the effect writes;
 * Navbar holds the component's state and a reference to the browser it runs in.
 */
module Theme {

  const ThemeKey := "theme"
  const DarkValue := "dark"
  const LightValue := "light"
  const DarkClass := "dark"

  /** The initial `isDark`: the saved theme is "dark"; a missing key or any other value means light. */
  predicate StoredIsDark(storage: map<string, string>) {
    ThemeKey in storage && storage[ThemeKey] == DarkValue
  }

  /** Local storage after the effect: "theme" holds "dark" or "light", every other key as it was. */
  function Persisted(storage: map<string, string>, isDark: bool): (r: map<string, string>)
    ensures ThemeKey in r && r[ThemeKey] == (if isDark then DarkValue else LightValue)
    ensures r.Keys == storage.Keys + {ThemeKey}
    ensures forall k :: k in storage && k != ThemeKey ==> r[k] == storage[k]
  {
    storage[ThemeKey := if isDark then DarkValue else LightValue]
  }

  /** The root's class list after the effect: "dark" present exactly when dark, every other class as it was. */
  function Styled(classes: set<string>, isDark: bool): (r: set<string>)
    ensures DarkClass in r <==> isDark
    ensures r - {DarkClass} == classes - {DarkClass}
  {
    if isDark then classes + {DarkClass} else classes - {DarkClass}
  }

  /** Reading the theme back after the effect saved it gives the same `isDark`: a reload keeps the theme. */
  lemma ReloadRoundTrip(storage: map<string, string>, isDark: bool)
    ensures StoredIsDark(Persisted(storage, isDark)) == isDark
  {
  }

  /** Running the effect again with the same `isDark` changes nothing. */
  lemma EffectIdempotent(storage: map<string, string>, classes: set<string>, isDark: bool)
    ensures Persisted(Persisted(storage, isDark), isDark) == Persisted(storage, isDark)
    ensures Styled(Styled(classes, isDark), isDark) == Styled(classes, isDark)
  {
  }

  /** The browser state shared by every component of the page. */
  class Browser {
    var storage: map<string, string>
    var rootClasses: set<string>

    constructor (storage: map<string, string>, rootClasses: set<string>)
      ensures this.storage == storage && this.rootClasses == rootClasses
    {
      this.storage := storage;
      this.rootClasses := rootClasses;
    }
  }

  class Navbar {
    var isDark: bool
    const browser: Browser

    /** Storage and root classes show the component's `isDark`. */
    predicate Mirrored()
      reads this, browser
    {
      && ThemeKey in browser.storage
      && browser.storage[ThemeKey] == (if isDark then DarkValue else LightValue)
      && (DarkClass in browser.rootClasses <==> isDark)
    }

    /** The `useState` initialiser: reads the saved theme and writes nothing. */
    constructor (browser: Browser)
      ensures this.browser == browser && isDark == StoredIsDark(browser.storage)
    {
      this.browser := browser;
      isDark := StoredIsDark(browser.storage);
    }

    /** The effect on `[isDark]`: add or remove the class, save the theme. */
    method ApplyTheme()
      modifies browser
      ensures browser.storage == Persisted(old(browser.storage), isDark)
      ensures browser.rootClasses == Styled(old(browser.rootClasses), isDark)
      ensures Mirrored()
    {
      if isDark {
        browser.rootClasses := browser.rootClasses + {DarkClass};
        browser.storage := browser.storage[ThemeKey := DarkValue];
      } else {
        browser.rootClasses := browser.rootClasses - {DarkClass};
        browser.storage := browser.storage[ThemeKey := LightValue];
      }
    }

    /** The toggle button's handler: `setIsDark(!isDark)`. */
    method Toggle()
      modifies this
      ensures isDark == !old(isDark)
    {
      isDark := !isDark;
    }

    /** A click on the toggle button, followed by the effect the new `isDark` triggers. */
    method ToggleAndApply()
      modifies this, browser
      ensures isDark == !old(isDark)
      ensures browser.storage == Persisted(old(browser.storage), isDark)
      ensures browser.rootClasses == Styled(old(browser.rootClasses), isDark)
      ensures Mirrored()
    {
      Toggle();
      ApplyTheme();
    }
  }

  /** Mounting the Navbar: the initialiser, then the effect's first run. */
  method Mount(browser: Browser) returns (nav: Navbar)
    modifies browser
    ensures fresh(nav) && nav.browser == browser
    ensures nav.isDark == StoredIsDark(old(browser.storage))
    ensures browser.storage == Persisted(old(browser.storage), nav.isDark)
    ensures browser.rootClasses == Styled(old(browser.rootClasses), nav.isDark)
    ensures nav.Mirrored()
  {
    nav := new Navbar(browser);
    nav.ApplyTheme();
  }

  /** Two clicks on the toggle, each followed by its effect, leave `isDark`, the saved theme and the dark class as they were. */
  method ToggleTwice(nav: Navbar)
    requires nav.Mirrored()
    modifies nav, nav.browser
    ensures nav.isDark == old(nav.isDark)
    ensures nav.browser.storage == old(nav.browser.storage)
    ensures nav.browser.rootClasses == old(nav.browser.rootClasses)
  {
    nav.ToggleAndApply();
    nav.ToggleAndApply();
  }

  /** A reload: a fresh Navbar over the same storage starts with the theme the old one last applied. */
  method Reload(nav: Navbar) returns (again: Navbar)
    requires nav.Mirrored()
    ensures again.browser == nav.browser && again.isDark == nav.isDark
  {
    again := new Navbar(nav.browser);
  }
}
