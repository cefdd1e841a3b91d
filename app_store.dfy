/**
 * web/src/store/app.ts: the layout state of the admin console (sidebar,
 * dark or light theme, loading flag, breadcrumbs, device class) with the
 * two settings it keeps in localStorage and the `dark` class it keeps on
 * the document's root element.
 */
module AppStore {
  import opened Common
  import opened WebStorage

  const SidebarKey := "sidebarCollapsed"
  const ThemeKey := "theme"
  const DarkClass := "dark"
  const MobileBelow := 768
  const TabletBelow := 1024

  /** A breadcrumb: a title and an optional path. */
  datatype Crumb = Crumb(title: string, path: Option<string>)

  /** The device class the window width puts the console in. */
  function DeviceFor(width: int): (d: string)
    ensures d == "mobile" <==> width < MobileBelow
    ensures d == "tablet" <==> MobileBelow <= width < TabletBelow
    ensures d == "desktop" <==> TabletBelow <= width
  {
    if width < MobileBelow then "mobile" else if width < TabletBelow then "tablet" else "desktop"
  }

  /** toggleTheme's flip: dark becomes light and anything else dark. */
  function OtherTheme(theme: string): (r: string)
    ensures r == "light" <==> theme == "dark"
    ensures r != "light" ==> r == "dark"
  {
    if theme == "dark" then "light" else "dark"
  }

  /** Two flips return to dark or light; anything else settles to dark after one. */
  lemma OtherThemeTwice(theme: string)
    ensures theme in {"dark", "light"} ==> OtherTheme(OtherTheme(theme)) == theme
    ensures theme !in {"dark", "light"} ==> OtherTheme(theme) == "dark"
  {
  }

  /** document.documentElement, as far as its class list goes. */
  class Root {
    var classList: set<string>

    constructor ()
      ensures classList == {}
    {
      classList := {};
    }
  }

  class Store {
    var sidebarCollapsed: bool
    var theme: string
    var loading: bool
    var breadcrumbs: seq<Crumb>
    var isMobile: bool
    var isTablet: bool
    const storage: LocalStorage
    const html: Root

    constructor (storage: LocalStorage, html: Root)
      ensures this.storage == storage && this.html == html
      ensures !sidebarCollapsed && theme == "dark" && !loading && breadcrumbs == []
      ensures !isMobile && !isTablet
    {
      this.storage := storage;
      this.html := html;
      sidebarCollapsed, theme, loading, breadcrumbs := false, "dark", false, [];
      isMobile, isTablet := false, false;
    }

    /** deviceType: mobile first, then tablet, else desktop. */
    function DeviceType(): (d: string)
      reads this
      ensures d == "mobile" <==> isMobile
      ensures d == "tablet" <==> !isMobile && isTablet
      ensures d == "desktop" <==> !isMobile && !isTablet
    {
      if isMobile then "mobile" else if isTablet then "tablet" else "desktop"
    }

    /** The root element carries the dark class exactly when the theme is dark. */
    predicate ThemeShown()
      reads this, html
    {
      DarkClass in html.classList <==> theme == DarkClass
    }

    /** toggleSidebar: the flag inverted and persisted as its String. */
    method ToggleSidebar()
      modifies this, storage
      ensures sidebarCollapsed == !old(sidebarCollapsed)
      ensures storage.items == old(storage.items)[SidebarKey := BoolString(sidebarCollapsed)]
      ensures theme == old(theme) && loading == old(loading) && breadcrumbs == old(breadcrumbs)
      ensures isMobile == old(isMobile) && isTablet == old(isTablet)
    {
      sidebarCollapsed := !sidebarCollapsed;
      storage.SetItem(SidebarKey, BoolString(sidebarCollapsed));
    }

    /** setSidebarCollapsed: the flag given, persisted. */
    method SetSidebarCollapsed(collapsed: bool)
      modifies this, storage
      ensures sidebarCollapsed == collapsed
      ensures storage.items == old(storage.items)[SidebarKey := BoolString(collapsed)]
      ensures theme == old(theme) && loading == old(loading) && breadcrumbs == old(breadcrumbs)
      ensures isMobile == old(isMobile) && isTablet == old(isTablet)
    {
      sidebarCollapsed := collapsed;
      storage.SetItem(SidebarKey, BoolString(collapsed));
    }

    /** updateThemeClass: add the dark class for the dark theme, remove it otherwise. */
    method UpdateThemeClass()
      modifies html
      ensures html.classList == if theme == DarkClass then old(html.classList) + {DarkClass}
                                else old(html.classList) - {DarkClass}
      ensures ThemeShown()
    {
      if theme == DarkClass {
        html.classList := html.classList + {DarkClass};
      } else {
        html.classList := html.classList - {DarkClass};
      }
    }

    /** toggleTheme: the other theme, persisted and shown. */
    method ToggleTheme()
      modifies this, storage, html
      ensures theme == OtherTheme(old(theme))
      ensures storage.items == old(storage.items)[ThemeKey := theme]
      ensures ThemeShown()
      ensures sidebarCollapsed == old(sidebarCollapsed) && loading == old(loading) && breadcrumbs == old(breadcrumbs)
      ensures isMobile == old(isMobile) && isTablet == old(isTablet)
      ensures html.classList == if theme == DarkClass then old(html.classList) + {DarkClass}
                                else old(html.classList) - {DarkClass}
    {
      theme := if theme == "dark" then "light" else "dark";
      storage.SetItem(ThemeKey, theme);
      UpdateThemeClass();
    }

    /** setTheme: the theme given, persisted and shown. */
    method SetTheme(newTheme: string)
      modifies this, storage, html
      ensures theme == newTheme
      ensures storage.items == old(storage.items)[ThemeKey := newTheme]
      ensures ThemeShown()
      ensures sidebarCollapsed == old(sidebarCollapsed) && loading == old(loading) && breadcrumbs == old(breadcrumbs)
      ensures isMobile == old(isMobile) && isTablet == old(isTablet)
      ensures html.classList == if theme == DarkClass then old(html.classList) + {DarkClass}
                                else old(html.classList) - {DarkClass}
    {
      theme := newTheme;
      storage.SetItem(ThemeKey, newTheme);
      UpdateThemeClass();
    }

    method SetLoading(isLoading: bool)
      modifies this
      ensures loading == isLoading
      ensures sidebarCollapsed == old(sidebarCollapsed) && theme == old(theme) && breadcrumbs == old(breadcrumbs)
      ensures isMobile == old(isMobile) && isTablet == old(isTablet)
    {
      loading := isLoading;
    }

    method SetBreadcrumbs(crumbs: seq<Crumb>)
      modifies this
      ensures breadcrumbs == crumbs
      ensures sidebarCollapsed == old(sidebarCollapsed) && theme == old(theme) && loading == old(loading)
      ensures isMobile == old(isMobile) && isTablet == old(isTablet)
    {
      breadcrumbs := crumbs;
    }

    /** addBreadcrumb: push at the end. */
    method AddBreadcrumb(crumb: Crumb)
      modifies this
      ensures breadcrumbs == old(breadcrumbs) + [crumb]
      ensures sidebarCollapsed == old(sidebarCollapsed) && theme == old(theme) && loading == old(loading)
      ensures isMobile == old(isMobile) && isTablet == old(isTablet)
    {
      breadcrumbs := breadcrumbs + [crumb];
    }

    method ClearBreadcrumbs()
      modifies this
      ensures breadcrumbs == []
      ensures sidebarCollapsed == old(sidebarCollapsed) && theme == old(theme) && loading == old(loading)
      ensures isMobile == old(isMobile) && isTablet == old(isTablet)
    {
      breadcrumbs := [];
    }

    /**
     * detectDevice for the window's width: the two flags from the width
     * bands, and on a phone an open sidebar is collapsed (and persisted).
     */
    method DetectDevice(width: int)
      modifies this, storage
      ensures isMobile <==> width < MobileBelow
      ensures isTablet <==> MobileBelow <= width < TabletBelow
      ensures DeviceType() == DeviceFor(width)
      ensures !(isMobile && isTablet)
      ensures sidebarCollapsed == (old(sidebarCollapsed) || isMobile)
      ensures isMobile && !old(sidebarCollapsed) ==>
        storage.items == old(storage.items)[SidebarKey := BoolString(true)]
      ensures !(isMobile && !old(sidebarCollapsed)) ==> storage.items == old(storage.items)
      ensures theme == old(theme) && loading == old(loading) && breadcrumbs == old(breadcrumbs)
    {
      isMobile := width < MobileBelow;
      isTablet := width >= MobileBelow && width < TabletBelow;
      if isMobile && !sidebarCollapsed {
        SetSidebarCollapsed(true);
      }
    }

    /**
     * initApp for the window's width: a stored sidebar flag is restored as
     * `== "true"`, a stored non-empty theme is taken as it is, the theme is
     * shown, and the device is detected. The resize listener is left out.
     */
    method InitApp(width: int)
      modifies this, storage, html
      ensures theme == (if ThemeKey in old(storage.items) && old(storage.items)[ThemeKey] != ""
                        then old(storage.items)[ThemeKey] else old(theme))
      ensures ThemeShown()
      ensures DeviceType() == DeviceFor(width)
      ensures width < MobileBelow ==> sidebarCollapsed
      ensures width >= MobileBelow ==>
        sidebarCollapsed == (if SidebarKey in old(storage.items) then old(storage.items)[SidebarKey] == "true"
                             else old(sidebarCollapsed))
      ensures isMobile <==> width < MobileBelow
      ensures isTablet <==> MobileBelow <= width < TabletBelow
      ensures var restored := if SidebarKey in old(storage.items) then old(storage.items)[SidebarKey] == "true"
                              else old(sidebarCollapsed);
        storage.items == if width < MobileBelow && !restored then old(storage.items)[SidebarKey := BoolString(true)]
                         else old(storage.items)
      ensures html.classList == if theme == DarkClass then old(html.classList) + {DarkClass}
                                else old(html.classList) - {DarkClass}
      ensures loading == old(loading) && breadcrumbs == old(breadcrumbs)
    {
      var savedSidebarState := storage.GetItem(SidebarKey);
      if savedSidebarState.Some? {
        sidebarCollapsed := savedSidebarState.value == "true";
      }
      var savedTheme := storage.GetItem(ThemeKey);
      if savedTheme.Some? && savedTheme.value != "" {
        theme := savedTheme.value;
      }
      UpdateThemeClass();
      DetectDevice(width);
    }
  }
}
