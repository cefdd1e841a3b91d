/**
 * web/src/stores/theme-store.ts: thirteen theme settings. The mode cycles light, dark, auto; applying the theme settles
 * isDark from the mode (and, for auto, from the system); each setter and
 * toggle saves the whole configuration.
 */
module ThemeStore {
  import opened Common
  import opened WebStorage
  import opened ThemeStorage

  /** toggleTheme's cycle: light to dark to auto, and anything else to light. */
  function NextMode(mode: string): (r: string)
    ensures r in {"light", "dark", "auto"}
    ensures mode !in {"light", "dark"} ==> r == "light"
  {
    if mode == "light" then "dark" else if mode == "dark" then "auto" else "light"
  }

  /** Three toggles bring any of the three modes back to itself; any other value is in the cycle after one. */
  lemma NextModeCycles(mode: string)
    ensures mode in {"light", "dark", "auto"} ==> NextMode(NextMode(NextMode(mode))) == mode
    ensures NextMode(NextMode(NextMode(NextMode(mode)))) == NextMode(mode)
  {
  }

  /** applyTheme's rule for isDark: the system's answer under auto, else whether the mode is dark. */
  function IsDarkFor(mode: string, systemDark: bool): (d: bool)
    ensures mode == "auto" ==> d == systemDark
    ensures mode != "auto" ==> (d <==> mode == "dark")
  {
    if mode == "auto" then systemDark else mode == "dark"
  }

  /** The seven on/off settings that have a toggle of their own. */
  datatype Flag = Sidebar | Animation | Compact | Breadcrumb | TabsView | FixedHeader | FixedSidebar

  function FlagValue(c: ThemeConfig, f: Flag): bool {
    match f
    case Sidebar => c.sidebarCollapsed
    case Animation => c.animationEnabled
    case Compact => c.compactMode
    case Breadcrumb => c.showBreadcrumb
    case TabsView => c.showTabsView
    case FixedHeader => c.fixedHeader
    case FixedSidebar => c.fixedSidebar
  }

  /** The configuration with one flag inverted. */
  function Flipped(c: ThemeConfig, f: Flag): (r: ThemeConfig)
    ensures FlagValue(r, f) == !FlagValue(c, f)
    ensures r.isDark == c.isDark && r.themeMode == c.themeMode && r.layoutMode == c.layoutMode
    ensures r.primaryColor == c.primaryColor && r.fontSize == c.fontSize && r.borderRadius == c.borderRadius
  {
    match f
    case Sidebar => c.(sidebarCollapsed := !c.sidebarCollapsed)
    case Animation => c.(animationEnabled := !c.animationEnabled)
    case Compact => c.(compactMode := !c.compactMode)
    case Breadcrumb => c.(showBreadcrumb := !c.showBreadcrumb)
    case TabsView => c.(showTabsView := !c.showTabsView)
    case FixedHeader => c.(fixedHeader := !c.fixedHeader)
    case FixedSidebar => c.(fixedSidebar := !c.fixedSidebar)
  }

  /** Inverting one flag leaves every other flag alone. */
  lemma FlippedKeepsOthers(c: ThemeConfig, f: Flag, g: Flag)
    requires g != f
    ensures FlagValue(Flipped(c, f), g) == FlagValue(c, g)
  {
  }

  /** Inverting a flag twice gives the configuration back. */
  lemma FlipTwice(c: ThemeConfig, f: Flag)
    ensures Flipped(Flipped(c, f), f) == c
  {
  }

  /** The four settings with a setter that applies the theme. */
  datatype Setting = LayoutMode(v: string) | PrimaryColor(v: string) | FontSize(v: string) | BorderRadius(v: string)

  /** The configuration with one setting replaced. */
  function WithSetting(c: ThemeConfig, s: Setting): (r: ThemeConfig)
    ensures s.LayoutMode? ==> r == c.(layoutMode := s.v)
    ensures s.PrimaryColor? ==> r == c.(primaryColor := s.v)
    ensures s.FontSize? ==> r == c.(fontSize := s.v)
    ensures s.BorderRadius? ==> r == c.(borderRadius := s.v)
  {
    match s
    case LayoutMode(v) => c.(layoutMode := v)
    case PrimaryColor(v) => c.(primaryColor := v)
    case FontSize(v) => c.(fontSize := v)
    case BorderRadius(v) => c.(borderRadius := v)
  }

  /** The defaults are consistent: applying the default dark mode keeps isDark true. */
  lemma DefaultsAreSettled(systemDark: bool)
    ensures IsDarkFor(DefaultThemeConfig.themeMode, systemDark) == DefaultThemeConfig.isDark
  {
  }

  /** A second write to the same key replaces the first. */
  lemma OverwriteAgain(m: map<string, string>, k: string, a: string, b: string)
    ensures m[k := a][k := b] == m[k := b]
  {
  }

  /**
   * The store. Its thirteen refs are held as the fields of one ThemeConfig
   * value, so getThemeConfig is that value and each setter replaces one field.
   */
  class Store {
    var settings: ThemeConfig
    const storage: LocalStorage
    const codec: JsonCodec

    /** The store starts from the defaults. */
    constructor (storage: LocalStorage, codec: JsonCodec)
      ensures Config() == DefaultThemeConfig
      ensures this.storage == storage && this.codec == codec
    {
      this.storage := storage;
      this.codec := codec;
      settings := DefaultThemeConfig;
    }

    /** getThemeConfig: the thirteen settings as one value. */
    function Config(): ThemeConfig
      reads this
    {
      settings
    }

    /** The storage holds the current configuration under the theme key. */
    predicate Saved()
      reads this, storage
    {
      ThemeStorageKey in storage.items && storage.items[ThemeStorageKey] == codec.stringify(Full(Config()))
    }

    /** isDark agrees with the mode and the system theme. */
    predicate Settled(systemDark: bool)
      reads this
    {
      settings.isDark == IsDarkFor(settings.themeMode, systemDark)
    }

    /** saveSettings: the theme key gets the current configuration; no other key changes. */
    method SaveSettings()
      modifies storage
      ensures storage.items == old(storage.items)[ThemeStorageKey := codec.stringify(Full(Config()))]
      ensures Saved()
    {
      Save(storage, codec, settings);
    }

    /**
     * The deep watch on the thirteen refs: once any of them has been given a
     * different value, the configuration is saved.
     */
    method Autosave(before: ThemeConfig)
      modifies storage
      ensures Config() != before ==> storage.items == old(storage.items)[ThemeStorageKey := codec.stringify(Full(Config()))]
      ensures Config() == before ==> storage.items == old(storage.items)
    {
      if settings != before {
        SaveSettings();
      }
    }

    /**
     * applyTheme: the DOM side is left out; isDark follows the mode and the
     * system theme, and the watch saves when isDark changed.
     */
    method ApplyTheme(systemDark: bool)
      modifies this, storage
      ensures Config() == old(Config()).(isDark := IsDarkFor(old(settings.themeMode), systemDark))
      ensures Settled(systemDark)
      ensures Config() != old(Config()) ==> storage.items == old(storage.items)[ThemeStorageKey := codec.stringify(Full(Config()))]
      ensures Config() == old(Config()) ==> storage.items == old(storage.items)
    {
      var before := settings;
      if settings.themeMode == "auto" {
        settings := settings.(isDark := systemDark);
      } else {
        settings := settings.(isDark := settings.themeMode == "dark");
      }
      Autosave(before);
    }

    /** loadSettings: every setting from loadWithDefaults; the watch saves when any of them changed. */
    method LoadSettings()
      modifies this, storage
      ensures Config() == old(LoadWithDefaults(storage, codec))
      ensures Config() != old(Config()) ==> storage.items == old(storage.items)[ThemeStorageKey := codec.stringify(Full(Config()))]
      ensures Config() == old(Config()) ==> storage.items == old(storage.items)
    {
      var before := settings;
      settings := LoadWithDefaults(storage, codec);
      Autosave(before);
    }

    /** toggleTheme: the next mode in the cycle, applied and saved. */
    method ToggleTheme(systemDark: bool)
      modifies this, storage
      ensures Config() == old(Config()).(themeMode := NextMode(old(settings.themeMode)),
                                         isDark := IsDarkFor(NextMode(old(settings.themeMode)), systemDark))
      ensures Settled(systemDark) && Saved()
      ensures storage.items == old(storage.items)[ThemeStorageKey := codec.stringify(Full(Config()))]
    {
      settings := settings.(themeMode := NextMode(settings.themeMode));
      ApplyTheme(systemDark);
      OverwriteAgain(old(storage.items), ThemeStorageKey, codec.stringify(Full(Config())), codec.stringify(Full(Config())));
      SaveSettings();
    }

    /** setThemeMode: the mode given, applied and saved. */
    method SetThemeMode(mode: string, systemDark: bool)
      modifies this, storage
      ensures Config() == old(Config()).(themeMode := mode, isDark := IsDarkFor(mode, systemDark))
      ensures Settled(systemDark) && Saved()
      ensures storage.items == old(storage.items)[ThemeStorageKey := codec.stringify(Full(Config()))]
    {
      settings := settings.(themeMode := mode);
      ApplyTheme(systemDark);
      OverwriteAgain(old(storage.items), ThemeStorageKey, codec.stringify(Full(Config())), codec.stringify(Full(Config())));
      SaveSettings();
    }

    /**
     * The seven toggles. Animation and compact mode also apply the theme, so
     * they settle isDark as well; the others touch their own flag only.
     */
    method Toggle(f: Flag, systemDark: bool)
      modifies this, storage
      ensures f !in {Animation, Compact} ==> Config() == Flipped(old(Config()), f)
      ensures f in {Animation, Compact} ==>
        Config() == Flipped(old(Config()), f).(isDark := IsDarkFor(old(settings.themeMode), systemDark))
      ensures f in {Animation, Compact} ==> Settled(systemDark)
      ensures Saved()
      ensures storage.items == old(storage.items)[ThemeStorageKey := codec.stringify(Full(Config()))]
    {
      settings := Flipped(settings, f);
      if f == Animation || f == Compact {
        ApplyTheme(systemDark);
      }
      SaveSettings();
    }

    /** setSidebarCollapsed: the flag given, saved, without applying the theme. */
    method SetSidebarCollapsed(collapsed: bool)
      modifies this, storage
      ensures Config() == old(Config()).(sidebarCollapsed := collapsed)
      ensures Saved()
      ensures storage.items == old(storage.items)[ThemeStorageKey := codec.stringify(Full(Config()))]
    {
      settings := settings.(sidebarCollapsed := collapsed);
      SaveSettings();
    }

    /** setLayoutMode, setPrimaryColor, setFontSize and setBorderRadius: the value given, applied and saved. */
    method Set(s: Setting, systemDark: bool)
      modifies this, storage
      ensures Config() == WithSetting(old(Config()), s).(isDark := IsDarkFor(old(settings.themeMode), systemDark))
      ensures Settled(systemDark) && Saved()
      ensures storage.items == old(storage.items)[ThemeStorageKey := codec.stringify(Full(Config()))]
    {
      settings := WithSetting(settings, s);
      ApplyTheme(systemDark);
      SaveSettings();
    }

    /**
     * initTheme: the saved settings with their defaults, then applied; the
     * watch saves when loading or applying changed a setting. The
     * system-theme listener is left out.
     */
    method InitTheme(systemDark: bool)
      modifies this, storage
      ensures var loaded := old(LoadWithDefaults(storage, codec));
        Config() == loaded.(isDark := IsDarkFor(loaded.themeMode, systemDark))
      ensures Settled(systemDark)
      ensures var loaded := old(LoadWithDefaults(storage, codec));
        loaded != old(Config()) || Config() != loaded ==>
          storage.items == old(storage.items)[ThemeStorageKey := codec.stringify(Full(Config()))]
      ensures var loaded := old(LoadWithDefaults(storage, codec));
        loaded == old(Config()) && Config() == loaded ==> storage.items == old(storage.items)
    {
      LoadSettings();
      ApplyTheme(systemDark);
    }

    /** resetSettings: every setting back to the defaults, applied and saved. */
    method ResetSettings(systemDark: bool)
      modifies this, storage
      ensures Config() == DefaultThemeConfig
      ensures Settled(systemDark) && Saved()
      ensures storage.items == old(storage.items)[ThemeStorageKey := codec.stringify(Full(Config()))]
    {
      settings := DefaultThemeConfig;
      ApplyTheme(systemDark);
      SaveSettings();
    }
  }
}
