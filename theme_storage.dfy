/**
 * web/src/stores/theme-storage.ts with the configuration types of
 * theme-types.ts: the theme settings are kept as JSON under one
 * localStorage key; reading them back fills every missing field from the
 * defaults with `??`.
 */
module ThemeStorage {
  import opened Common
  import opened WebStorage

  /** ThemeConfig; the union-typed fields are strings, since stored JSON can hold any value. */
  datatype ThemeConfig = ThemeConfig(
    isDark: bool,
    themeMode: string,
    sidebarCollapsed: bool,
    layoutMode: string,
    primaryColor: string,
    fontSize: string,
    borderRadius: string,
    animationEnabled: bool,
    compactMode: bool,
    showBreadcrumb: bool,
    showTabsView: bool,
    fixedHeader: bool,
    fixedSidebar: bool)

  /** Partial<ThemeConfig> as JSON.parse yields it: None is a field that is null or undefined. */
  datatype PartialTheme = PartialTheme(
    isDark: Option<bool>,
    themeMode: Option<string>,
    sidebarCollapsed: Option<bool>,
    layoutMode: Option<string>,
    primaryColor: Option<string>,
    fontSize: Option<string>,
    borderRadius: Option<string>,
    animationEnabled: Option<bool>,
    compactMode: Option<bool>,
    showBreadcrumb: Option<bool>,
    showTabsView: Option<bool>,
    fixedHeader: Option<bool>,
    fixedSidebar: Option<bool>)

  const DefaultThemeConfig := ThemeConfig(true, "dark", false, "default", "#00ff88", "medium", "medium",
                                          true, false, true, true, true, true)

  const EmptyTheme := PartialTheme(None, None, None, None, None, None, None, None, None, None, None, None, None)

  const ThemeStorageKey := "theme-settings"

  /** A full configuration seen as a saved object with every field present. */
  function Full(c: ThemeConfig): PartialTheme {
    PartialTheme(Some(c.isDark), Some(c.themeMode), Some(c.sidebarCollapsed), Some(c.layoutMode),
                 Some(c.primaryColor), Some(c.fontSize), Some(c.borderRadius), Some(c.animationEnabled),
                 Some(c.compactMode), Some(c.showBreadcrumb), Some(c.showTabsView), Some(c.fixedHeader),
                 Some(c.fixedSidebar))
  }

  /** JSON.stringify and JSON.parse, which the model does not define; parse is None where it throws. */
  datatype JsonCodec = JsonCodec(stringify: PartialTheme -> string, parse: string -> Option<PartialTheme>)

  /** The codec reads back what it writes. */
  ghost predicate RoundTrips(codec: JsonCodec) {
    forall p :: codec.parse(codec.stringify(p)) == Some(p)
  }

  /** `a ?? b` */
  function Or<T>(a: Option<T>, b: T): T {
    if a.Some? then a.value else b
  }

  /** load: the parsed settings, or {} when the key is missing, empty, or does not parse. */
  function Load(storage: LocalStorage, codec: JsonCodec): (p: PartialTheme)
    reads storage
    ensures ThemeStorageKey !in storage.items || storage.items[ThemeStorageKey] == "" ==> p == EmptyTheme
    ensures ThemeStorageKey in storage.items && codec.parse(storage.items[ThemeStorageKey]).None? ==> p == EmptyTheme
    ensures (ThemeStorageKey in storage.items && storage.items[ThemeStorageKey] != ""
      && codec.parse(storage.items[ThemeStorageKey]).Some?) ==> p == codec.parse(storage.items[ThemeStorageKey]).value
  {
    match storage.GetItem(ThemeStorageKey)
    case None => EmptyTheme
    case Some(text) =>
      if text == "" then EmptyTheme
      else
        match codec.parse(text)
        case Some(p) => p
        case None => EmptyTheme
  }

  /** The field-by-field `??` merge of loadWithDefaults, over the saved object. */
  function WithDefaults(saved: PartialTheme): (c: ThemeConfig)
    ensures saved.isDark.Some? ==> c.isDark == saved.isDark.value
    ensures saved.isDark.None? ==> c.isDark == DefaultThemeConfig.isDark
    ensures saved.themeMode.Some? ==> c.themeMode == saved.themeMode.value
    ensures saved.themeMode.None? ==> c.themeMode == DefaultThemeConfig.themeMode
    ensures saved.primaryColor.Some? ==> c.primaryColor == saved.primaryColor.value
    ensures saved.primaryColor.None? ==> c.primaryColor == DefaultThemeConfig.primaryColor
    ensures saved.sidebarCollapsed.Some? ==> c.sidebarCollapsed == saved.sidebarCollapsed.value
    ensures saved.sidebarCollapsed.None? ==> c.sidebarCollapsed == DefaultThemeConfig.sidebarCollapsed
    ensures saved.layoutMode.Some? ==> c.layoutMode == saved.layoutMode.value
    ensures saved.layoutMode.None? ==> c.layoutMode == DefaultThemeConfig.layoutMode
    ensures saved.fontSize.Some? ==> c.fontSize == saved.fontSize.value
    ensures saved.fontSize.None? ==> c.fontSize == DefaultThemeConfig.fontSize
    ensures saved.borderRadius.Some? ==> c.borderRadius == saved.borderRadius.value
    ensures saved.borderRadius.None? ==> c.borderRadius == DefaultThemeConfig.borderRadius
    ensures saved.animationEnabled.Some? ==> c.animationEnabled == saved.animationEnabled.value
    ensures saved.animationEnabled.None? ==> c.animationEnabled == DefaultThemeConfig.animationEnabled
    ensures saved.compactMode.Some? ==> c.compactMode == saved.compactMode.value
    ensures saved.compactMode.None? ==> c.compactMode == DefaultThemeConfig.compactMode
    ensures saved.showBreadcrumb.Some? ==> c.showBreadcrumb == saved.showBreadcrumb.value
    ensures saved.showBreadcrumb.None? ==> c.showBreadcrumb == DefaultThemeConfig.showBreadcrumb
    ensures saved.showTabsView.Some? ==> c.showTabsView == saved.showTabsView.value
    ensures saved.showTabsView.None? ==> c.showTabsView == DefaultThemeConfig.showTabsView
    ensures saved.fixedHeader.Some? ==> c.fixedHeader == saved.fixedHeader.value
    ensures saved.fixedHeader.None? ==> c.fixedHeader == DefaultThemeConfig.fixedHeader
    ensures saved.fixedSidebar.Some? ==> c.fixedSidebar == saved.fixedSidebar.value
    ensures saved.fixedSidebar.None? ==> c.fixedSidebar == DefaultThemeConfig.fixedSidebar
  {
    var d := DefaultThemeConfig;
    ThemeConfig(
      Or(saved.isDark, d.isDark),
      Or(saved.themeMode, d.themeMode),
      Or(saved.sidebarCollapsed, d.sidebarCollapsed),
      Or(saved.layoutMode, d.layoutMode),
      Or(saved.primaryColor, d.primaryColor),
      Or(saved.fontSize, d.fontSize),
      Or(saved.borderRadius, d.borderRadius),
      Or(saved.animationEnabled, d.animationEnabled),
      Or(saved.compactMode, d.compactMode),
      Or(saved.showBreadcrumb, d.showBreadcrumb),
      Or(saved.showTabsView, d.showTabsView),
      Or(saved.fixedHeader, d.fixedHeader),
      Or(saved.fixedSidebar, d.fixedSidebar))
  }

  /** loadWithDefaults. */
  function LoadWithDefaults(storage: LocalStorage, codec: JsonCodec): ThemeConfig
    reads storage
  {
    WithDefaults(Load(storage, codec))
  }

  /** An empty saved object gives exactly the defaults. */
  lemma EmptyGivesDefaults()
    ensures WithDefaults(EmptyTheme) == DefaultThemeConfig
  {
  }

  /** A complete saved object comes back unchanged: no saved value is overridden. */
  lemma FullIsKept(c: ThemeConfig)
    ensures WithDefaults(Full(c)) == c
  {
  }

  /** `??` keeps a saved false and a saved "" where `||` would have put the default back. */
  lemma FalsyValuesAreKept(saved: PartialTheme)
    requires saved.isDark == Some(false) && saved.primaryColor == Some("")
    ensures WithDefaults(saved).isDark == false && WithDefaults(saved).primaryColor == ""
    ensures WithDefaults(saved).isDark != DefaultThemeConfig.isDark
  {
  }

  /** save: the configuration as JSON under the theme key; nothing else changes. */
  method Save(storage: LocalStorage, codec: JsonCodec, config: ThemeConfig)
    modifies storage
    ensures storage.items == old(storage.items)[ThemeStorageKey := codec.stringify(Full(config))]
  {
    storage.SetItem(ThemeStorageKey, codec.stringify(Full(config)));
  }

  /** clear: the theme key is removed. */
  method Clear(storage: LocalStorage)
    modifies storage
    ensures storage.items == old(storage.items) - {ThemeStorageKey}
  {
    storage.RemoveItem(ThemeStorageKey);
  }

  /** import: text that does not parse is refused and nothing is saved; otherwise the parsed object is saved. */
  method Import(storage: LocalStorage, codec: JsonCodec, configJson: string) returns (ok: bool)
    modifies storage
    ensures ok <==> codec.parse(configJson).Some?
    ensures !ok ==> storage.items == old(storage.items)
    ensures ok ==> storage.items == old(storage.items)[ThemeStorageKey := codec.stringify(codec.parse(configJson).value)]
  {
    var parsed := codec.parse(configJson);
    if parsed.None? {
      return false;
    }
    storage.SetItem(ThemeStorageKey, codec.stringify(parsed.value));
    ok := true;
  }

  /**
   * What save writes, load reads back, so loadWithDefaults returns the saved
   * configuration, provided the serialized text is not empty.
   */
  lemma SaveThenLoad(items: map<string, string>, codec: JsonCodec, config: ThemeConfig, storage: LocalStorage)
    requires RoundTrips(codec)
    requires storage.items == items[ThemeStorageKey := codec.stringify(Full(config))]
    requires codec.stringify(Full(config)) != ""
    ensures Load(storage, codec) == Full(config)
    ensures LoadWithDefaults(storage, codec) == config
  {
    assert codec.parse(codec.stringify(Full(config))) == Some(Full(config));
  }
}
