/**
 * The interface store of the web client: whether the sidebar is collapsed and the interface
 * language. The store is persisted under one storage key, and only the language is kept there.
 */
module UiStore {
  /** `UILanguage`: `"en"` or `"ko"`. */
  datatype UILanguage = En | Ko

  function LanguageCode(l: UILanguage): string {
    match l
    case En => "en"
    case Ko => "ko"
  }

  const DEFAULT_UI_LANGUAGE: UILanguage := En

  datatype UIState = UIState(sidebarCollapsed: bool, locale: UILanguage)

  /** The sidebar open, in the default language. */
  const INITIAL_UI: UIState := UIState(false, DEFAULT_UI_LANGUAGE)

  /** `toggleSidebar`: the flag is negated; the language is kept. */
  function ToggleSidebar(st: UIState): (st': UIState)
    ensures st'.sidebarCollapsed != st.sidebarCollapsed && st'.locale == st.locale
  {
    st.(sidebarCollapsed := !st.sidebarCollapsed)
  }

  /** `setSidebarCollapsed`: the flag becomes the given value; the language is kept. */
  function SetSidebarCollapsed(st: UIState, collapsed: bool): (st': UIState)
    ensures st'.sidebarCollapsed == collapsed && st'.locale == st.locale
  {
    st.(sidebarCollapsed := collapsed)
  }

  /** `setLocale`: only the language changes. */
  function SetLocale(st: UIState, locale: UILanguage): (st': UIState)
    ensures st'.locale == locale && st'.sidebarCollapsed == st.sidebarCollapsed
  {
    st.(locale := locale)
  }

  /** What is persisted: `{ locale }`. */
  datatype Persisted = Persisted(locale: UILanguage)

  /** `partialize`: the language alone. */
  function Partialize(st: UIState): (p: Persisted)
    ensures p.locale == st.locale
  {
    Persisted(st.locale)
  }

  /**
   * Rehydrating: the persisted properties are merged over the initial state, so a stored
   * language comes back and the sidebar starts open.
   */
  function Rehydrate(p: Persisted): (st: UIState)
    ensures st.locale == p.locale && st.sidebarCollapsed == INITIAL_UI.sidebarCollapsed
  {
    INITIAL_UI.(locale := p.locale)
  }

  /** Toggling twice restores the state. */
  lemma ToggleTwice(st: UIState)
    ensures ToggleSidebar(ToggleSidebar(st)) == st
  {
  }

  /** Only the language survives a reload; sidebar changes are not persisted. */
  lemma ReloadKeepsLanguage(st: UIState, collapsed: bool)
    ensures Rehydrate(Partialize(st)) == UIState(false, st.locale)
    ensures Partialize(SetSidebarCollapsed(st, collapsed)) == Partialize(st)
    ensures Partialize(ToggleSidebar(st)) == Partialize(st)
  {
  }
}
