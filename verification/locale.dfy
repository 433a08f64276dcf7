/**
 * The interface strings of the web client: a cache of loaded string tables, one per language,
 * the lookup of a key, and the loading of a language's table. A table is fetched at most once;
 * the fetch is a parameter.
 */
module Locale {
  import opened Wrappers
  import opened UiStore

  /** A string table, from key to text. */
  type Table = map<string, string>

  /** The loaded tables. */
  type Cache = map<UILanguage, Table>

  /** `t(key, locale)`: the loaded text of the key; the key itself when the language is not loaded or the key is missing. */
  function Lookup(cache: Cache, key: string, locale: UILanguage): (s: string)
    ensures locale !in cache ==> s == key
    ensures locale in cache && key in cache[locale] ==> s == cache[locale][key]
    ensures locale in cache && key !in cache[locale] ==> s == key
  {
    if locale !in cache then key
    else if key in cache[locale] then cache[locale][key]
    else key
  }

  /** `getTranslations(locale)`: the loaded table, or an empty one. */
  function GetTranslations(cache: Cache, locale: UILanguage): (t: Table)
    ensures locale in cache ==> t == cache[locale]
    ensures locale !in cache ==> t == map[]
  {
    if locale in cache then cache[locale] else map[]
  }

  /** Looking a key up is reading the table `getTranslations` returns, with the key as the fallback. */
  lemma LookupReadsTable(cache: Cache, key: string, locale: UILanguage)
    ensures var t := GetTranslations(cache, locale);
      Lookup(cache, key, locale) == (if key in t then t[key] else key)
  {
  }

  /** The address a language's table is fetched from. */
  function TablePath(locale: UILanguage): string {
    "/locales/" + LanguageCode(locale) + ".json"
  }

  /** The cache after a load, the address fetched, if any, and the error the load rejected with, if any. */
  datatype Loaded = Loaded(cache: Cache, fetched: Option<string>, error: Option<Thrown>)

  /**
   * `loadTranslations(locale)`: a loaded language is not fetched again; otherwise its table is
   * fetched and stored. A failed fetch stores nothing and rejects.
   */
  function LoadTranslations(cache: Cache, locale: UILanguage, response: Attempt<Table>): (r: Loaded)
    ensures locale in cache ==> r == Loaded(cache, None, None)
    ensures locale !in cache ==> r.fetched == Some(TablePath(locale))
    ensures locale !in cache && response.Returned? ==> r.cache == cache[locale := response.value] && r.error.None?
    ensures locale !in cache && response.Threw? ==> r.cache == cache && r.error == Some(response.reason)
  {
    if locale in cache then Loaded(cache, None, None)
    else match response
      case Returned(table) => Loaded(cache[locale := table], Some(TablePath(locale)), None)
      case Threw(e) => Loaded(cache, Some(TablePath(locale)), Some(e))
  }

  /** Once a language is loaded its lookups read the loaded table, and loading it again fetches nothing. */
  lemma LoadThenLookup(cache: Cache, locale: UILanguage, table: Table, key: string, again: Attempt<Table>)
    requires locale !in cache
    ensures var c := LoadTranslations(cache, locale, Returned(table)).cache;
      && GetTranslations(c, locale) == table
      && Lookup(c, key, locale) == (if key in table then table[key] else key)
      && LoadTranslations(c, locale, again) == Loaded(c, None, None)
  {
  }

  /** Loading one language never changes the lookups of another. */
  lemma LoadKeepsOtherLanguages(cache: Cache, locale: UILanguage, other: UILanguage, response: Attempt<Table>, key: string)
    requires other != locale
    ensures Lookup(LoadTranslations(cache, locale, response).cache, key, other) == Lookup(cache, key, other)
  {
  }

  /** English is fetched from `/locales/en.json`, Korean from `/locales/ko.json`. */
  lemma TablePaths()
    ensures TablePath(En) == "/locales/en.json" && TablePath(Ko) == "/locales/ko.json"
  {
  }
}
