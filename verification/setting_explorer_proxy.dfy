/**
 * The raw settings store behind the Shared settings instance, and the helper
 * that decides whether a key has a global (plug-in default) value that the
 * Setting Explorer should show above the Shared level
 * (resources.SettingExplorerProxy).
 */
module SettingExplorerProxy {
  import opened Text

  /**
   * The two raw layers the helper consults: values stored by the user and
   * values registered globally (plug-in defaults).
   */
  datatype RawSettings = RawSettings(user: map<string, string>, global: map<string, string>)

  /** RawSettings.getUserSetting: null when the user has not set the key. */
  function UserSetting(raw: RawSettings, key: string): Option<string>
  {
    if key in raw.user then Some(raw.user[key]) else None
  }

  /** RawSettings.getGlobalSetting: null when no global value is registered. */
  function GlobalSetting(raw: RawSettings, key: string): Option<string>
  {
    if key in raw.global then Some(raw.global[key]) else None
  }

  /** RawSettings.setGlobalSetting. */
  function SetGlobalSetting(raw: RawSettings, key: string, value: string): (r: RawSettings)
    ensures GlobalSetting(r, key) == Some(value)
    ensures forall k :: k != key ==> GlobalSetting(r, k) == GlobalSetting(raw, k)
    ensures r.user == raw.user
  {
    raw.(global := raw.global[key := value])
  }

  /**
   * globalOverride: the global value of `key`, unless there is none, or the
   * user value is the same string, or it is the same string as the default
   * value from the default settings file; then null. Java's
   * `global.equals(x)` is false for a null `x`, hence the Option comparisons.
   */
  function GlobalOverride(raw: RawSettings, key: string, defaultValue: Option<string>): (r: Option<string>)
    ensures GlobalSetting(raw, key).None? ==> r.None?
    ensures GlobalSetting(raw, key) == UserSetting(raw, key) ==> r.None?
    ensures GlobalSetting(raw, key) == defaultValue ==> r.None?
    ensures r.Some? ==> r == GlobalSetting(raw, key)
    ensures r.Some? ==> r != UserSetting(raw, key) && r != defaultValue
    ensures r.None? ==> GlobalSetting(raw, key) in {None, UserSetting(raw, key), defaultValue}
  {
    var user := UserSetting(raw, key);
    var global := GlobalSetting(raw, key);
    if global.Some? && global != user && global != defaultValue then global else None
  }
}
