/**
 * The host application's Settings instances, abstracted to what the Setting
 * Explorer reads and writes: each instance has an identity, its own key/value
 * overrides, and a link to the instance it inherits from.
 *
 * Identities are natural numbers. The Default, Shared and User instances have
 * fixed ids; every other instance links to a parent with a smaller id (a
 * parent is constructed before the instances that inherit from it), which is
 * how the model states that the host's parent links never form a cycle.
 */
module HostSettings {
  import opened Text

  type SettingsId = nat

  /** The explorer's stand-in for the contents of default.settings. */
  const DefaultId: SettingsId := 0
  /** Settings.getShared(). */
  const SharedId: SettingsId := 1
  /** Settings.getUser(). */
  const UserId: SettingsId := 2

  /** One Settings instance: its own overrides and its host parent link. */
  datatype Node = Node(overrides: map<string, string>, parent: Option<SettingsId>)

  /** Every Settings instance the host has, by identity. */
  type World = map<SettingsId, Node>

  /** Parent links of ordinary instances point to older instances. */
  predicate WellFormed(w: World)
  {
    forall s :: s in w && s > SharedId && w[s].parent.Some? ==> w[s].parent.value < s
  }

  /** Settings.getOverride: the instance's own value, not an inherited one. */
  function Override(w: World, s: SettingsId, key: string): Option<string>
  {
    if s in w && key in w[s].overrides then Some(w[s].overrides[key]) else None
  }

  /** Settings.getKeySet: the keys the instance itself defines. */
  function KeySet(w: World, s: SettingsId): (r: set<string>)
    ensures forall k :: k in r <==> Override(w, s, k).Some?
  {
    if s in w then w[s].overrides.Keys else {}
  }

  /**
   * Settings.getParent as the host defines it. The parents of Default and
   * Shared lie outside what the explorer shows, so the model gives them none.
   */
  function HostParent(w: World, s: SettingsId): (r: Option<SettingsId>)
    requires WellFormed(w)
    ensures r.Some? ==> r.value < s
  {
    if s <= SharedId || s !in w then None else w[s].parent
  }

  /** Settings.getVisibleKeySet: own keys and every inherited key. */
  function VisibleKeySet(w: World, s: SettingsId): (r: set<string>)
    requires WellFormed(w)
    ensures KeySet(w, s) <= r
    ensures HostParent(w, s).Some? ==> VisibleKeySet(w, HostParent(w, s).value) <= r
    ensures forall k :: k in r ==>
      Override(w, s, k).Some? || (HostParent(w, s).Some? && k in VisibleKeySet(w, HostParent(w, s).value))
    decreases s
  {
    match HostParent(w, s)
    case None => KeySet(w, s)
    case Some(p) => KeySet(w, s) + VisibleKeySet(w, p)
  }

  /** Settings.set: the instance now overrides `key` with `value`. */
  function SetOverride(w: World, s: SettingsId, key: string, value: string): (r: World)
    requires s in w
    ensures r.Keys == w.Keys
    ensures forall t :: t in w ==> r[t].parent == w[t].parent
    ensures Override(r, s, key) == Some(value)
    ensures forall t, k :: t != s || k != key ==> Override(r, t, k) == Override(w, t, k)
  {
    w[s := w[s].(overrides := w[s].overrides[key := value])]
  }

  /** Settings.reset: the instance no longer overrides `key`. */
  function ResetOverride(w: World, s: SettingsId, key: string): (r: World)
    requires s in w
    ensures r.Keys == w.Keys
    ensures forall t :: t in w ==> r[t].parent == w[t].parent
    ensures Override(r, s, key).None?
    ensures forall t, k :: t != s || k != key ==> Override(r, t, k) == Override(w, t, k)
  {
    w[s := w[s].(overrides := w[s].overrides - {key})]
  }

  /** Changing overrides keeps the parent structure, hence well-formedness. */
  lemma OverridesKeepWellFormed(w: World, r: World)
    requires WellFormed(w)
    requires r.Keys == w.Keys
    requires forall t :: t in w ==> r[t].parent == w[t].parent
    ensures WellFormed(r)
  {
  }
}
