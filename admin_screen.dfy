/** The administrator screen's editors: the pending default denied list,
    the per-user toggles and the paging and expansion controls. */
module AdminScreen {
  import opened Wrappers
  import opened Seqs
  import opened Strings
  import opened Permissions
  import opened AdminRoute

  /** `list.includes(f) ? list.filter(x => x !== f) : [...list, f]` */
  function Toggle(list: seq<string>, f: string): (r: seq<string>)
    ensures f in list ==> f !in r && forall g :: g != f ==> (g in r <==> g in list)
    ensures f !in list ==> r == list + [f]
  {
    if f in list then
      var keep := (x: string) => x != f;
      assert forall g :: g in Filter(list, keep) <==> g in list && g != f by {
        forall g ensures g in Filter(list, keep) <==> g in list && g != f {
          FilterMembers(list, keep, g);
        }
      }
      Filter(list, keep)
    else list + [f]
  }

  /** Toggling twice gives back the same features. */
  lemma ToggleTwice(list: seq<string>, f: string)
    ensures forall g :: g in Toggle(Toggle(list, f), f) <==> g in list
  {
  }

  /** The defaults as the screen received them. */
  datatype DefaultsView = DefaultsView(deniedFeatures: seq<string>, alwaysAllowed: seq<string>)

  /** The pending default denied list and whether it differs from the saved one. */
  datatype PendingDefaults = PendingDefaults(denied: seq<string>, hasChanges: bool)

  /** `toggleDefaultFeature(feature)`. The new list is sorted in place by
      the comparison that computes `hasChanges`. */
  function ToggleDefaultFeature(defaults: Option<DefaultsView>, pending: PendingDefaults,
                                feature: string): (r: PendingDefaults)
    ensures defaults.Some? && feature in defaults.value.alwaysAllowed ==> r == pending
    ensures !(defaults.Some? && feature in defaults.value.alwaysAllowed) ==>
      SortedBy(r.denied, Leq) && multiset(r.denied) == multiset(Toggle(pending.denied, feature)) &&
      (r.hasChanges <==> defaults.None? || multiset(r.denied) != multiset(defaults.value.deniedFeatures))
  {
    if defaults.Some? && feature in defaults.value.alwaysAllowed then pending
    else
      var next := SortStrings(Toggle(pending.denied, feature));
      var saved := if defaults.Some? then defaults.value.deniedFeatures else [];
      var changed := defaults.None? || next != SortStrings(saved);
      SortStringsCanonical(Toggle(pending.denied, feature), saved);
      PendingDefaults(next, changed)
  }

  /** `toggleUserFeature(user, feature)`: the update it sends, if any. */
  function ToggleUserFeature(user: UserPermissions, defaults: Option<DefaultsView>,
                             feature: string): (r: Option<UserUpdateInput>)
    ensures r.None? <==> user.isAdmin || (defaults.Some? && feature in defaults.value.alwaysAllowed)
    ensures r.Some? ==>
      r.value.isAdmin.None? && r.value.useDefaults == Some(false) &&
      r.value.deniedFeatures == Some(Toggle(user.deniedFeatures, feature))
  {
    if user.isAdmin || (defaults.Some? && feature in defaults.value.alwaysAllowed) then None
    else Some(UserUpdateInput(None, Some(Toggle(user.deniedFeatures, feature)), Some(false)))
  }

  /** A toggle on a valid list of a non-admin user is accepted by the
      server, and leaves the user off defaults with the feature flipped. */
  lemma ToggleAccepted(requester: string, user: UserPermissions, defaults: Option<DefaultsView>,
                       feature: string, now: int)
    requires now >= 0 && !user.isAdmin && AllKnown(user.deniedFeatures) && feature in AllFeatures
    requires !AlwaysAllowed(feature)
    requires ToggleUserFeature(user, defaults, feature).Some?
    ensures var r := UpdateUser(requester, Some(user), ToggleUserFeature(user, defaults, feature).value, now);
      r.Success? && !Apply(user, r.value).useDefaults &&
      (feature in Apply(user, r.value).deniedFeatures <==> feature !in user.deniedFeatures)
  {
    var t := Toggle(user.deniedFeatures, feature);
    assert AllKnown(t) by {
      forall i | 0 <= i < |t| ensures t[i] in AllFeatures {
        assert t[i] in t;
      }
    }
  }

  /** `toggleUserDefaults(user)` */
  function ToggleUserDefaults(user: UserPermissions): (r: UserUpdateInput)
    ensures r.isAdmin.None? && r.deniedFeatures.None? && r.useDefaults == Some(!user.useDefaults)
  {
    UserUpdateInput(None, None, Some(!user.useDefaults))
  }

  predicate PreviousDisabled(page: int) { page <= 1 }
  predicate NextDisabled(page: int, totalPages: int) { page >= totalPages }

  /** From a page in range, an enabled paging button asks for a page in range. */
  lemma PagingStaysInRange(page: int, totalPages: int)
    requires 1 <= page <= totalPages
    ensures !PreviousDisabled(page) ==> 1 <= page - 1 <= totalPages
    ensures !NextDisabled(page, totalPages) ==> 1 <= page + 1 <= totalPages
  {
  }

  /** Clicking a user card's header. */
  function ToggleExpanded(expanded: Option<string>, userId: string): (r: Option<string>)
    ensures expanded == Some(userId) ==> r.None?
    ensures expanded != Some(userId) ==> r == Some(userId)
  {
    if expanded == Some(userId) then None else Some(userId)
  }
}
