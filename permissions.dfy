/** Feature permissions on the server: the default denied list with its
    one-minute cache, the effective permissions of a user, and the two
    request guards. */
module Permissions {
  import opened Wrappers
  import opened Seqs
  import opened Calendar

  /** Every feature of the application. */
  const AllFeatures: seq<string> :=
    ["notes", "journal", "lists", "tracker", "agent", "terminal", "server", "settings"]

  /** Denied to new users until the defaults are stored. */
  const DefaultDeniedFeatures: seq<string> := ["agent", "terminal", "server"]

  /** Never denied, so that a user can always reach the settings and log out. */
  const AlwaysAllowedFeatures: seq<string> := ["settings"]

  /** How long stored defaults are reused, in milliseconds. */
  const CacheTtl: int := 60000

  datatype DefaultPermissions = DefaultPermissions(deniedFeatures: seq<string>, updatedAt: Time, updatedBy: string)

  datatype UserPermissions = UserPermissions(userId: string, isAdmin: bool, deniedFeatures: seq<string>,
                                             useDefaults: bool)

  datatype EffectivePermissions = EffectivePermissions(userId: string, isAdmin: bool,
    deniedFeatures: seq<string>, allowedFeatures: seq<string>, useDefaults: bool)

  /** The defaults used while none are stored. */
  function FallbackDefaults(now: Time): (d: DefaultPermissions)
    ensures d.deniedFeatures == DefaultDeniedFeatures && d.updatedBy == "system"
  {
    DefaultPermissions(DefaultDeniedFeatures, now, "system")
  }

  /** The module-level cache of the stored defaults. */
  class DefaultsCache {
    var cachedDefaults: Option<DefaultPermissions>
    var cacheTimestamp: int

    constructor ()
      ensures cachedDefaults.None? && cacheTimestamp == 0
    {
      cachedDefaults := None;
      cacheTimestamp := 0;
    }

    /** `getDefaultPermissions` at time `now`; `stored` is what the
        database holds. A cached copy younger than the time to live is
        returned without reading the database; stored defaults are cached;
        the fallback is not. */
    method GetDefaultPermissions(now: int, stored: Option<DefaultPermissions>) returns (d: DefaultPermissions)
      modifies this
      ensures old(cachedDefaults).Some? && now - old(cacheTimestamp) < CacheTtl ==>
        d == old(cachedDefaults).value && unchanged(this)
      ensures !(old(cachedDefaults).Some? && now - old(cacheTimestamp) < CacheTtl) && stored.Some? ==>
        d == stored.value && cachedDefaults == stored && cacheTimestamp == now
      ensures !(old(cachedDefaults).Some? && now - old(cacheTimestamp) < CacheTtl) && stored.None? ==>
        d.deniedFeatures == DefaultDeniedFeatures && unchanged(this)
    {
      if cachedDefaults.Some? && now - cacheTimestamp < CacheTtl {
        return cachedDefaults.value;
      }
      if stored.Some? {
        cachedDefaults := stored;
        cacheTimestamp := now;
        return stored.value;
      }
      d := FallbackDefaults(if now >= 0 then now else 0);
    }

    /** `invalidateDefaultPermissionsCache`: the next read goes to the
        database. */
    method Invalidate()
      modifies this
      ensures cachedDefaults.None? && cacheTimestamp == 0
    {
      cachedDefaults := None;
      cacheTimestamp := 0;
    }
  }

  /** `ALWAYS_ALLOWED_FEATURES.includes(f)` */
  predicate AlwaysAllowed(f: string) { f in AlwaysAllowedFeatures }

  /** The effective permissions of `userId`, given the user's record and
      the default permissions currently in force. */
  function GetEffectivePermissions(userId: string, userPerms: Option<UserPermissions>,
                                   defaults: DefaultPermissions): (p: EffectivePermissions)
    ensures p.userId == userId
    ensures userPerms.Some? && userPerms.value.isAdmin ==>
      p == EffectivePermissions(userId, true, [], AllFeatures, false)
    ensures !(userPerms.Some? && userPerms.value.isAdmin) ==>
      !p.isAdmin &&
      p.useDefaults == (userPerms.None? || userPerms.value.useDefaults) &&
      var base := if p.useDefaults then defaults.deniedFeatures else userPerms.value.deniedFeatures;
      forall f :: f in p.deniedFeatures <==> f in base && !AlwaysAllowed(f)
    ensures forall f :: f in p.allowedFeatures <==> f in AllFeatures && f !in p.deniedFeatures
    ensures forall f :: AlwaysAllowed(f) ==> f !in p.deniedFeatures
  {
    if userPerms.Some? && userPerms.value.isAdmin then
      EffectivePermissions(userId, true, [], AllFeatures, false)
    else
      var useDefaults := userPerms.None? || userPerms.value.useDefaults;
      var base := if useDefaults then defaults.deniedFeatures else userPerms.value.deniedFeatures;
      var denied := Filter(base, (f: string) => !AlwaysAllowed(f));
      var allowed := Filter(AllFeatures, (f: string) => f !in denied);
      assert forall f :: f in denied <==> f in base && !AlwaysAllowed(f) by {
        forall f ensures f in denied <==> f in base && !AlwaysAllowed(f) {
          FilterMembers(base, (f: string) => !AlwaysAllowed(f), f);
        }
      }
      assert forall f :: f in allowed <==> f in AllFeatures && f !in denied by {
        forall f ensures f in allowed <==> f in AllFeatures && f !in denied {
          FilterMembers(AllFeatures, (f: string) => f !in denied, f);
        }
      }
      EffectivePermissions(userId, false, denied, allowed, useDefaults)
  }

  /** Every feature is exactly one of allowed or denied. */
  lemma AllowedDeniedSplit(userId: string, userPerms: Option<UserPermissions>, defaults: DefaultPermissions, f: string)
    requires f in AllFeatures
    ensures var p := GetEffectivePermissions(userId, userPerms, defaults);
      (f in p.allowedFeatures) != (f in p.deniedFeatures)
  {
  }

  datatype Guard = Proceed | Reject(status: nat, error: string)

  /** `requireFeature(feature)` for a request from `userId`. */
  function RequireFeature(userId: Option<string>, permissions: EffectivePermissions, feature: string): (g: Guard)
    ensures userId.None? ==> g == Reject(401, "Authentication required")
    ensures userId.Some? ==> (g.Reject? <==> feature in permissions.deniedFeatures)
    ensures g.Reject? && userId.Some? ==> g.status == 403
  {
    if userId.None? then Reject(401, "Authentication required")
    else if feature in permissions.deniedFeatures then Reject(403, "Access denied")
    else Proceed
  }

  /** The settings feature is never refused to a signed-in user. */
  lemma SettingsAlwaysReachable(userId: string, userPerms: Option<UserPermissions>, defaults: DefaultPermissions)
    ensures RequireFeature(Some(userId), GetEffectivePermissions(userId, userPerms, defaults), "settings") == Proceed
  {
    assert AlwaysAllowed("settings");
  }

  /** `requireAdmin` for a request from `userId` whose record is `userPerms`. */
  function RequireAdmin(userId: Option<string>, userPerms: Option<UserPermissions>): (g: Guard)
    ensures userId.None? ==> g == Reject(401, "Authentication required")
    ensures userId.Some? ==> (g == Proceed <==> userPerms.Some? && userPerms.value.isAdmin)
    ensures userId.Some? && g.Reject? ==> g.status == 403
  {
    if userId.None? then Reject(401, "Authentication required")
    else if !(userPerms.Some? && userPerms.value.isAdmin) then Reject(403, "Admin access required")
    else Proceed
  }
}
