/** The administrator's permission routes: validating and storing the
    default denied list, paging the user list with each user's effective
    denied list, and the guarded update of one user's permissions. */
module AdminRoute {
  import opened Wrappers
  import opened Seqs
  import opened Calendar
  import opened Permissions

  /** Every listed feature is one of the application's features. */
  predicate AllKnown(features: seq<string>) {
    forall i :: 0 <= i < |features| ==> features[i] in AllFeatures
  }

  /** The list with the always-allowed features filtered out. */
  function WithoutAlwaysAllowed(features: seq<string>): (r: seq<string>)
    ensures forall f :: f in r <==> f in features && !AlwaysAllowed(f)
    ensures |r| <= |features|
  {
    var keep := (f: string) => !AlwaysAllowed(f);
    assert forall f :: f in Filter(features, keep) <==> f in features && !AlwaysAllowed(f) by {
      forall f ensures f in Filter(features, keep) <==> f in features && !AlwaysAllowed(f) {
        FilterMembers(features, keep, f);
      }
    }
    Filter(features, keep)
  }

  /** `PUT /defaults`: `deniedFeatures` is `None` when the body's value is
      not an array. On success, the list to store. */
  function UpdateDefaults(deniedFeatures: Option<seq<string>>): (r: Result<seq<string>, HttpError>)
    ensures deniedFeatures.None? ==> r == Failure(HttpError(400, "deniedFeatures must be an array"))
    ensures deniedFeatures.Some? ==> (r.Failure? <==> !AllKnown(deniedFeatures.value))
    ensures r.Failure? ==> r.error.status == 400
    ensures r.Success? ==> forall f :: f in r.value <==> f in deniedFeatures.value && !AlwaysAllowed(f)
  {
    if deniedFeatures.None? then Failure(HttpError(400, "deniedFeatures must be an array"))
    else if !AllKnown(deniedFeatures.value) then Failure(HttpError(400, "Invalid features"))
    else Success(WithoutAlwaysAllowed(deniedFeatures.value))
  }

  /** Stored defaults, once in force, never deny settings: the stored list
      and the denied list users on defaults receive are the same. */
  lemma StoredDefaultsUnfiltered(deniedFeatures: Option<seq<string>>, userId: string, now: Time, updatedBy: string)
    requires UpdateDefaults(deniedFeatures).Success?
    ensures var stored := UpdateDefaults(deniedFeatures).value;
      forall f :: f in GetEffectivePermissions(userId, None, DefaultPermissions(stored, now, updatedBy)).deniedFeatures
                  <==> f in stored
  {
  }

  // ----- Paging -----

  /** `parseInt(page, 10) || 1`; `None` is NaN. Zero and NaN are falsy. */
  function PageNumber(parsed: Option<int>): (p: int)
    ensures p != 0
    ensures parsed.Some? && parsed.value != 0 ==> p == parsed.value
    ensures parsed.None? || parsed.value == 0 ==> p == 1
  {
    if parsed.None? || parsed.value == 0 then 1 else parsed.value
  }

  /** `Math.min(parseInt(limit, 10) || 50, 100)`. */
  function PageLimit(parsed: Option<int>): (l: int)
    ensures l != 0 && l <= 100
    ensures parsed.None? || parsed.value == 0 ==> l == 50
    ensures parsed.Some? && parsed.value != 0 ==> l == if parsed.value < 100 then parsed.value else 100
  {
    var n := if parsed.None? || parsed.value == 0 then 50 else parsed.value;
    if n < 100 then n else 100
  }

  /** The number of records to skip before the page. */
  function Skip(page: int, limit: int): (s: int)
    ensures page >= 1 && limit >= 1 ==> s >= 0
  {
    (page - 1) * limit
  }

  /** `Math.ceil(total / limit)`. The limit is never 0 (see `PageLimit`);
      a negative `?limit=` reaches here unchanged and gives a page count of
      zero or below. */
  function TotalPages(total: nat, limit: int): (n: int)
    requires limit != 0
    ensures limit > 0 ==> n >= 0 && ((n - 1) * limit < total <= n * limit || (total == 0 && n == 0))
    ensures limit < 0 ==> n <= 0 && n * limit <= total < (n - 1) * limit
  {
    if limit > 0 then
      if total == 0 then 0 else (total - 1) / limit + 1
    else
      -(total / -limit)
  }

  /** Pages 1 to TotalPages hold every record exactly once. */
  lemma PagesCoverAll(total: nat, limit: int, index: nat)
    requires limit >= 1 && index < total
    ensures var page := index / limit + 1;
      1 <= page <= TotalPages(total, limit) &&
      Skip(page, limit) <= index < Skip(page, limit) + limit
  {
    var page := index / limit + 1;
    var n := TotalPages(total, limit);
    assert Skip(page, limit) == (index / limit) * limit;
    if page > n {
      assert n * limit < total by {
        assert (index / limit) * limit <= index;
        assert n <= index / limit;
        MulMonotone(n, index / limit, limit);
      }
      assert false;
    }
  }

  lemma MulMonotone(a: int, b: int, c: int)
    requires a <= b && c >= 0
    ensures a * c <= b * c
  {
    assert b * c - a * c == (b - a) * c;
  }

  // ----- The user list -----

  /** What the user list shows as a user's denied features; `defaults` is
      the stored default list, if any. */
  function EffectiveDeniedFeatures(user: UserPermissions, defaults: Option<seq<string>>): (r: seq<string>)
    ensures user.isAdmin ==> r == []
    ensures !user.isAdmin && user.useDefaults ==>
      r == if defaults.Some? then defaults.value else DefaultDeniedFeatures
    ensures !user.isAdmin && !user.useDefaults ==> r == user.deniedFeatures
  {
    if user.isAdmin then []
    else if user.useDefaults then (if defaults.Some? then defaults.value else DefaultDeniedFeatures)
    else user.deniedFeatures
  }

  /** The list's effective denied features agree with the ones the
      middleware enforces, up to the always-allowed features. */
  lemma ListMatchesMiddleware(user: UserPermissions, defaults: Option<seq<string>>, now: Time, f: string)
    requires !AlwaysAllowed(f)
    ensures var served := if defaults.Some? then DefaultPermissions(defaults.value, now, "") else FallbackDefaults(now);
      f in EffectiveDeniedFeatures(user, defaults) <==>
      f in GetEffectivePermissions(user.userId, Some(user), served).deniedFeatures
  {
  }

  /** `POST /apply-defaults`: every non-admin user goes back to defaults. */
  function ApplyDefaults(users: seq<UserPermissions>): (r: seq<UserPermissions>)
    ensures |r| == |users|
    ensures forall i :: 0 <= i < |r| ==>
      r[i] == if users[i].isAdmin then users[i] else users[i].(useDefaults := true)
  {
    seq(|users|, i requires 0 <= i < |users| =>
      if users[i].isAdmin then users[i] else users[i].(useDefaults := true))
  }

  // ----- Updating one user -----

  /** The body of `PUT /users/:userId`, each field `None` unless it has
      the right type. */
  datatype UserUpdateInput = UserUpdateInput(isAdmin: Option<bool>, deniedFeatures: Option<seq<string>>,
                                             useDefaults: Option<bool>)

  /** The fields written: only those given with the right type, besides
      the audit stamp. */
  datatype UpdateData = UpdateData(isAdmin: Option<bool>, deniedFeatures: Option<seq<string>>,
                                   useDefaults: Option<bool>, updatedAt: Time, grantedBy: string)

  /** The record after `$set: updateData`. */
  function Apply(user: UserPermissions, data: UpdateData): (u: UserPermissions)
    ensures u.userId == user.userId
    ensures u.isAdmin == data.isAdmin.GetOr(user.isAdmin)
    ensures u.deniedFeatures == data.deniedFeatures.GetOr(user.deniedFeatures)
    ensures u.useDefaults == data.useDefaults.GetOr(user.useDefaults)
  {
    UserPermissions(user.userId, data.isAdmin.GetOr(user.isAdmin), data.deniedFeatures.GetOr(user.deniedFeatures),
                    data.useDefaults.GetOr(user.useDefaults))
  }

  /** The update an administrator `requester` asks for on `existing`, the
      stored record of the target (`None` if there is none). */
  function UpdateUser(requester: string, existing: Option<UserPermissions>, input: UserUpdateInput,
                      now: Time): (r: Result<UpdateData, HttpError>)
    ensures existing.None? ==> r == Failure(HttpError(404, "User not found"))
    ensures existing.Some? && existing.value.isAdmin && existing.value.userId != requester ==>
      r == Failure(HttpError(403, "Cannot modify other administrators"))
    ensures r.Success? <==>
      existing.Some? && !(existing.value.isAdmin && existing.value.userId != requester) &&
      !(existing.value.userId == requester && input.isAdmin == Some(false)) &&
      (input.deniedFeatures.Some? ==> AllKnown(input.deniedFeatures.value))
    ensures r.Success? ==>
      r.value.isAdmin == input.isAdmin && r.value.useDefaults == input.useDefaults &&
      r.value.updatedAt == now && r.value.grantedBy == requester &&
      (input.deniedFeatures.None? <==> r.value.deniedFeatures.None?) &&
      (input.deniedFeatures.Some? ==> forall f :: f in r.value.deniedFeatures.value <==>
         f in input.deniedFeatures.value && !AlwaysAllowed(f))
  {
    if existing.None? then Failure(HttpError(404, "User not found"))
    else if existing.value.isAdmin && existing.value.userId != requester then
      Failure(HttpError(403, "Cannot modify other administrators"))
    else if existing.value.userId == requester && input.isAdmin == Some(false) then
      Failure(HttpError(400, "Cannot remove own admin status"))
    else if input.deniedFeatures.Some? && !AllKnown(input.deniedFeatures.value) then
      Failure(HttpError(400, "Invalid features"))
    else
      var denied := if input.deniedFeatures.Some? then Some(WithoutAlwaysAllowed(input.deniedFeatures.value)) else None;
      Success(UpdateData(input.isAdmin, denied, input.useDefaults, now, requester))
  }

  /** An administrator who edits their own record remains an administrator. */
  lemma SelfStaysAdmin(requester: string, existing: UserPermissions, input: UserUpdateInput, now: Time)
    requires existing.userId == requester && existing.isAdmin
    requires UpdateUser(requester, Some(existing), input, now).Success?
    ensures Apply(existing, UpdateUser(requester, Some(existing), input, now).value).isAdmin
  {
  }

  /** Every update keeps settings out of a stored denied list that had none. */
  lemma UpdateKeepsSettings(requester: string, existing: UserPermissions, input: UserUpdateInput, now: Time)
    requires forall f :: AlwaysAllowed(f) ==> f !in existing.deniedFeatures
    requires UpdateUser(requester, Some(existing), input, now).Success?
    ensures forall f :: AlwaysAllowed(f) ==>
      f !in Apply(existing, UpdateUser(requester, Some(existing), input, now).value).deniedFeatures
  {
  }
}
