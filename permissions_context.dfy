/** The client's permission state: loading it after sign-in, with its
    fallbacks, and the `hasAccess` decision the screens consult. */
module PermissionsContext {
  import opened Wrappers
  import opened Permissions

  /** What the client assumes when the server cannot say. */
  const ClientDefaultDenied: seq<string> := ["agent", "terminal", "server"]
  const ClientDefaultAllowed: seq<string> := ["notes", "journal", "lists", "tracker", "settings", "drawings"]

  function ClientDefaults(userId: string): (p: EffectivePermissions)
    ensures p.userId == userId && !p.isAdmin && p.useDefaults && p.deniedFeatures == ClientDefaultDenied
  {
    EffectivePermissions(userId, false, ClientDefaultDenied, ClientDefaultAllowed, true)
  }

  /** What `fetch('/api/admin/me')` came back with: a response with its
      status and its parsed body (`Failure` holds the parse error's
      message), or a thrown error (`None` when it is not an `Error`). */
  datatype FetchOutcome =
    | Response(status: nat, body: Result<EffectivePermissions, string>)
    | Thrown(message: Option<string>)

  /** The state held by the permissions provider. */
  class PermissionsProvider {
    var permissions: Option<EffectivePermissions>
    var isLoading: bool
    var error: Option<string>

    constructor ()
      ensures permissions.None? && isLoading && error.None?
    {
      permissions := None;
      isLoading := true;
      error := None;
    }

    /** `hasAccess(feature)` while the sign-in state is `authLoading`. */
    function HasAccess(authLoading: bool, feature: string): (b: bool)
      reads this
      ensures isLoading || authLoading || permissions.None? ==> b
      ensures !isLoading && !authLoading && permissions.Some? ==>
        (b <==> permissions.value.isAdmin || feature !in permissions.value.deniedFeatures)
    {
      if isLoading || authLoading then true
      else if permissions.None? then true
      else if permissions.value.isAdmin then true
      else feature !in permissions.value.deniedFeatures
    }

    /** `fetchPermissions`; `token` and `email` belong to the signed-in
        user, and `outcome` is what the request produced. */
    method FetchPermissions(authLoading: bool, isAuthenticated: bool, token: Option<string>,
                            email: Option<string>, outcome: FetchOutcome)
      modifies this
      ensures authLoading ==> unchanged(this)
      ensures !authLoading && !(isAuthenticated && token.Some? && token.value != "") ==>
        permissions.None? && !isLoading && error == old(error)
      ensures !authLoading && isAuthenticated && token.Some? && token.value != "" ==>
        !isLoading &&
        match outcome {
          case Response(status, body) =>
            if status == 401 || status == 403 then
              permissions == Some(ClientDefaults(email.GetOr(""))) && error.None?
            else if !(200 <= status < 300) then
              permissions == Some(ClientDefaults(email.GetOr(""))) && error == Some("Failed to fetch permissions")
            else if body.Failure? then
              permissions == Some(ClientDefaults(email.GetOr(""))) && error == Some(body.error)
            else
              permissions == Some(body.value) && error.None?
          case Thrown(message) =>
            permissions == Some(ClientDefaults(email.GetOr(""))) &&
            error == Some(message.GetOr("Failed to fetch permissions"))
        }
    {
      if authLoading {
        return;
      }
      if !(isAuthenticated && token.Some? && token.value != "") {
        permissions := None;
        isLoading := false;
        return;
      }
      isLoading := true;
      error := None;
      match outcome {
        case Response(status, body) =>
          if status == 401 || status == 403 {
            permissions := Some(ClientDefaults(email.GetOr("")));
          } else if !(200 <= status < 300) {
            error := Some("Failed to fetch permissions");
            permissions := Some(ClientDefaults(email.GetOr("")));
          } else if body.Failure? {
            error := Some(body.error);
            permissions := Some(ClientDefaults(email.GetOr("")));
          } else {
            permissions := Some(body.value);
          }
        case Thrown(message) =>
          error := Some(message.GetOr("Failed to fetch permissions"));
          permissions := Some(ClientDefaults(email.GetOr("")));
      }
      isLoading := false;
    }
  }

  /** Once the server's effective permissions are loaded, the client
      grants a feature exactly when the server's guard would. */
  lemma ClientAgreesWithServer(p: PermissionsProvider, userId: string, userPerms: Option<UserPermissions>,
                               defaults: DefaultPermissions, feature: string)
    requires p.permissions == Some(GetEffectivePermissions(userId, userPerms, defaults)) && !p.isLoading
    ensures p.HasAccess(false, feature) <==>
      RequireFeature(Some(userId), GetEffectivePermissions(userId, userPerms, defaults), feature) == Proceed
  {
  }

  /** The client's fallback denies what the server denies new users. */
  lemma FallbackMatchesServer(userId: string, now: int)
    requires now >= 0
    ensures forall f :: f in ClientDefaults(userId).deniedFeatures <==>
      f in GetEffectivePermissions(userId, None, FallbackDefaults(now)).deniedFeatures
  {
  }
}
