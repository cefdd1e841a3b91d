/**
 * web/src/stores/auth.ts: the signed-in user, the token and the permission
 * list, the predicates the views ask of them, and logout, which clears the
 * session in memory and in localStorage whatever the server answers.
 */
module AuthStore {
  import opened Common
  import opened WebStorage

  const AdminRole := "admin"
  const Wildcard := "*"
  const TokenKey := "token"
  const UserKey := "user"
  const PermissionsKey := "permissions"

  /** The fields of User the store reads; an absent nickname is None. */
  datatype User = User(id: string, username: string, email: string, nickname: Option<string>, role: string)

  /** JavaScript truthiness of an optional string: set and not empty. */
  predicate Truthy(s: Option<string>) {
    s.Some? && s.value != ""
  }

  class Store {
    var user: Option<User>
    var token: Option<string>
    var permissions: seq<string>
    const storage: LocalStorage

    /** The store starts with the token localStorage holds and no user. */
    constructor (storage: LocalStorage)
      ensures this.storage == storage
      ensures user.None? && permissions == []
      ensures token == storage.GetItem(TokenKey)
    {
      this.storage := storage;
      user := None;
      token := storage.GetItem(TokenKey);
      permissions := [];
    }

    /** isAuthenticated: `!!token && !!user`, so an empty token does not count. */
    predicate IsAuthenticated()
      reads this
    {
      Truthy(token) && user.Some?
    }

    /** userDisplayName: the nickname, else the username, else the email; "" without a user. */
    function UserDisplayName(): (r: string)
      reads this
      ensures user.None? ==> r == ""
      ensures user.Some? && Truthy(user.value.nickname) ==> r == user.value.nickname.value
      ensures user.Some? && !Truthy(user.value.nickname) && user.value.username != "" ==> r == user.value.username
      ensures (user.Some? && !Truthy(user.value.nickname) && user.value.username == "") ==> r == user.value.email
    {
      if user.None? then ""
      else if Truthy(user.value.nickname) then user.value.nickname.value
      else if user.value.username != "" then user.value.username
      else user.value.email
    }

    /**
     * hasPermission: an admin has every permission; otherwise the list must
     * be non-empty and hold the permission itself or the wildcard.
     */
    predicate HasPermission(permission: string)
      reads this
      ensures user.Some? && user.value.role == AdminRole ==> HasPermission(permission)
      ensures !(user.Some? && user.value.role == AdminRole) ==>
        (HasPermission(permission) <==> permission in permissions || Wildcard in permissions)
    {
      if user.Some? && user.value.role == AdminRole then true
      else if |permissions| == 0 then false
      else permission in permissions || Wildcard in permissions
    }

    /** hasAnyPermission: Array.prototype.some over the list. */
    predicate HasAnyPermission(list: seq<string>)
      reads this
      ensures HasAnyPermission(list) <==> exists i :: 0 <= i < |list| && HasPermission(list[i])
      ensures list == [] ==> !HasAnyPermission(list)
      decreases |list|
    {
      if |list| == 0 then false
      else HasPermission(list[0]) || (assert forall i :: 0 < i < |list| ==> list[i] == list[1..][i - 1];
                                      HasAnyPermission(list[1..]))
    }

    /** hasAllPermissions: Array.prototype.every over the list. */
    predicate HasAllPermissions(list: seq<string>)
      reads this
      ensures HasAllPermissions(list) <==> forall i :: 0 <= i < |list| ==> HasPermission(list[i])
      ensures list == [] ==> HasAllPermissions(list)
      decreases |list|
    {
      if |list| == 0 then true
      else HasPermission(list[0]) && (assert forall i :: 0 < i < |list| ==> list[i] == list[1..][i - 1];
                                      HasAllPermissions(list[1..]))
    }

    /** hasRole: false without a user; otherwise the role itself, or admin, which holds every role. */
    predicate HasRole(role: string)
      reads this
      ensures HasRole(role) <==> user.Some? && (user.value.role == role || user.value.role == AdminRole)
    {
      if user.None? then false else user.value.role == role || user.value.role == AdminRole
    }

    predicate HasAnyRole(list: seq<string>)
      reads this
      ensures HasAnyRole(list) <==> exists i :: 0 <= i < |list| && HasRole(list[i])
      ensures list == [] ==> !HasAnyRole(list)
      decreases |list|
    {
      if |list| == 0 then false
      else HasRole(list[0]) || (assert forall i :: 0 < i < |list| ==> list[i] == list[1..][i - 1];
                                HasAnyRole(list[1..]))
    }

    predicate HasAllRoles(list: seq<string>)
      reads this
      ensures HasAllRoles(list) <==> forall i :: 0 <= i < |list| ==> HasRole(list[i])
      ensures list == [] ==> HasAllRoles(list)
      decreases |list|
    {
      if |list| == 0 then true
      else HasRole(list[0]) && (assert forall i :: 0 < i < |list| ==> list[i] == list[1..][i - 1];
                                HasAllRoles(list[1..]))
    }

    /**
     * logout: the server is told only when a token is set, and its answer,
     * even a thrown error, does not matter: the finally block clears the
     * token, the user, the permissions and their three storage keys.
     */
    method Logout(apiThrows: bool) returns (apiCalled: bool)
      modifies this, storage
      ensures apiCalled <==> Truthy(old(token))
      ensures token.None? && user.None? && permissions == []
      ensures storage.items == old(storage.items) - {TokenKey, UserKey, PermissionsKey}
      ensures !IsAuthenticated()
    {
      apiCalled := Truthy(token);
      // the call itself, and whether it throws, leave the state alone
      token := None;
      user := None;
      permissions := [];
      storage.RemoveItem(TokenKey);
      storage.RemoveItem(UserKey);
      storage.RemoveItem(PermissionsKey);
    }
  }

  /** An admin passes every permission check, for any list, empty permission list included. */
  lemma AdminHasAllPermissions(s: Store, list: seq<string>)
    requires s.user.Some? && s.user.value.role == AdminRole
    ensures s.HasAllPermissions(list) && (list != [] ==> s.HasAnyPermission(list))
  {
    if list != [] {
      assert s.HasPermission(list[0]);
    }
  }

  /** A non-admin with no permissions passes no check, the wildcard included. */
  lemma NoPermissionsNoAccess(s: Store, permission: string)
    requires s.user.None? || s.user.value.role != AdminRole
    requires s.permissions == []
    ensures !s.HasPermission(permission) && !s.HasPermission(Wildcard)
  {
  }

  /** The wildcard grants every permission to a non-admin. */
  lemma WildcardGrantsAll(s: Store, permission: string)
    requires Wildcard in s.permissions
    ensures s.HasPermission(permission)
  {
  }
}
