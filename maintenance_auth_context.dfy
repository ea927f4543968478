/** The local-mode part of the auth provider of
    maintenance-app/src/contexts/AuthContext.tsx. Local mode is on exactly
    when the auth client does not exist. Unlike the other provider, admin
    status is derived from a fixed list of admin emails. In remote mode the
    sign-in and sign-out calls are outcome parameters; the state changes
    they cause arrive through the auth-state listener, which is not part of
    this model. */
module MaintenanceAuthContext {
  import opened Types
  import opened Issues
  import opened Accounts
  import opened LocalStorage

  const AdminEmails: seq<string> := [
    "admin@fraternity.edu",
    "maintenance@fraternity.edu"
  ]

  /** Every admin email is an authorized email. */
  lemma AdminsAreAuthorized()
    ensures forall e :: e in AdminEmails ==> e in AuthorizedEmails
  {
  }

  class AuthProvider {
    var currentUser: Option<User>
    var loading: bool
    /** The local store singleton. */
    const store: LocalStorageService
    /** Whether the auth client `auth` exists; local mode is its negation. */
    const authReady: bool

    constructor (store: LocalStorageService, authReady: bool)
      ensures this.store == store && this.authReady == authReady
      ensures currentUser == None && loading
    {
      this.store := store;
      this.authReady := authReady;
      currentUser := None;
      loading := true;
    }

    /** The signed-in user's email is one of the authorized ones. */
    predicate IsAuthorized()
      reads this
    {
      currentUser.Some? && currentUser.value.email in AuthorizedEmails
    }

    /** The signed-in user's email is one of the admin ones; false with no
        user. Every admin is authorized. */
    function IsAdmin(): (r: bool)
      reads this
      ensures currentUser.None? ==> !r
      ensures r ==> IsAuthorized()
    {
      AdminsAreAuthorized();
      currentUser.Some? && currentUser.value.email in AdminEmails
    }

    /** Signs in. Local mode: succeeds exactly for an authorized email with
        the demo password, and then stores and adopts a user whose uid is
        the clock reading `uid`; otherwise rejects with no change. */
    method Login(email: string, password: string, uid: string, signIn: BackendResult)
      returns (outcome: Outcome)
      modifies this, store
      ensures !authReady ==> (outcome == Resolved <==> DemoCredentialsValid(email, password))
      ensures !authReady && outcome == Resolved ==>
                && currentUser == Some(User(email, uid))
                && store.userBlob == currentUser
                && store.issuesBlob == old(store.issuesBlob)
                && loading == old(loading)
                && IsAuthorized()
                && (IsAdmin() <==> email in AdminEmails)
      ensures !authReady && outcome != Resolved ==>
                outcome == Rejected(InvalidCredentials) && unchanged(this) && unchanged(store)
      ensures authReady ==>
                && outcome == (if signIn.Failure? then Rejected(BackendFailure) else Resolved)
                && unchanged(this) && unchanged(store)
    {
      if !authReady {
        if email in AuthorizedEmails && password == DemoPassword {
          var mockUser := User(email, uid);
          store.SetCurrentUser(Some(mockUser));
          currentUser := Some(mockUser);
          return Resolved;
        }
        return Rejected(InvalidCredentials);
      }
      outcome := if signIn.Failure? then Rejected(BackendFailure) else Resolved;
    }

    /** Signs out. Local mode: the stored user and the current user are both
        cleared. */
    method Logout(signOut: BackendResult) returns (outcome: Outcome)
      modifies this, store
      ensures !authReady ==>
                && outcome == Resolved
                && currentUser == None && store.userBlob == None
                && store.issuesBlob == old(store.issuesBlob)
                && loading == old(loading)
                && !IsAuthorized() && !IsAdmin()
      ensures authReady ==>
                && outcome == (if signOut.Failure? then Rejected(BackendFailure) else Resolved)
                && unchanged(this) && unchanged(store)
    {
      if !authReady {
        store.SetCurrentUser(None);
        currentUser := None;
        return Resolved;
      }
      outcome := if signOut.Failure? then Rejected(BackendFailure) else Resolved;
    }

    /** The mount effect in local mode: the saved user is restored, loading
        ends and the sample issues are seeded into an empty store (`now` is
        the clock reading). */
    method Initialize(now: int)
      modifies this, store
      ensures !authReady ==>
                && currentUser == old(store.userBlob)
                && !loading
                && store.userBlob == old(store.userBlob)
                && (old(store.Stored()) == [] ==> store.issuesBlob == Some(SampleIssues(now)))
                && (old(store.Stored()) != [] ==> store.issuesBlob == old(store.issuesBlob))
      ensures authReady ==> unchanged(this) && unchanged(store)
    {
      if !authReady {
        var savedUser := store.GetCurrentUser();
        currentUser := savedUser;
        loading := false;
        store.InitializeSampleData(now);
      }
    }
  }

  /** After a local-mode login and a reload, the restored user is an admin
      exactly when the email is an admin email and the credentials were
      valid. */
  method AdminAfterReload(email: string, password: string, uid: string, now: int)
    returns (admin: bool, authorized: bool)
    ensures admin == (DemoCredentialsValid(email, password) && email in AdminEmails)
    ensures authorized == DemoCredentialsValid(email, password)
  {
    var store := new LocalStorageService();
    var before := new AuthProvider(store, false);
    var outcome := before.Login(email, password, uid, Failure);
    var after := new AuthProvider(store, false);
    after.Initialize(now);
    admin := after.IsAdmin();
    authorized := after.IsAuthorized();
  }
}
