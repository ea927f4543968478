/** The local-mode part of the auth provider of src/contexts/AuthContext.tsx:
    a small state machine over the current user, persisted through the
    local store. Local mode is on exactly when no managed backend client is
    configured. In remote mode the sign-in, sign-up and sign-out calls are
    outcome parameters; the state changes they cause arrive through the
    auth-state listener, which is not part of this model. */
module AuthContext {
  import opened Types
  import opened Issues
  import opened Accounts
  import opened LocalStorage

  class AuthProvider {
    var currentUser: Option<User>
    var loading: bool
    var isAdmin: bool
    /** The local store singleton. */
    const store: LocalStorageService
    /** `isSupabaseConfigured()`; local mode is its negation. */
    const supabaseConfigured: bool

    constructor (store: LocalStorageService, supabaseConfigured: bool)
      ensures this.store == store && this.supabaseConfigured == supabaseConfigured
      ensures currentUser == None && loading && !isAdmin
    {
      this.store := store;
      this.supabaseConfigured := supabaseConfigured;
      currentUser := None;
      loading := true;
      isAdmin := false;
    }

    /** The signed-in user's email is one of the authorized ones. */
    predicate IsAuthorized()
      reads this
    {
      currentUser.Some? && currentUser.value.email in AuthorizedEmails
    }

    /** Signs in. Local mode: succeeds exactly for an authorized email with
        the demo password, and then stores and adopts a user whose uid is
        the clock reading `uid`; otherwise rejects with no change. */
    method Login(email: string, password: string, uid: string, signIn: BackendResult)
      returns (outcome: Outcome)
      modifies this, store
      ensures !supabaseConfigured ==> (outcome == Resolved <==> DemoCredentialsValid(email, password))
      ensures !supabaseConfigured && outcome == Resolved ==>
                && currentUser == Some(User(email, uid))
                && store.userBlob == currentUser
                && store.issuesBlob == old(store.issuesBlob)
                && isAdmin == old(isAdmin) && loading == old(loading)
                && IsAuthorized()
      ensures !supabaseConfigured && outcome != Resolved ==>
                outcome == Rejected(InvalidCredentials) && unchanged(this) && unchanged(store)
      ensures supabaseConfigured ==>
                && outcome == (if signIn.Failure? then Rejected(BackendFailure) else Resolved)
                && unchanged(this) && unchanged(store)
    {
      if !supabaseConfigured {
        if email in AuthorizedEmails && password == DemoPassword {
          var mockUser := User(email, uid);
          store.SetCurrentUser(Some(mockUser));
          currentUser := Some(mockUser);
          return Resolved;
        }
        return Rejected(InvalidCredentials);
      }
      outcome := if signIn.Failure? then Rejected(BackendFailure) else Resolved;
    }

    /** Signs up; not available in local mode. */
    method Signup(email: string, password: string, signUp: BackendResult) returns (outcome: Outcome)
      ensures !supabaseConfigured ==> outcome == Rejected(SignupUnavailable)
      ensures supabaseConfigured ==> outcome == (if signUp.Failure? then Rejected(BackendFailure) else Resolved)
    {
      if !supabaseConfigured {
        return Rejected(SignupUnavailable);
      }
      outcome := if signUp.Failure? then Rejected(BackendFailure) else Resolved;
    }

    /** Signs out. Local mode: the stored user and the current user are both
        cleared. */
    method Logout(signOut: BackendResult) returns (outcome: Outcome)
      modifies this, store
      ensures !supabaseConfigured ==>
                && outcome == Resolved
                && currentUser == None && store.userBlob == None
                && store.issuesBlob == old(store.issuesBlob)
                && isAdmin == old(isAdmin) && loading == old(loading)
                && !IsAuthorized()
      ensures supabaseConfigured ==>
                && outcome == (if signOut.Failure? then Rejected(BackendFailure) else Resolved)
                && unchanged(this) && unchanged(store)
    {
      if !supabaseConfigured {
        store.SetCurrentUser(None);
        currentUser := None;
        return Resolved;
      }
      outcome := if signOut.Failure? then Rejected(BackendFailure) else Resolved;
    }

    /** The mount effect in local mode: the saved user is restored, there is
        no admin, loading ends and the sample issues are seeded into an
        empty store (`now` is the clock reading). */
    method Initialize(now: int)
      modifies this, store
      ensures !supabaseConfigured ==>
                && currentUser == old(store.userBlob)
                && !isAdmin && !loading
                && store.userBlob == old(store.userBlob)
                && (old(store.Stored()) == [] ==> store.issuesBlob == Some(SampleIssues(now)))
                && (old(store.Stored()) != [] ==> store.issuesBlob == old(store.issuesBlob))
      ensures supabaseConfigured ==> unchanged(this) && unchanged(store)
    {
      if !supabaseConfigured {
        var savedUser := store.GetCurrentUser();
        currentUser := savedUser;
        isAdmin := false;
        loading := false;
        store.InitializeSampleData(now);
      }
    }
  }

  /** A local-mode login survives a reload: a new provider over the same
      store restores the user, and it is authorized, exactly when the
      credentials were valid. */
  method SessionSurvivesReload(email: string, password: string, uid: string, now: int)
    returns (restored: Option<User>, authorized: bool)
    ensures restored == (if DemoCredentialsValid(email, password) then Some(User(email, uid)) else None)
    ensures authorized == DemoCredentialsValid(email, password)
  {
    var store := new LocalStorageService();
    var before := new AuthProvider(store, false);
    var outcome := before.Login(email, password, uid, Failure);
    var after := new AuthProvider(store, false);
    after.Initialize(now);
    restored := after.currentUser;
    authorized := after.IsAuthorized();
  }

  /** After a local logout a reload restores no user. */
  method LogoutSurvivesReload(email: string, uid: string, now: int) returns (restored: Option<User>)
    ensures restored == None
  {
    var store := new LocalStorageService();
    var before := new AuthProvider(store, false);
    var loggedIn := before.Login(email, DemoPassword, uid, Failure);
    var loggedOut := before.Logout(Failure);
    var after := new AuthProvider(store, false);
    after.Initialize(now);
    restored := after.currentUser;
  }
}
