/**
 * `UserManager`: the signed-in session. It keeps the current user in
 * memory and mirrors it under two store keys so that the next launch can
 * restore it.
 */
module SessionManager {
  import opened Wrappers
  import opened Platform
  import opened UserAccountRecord
  import opened UserRecord
  import opened AccountRegistry

  const CurrentUsernameKey: string := "currentUsername"
  const CurrentUserKey: string := "currentUser"

  /**
   * The session `init()` restores: only when the username string and
   * decodable user data are both stored.
   */
  function RestoredUser(entries: map<string, Value>): (r: Option<User>)
    ensures r.Some? <==> StringAt(entries, CurrentUsernameKey).Some? && DataAt(entries, CurrentUserKey).Some?
                         && DecodeUser(DataAt(entries, CurrentUserKey).value).Some?
    ensures r.Some? ==> r == DecodeUser(DataAt(entries, CurrentUserKey).value)
  {
    match (StringAt(entries, CurrentUsernameKey), DataAt(entries, CurrentUserKey))
    case (Some(_), Some(d)) => DecodeUser(d)
    case _ => None
  }

  /** The store after a successful sign-in or sign-up: the name as typed, and the user. */
  function SignedInEntries(entries: map<string, Value>, typed: string, user: User): (r: map<string, Value>)
    ensures StringAt(r, CurrentUsernameKey) == Some(typed)
    ensures DataAt(r, CurrentUserKey) == Some(EncodeUser(user))
    ensures forall k :: k != CurrentUsernameKey && k != CurrentUserKey ==>
              (k in r <==> k in entries) && (k in entries ==> r[k] == entries[k])
  {
    entries[CurrentUsernameKey := Text(typed)][CurrentUserKey := Data(EncodeUser(user))]
  }

  /** The store after `signOut()`. */
  function SignedOutEntries(entries: map<string, Value>): (r: map<string, Value>)
    ensures StringAt(r, CurrentUsernameKey) == None && DataAt(r, CurrentUserKey) == None
    ensures forall k :: k != CurrentUsernameKey && k != CurrentUserKey ==>
              (k in r <==> k in entries) && (k in entries ==> r[k] == entries[k])
  {
    entries - {CurrentUsernameKey, CurrentUserKey}
  }

  /** A restart after sign-in restores the same user, without a profile image. */
  lemma RestoreAfterSignIn(entries: map<string, Value>, typed: string, user: User)
    ensures RestoredUser(SignedInEntries(entries, typed, user)) == Some(user.(profileImage := None))
    ensures StringAt(SignedInEntries(entries, typed, user), CurrentUsernameKey) == Some(typed)
  {
    UserRoundTrip(user);
  }

  /** A restart after sign-out is not authenticated, whatever the store held before. */
  lemma RestoreAfterSignOut(entries: map<string, Value>)
    ensures RestoredUser(SignedOutEntries(entries)) == None
  {
    assert CurrentUsernameKey !in SignedOutEntries(entries);
  }

  /** Neither signing in nor signing out touches the saved accounts. */
  lemma SessionKeysLeaveAccounts(entries: map<string, Value>, typed: string, user: User, current: seq<UserAccount>)
    ensures LoadedAccounts(SignedInEntries(entries, typed, user), current) == LoadedAccounts(entries, current)
    ensures LoadedAccounts(SignedOutEntries(entries), current) == LoadedAccounts(entries, current)
  {
    LoadIgnoresOtherKeys(entries, CurrentUsernameKey, Text(typed), current);
    LoadIgnoresOtherKeys(entries[CurrentUsernameKey := Text(typed)], CurrentUserKey, Data(EncodeUser(user)), current);
    assert DataAt(SignedOutEntries(entries), AccountsKey) == DataAt(entries, AccountsKey);
  }

  class UserManager {
    var currentUser: Option<User>
    var isAuthenticated: bool
    const accountManager: UserAccountManager
    const store: Defaults

    ghost predicate Valid()
      reads this, accountManager, accountManager.ids
    {
      && accountManager.store == store
      && accountManager.Valid()
      && isAuthenticated == currentUser.Some?
    }

    /**
     * `init()`: the account registry loads first (a property initialiser),
     * then the previous session is restored if it was saved.
     */
    constructor (store: Defaults, ids: IdSource)
      requires ids.Valid()
      modifies ids
      ensures Valid()
      ensures accountManager.ids == ids
      ensures this.store == store && fresh(accountManager)
      ensures accountManager.accounts == LoadedAccounts(store.entries, [])
      ensures currentUser == RestoredUser(store.entries)
      ensures store.entries == old(store.entries)
    {
      var manager := new UserAccountManager(store, ids);
      accountManager := manager;
      this.store := store;
      var user: Option<User> := None;
      var savedUsername := StringAt(store.entries, CurrentUsernameKey);
      var savedUserData := DataAt(store.entries, CurrentUserKey);
      if savedUsername.Some? && savedUserData.Some? {
        user := DecodeUser(savedUserData.value);
      }
      currentUser := user;
      isAuthenticated := user.Some?;
    }

    /**
     * `signIn(username:password:)`: on a match, the session holds the
     * account's own spelling of the name, while the store gets the name as
     * typed.
     */
    method SignIn(username: string, password: string) returns (ok: bool)
      requires Valid()
      modifies this, store
      ensures Valid()
      ensures ok <==> old(accountManager.VerifyAccount(username, password)).Some?
      ensures ok ==> var account := old(accountManager.VerifyAccount(username, password)).value;
                     && currentUser == Some(NewUser(account.username, account.birthDate))
                     && store.entries == SignedInEntries(old(store.entries), username, currentUser.value)
      ensures !ok ==> currentUser == old(currentUser) && isAuthenticated == old(isAuthenticated)
                      && store.entries == old(store.entries)
      ensures accountManager.accounts == old(accountManager.accounts)
    {
      var account := accountManager.VerifyAccount(username, password);
      if account.None? {
        return false;
      }
      var user := NewUser(account.value.username, account.value.birthDate);
      currentUser := Some(user);
      isAuthenticated := true;
      store.Set(CurrentUsernameKey, Text(username));
      store.Set(CurrentUserKey, Data(EncodeUser(user)));
      return true;
    }

    /**
     * `signUp(username:password:birthDate:)`: registers the account and, if
     * the name was free, signs in under exactly the given name and date.
     */
    method SignUp(username: string, password: string, birthDate: Time) returns (ok: bool)
      requires Valid()
      modifies this, store, accountManager, accountManager.ids
      ensures Valid()
      ensures ok <==> !UsernameTaken(old(accountManager.accounts), username)
      ensures ok ==> && currentUser == Some(NewUser(username, birthDate))
                     && accountManager.accounts
                        == old(accountManager.accounts) + [UserAccount(old(accountManager.ids.upcoming), username, password, birthDate)]
                     && (forall i :: 0 <= i < |old(accountManager.accounts)| ==>
                           old(accountManager.accounts)[i].id != old(accountManager.ids.upcoming))
                     && accountManager.ids.issued == old(accountManager.ids.issued) + {old(accountManager.ids.upcoming)}
                     && store.entries
                        == SignedInEntries(SavedAccounts(old(store.entries), accountManager.accounts),
                                           username, NewUser(username, birthDate))
      ensures !ok ==> && currentUser == old(currentUser) && isAuthenticated == old(isAuthenticated)
                      && accountManager.accounts == old(accountManager.accounts)
                      && store.entries == old(store.entries)
                      && accountManager.ids.upcoming == old(accountManager.ids.upcoming)
                      && accountManager.ids.issued == old(accountManager.ids.issued)
    {
      ok := accountManager.CreateAccount(username, password, birthDate);
      if !ok {
        return;
      }
      var user := NewUser(username, birthDate);
      currentUser := Some(user);
      isAuthenticated := true;
      store.Set(CurrentUsernameKey, Text(username));
      store.Set(CurrentUserKey, Data(EncodeUser(user)));
    }

    /** `signOut()`: clears the session and both session keys, nothing else. */
    method SignOut()
      requires Valid()
      modifies this, store
      ensures Valid()
      ensures currentUser == None && !isAuthenticated
      ensures store.entries == SignedOutEntries(old(store.entries))
      ensures accountManager.accounts == old(accountManager.accounts)
    {
      currentUser := None;
      isAuthenticated := false;
      store.Remove(CurrentUsernameKey);
      store.Remove(CurrentUserKey);
    }
  }

  /**
   * The name kept in the store can differ in case from the session's name:
   * an account registered as "Bob" is signed into by typing "bob".
   */
  lemma TypedSpellingMayDiffer(m: UserAccountManager)
    requires m.accounts == [UserAccount(0, "Bob", "secret", 0)]
    ensures m.VerifyAccount("bob", "secret") == Some(UserAccount(0, "Bob", "secret", 0))
    ensures StringAt(SignedInEntries(m.store.entries, "bob", NewUser("Bob", 0)), CurrentUsernameKey) == Some("bob")
  {
    assert Matches(m.accounts[0], "bob", "secret");
  }
}
