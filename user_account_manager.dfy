/**
 * `UserAccountManager`: the registry of sign-up accounts, kept in memory and
 * snapshotted as one array under the `savedAccounts` store key.
 */
module AccountRegistry {
  import opened Wrappers
  import opened Strings
  import opened Sequences
  import opened Platform
  import opened UserAccountRecord

  const AccountsKey: string := "savedAccounts"

  /**
   * The duplicate test of `createAccount`: some account's username equals
   * `username` once both are lowercased, which is to say the lowercased
   * name is among the lowercased names of the accounts.
   */
  predicate UsernameTaken(accounts: seq<UserAccount>, username: string): (r: bool)
    ensures r <==> Lowercased(username) in (set a | a in accounts :: Lowercased(a.username))
  {
    exists i :: 0 <= i < |accounts| && SameIgnoringCase(accounts[i].username, username)
  }

  /** No two accounts share a lowercased username. */
  predicate UniqueUsernames(accounts: seq<UserAccount>) {
    forall i, j :: 0 <= i < j < |accounts| ==> !SameIgnoringCase(accounts[i].username, accounts[j].username)
  }

  /** The login test: username up to case, password exactly. */
  predicate Matches(a: UserAccount, username: string, password: string) {
    SameIgnoringCase(a.username, username) && a.password == password
  }

  /** Appending an account whose name is free keeps the names unique. */
  lemma AppendKeepsUnique(accounts: seq<UserAccount>, a: UserAccount)
    requires UniqueUsernames(accounts)
    requires !UsernameTaken(accounts, a.username)
    ensures UniqueUsernames(accounts + [a])
  {
    var all := accounts + [a];
    forall i, j | 0 <= i < j < |all|
      ensures !SameIgnoringCase(all[i].username, all[j].username)
    {
      if j == |accounts| {
        assert all[i] == accounts[i];
        assert !SameIgnoringCase(accounts[i].username, a.username);
      }
    }
  }

  /**
   * `loadAccounts()`: the decoded array when the key holds decodable data;
   * otherwise the accounts already in memory are kept.
   */
  function LoadedAccounts(entries: map<string, Value>, current: seq<UserAccount>): seq<UserAccount> {
    match DataAt(entries, AccountsKey)
    case Some(d) =>
      (match DecodeAccounts(d)
       case Some(decoded) => decoded
       case None => current)
    case None => current
  }

  /** The store after `saveAccounts()`. */
  function SavedAccounts(entries: map<string, Value>, accounts: seq<UserAccount>): map<string, Value> {
    entries[AccountsKey := Data(EncodeAccounts(accounts))]
  }

  /** Loading after a save gives back the saved array, whatever was in memory. */
  lemma LoadAfterSave(entries: map<string, Value>, accounts: seq<UserAccount>, current: seq<UserAccount>)
    ensures LoadedAccounts(SavedAccounts(entries, accounts), current) == accounts
  {
    AccountsRoundTrip(accounts);
  }

  /** With nothing decodable under the key, loading keeps what was in memory. */
  lemma LoadWithoutData(entries: map<string, Value>, current: seq<UserAccount>)
    requires DataAt(entries, AccountsKey).None? || DecodeAccounts(DataAt(entries, AccountsKey).value).None?
    ensures LoadedAccounts(entries, current) == current
  {
  }

  /** Writing other keys does not change what loading the accounts gives. */
  lemma LoadIgnoresOtherKeys(entries: map<string, Value>, key: string, v: Value, current: seq<UserAccount>)
    requires key != AccountsKey
    ensures LoadedAccounts(entries[key := v], current) == LoadedAccounts(entries, current)
  {
  }

  class UserAccountManager {
    var accounts: seq<UserAccount>
    const store: Defaults
    /** Where `UUID()` draws the identifiers of new accounts from. */
    const ids: IdSource

    /** Every account's identifier is known to the identifier source, so no new one repeats it. */
    ghost predicate Valid()
      reads this, ids
    {
      && ids.Valid()
      && forall i :: 0 <= i < |accounts| ==> accounts[i].id in ids.issued
    }

    /** `init()`: starts from `[]` and loads the saved snapshot, if any. */
    constructor (store: Defaults, ids: IdSource)
      requires ids.Valid()
      modifies ids
      ensures Valid()
      ensures this.store == store && this.ids == ids
      ensures accounts == LoadedAccounts(store.entries, [])
      ensures old(ids.issued) <= ids.issued
    {
      this.store := store;
      this.ids := ids;
      accounts := [];
      new;
      LoadAccounts();
    }

    /**
     * `createAccount(username:password:birthDate:)`: refuses a username
     * that clashes with an existing one up to case; otherwise appends a new
     * account with an id no other account has, and saves the whole array.
     */
    method CreateAccount(username: string, password: string, birthDate: Time) returns (ok: bool)
      requires Valid()
      modifies this, store, ids
      ensures Valid()
      ensures ok <==> !UsernameTaken(old(accounts), username)
      ensures !ok ==> accounts == old(accounts) && store.entries == old(store.entries)
                      && ids.upcoming == old(ids.upcoming) && ids.issued == old(ids.issued)
      ensures ok ==> accounts == old(accounts) + [UserAccount(old(ids.upcoming), username, password, birthDate)]
      ensures ok ==> && ids.issued == old(ids.issued) + {old(ids.upcoming)}
                     && forall i :: 0 <= i < |old(accounts)| ==> old(accounts)[i].id != old(ids.upcoming)
      ensures ok ==> store.entries == SavedAccounts(old(store.entries), accounts)
      ensures UniqueUsernames(old(accounts)) ==> UniqueUsernames(accounts)
    {
      if UsernameTaken(accounts, username) {
        return false;
      }
      var a := NewUserAccount(username, password, birthDate, ids);
      if UniqueUsernames(accounts) {
        AppendKeepsUnique(accounts, a);
      }
      accounts := accounts + [a];
      SaveAccounts();
      return true;
    }

    /** `verifyAccount(username:password:)`: the first matching account. */
    function VerifyAccount(username: string, password: string): (r: Option<UserAccount>)
      reads this
      ensures r.None? <==> forall i :: 0 <= i < |accounts| ==> !Matches(accounts[i], username, password)
      ensures r.Some? ==> exists i :: 0 <= i < |accounts| && accounts[i] == r.value
                                      && Matches(accounts[i], username, password)
                                      && forall j :: 0 <= j < i ==> !Matches(accounts[j], username, password)
    {
      FirstWhere(accounts, (a: UserAccount) => Matches(a, username, password))
    }

    /** `saveAccounts()`: encoding an account array cannot fail here. */
    method SaveAccounts()
      modifies store
      ensures store.entries == SavedAccounts(old(store.entries), accounts)
    {
      store.Set(AccountsKey, Data(EncodeAccounts(accounts)));
    }

    /**
     * `loadAccounts()`. The identifiers read back were generated by an
     * earlier `UUID()`, so they are registered with the identifier source.
     */
    method LoadAccounts()
      requires Valid()
      modifies this, ids
      ensures Valid()
      ensures accounts == LoadedAccounts(store.entries, old(accounts))
      ensures old(ids.issued) <= ids.issued
    {
      var data := DataAt(store.entries, AccountsKey);
      if data.Some? {
        var decoded := DecodeAccounts(data.value);
        if decoded.Some? {
          accounts := decoded.value;
          var loadedIds := IdList(accounts, (a: UserAccount) => a.id);
          ids.Reserve(loadedIds);
          assert forall i :: 0 <= i < |accounts| ==> accounts[i].id in set u | u in loadedIds;
        }
      }
    }
  }
}
