/**
 * `CommunityManager`: the list of communities, snapshotted as one array
 * under the `savedCommunities` store key. Delete and update are allowed only
 * to the user whose name the session stored under `currentUsername`.
 */
module CommunityRegistry {
  import opened Wrappers
  import opened Sequences
  import opened Platform
  import opened CommunityRecord
  import opened SessionManager

  const CommunitiesKey: string := "savedCommunities"

  /**
   * The ownership guard of delete and update: the stored `currentUsername`
   * exists and equals the creator exactly (case matters).
   */
  predicate Authorised(entries: map<string, Value>, community: Community): (r: bool)
    ensures r <==> CurrentUsernameKey in entries && entries[CurrentUsernameKey] == Text(community.creatorUsername)
  {
    StringAt(entries, CurrentUsernameKey) == Some(community.creatorUsername)
  }

  /** `getCommunities(forUsername:)` on a given list. */
  function CreatedBy(cs: seq<Community>, username: string): (r: seq<Community>)
    ensures forall c :: c in r <==> c in cs && c.creatorUsername == username
    ensures forall c :: multiset(r)[c] == if c.creatorUsername == username then multiset(cs)[c] else 0
    ensures IsSubsequence(r, cs)
  {
    Filter(cs, (c: Community) => c.creatorUsername == username)
  }

  /** The test `removeAll` keeps an entry by. */
  function IdOtherThan(id: Uuid): Community -> bool {
    (c: Community) => c.id != id
  }

  /** `removeAll { $0.id == id }`. */
  function RemoveById(cs: seq<Community>, id: Uuid): (r: seq<Community>)
    ensures forall c :: c in r <==> c in cs && c.id != id
    ensures forall c :: multiset(r)[c] == if c.id != id then multiset(cs)[c] else 0
    ensures IsSubsequence(r, cs)
    ensures (forall i :: 0 <= i < |cs| ==> cs[i].id != id) ==> r == cs
  {
    if forall i :: 0 <= i < |cs| ==> cs[i].id != id then
      FilterKeepsAll(cs, IdOtherThan(id));
      Filter(cs, IdOtherThan(id))
    else
      Filter(cs, IdOtherThan(id))
  }

  /** `communities.firstIndex(where: { $0.id == id })`. */
  function IndexOfId(cs: seq<Community>, id: Uuid): (r: Option<nat>)
    ensures r.None? <==> forall i :: 0 <= i < |cs| ==> cs[i].id != id
    ensures r.Some? ==> r.value < |cs| && cs[r.value].id == id
    ensures r.Some? ==> forall j :: 0 <= j < r.value ==> cs[j].id != id
  {
    FirstIndexWhere(cs, (c: Community) => c.id == id)
  }

  /** The list after `deleteCommunity(_:)` with the store holding `entries`. */
  function DeletedList(entries: map<string, Value>, cs: seq<Community>, community: Community): seq<Community> {
    if Authorised(entries, community) then RemoveById(cs, community.id) else cs
  }

  /**
   * An authorised delete drops exactly the entries with the target's id,
   * keeping the others in order; an unauthorised one changes nothing.
   */
  lemma DeleteOutcome(entries: map<string, Value>, cs: seq<Community>, community: Community)
    ensures var r := DeletedList(entries, cs, community);
            && (forall c :: c in r <==> c in cs && !(Authorised(entries, community) && c.id == community.id))
            && IsSubsequence(r, cs)
            && (!Authorised(entries, community) ==> r == cs)
  {
    IsSubsequenceOfSelf(cs);
  }

  /** `updateCommunity` does something: the caller owns the target and its id is listed. */
  predicate UpdateApplies(entries: map<string, Value>, cs: seq<Community>, community: Community) {
    Authorised(entries, community) && IndexOfId(cs, community.id).Some?
  }

  /**
   * The list after `updateCommunity(_:newName:newState:newImage:)`, where
   * `newId` and `now` are what `UUID()` and `Date()` give the new record.
   */
  function UpdatedList(entries: map<string, Value>, cs: seq<Community>, community: Community,
                       newName: string, newState: string, newImage: Option<Bytes>,
                       newId: Uuid, now: Time): seq<Community>
  {
    if UpdateApplies(entries, cs, community) then
      cs[IndexOfId(cs, community.id).value :=
           Community(newId, newName, newState, community.creatorUsername, newImage, now)]
    else cs
  }

  /**
   * An update keeps the length. When it applies, only the first entry with
   * the target id changes, and it becomes a record with the new name,
   * state and image, the old creator, but a new id and time; otherwise the
   * list is unchanged.
   */
  lemma UpdateOutcome(entries: map<string, Value>, cs: seq<Community>, community: Community,
                      newName: string, newState: string, newImage: Option<Bytes>, newId: Uuid, now: Time)
    ensures var r := UpdatedList(entries, cs, community, newName, newState, newImage, newId, now);
            && |r| == |cs|
            && (!UpdateApplies(entries, cs, community) ==> r == cs)
            && (UpdateApplies(entries, cs, community) ==>
                  exists i :: 0 <= i < |cs|
                    && cs[i].id == community.id
                    && (forall j :: 0 <= j < i ==> cs[j].id != community.id)
                    && r[i] == Community(newId, newName, newState, community.creatorUsername, newImage, now)
                    && (forall j :: 0 <= j < |cs| && j != i ==> r[j] == cs[j]))
  {
    if UpdateApplies(entries, cs, community) {
      var i := IndexOfId(cs, community.id).value;
      assert cs[i].id == community.id;
    }
  }

  /**
   * `loadCommunities()`: the decoded array when the key holds decodable
   * data; otherwise the communities already in memory are kept.
   */
  function LoadedCommunities(entries: map<string, Value>, current: seq<Community>): seq<Community> {
    match DataAt(entries, CommunitiesKey)
    case Some(d) =>
      (match DecodeCommunities(d)
       case Some(decoded) => decoded
       case None => current)
    case None => current
  }

  /** With nothing decodable under the key, loading keeps what was in memory. */
  lemma LoadWithoutData(entries: map<string, Value>, current: seq<Community>)
    requires DataAt(entries, CommunitiesKey).None? || DecodeCommunities(DataAt(entries, CommunitiesKey).value).None?
    ensures LoadedCommunities(entries, current) == current
  {
  }

  /** The store after `saveCommunities()`. */
  function SavedCommunities(entries: map<string, Value>, cs: seq<Community>): map<string, Value> {
    entries[CommunitiesKey := Data(EncodeCommunities(cs))]
  }

  /** Loading after a save gives back the saved array, whatever was in memory. */
  lemma LoadAfterSave(entries: map<string, Value>, cs: seq<Community>, current: seq<Community>)
    ensures LoadedCommunities(SavedCommunities(entries, cs), current) == cs
  {
    CommunitiesRoundTrip(cs);
  }

  /** Signing in or out leaves the saved communities alone. */
  lemma SessionKeysLeaveCommunities(entries: map<string, Value>, typed: string, user: UserRecord.User,
                                    current: seq<Community>)
    ensures LoadedCommunities(SignedInEntries(entries, typed, user), current) == LoadedCommunities(entries, current)
    ensures LoadedCommunities(SignedOutEntries(entries), current) == LoadedCommunities(entries, current)
  {
    assert DataAt(SignedInEntries(entries, typed, user), CommunitiesKey) == DataAt(entries, CommunitiesKey);
    assert DataAt(SignedOutEntries(entries), CommunitiesKey) == DataAt(entries, CommunitiesKey);
  }

  /**
   * The session stores the name as typed, so an owner who signed in as
   * "bob" to the account "Bob" is refused the delete and update of the
   * communities created under "Bob".
   */
  lemma TypedSpellingBlocksOwner(c: Community)
    requires c.creatorUsername == "Bob"
    ensures !Authorised(SignedInEntries(map[], "bob", UserRecord.NewUser("Bob", 0)), c)
  {
    assert StringAt(SignedInEntries(map[], "bob", UserRecord.NewUser("Bob", 0)), CurrentUsernameKey) == Some("bob");
    assert "bob"[0] != "Bob"[0];
  }

  /** Deleting an identifier no other entry has removes the entry added under it, and only that one. */
  lemma RemoveFreshId(cs: seq<Community>, c: Community)
    requires forall i :: 0 <= i < |cs| ==> cs[i].id != c.id
    ensures RemoveById(cs + [c], c.id) == cs
  {
    var p := IdOtherThan(c.id);
    assert !p(c);
    FilterSkipsLast(cs, c, p);
    assert forall i :: 0 <= i < |cs| ==> p(cs[i]);
    FilterKeepsAll(cs, p);
    assert RemoveById(cs + [c], c.id) == Filter(cs + [c], p);
  }

  class CommunityManager {
    var communities: seq<Community>
    const store: Defaults
    /** Where `UUID()` draws the identifiers of new communities from. */
    const ids: IdSource

    /** Every listed identifier is known to the identifier source, so no new one repeats it. */
    ghost predicate Valid()
      reads this, ids
    {
      && ids.Valid()
      && forall i :: 0 <= i < |communities| ==> communities[i].id in ids.issued
    }

    /** `init()`: starts from `[]` and loads the saved snapshot, if any. */
    constructor (store: Defaults, ids: IdSource)
      requires ids.Valid()
      modifies ids
      ensures Valid()
      ensures this.store == store && this.ids == ids
      ensures communities == LoadedCommunities(store.entries, [])
      ensures old(ids.issued) <= ids.issued
    {
      this.store := store;
      this.ids := ids;
      communities := [];
      new;
      LoadCommunities();
    }

    /**
     * `addCommunity(name:state:creatorUsername:image:)`: appends a new
     * community, saves, and always reports success. The new identifier is
     * no listed community's.
     */
    method AddCommunity(name: string, state: string, creatorUsername: string, image: Option<Bytes>, now: Time)
      returns (ok: bool)
      requires Valid()
      modifies this, store, ids
      ensures Valid()
      ensures ok
      ensures ids.issued == old(ids.issued) + {old(ids.upcoming)}
      ensures forall i :: 0 <= i < |old(communities)| ==> old(communities)[i].id != old(ids.upcoming)
      ensures communities == old(communities) + [Community(old(ids.upcoming), name, state, creatorUsername, image, now)]
      ensures store.entries == SavedCommunities(old(store.entries), communities)
      ensures RemoveById(communities, old(ids.upcoming)) == old(communities)
    {
      var c := NewCommunity(name, state, creatorUsername, image, ids, now);
      RemoveFreshId(communities, c);
      communities := communities + [c];
      SaveCommunities();
      return true;
    }

    /** `getCommunities(forUsername:)`: exactly the user's communities, in list order. */
    function GetCommunities(username: string): (r: seq<Community>)
      reads this
      ensures forall c :: c in r <==> c in communities && c.creatorUsername == username
      ensures forall c :: multiset(r)[c] == if c.creatorUsername == username then multiset(communities)[c] else 0
      ensures IsSubsequence(r, communities)
    {
      CreatedBy(communities, username)
    }

    /**
     * `deleteCommunity(_:)`: when authorised, drops every community with
     * the target's id and saves; otherwise does nothing at all.
     */
    method DeleteCommunity(community: Community)
      requires Valid()
      modifies this, store
      ensures Valid()
      ensures communities == DeletedList(old(store.entries), old(communities), community)
      ensures !Authorised(old(store.entries), community) ==> store.entries == old(store.entries)
      ensures Authorised(old(store.entries), community) ==>
                store.entries == SavedCommunities(old(store.entries), communities)
    {
      var currentUser := StringAt(store.entries, CurrentUsernameKey);
      if currentUser.None? || currentUser.value != community.creatorUsername {
        return;
      }
      communities := RemoveById(communities, community.id);
      SaveCommunities();
    }

    /**
     * `updateCommunity(_:newName:newState:newImage:)`: when authorised and
     * the id is present, the first entry with that id is replaced by a
     * brand-new community (fresh id, current time) keeping only the creator.
     * The fresh id is the old one of no listed community, the edited one
     * included.
     */
    method UpdateCommunity(community: Community, newName: string, newState: string, newImage: Option<Bytes>,
                           now: Time)
      requires Valid()
      modifies this, store, ids
      ensures Valid()
      ensures communities == UpdatedList(old(store.entries), old(communities), community,
                                         newName, newState, newImage, old(ids.upcoming), now)
      ensures !UpdateApplies(old(store.entries), old(communities), community) ==>
                && store.entries == old(store.entries)
                && ids.upcoming == old(ids.upcoming) && ids.issued == old(ids.issued)
      ensures UpdateApplies(old(store.entries), old(communities), community) ==>
                && old(ids.upcoming) != community.id
                && (forall i :: 0 <= i < |old(communities)| ==> old(communities)[i].id != old(ids.upcoming))
                && ids.issued == old(ids.issued) + {old(ids.upcoming)}
                && store.entries == SavedCommunities(old(store.entries), communities)
    {
      var currentUser := StringAt(store.entries, CurrentUsernameKey);
      if currentUser.None? || currentUser.value != community.creatorUsername {
        return;
      }
      var index := IndexOfId(communities, community.id);
      if index.Some? {
        var updated := NewCommunity(newName, newState, community.creatorUsername, newImage, ids, now);
        communities := communities[index.value := updated];
        SaveCommunities();
      }
    }

    /** `saveCommunities()`: encoding a community array cannot fail here. */
    method SaveCommunities()
      modifies store
      ensures store.entries == SavedCommunities(old(store.entries), communities)
    {
      store.Set(CommunitiesKey, Data(EncodeCommunities(communities)));
    }

    /**
     * `loadCommunities()`. The identifiers read back were generated by an
     * earlier `UUID()`, so they are registered with the identifier source.
     */
    method LoadCommunities()
      requires Valid()
      modifies this, ids
      ensures Valid()
      ensures communities == LoadedCommunities(store.entries, old(communities))
      ensures old(ids.issued) <= ids.issued
    {
      var data := DataAt(store.entries, CommunitiesKey);
      if data.Some? {
        var decoded := DecodeCommunities(data.value);
        if decoded.Some? {
          communities := decoded.value;
          var loadedIds := IdList(communities, (c: Community) => c.id);
          ids.Reserve(loadedIds);
          assert forall i :: 0 <= i < |communities| ==> communities[i].id in set u | u in loadedIds;
        }
      }
    }
  }
}
