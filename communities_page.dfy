/**
 * The logic of the communities page: the search filter and its flag, and
 * the owner test that decides whether a card offers edit and delete.
 */
module CommunitySearch {
  import opened Wrappers
  import opened Strings
  import opened Sequences
  import opened CommunityRecord
  import opened UserRecord
  import opened SessionManager
  import opened CommunityRegistry

  /** The search test: the lowercased name or state contains the lowercased text. */
  predicate MatchesSearch(c: Community, text: string) {
    || Contains(Lowercased(c.name), Lowercased(text))
    || Contains(Lowercased(c.state), Lowercased(text))
  }

  /** `filteredCommunities`: everything for empty text, else the matches in list order. */
  function FilteredCommunities(cs: seq<Community>, text: string): (r: seq<Community>)
    ensures text == "" ==> r == cs
    ensures text != "" ==> forall c :: c in r <==> c in cs && MatchesSearch(c, text)
    ensures text != "" ==> forall c :: multiset(r)[c] == if MatchesSearch(c, text) then multiset(cs)[c] else 0
    ensures IsSubsequence(r, cs)
  {
    if text == "" then
      IsSubsequenceOfSelf(cs);
      cs
    else
      Filter(cs, (c: Community) => MatchesSearch(c, text))
  }

  /**
   * The empty-text shortcut agrees with the filter: every community
   * matches the empty text. This rests on `Contains(_, "")` holding, as it
   * does for the standard library's `contains(_:)` on strings since Swift
   * 5.7; Foundation's older `range(of:)`-based `contains` finds no empty
   * string. The page never reaches the case, since it tests
   * `searchText.isEmpty` first.
   */
  lemma EmptySearchMatchesAll(cs: seq<Community>)
    ensures Filter(cs, (c: Community) => MatchesSearch(c, "")) == cs
  {
    forall i | 0 <= i < |cs| ensures MatchesSearch(cs[i], "") {
      assert Lowercased("") == "";
      assert "" <= Lowercased(cs[i].name);
    }
    FilterKeepsAll(cs, (c: Community) => MatchesSearch(c, ""));
  }

  /** The search ignores the case of the query. */
  lemma SearchIgnoresQueryCase(c: Community, text: string)
    ensures MatchesSearch(c, text) <==> MatchesSearch(c, Lowercased(text))
  {
    LowercasedIdempotent(text);
  }

  /**
   * `CommunityCard.canModify`: `currentUser?.username == creatorUsername`,
   * an optional compared with a plain string.
   */
  function CanModify(currentUser: Option<User>, c: Community): (r: bool)
    ensures r <==> currentUser.Some? && currentUser.value.username == c.creatorUsername
  {
    (match currentUser
     case Some(u) => Some(u.username)
     case None => None) == Some(c.creatorUsername)
  }

  /**
   * The card and the registry can disagree: after "Bob" signs in by typing
   * "bob", the card offers edit and delete while the registry refuses them.
   */
  lemma CardOffersWhatRegistryRefuses(c: Community)
    requires c.creatorUsername == "Bob"
    ensures CanModify(Some(NewUser("Bob", 0)), c)
    ensures !Authorised(SignedInEntries(map[], "bob", NewUser("Bob", 0)), c)
  {
    TypedSpellingBlocksOwner(c);
  }

  /** The search bar's text and its `isSearching` flag. */
  class SearchBar {
    var searchText: string
    var isSearching: bool

    ghost predicate Valid()
      reads this
    {
      isSearching == (searchText != "")
    }

    constructor ()
      ensures Valid() && searchText == ""
    {
      searchText := "";
      isSearching := false;
    }

    /** Typing: `onChange(of: searchText)` sets the flag to `!searchText.isEmpty`. */
    method Edit(text: string)
      modifies this
      ensures Valid() && searchText == text
    {
      searchText := text;
      isSearching := searchText != "";
    }

    /** The clear button. */
    method Clear()
      modifies this
      ensures Valid() && searchText == "" && !isSearching
    {
      searchText := "";
      isSearching := false;
    }
  }
}
