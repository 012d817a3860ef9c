/** The edit-community sheet: its initial state, its actions and Save. */
module EditCommunityScreen {
  import opened Wrappers
  import opened Platform
  import opened CommunityRecord
  import opened UserRecord
  import opened USStates
  import opened CommunityRegistry
  import opened CommunitySearch

  /** `USState.allCases.first { $0.rawValue == state } ?? .CA`. */
  function InitialState(state: string): (r: USState)
    ensures RawValue(r) == state || (r == CA && forall s: USState :: RawValue(s) != state)
  {
    FromRawValue(state).GetOr(CA)
  }

  /** A community whose state is a full state name opens with that state selected. */
  lemma InitialStateOfRawValue(s: USState)
    ensures InitialState(RawValue(s)) == s
  {
    RawValueRoundTrip(s);
  }

  /** The buttons the sheet shows. */
  datatype Action = Cancel | Save | GoBack

  /** The owner gets Cancel and Save; anyone else only Go Back. */
  function Actions(canEdit: bool): (r: set<Action>)
    ensures Save in r <==> canEdit
    ensures Cancel in r <==> canEdit
    ensures GoBack in r <==> !canEdit
  {
    if canEdit then {Cancel, Save} else {GoBack}
  }

  class EditCommunityForm {
    const community: Community
    var name: string
    var selectedState: USState
    /** The selected image, as the JPEG bytes it would be stored as. */
    var selectedImage: Option<Bytes>
    var isPresented: bool

    /** `init(communityManager:community:isPresented:)`. */
    constructor (community: Community, isPresented: bool)
      ensures this.community == community && this.isPresented == isPresented
      ensures name == community.name
      ensures selectedState == InitialState(community.state)
      ensures selectedImage == community.imageData
    {
      this.community := community;
      name := community.name;
      selectedState := InitialState(community.state);
      selectedImage := community.imageData;
      this.isPresented := isPresented;
    }

    /** `canEdit`: the same owner test as the community card. */
    function CanEdit(currentUser: Option<User>): (r: bool)
      ensures r <==> currentUser.Some? && currentUser.value.username == community.creatorUsername
    {
      CanModify(currentUser, community)
    }

    /**
     * The Save button: asks the registry to update the community with the
     * edited name, the selected state's full name and the image, then
     * closes the sheet.
     */
    method SaveEdits(cm: CommunityManager, now: Time)
      requires cm.Valid()
      modifies this`isPresented, cm, cm.store, cm.ids
      ensures cm.Valid() && !isPresented
      ensures cm.communities == UpdatedList(old(cm.store.entries), old(cm.communities), community,
                                            name, RawValue(selectedState), selectedImage, old(cm.ids.upcoming), now)
      ensures !UpdateApplies(old(cm.store.entries), old(cm.communities), community) ==>
                && cm.store.entries == old(cm.store.entries)
                && cm.ids.upcoming == old(cm.ids.upcoming) && cm.ids.issued == old(cm.ids.issued)
      ensures UpdateApplies(old(cm.store.entries), old(cm.communities), community) ==>
                && old(cm.ids.upcoming) != community.id
                && (forall i :: 0 <= i < |old(cm.communities)| ==> old(cm.communities)[i].id != old(cm.ids.upcoming))
                && cm.ids.issued == old(cm.ids.issued) + {old(cm.ids.upcoming)}
                && cm.store.entries == SavedCommunities(old(cm.store.entries), cm.communities)
    {
      cm.UpdateCommunity(community, name, RawValue(selectedState), selectedImage, now);
      isPresented := false;
    }

    /** Cancel and Go Back both just close the sheet. */
    method Close()
      modifies this`isPresented
      ensures !isPresented
    {
      isPresented := false;
    }
  }
}
