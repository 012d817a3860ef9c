/** The add-community sheet's create handler. */
module AddCommunityScreen {
  import opened Wrappers
  import opened Platform
  import opened CommunityRecord
  import opened UserRecord
  import opened USStates
  import opened SessionManager
  import opened CommunityRegistry

  class AddCommunityForm {
    var communityName: string
    var selectedState: USState
    /** The selected image, as the JPEG bytes it would be stored as. */
    var selectedImage: Option<Bytes>
    /** Whether `dismiss()` has been called. */
    var dismissed: bool

    /** The sheet opens with an empty name, California and no image. */
    constructor ()
      ensures communityName == "" && selectedState == CA && selectedImage == None && !dismissed
      ensures RawValue(selectedState) == "California"
    {
      communityName := "";
      selectedState := CA;
      selectedImage := None;
      dismissed := false;
      KnownRawValues();
    }

    /**
     * `handleCreate()`: without a signed-in user nothing happens. Otherwise
     * the community is added under the user's name with the state's full
     * name, whatever the name field holds (even ""), and the sheet closes.
     */
    method HandleCreate(um: UserManager, cm: CommunityManager, now: Time)
      requires cm.Valid()
      modifies this`dismissed, cm, cm.store, cm.ids
      ensures cm.Valid()
      ensures old(um.currentUser).None? ==>
                && cm.communities == old(cm.communities) && cm.store.entries == old(cm.store.entries)
                && dismissed == old(dismissed)
                && cm.ids.upcoming == old(cm.ids.upcoming) && cm.ids.issued == old(cm.ids.issued)
      ensures old(um.currentUser).Some? ==>
                && cm.communities == old(cm.communities)
                     + [Community(old(cm.ids.upcoming), communityName, RawValue(selectedState),
                                  old(um.currentUser).value.username, selectedImage, now)]
                && (forall i :: 0 <= i < |old(cm.communities)| ==> old(cm.communities)[i].id != old(cm.ids.upcoming))
                && cm.store.entries == SavedCommunities(old(cm.store.entries), cm.communities)
                && dismissed
    {
      var user := um.currentUser;
      if user.None? {
        return;
      }
      var added := cm.AddCommunity(communityName, RawValue(selectedState), user.value.username,
                                   selectedImage, now);
      if added {
        dismissed := true;
      }
    }
  }
}
