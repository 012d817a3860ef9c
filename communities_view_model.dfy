/** `CommunitiesViewModel`: an in-memory community list that is never saved. */
module CommunityList {
  import opened Wrappers
  import opened Platform
  import opened CommunityRecord

  class CommunitiesViewModel {
    var communities: seq<Community>

    constructor ()
      ensures communities == []
    {
      communities := [];
    }

    /**
     * `addCommunity(name:state:image:)`: appends one community whose creator
     * is the device name (`UIDevice.current.name`, supplied by the caller),
     * not the signed-in user. No store is involved.
     */
    method AddCommunity(name: string, state: string, image: Option<Bytes>, deviceName: string,
                        ids: IdSource, now: Time)
      requires ids.Valid()
      modifies this, ids
      ensures ids.Valid() && ids.issued == old(ids.issued) + {old(ids.upcoming)}
      ensures old(ids.upcoming) !in old(ids.issued)
      ensures communities == old(communities) + [Community(old(ids.upcoming), name, state, deviceName, image, now)]
    {
      var community := NewCommunity(name, state, deviceName, image, ids, now);
      communities := communities + [community];
    }
  }
}
