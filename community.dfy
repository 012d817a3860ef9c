/** The `Community` record: an immutable value with a stable coding. */
module CommunityRecord {
  import opened Wrappers
  import opened Platform

  /** All six stored properties are `let`s, so a community is a plain value. */
  datatype Community = Community(
    id: Uuid,
    name: string,
    state: string,
    creatorUsername: string,
    imageData: Option<Bytes>,
    createdAt: Time)

  /**
   * `Community(name:state:creatorUsername:image:)`: a fresh `UUID()` and the
   * current `Date()`; the other fields as given. The image is given as its
   * JPEG bytes, so `imageData` is nil exactly when no image was given.
   */
  method NewCommunity(name: string, state: string, creatorUsername: string, image: Option<Bytes>,
                      ids: IdSource, now: Time) returns (c: Community)
    requires ids.Valid()
    modifies ids
    ensures ids.Valid() && ids.issued == old(ids.issued) + {c.id}
    ensures c.id == old(ids.upcoming) && c.id !in old(ids.issued)
    ensures c.name == name && c.state == state && c.creatorUsername == creatorUsername
    ensures c.imageData == image && c.createdAt == now
  {
    var id := ids.Next();
    c := Community(id, name, state, creatorUsername, image, now);
  }

  /** The computed `image`: the decoded picture, never one without data. */
  function Image<Img>(c: Community, fromData: Bytes -> Option<Img>): (r: Option<Img>)
    ensures c.imageData == None ==> r == None
    ensures c.imageData != None ==> r == fromData(c.imageData.value)
  {
    match c.imageData
    case Some(data) => fromData(data)
    case None => None
  }

  /** The synthesized coding keys: every stored property. */
  const CodingKeys: set<string> := {"id", "name", "state", "creatorUsername", "imageData", "createdAt"}

  /** The synthesized `encode(to:)`; a nil `imageData` is left out of the container. */
  function EncodeCommunity(c: Community): (d: Doc)
    ensures d.DObject?
    ensures d.fields.Keys == if c.imageData == None then CodingKeys - {"imageData"} else CodingKeys
  {
    var fields := map[
      "id" := DInt(c.id),
      "name" := DString(c.name),
      "state" := DString(c.state),
      "creatorUsername" := DString(c.creatorUsername),
      "createdAt" := DInt(c.createdAt)];
    match c.imageData
    case Some(data) => DObject(fields["imageData" := DBytes(data)])
    case None => DObject(fields)
  }

  /**
   * The synthesized `init(from:)`: every key but `imageData` is required,
   * and an absent or null `imageData` is nil. Every key the decoded
   * community encodes to holds in `d` what it encodes to.
   */
  function DecodeCommunity(d: Doc): (r: Option<Community>)
    ensures r.Some? ==> d.DObject? && CodingKeys - {"imageData"} <= d.fields.Keys
    ensures r.Some? ==> forall k :: k in EncodeCommunity(r.value).fields ==>
                          k in d.fields && d.fields[k] == EncodeCommunity(r.value).fields[k]
  {
    match (UuidField(d, "id"), StringField(d, "name"), StringField(d, "state"),
           StringField(d, "creatorUsername"), OptionalBytesField(d, "imageData"), IntField(d, "createdAt"))
    case (Some(id), Some(name), Some(state), Some(creator), Some(image), Some(createdAt)) =>
      Some(Community(id, name, state, creator, image, createdAt))
    case _ => None
  }

  lemma CommunityRoundTrip(c: Community)
    ensures DecodeCommunity(EncodeCommunity(c)) == Some(c)
  {
  }

  /** `[Community]` is encoded as an array of community objects. */
  function EncodeCommunities(cs: seq<Community>): Doc {
    DArray(EncodeItems(cs, EncodeCommunity))
  }

  function DecodeCommunities(d: Doc): Option<seq<Community>> {
    if d.DArray? then DecodeItems(d.items, DecodeCommunity) else None
  }

  /** Decoding an encoded collection gives it back: same records, same order. */
  lemma CommunitiesRoundTrip(cs: seq<Community>)
    ensures DecodeCommunities(EncodeCommunities(cs)) == Some(cs)
  {
    forall c ensures DecodeCommunity(EncodeCommunity(c)) == Some(c) {
      CommunityRoundTrip(c);
    }
    ItemsRoundTrip(cs, EncodeCommunity, DecodeCommunity);
  }
}
