/** The session identity `User`, whose coding leaves the profile image out. */
module UserRecord {
  import opened Wrappers
  import opened Platform

  /**
   * `username` and `birthDate` are `let`s; `profileImage`, `communities` and
   * `messages` are `var`s, but nothing in the app assigns them.
   */
  datatype User = User(
    username: string,
    birthDate: Time,
    profileImage: Option<Bytes>,
    communities: int,
    messages: int)

  /**
   * The memberwise `User(username:birthDate:)`, with the declared defaults:
   * no image and zero counts. Such a user survives a coding round trip whole.
   */
  function NewUser(username: string, birthDate: Time): (u: User)
    ensures u.username == username && u.birthDate == birthDate
    ensures u.profileImage == None && u.communities == 0 && u.messages == 0
    ensures DecodeUser(EncodeUser(u)) == Some(u)
  {
    User(username, birthDate, None, 0, 0)
  }

  /** The `CodingKeys` enum: `profileImage` is not among them. */
  const CodingKeys: set<string> := {"username", "birthDate", "communities", "messages"}

  /** The encoded form holds exactly the four coding keys, whatever the image. */
  function EncodeUser(u: User): (d: Doc)
    ensures d.DObject? && d.fields.Keys == CodingKeys
  {
    DObject(map[
      "username" := DString(u.username),
      "birthDate" := DInt(u.birthDate),
      "communities" := DInt(u.communities),
      "messages" := DInt(u.messages)])
  }

  /** Two users that differ only in their profile image encode alike. */
  lemma EncodingIgnoresProfileImage(u: User, img: Option<Bytes>)
    ensures EncodeUser(u.(profileImage := img)) == EncodeUser(u)
  {
  }

  /**
   * `init(from:)`: all four keys are required, and the decoded user is
   * exactly what they hold; any other key is ignored and the image starts
   * out nil.
   */
  function DecodeUser(d: Doc): (r: Option<User>)
    ensures r.Some? ==> d.DObject? && CodingKeys <= d.fields.Keys
    ensures r.Some? ==> forall k :: k in CodingKeys ==> d.fields[k] == EncodeUser(r.value).fields[k]
    ensures r.Some? ==> r.value.profileImage == None
  {
    match (StringField(d, "username"), IntField(d, "birthDate"), IntField(d, "communities"), IntField(d, "messages"))
    case (Some(username), Some(birthDate), Some(communities), Some(messages)) =>
      Some(User(username, birthDate, None, communities, messages))
    case _ => None
  }

  /** A round trip keeps the four coded fields and loses the profile image. */
  lemma UserRoundTrip(u: User)
    ensures DecodeUser(EncodeUser(u)) == Some(u.(profileImage := None))
  {
  }
}
