/** The `UserAccount` record: an immutable credential with a stable coding. */
module UserAccountRecord {
  import opened Wrappers
  import opened Platform

  /** All four properties are `let`s; the password is kept as plain text. */
  datatype UserAccount = UserAccount(id: Uuid, username: string, password: string, birthDate: Time)

  /**
   * `UserAccount(username:password:birthDate:)`: a fresh `UUID()`; the
   * username (no case folding), the password and the birth date as given.
   */
  method NewUserAccount(username: string, password: string, birthDate: Time, ids: IdSource)
    returns (a: UserAccount)
    requires ids.Valid()
    modifies ids
    ensures ids.Valid() && ids.issued == old(ids.issued) + {a.id}
    ensures a.id == old(ids.upcoming) && a.id !in old(ids.issued)
    ensures a.username == username && a.password == password && a.birthDate == birthDate
  {
    var id := ids.Next();
    a := UserAccount(id, username, password, birthDate);
  }

  const CodingKeys: set<string> := {"id", "username", "password", "birthDate"}

  function EncodeAccount(a: UserAccount): (d: Doc)
    ensures d.DObject? && d.fields.Keys == CodingKeys
  {
    DObject(map[
      "id" := DInt(a.id),
      "username" := DString(a.username),
      "password" := DString(a.password),
      "birthDate" := DInt(a.birthDate)])
  }

  /**
   * The synthesized `init(from:)`: all four keys are required, and the
   * decoded account is exactly what they hold; any other key is ignored.
   */
  function DecodeAccount(d: Doc): (r: Option<UserAccount>)
    ensures r.Some? ==> d.DObject? && CodingKeys <= d.fields.Keys
    ensures r.Some? ==> forall k :: k in CodingKeys ==> d.fields[k] == EncodeAccount(r.value).fields[k]
  {
    match (UuidField(d, "id"), StringField(d, "username"), StringField(d, "password"), IntField(d, "birthDate"))
    case (Some(id), Some(username), Some(password), Some(birthDate)) =>
      Some(UserAccount(id, username, password, birthDate))
    case _ => None
  }

  lemma AccountRoundTrip(a: UserAccount)
    ensures DecodeAccount(EncodeAccount(a)) == Some(a)
  {
  }

  function EncodeAccounts(accounts: seq<UserAccount>): Doc {
    DArray(EncodeItems(accounts, EncodeAccount))
  }

  function DecodeAccounts(d: Doc): Option<seq<UserAccount>> {
    if d.DArray? then DecodeItems(d.items, DecodeAccount) else None
  }

  /** Decoding an encoded account array gives it back: same records, same order. */
  lemma AccountsRoundTrip(accounts: seq<UserAccount>)
    ensures DecodeAccounts(EncodeAccounts(accounts)) == Some(accounts)
  {
    forall a ensures DecodeAccount(EncodeAccount(a)) == Some(a) {
      AccountRoundTrip(a);
    }
    ItemsRoundTrip(accounts, EncodeAccount, DecodeAccount);
  }
}
