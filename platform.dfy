/**
 * The platform services the app's state layer uses: `UserDefaults` as a
 * key-value store, `UUID()` as a source of fresh identifiers, `Date()` as a
 * time value supplied by the caller, and the keyed documents that
 * `JSONEncoder`/`JSONDecoder` produce and consume for `Codable` values.
 */
module Platform {
  import opened Wrappers

  type Bytes = seq<bv8>
  /** An instant (`Date`), as a whole number of clock ticks. */
  type Time = int
  /** A `UUID`. */
  type Uuid = nat

  /**
   * The document a `Codable` value is encoded into: one node per JSON value,
   * with objects as maps from coding key to node. Byte strings (`Data`) get
   * their own node kind instead of the base64 text JSON gives them.
   */
  datatype Doc =
    | DNull
    | DInt(i: int)
    | DString(s: string)
    | DBytes(b: Bytes)
    | DArray(items: seq<Doc>)
    | DObject(fields: map<string, Doc>)

  /** What `UserDefaults` can hold under a key: a plain string or a data blob. */
  datatype Value = Text(text: string) | Data(doc: Doc)

  /** `UserDefaults.standard.string(forKey:)`: nil for a missing key and for a data blob. */
  function StringAt(entries: map<string, Value>, key: string): (r: Option<string>)
    ensures r.Some? <==> key in entries && entries[key].Text?
    ensures r.Some? ==> entries[key] == Text(r.value)
  {
    if key in entries && entries[key].Text? then Some(entries[key].text) else None
  }

  /** `UserDefaults.standard.data(forKey:)`: nil for a missing key and for a plain string. */
  function DataAt(entries: map<string, Value>, key: string): (r: Option<Doc>)
    ensures r.Some? <==> key in entries && entries[key].Data?
    ensures r.Some? ==> entries[key] == Data(r.value)
  {
    if key in entries && entries[key].Data? then Some(entries[key].doc) else None
  }

  /**
   * Reading a key back after `set(_:forKey:)` gives what was stored, through
   * the reader of its kind only, and reading any other key gives what it gave before.
   */
  lemma ReadAfterSet(entries: map<string, Value>, key: string, v: Value)
    ensures StringAt(entries[key := v], key) == if v.Text? then Some(v.text) else None
    ensures DataAt(entries[key := v], key) == if v.Data? then Some(v.doc) else None
    ensures forall k :: k != key ==> StringAt(entries[key := v], k) == StringAt(entries, k)
    ensures forall k :: k != key ==> DataAt(entries[key := v], k) == DataAt(entries, k)
  {
  }

  /** The process-wide `UserDefaults.standard`, shared by every manager. */
  class Defaults {
    var entries: map<string, Value>

    constructor (initial: map<string, Value>)
      ensures entries == initial
    {
      entries := initial;
    }

    /** `set(_:forKey:)`: overwrites whatever the key held. */
    method Set(key: string, v: Value)
      modifies this
      ensures entries == old(entries)[key := v]
    {
      entries := entries[key := v];
    }

    /** `removeObject(forKey:)`: removing an absent key is allowed. */
    method Remove(key: string)
      modifies this
      ensures entries == old(entries) - {key}
    {
      entries := entries - {key};
    }
  }

  /** The identifiers of the records `xs`, in list order, read with `id`. */
  function IdList<T>(xs: seq<T>, id: T -> Uuid): (r: seq<Uuid>)
    ensures |r| == |xs| && forall i :: 0 <= i < |xs| ==> r[i] == id(xs[i])
  {
    seq(|xs|, i requires 0 <= i < |xs| => id(xs[i]))
  }

  /**
   * `UUID()`: every identifier it hands out differs from every identifier
   * in `issued`, which holds all it handed out before and every identifier
   * registered with `Reserve` (those read back from the store, which an
   * earlier run generated). `upcoming` is the identifier the next call
   * returns.
   */
  class IdSource {
    var upcoming: Uuid
    ghost var issued: set<Uuid>

    ghost predicate Valid()
      reads this
    {
      forall u :: u in issued ==> u < upcoming
    }

    constructor ()
      ensures Valid() && issued == {}
    {
      upcoming := 0;
      issued := {};
    }

    method Next() returns (u: Uuid)
      requires Valid()
      modifies this
      ensures Valid()
      ensures u == old(upcoming) && u !in old(issued)
      ensures issued == old(issued) + {u}
    {
      u := upcoming;
      upcoming := upcoming + 1;
      issued := issued + {u};
    }

    /**
     * Registers identifiers that exist already, so that no later `Next`
     * returns one of them.
     */
    method Reserve(used: seq<Uuid>)
      requires Valid()
      modifies this
      ensures Valid()
      ensures issued == old(issued) + set u | u in used
      ensures old(upcoming) <= upcoming
    {
      var k := 0;
      while k < |used|
        invariant 0 <= k <= |used|
        invariant Valid()
        invariant issued == old(issued) + set u | u in used[..k]
        invariant old(upcoming) <= upcoming
      {
        assert used[..k + 1] == used[..k] + [used[k]];
        if upcoming <= used[k] {
          upcoming := used[k] + 1;
        }
        issued := issued + {used[k]};
        k := k + 1;
      }
      assert used[..k] == used;
    }
  }

  // Decoding the nodes of a keyed container: a missing key or a node of the
  // wrong kind fails, as `decode(_:forKey:)` throws.

  function Field(d: Doc, key: string): Option<Doc> {
    if d.DObject? && key in d.fields then Some(d.fields[key]) else None
  }

  function StringField(d: Doc, key: string): Option<string> {
    match Field(d, key)
    case Some(DString(s)) => Some(s)
    case _ => None
  }

  function IntField(d: Doc, key: string): Option<int> {
    match Field(d, key)
    case Some(DInt(i)) => Some(i)
    case _ => None
  }

  function UuidField(d: Doc, key: string): Option<Uuid> {
    match Field(d, key)
    case Some(DInt(i)) => if i >= 0 then Some(i) else None
    case _ => None
  }

  /**
   * `decodeIfPresent(Data.self, forKey:)`: an absent key or null is `nil`,
   * a byte string is the value, anything else fails.
   */
  function OptionalBytesField(d: Doc, key: string): Option<Option<Bytes>> {
    match Field(d, key)
    case None => Some(None)
    case Some(DNull) => Some(None)
    case Some(DBytes(b)) => Some(Some(b))
    case _ => None
  }

  /** The array node an `[Element]` is encoded as. */
  function EncodeItems<T>(xs: seq<T>, enc: T -> Doc): (items: seq<Doc>)
    ensures |items| == |xs|
    decreases |xs|
  {
    if xs == [] then [] else [enc(xs[0])] + EncodeItems(xs[1..], enc)
  }

  /** Decoding an array node: it fails as soon as one element fails. */
  function DecodeItems<T>(items: seq<Doc>, dec: Doc -> Option<T>): (r: Option<seq<T>>)
    ensures r.Some? ==> |r.value| == |items|
    decreases |items|
  {
    if items == [] then Some([])
    else match (dec(items[0]), DecodeItems(items[1..], dec))
      case (Some(x), Some(rest)) => Some([x] + rest)
      case _ => None
  }

  /** An element coding that round-trips gives an array coding that round-trips. */
  lemma {:induction false} ItemsRoundTrip<T>(xs: seq<T>, enc: T -> Doc, dec: Doc -> Option<T>)
    requires forall x :: dec(enc(x)) == Some(x)
    ensures DecodeItems(EncodeItems(xs, enc), dec) == Some(xs)
    decreases |xs|
  {
    if xs != [] {
      ItemsRoundTrip(xs[1..], enc, dec);
      assert [xs[0]] + xs[1..] == xs;
    }
  }
}
