/** The alias file: a JSON object mapping each alias name to the channel it
    stands for. Loading and saving are modelled as decoding and encoding
    between the in-memory alias map and an abstract JSON value; the file
    itself is either missing, not JSON at all, or a JSON document. */
module AliasStore {
  import opened Wrappers

  /** A parsed JSON document (numbers with a fraction are not modelled). */
  datatype Json =
    | JNull
    | JBool(b: bool)
    | JInt(n: int)
    | JStr(s: string)
    | JArr(items: seq<Json>)
    | JObj(fields: map<string, Json>)

  datatype AliasFile = Missing | Unparsable | Document(doc: Json)

  /** One saved binding. The loader copies `type` and `title` from the file
      without checking their JSON type, so they stay JSON values here. */
  datatype AliasEntry = AliasEntry(peerType: Json, channelId: int, accessHash: int, title: Json)

  type Store = map<string, AliasEntry>

  /** Why loading raised: the file is not JSON, its top level is not an
      object, or some entry lacks a field or has one `int()` refuses. */
  datatype LoadError = MalformedJson | NotAnObject | MalformedEntry

  /** The only peer type the agent ever stores. */
  const ChannelPeerType: Json := JStr("InputPeerChannel")

  /** Python truthiness of a JSON value. */
  predicate Falsy(j: Json) {
    match j
    case JNull => true
    case JBool(b) => !b
    case JInt(n) => n == 0
    case JStr(s) => |s| == 0
    case JArr(items) => |items| == 0
    case JObj(fields) => |fields| == 0
  }

  /** `int(v)` on a JSON value: integers are kept, booleans become 0 or 1,
      and `null`, arrays and objects raise. */
  function AsInt(j: Json): Option<int> {
    match j
    case JInt(n) => Some(n)
    case JBool(b) => Some(if b then 1 else 0)
    case _ => None
  }

  /** An entry the loader accepts: an object with `type`, and with
      `channel_id` and `access_hash` that `int()` accepts. */
  predicate EntryDecodes(v: Json) {
    && v.JObj?
    && "type" in v.fields
    && "channel_id" in v.fields && AsInt(v.fields["channel_id"]).Some?
    && "access_hash" in v.fields && AsInt(v.fields["access_hash"]).Some?
  }

  /** `v.get("title", "") or ""`: the title read is always one the loader
      can hand back, a title that already is one is read unchanged, and a
      missing or falsy one reads as `""`. */
  function TitleField(fields: map<string, Json>): (t: Json)
    ensures NormalTitle(t)
    ensures "title" in fields && NormalTitle(fields["title"]) ==> t == fields["title"]
    ensures "title" !in fields || Falsy(fields["title"]) ==> t == JStr("")
  {
    if "title" in fields && !Falsy(fields["title"]) then fields["title"] else JStr("")
  }

  function DecodeEntry(v: Json): AliasEntry
    requires EntryDecodes(v)
  {
    AliasEntry(
      v.fields["type"],
      AsInt(v.fields["channel_id"]).value,
      AsInt(v.fields["access_hash"]).value,
      TitleField(v.fields))
  }

  function EncodeEntry(e: AliasEntry): Json {
    JObj(map[
      "type" := e.peerType,
      "channel_id" := JInt(e.channelId),
      "access_hash" := JInt(e.accessHash),
      "title" := e.title])
  }

  /** A title the loader can hand back: the empty string, or a truthy value. */
  predicate NormalTitle(t: Json) {
    t == JStr("") || !Falsy(t)
  }

  /** Every title in the store could have come out of the loader. */
  predicate Normal(s: Store) {
    forall k :: k in s ==> NormalTitle(s[k].title)
  }

  /** The body of `_load_aliases` once the file has been parsed. */
  function Decode(doc: Json): (r: Result<Store, LoadError>)
    ensures r.Ok? <==> doc.JObj? && forall k :: k in doc.fields ==> EntryDecodes(doc.fields[k])
    ensures r.Ok? ==> r.value.Keys == doc.fields.Keys && Normal(r.value)
    ensures r.Ok? ==> forall k :: k in r.value ==>
      && r.value[k].peerType == doc.fields[k].fields["type"]
      && Some(r.value[k].channelId) == AsInt(doc.fields[k].fields["channel_id"])
      && Some(r.value[k].accessHash) == AsInt(doc.fields[k].fields["access_hash"])
      && r.value[k].title == TitleField(doc.fields[k].fields)
  {
    if !doc.JObj? then Err(NotAnObject)
    else if exists k :: k in doc.fields && !EntryDecodes(doc.fields[k]) then Err(MalformedEntry)
    else Ok(map k | k in doc.fields :: DecodeEntry(doc.fields[k]))
  }

  /** The body of `_save_aliases` up to `json.dump`. */
  function Encode(s: Store): (doc: Json)
    ensures doc.JObj? && doc.fields.Keys == s.Keys
  {
    JObj(map k | k in s :: EncodeEntry(s[k]))
  }

  /** `_load_aliases`: a missing file is the empty store. */
  function Load(f: AliasFile): (r: Result<Store, LoadError>)
    ensures f.Missing? ==> r == Ok(map[])
    ensures f.Unparsable? ==> r == Err(MalformedJson)
    ensures r.Ok? ==> Normal(r.value)
  {
    match f
    case Missing => Ok(map[])
    case Unparsable => Err(MalformedJson)
    case Document(doc) => Decode(doc)
  }

  /** `_save_aliases`: the whole file is rewritten. */
  function Save(s: Store): AliasFile {
    Document(Encode(s))
  }

  lemma EntryRoundTrip(e: AliasEntry)
    ensures EntryDecodes(EncodeEntry(e))
    ensures DecodeEntry(EncodeEntry(e)) == e <==> NormalTitle(e.title)
  {
  }

  /** Saving then loading gives back exactly the stores whose titles the
      loader could have produced; any other title (a falsy non-string) reads
      back as the empty string. */
  lemma {:induction false} RoundTrip(s: Store)
    ensures Load(Save(s)) == Ok(s) <==> Normal(s)
  {
    var doc := Encode(s);
    forall k | k in doc.fields
      ensures EntryDecodes(doc.fields[k])
    {
      EntryRoundTrip(s[k]);
    }
    var r := Decode(doc);
    if Normal(s) {
      forall k | k in s
        ensures r.value[k] == s[k]
      {
        EntryRoundTrip(s[k]);
      }
      assert r.value == s;
    }
  }

  /** Loading, saving and loading again changes nothing: what the loader
      returns is always a fixed point of the round trip. */
  lemma ReloadIsStable(f: AliasFile)
    requires Load(f).Ok?
    ensures Load(Save(Load(f).value)) == Load(f)
  {
    RoundTrip(Load(f).value);
  }
}
