/** The decoded JSON document and the copy of its fields into a project
    record. Parsing itself is an oracle: the document arrives already
    parsed, or as a parse failure. */
module Json {
  import opened ApiTypes

  datatype JsonValue =
    | JNull
    | JBool(b: bool)
    | JNumber(n: int)
    | JString(s: string)
    | JArray(items: seq<JsonValue>)
    | JObject(members: seq<(string, JsonValue)>)

  /** The top-level object of a response body, by key. */
  type Document = map<string, JsonValue>

  /** What deserialising the rest of the stream yields. */
  datatype ParseOutcome = Parsed(doc: Document) | ParseFailed

  /** `doc[key]`: a missing key reads as null. */
  function Member(doc: Document, key: string): (v: JsonValue)
    ensures key !in doc ==> v == JNull
  {
    if key in doc then doc[key] else JNull
  }

  /** `as<int>()`: a number gives its value, anything else 0. */
  function AsInt(v: JsonValue): int
  {
    if v.JNumber? then v.n else 0
  }

  /** `as<char *>()`: a string gives its text, anything else the empty text. */
  function AsString(v: JsonValue): string
  {
    if v.JString? then v.s else ""
  }

  /** `size()`: the element count of an array or object, otherwise 0. */
  function Size(v: JsonValue): nat
  {
    match v
    case JArray(items) => |items|
    case JObject(members) => |members|
    case _ => 0
  }

  /** The numeric fields of a project record. */
  datatype IntFieldName =
    | Id | OwnerId | Views | Comments | Followers | Skulls | Logs
    | Details | Instruction | Components | Images | Created | Updated

  /** The text fields of a project record. */
  datatype StringFieldName = Url | Name | Summary | Description | ImageUrl

  /** The JSON key each numeric field is read from. */
  function IntKey(f: IntFieldName): string
  {
    match f
    case Id => "id"
    case OwnerId => "owner_id"
    case Views => "views"
    case Comments => "comments"
    case Followers => "followers"
    case Skulls => "skulls"
    case Logs => "logs"
    case Details => "details"
    case Instruction => "instruction"
    case Components => "components"
    case Images => "images"
    case Created => "created"
    case Updated => "updated"
  }

  /** The JSON key each text field is read from. */
  function StringKey(f: StringFieldName): string
  {
    match f
    case Url => "url"
    case Name => "name"
    case Summary => "summary"
    case Description => "description"
    case ImageUrl => "image_url"
  }

  /** The key whose element count becomes `tagsCount`. */
  const TagsKey: string := "tags"

  /** A key that some record field is read from. */
  predicate IsListedKey(k: string)
  {
    (exists f :: IntKey(f) == k) || (exists f :: StringKey(f) == k) || k == TagsKey
  }

  /** No two fields share a key. */
  lemma KeysDistinct(f: IntFieldName, g: IntFieldName, u: StringFieldName, v: StringFieldName)
    ensures IntKey(f) == IntKey(g) ==> f == g
    ensures StringKey(u) == StringKey(v) ==> u == v
    ensures IntKey(f) != StringKey(u) && IntKey(f) != TagsKey && StringKey(u) != TagsKey
  {
  }

  function IntField(r: ProjectRecord, f: IntFieldName): int
  {
    match f
    case Id => r.id
    case OwnerId => r.ownerId
    case Views => r.views
    case Comments => r.comments
    case Followers => r.followers
    case Skulls => r.skulls
    case Logs => r.logs
    case Details => r.details
    case Instruction => r.instruction
    case Components => r.components
    case Images => r.images
    case Created => r.created
    case Updated => r.updated
  }

  function StringField(r: ProjectRecord, f: StringFieldName): string
  {
    match f
    case Url => r.url
    case Name => r.name
    case Summary => r.summary
    case Description => r.description
    case ImageUrl => r.imageUrl
  }

  /** The successful branch of `GetProject`: the error becomes `None` and
      each field is read from its key. */
  function ProjectFromDoc(doc: Document): (r: ProjectRecord)
    ensures r.apiError == None
    ensures forall f :: IntField(r, f) == AsInt(Member(doc, IntKey(f)))
    ensures forall f :: StringField(r, f) == AsString(Member(doc, StringKey(f)))
    ensures r.tagsCount == Size(Member(doc, TagsKey))
  {
    ProjectRecord(
      None,
      AsInt(Member(doc, "id")),
      AsString(Member(doc, "url")),
      AsInt(Member(doc, "owner_id")),
      AsString(Member(doc, "name")),
      AsString(Member(doc, "summary")),
      AsString(Member(doc, "description")),
      AsString(Member(doc, "image_url")),
      AsInt(Member(doc, "views")),
      AsInt(Member(doc, "comments")),
      AsInt(Member(doc, "followers")),
      AsInt(Member(doc, "skulls")),
      AsInt(Member(doc, "logs")),
      AsInt(Member(doc, "details")),
      AsInt(Member(doc, "instruction")),
      AsInt(Member(doc, "components")),
      AsInt(Member(doc, "images")),
      AsInt(Member(doc, "created")),
      AsInt(Member(doc, "updated")),
      Size(Member(doc, TagsKey)))
  }

  /** A missing key never fails the decode: its field takes the zero value. */
  lemma MissingKeysGiveDefaults(doc: Document)
    ensures forall f :: IntKey(f) !in doc ==> IntField(ProjectFromDoc(doc), f) == 0
    ensures forall f :: StringKey(f) !in doc ==> StringField(ProjectFromDoc(doc), f) == ""
    ensures TagsKey !in doc ==> ProjectFromDoc(doc).tagsCount == 0
  {
  }

  /** Only the nineteen listed keys matter: documents that agree on them give
      the same record, whatever else they hold. */
  lemma OnlyListedKeysMatter(doc1: Document, doc2: Document)
    requires forall k :: IsListedKey(k) ==> Member(doc1, k) == Member(doc2, k)
    ensures ProjectFromDoc(doc1) == ProjectFromDoc(doc2)
  {
    var r1, r2 := ProjectFromDoc(doc1), ProjectFromDoc(doc2);
    forall f ensures IntField(r1, f) == IntField(r2, f) {
      assert IsListedKey(IntKey(f));
    }
    forall f ensures StringField(r1, f) == StringField(r2, f) {
      assert IsListedKey(StringKey(f));
    }
    assert IsListedKey(TagsKey);
    FieldsDetermineRecord(r1, r2);
  }

  /** A record is determined by its error, its named fields and its tag
      count. */
  lemma FieldsDetermineRecord(r1: ProjectRecord, r2: ProjectRecord)
    requires r1.apiError == r2.apiError && r1.tagsCount == r2.tagsCount
    requires forall f :: IntField(r1, f) == IntField(r2, f)
    requires forall f :: StringField(r1, f) == StringField(r2, f)
    ensures r1 == r2
  {
    assert IntField(r1, Id) == IntField(r2, Id) && IntField(r1, OwnerId) == IntField(r2, OwnerId);
    assert IntField(r1, Views) == IntField(r2, Views) && IntField(r1, Comments) == IntField(r2, Comments);
    assert IntField(r1, Followers) == IntField(r2, Followers) && IntField(r1, Skulls) == IntField(r2, Skulls);
    assert IntField(r1, Logs) == IntField(r2, Logs) && IntField(r1, Details) == IntField(r2, Details);
    assert IntField(r1, Instruction) == IntField(r2, Instruction);
    assert IntField(r1, Components) == IntField(r2, Components) && IntField(r1, Images) == IntField(r2, Images);
    assert IntField(r1, Created) == IntField(r2, Created) && IntField(r1, Updated) == IntField(r2, Updated);
    assert StringField(r1, Url) == StringField(r2, Url) && StringField(r1, Name) == StringField(r2, Name);
    assert StringField(r1, Summary) == StringField(r2, Summary);
    assert StringField(r1, Description) == StringField(r2, Description);
    assert StringField(r1, ImageUrl) == StringField(r2, ImageUrl);
  }

  /** A sample body: present keys give their values and the tag array is
      counted. */
  lemma SampleDocument()
    ensures var doc := map["id" := JNumber(163680), "views" := JNumber(10),
                           "tags" := JArray([JString("a"), JString("b")])];
            var r := ProjectFromDoc(doc);
            r.apiError == None && r.id == 163680 && r.views == 10 && r.tagsCount == 2
  {
  }

  /** A body without `summary` still decodes; the summary is empty. */
  lemma SampleWithoutSummary()
    ensures var doc := map["id" := JNumber(163680), "views" := JNumber(10)];
            var r := ProjectFromDoc(doc);
            r.apiError == None && r.summary == "" && r.views == 10 && r.tagsCount == 0
  {
  }
}
