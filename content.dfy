/** The content-item wire format and its translation to the client's model
    (types/content.ts). Records from the API are untyped (`Record<string, unknown>`);
    the TypeScript `as` casts check nothing at run time, so the model keeps every
    scalar field as the raw value it was read from. */
module Content {
  import opened Externals

  /** A JavaScript value as it is found in a decoded JSON document or an untyped
      record. Numbers are reals (JSON has no NaN or infinities). */
  datatype Json =
    | Undefined
    | Null
    | Bool(b: bool)
    | Num(n: real)
    | Str(s: string)
    | Arr(elems: seq<Json>)
    | Obj(fields: map<string, Json>)

  /** JavaScript truthiness: these are the falsy values a JSON value can take. */
  predicate Falsy(v: Json) {
    v.Undefined? || v.Null? || v == Bool(false) || v == Num(0.0) || v == Str("")
  }

  predicate Nullish(v: Json) { v.Undefined? || v.Null? }

  type WireRecord = map<string, Json>

  /** `rec[key]`, undefined when the key is missing. */
  function Field(rec: WireRecord, key: string): Json {
    if key in rec then rec[key] else Undefined
  }

  /** `v.key` for a value that is not null or undefined (the keys read here are
      not properties of strings, numbers, booleans or arrays). */
  function Prop(v: Json, key: string): Json
    requires !Nullish(v)
  {
    if v.Obj? then Field(v.fields, key) else Undefined
  }

  /** The record seen by a function that reads `data.key` on an arbitrary value:
      none for null or undefined (the read throws), no keys for a non-object. */
  function RecordOf(v: Json): Option<WireRecord> {
    match v
    case Undefined => None
    case Null => None
    case Obj(m) => Some(m)
    case _ => Some(map[])
  }

  datatype ContentType = Text | Audio | Pdf | Video

  function ContentTypeName(t: ContentType): string {
    match t
    case Text => "text"
    case Audio => "audio"
    case Pdf => "pdf"
    case Video => "video"
  }

  function ParseContentType(s: string): (r: Option<ContentType>)
    ensures r.Some? ==> ContentTypeName(r.value) == s
  {
    if s == "text" then Some(Text)
    else if s == "audio" then Some(Audio)
    else if s == "pdf" then Some(Pdf)
    else if s == "video" then Some(Video)
    else None
  }

  /** The pipeline stages of a content item (types/content.ts:2-13). */
  datatype ContentStatus =
    | Pending | Uploading | Processing | Transcribing | Extracting | TextExtracted
    | Parsing | Parsed | Indexing | Ready | Failed

  function StatusName(st: ContentStatus): string {
    match st
    case Pending => "pending"
    case Uploading => "uploading"
    case Processing => "processing"
    case Transcribing => "transcribing"
    case Extracting => "extracting"
    case TextExtracted => "text_extracted"
    case Parsing => "parsing"
    case Parsed => "parsed"
    case Indexing => "indexing"
    case Ready => "ready"
    case Failed => "failed"
  }

  /** The status a wire string names, if it names one. */
  function ParseStatus(s: string): (r: Option<ContentStatus>)
    ensures r.Some? ==> StatusName(r.value) == s
  {
    if s == "pending" then Some(Pending)
    else if s == "uploading" then Some(Uploading)
    else if s == "processing" then Some(Processing)
    else if s == "transcribing" then Some(Transcribing)
    else if s == "extracting" then Some(Extracting)
    else if s == "text_extracted" then Some(TextExtracted)
    else if s == "parsing" then Some(Parsing)
    else if s == "parsed" then Some(Parsed)
    else if s == "indexing" then Some(Indexing)
    else if s == "ready" then Some(Ready)
    else if s == "failed" then Some(Failed)
    else None
  }

  /** The names are a faithful encoding: each status is recovered from its name. */
  lemma StatusNameRoundTrip(st: ContentStatus)
    ensures ParseStatus(StatusName(st)) == Some(st)
  {
  }

  lemma ContentTypeNameRoundTrip(t: ContentType)
    ensures ParseContentType(ContentTypeName(t)) == Some(t)
  {
  }

  datatype Topic = Topic(title: Json, relevanceScore: Json)

  /** The client-side content item (types/content.ts:32-51), field for field. */
  datatype ContentItem = ContentItem(
    id: Json,
    userId: Json,
    contentType: Json,
    status: Json,
    originalFilename: Json,
    filePath: Json,
    fileSize: Json,
    mimeType: Json,
    title: Json,
    rawText: Json,
    language: Json,
    topics: Option<seq<Topic>>,
    vocabulary: Option<Json>,
    grammarPoints: Option<Json>,
    chunkCount: Json,
    errorMessage: Json,
    createdAt: Json,
    updatedAt: Json)

  datatype CreateContentRequest = CreateContentRequest(
    contentType: ContentType,
    originalFilename: string,
    filePath: string,
    fileSize: nat,
    mimeType: string)

  /** `parseJsonField`: falsy input is absent; a string is parsed, and a string
      that does not parse is absent; any other value is returned as it is.
      `parse` stands for `JSON.parse`, None meaning that it threw. */
  function ParseJsonField(field: Json, parse: string -> Option<Json>): Option<Json> {
    if Falsy(field) then None
    else if field.Str? then parse(field.s)
    else Some(field)
  }

  /** The topic element mapping `t => ({ title: t.title, relevanceScore: t.relevance_score })`;
      None when `t` is null or undefined (the read throws). */
  function TopicOf(t: Json): Option<Topic> {
    if Nullish(t) then None
    else Some(Topic(Prop(t, "title"), Prop(t, "relevance_score")))
  }

  /** `raw.map(TopicOf)`, None when some element throws. */
  function MapTopics(raw: seq<Json>): (r: Option<seq<Topic>>)
    decreases |raw|
  {
    if raw == [] then Some([])
    else
      match TopicOf(raw[0])
      case None => None
      case Some(t) =>
        match MapTopics(raw[1..])
        case None => None
        case Some(rest) => Some([t] + rest)
  }

  /** `rawTopics?.map(...)`: absent stays absent (so does a parsed null), an
      array is mapped, and anything else has no `map` method and throws. */
  function TransformTopics(raw: Option<Json>): Result<Option<seq<Topic>>, Thrown> {
    match raw
    case None => Ok(None)
    case Some(v) =>
      if Nullish(v) then Ok(None)
      else if v.Arr? then
        match MapTopics(v.elems)
        case None => Err(TYPE_ERROR)
        case Some(ts) => Ok(Some(ts))
      else Err(ErrorObject("TypeError", "rawTopics.map is not a function"))
  }

  /** `transformContentItem` (types/content.ts:71-115). */
  function TransformContentItem(data: WireRecord, parse: string -> Option<Json>): Result<ContentItem, Thrown> {
    match TransformTopics(ParseJsonField(Field(data, "topics"), parse))
    case Err(e) => Err(e)
    case Ok(topics) =>
      Ok(ContentItem(
        id := Field(data, "id"),
        userId := Field(data, "user_id"),
        contentType := Field(data, "content_type"),
        status := Field(data, "status"),
        originalFilename := Field(data, "original_filename"),
        filePath := Field(data, "file_path"),
        fileSize := Field(data, "file_size"),
        mimeType := Field(data, "mime_type"),
        title := Field(data, "title"),
        rawText := Field(data, "raw_text"),
        language := Field(data, "language"),
        topics := topics,
        vocabulary := ParseJsonField(Field(data, "vocabulary"), parse),
        grammarPoints := ParseJsonField(Field(data, "grammar_points"), parse),
        chunkCount := Field(data, "chunk_count"),
        errorMessage := Field(data, "error_message"),
        createdAt := Field(data, "created_at"),
        updatedAt := Field(data, "updated_at")))
  }

  /** `transformContentRequest` (types/content.ts:120-128). */
  function TransformContentRequest(req: CreateContentRequest): (r: WireRecord)
    ensures r.Keys == {"content_type", "original_filename", "file_path", "file_size", "mime_type"}
  {
    map[
      "content_type" := Str(ContentTypeName(req.contentType)),
      "original_filename" := Str(req.originalFilename),
      "file_path" := Str(req.filePath),
      "file_size" := Num(req.fileSize as real),
      "mime_type" := Str(req.mimeType)]
  }

  // ---------------------------------------------------------------------------
  // Independent reference definitions: the inverse renamings.
  // ---------------------------------------------------------------------------

  /** A JSON number that is a whole, non-negative value. */
  function NatOf(v: Json): Option<nat> {
    if v.Num? && v.n >= 0.0 && v.n.Floor as real == v.n then Some(v.n.Floor) else None
  }

  function StrOf(v: Json): Option<string> {
    if v.Str? then Some(v.s) else None
  }

  /** Reads back the five request fields from a client item, if they have the
      request's types. */
  function RequestOfItem(item: ContentItem): Option<CreateContentRequest> {
    if item.contentType.Str? && ParseContentType(item.contentType.s).Some?
      && item.originalFilename.Str? && item.filePath.Str? && NatOf(item.fileSize).Some?
      && item.mimeType.Str?
    then Some(CreateContentRequest(
      ParseContentType(item.contentType.s).value, item.originalFilename.s,
      item.filePath.s, NatOf(item.fileSize).value, item.mimeType.s))
    else None
  }

  /** Reads back a request from its wire record. */
  function RequestOfWire(rec: WireRecord): Option<CreateContentRequest> {
    var ct := Field(rec, "content_type");
    var name := Field(rec, "original_filename");
    var path := Field(rec, "file_path");
    var size := Field(rec, "file_size");
    var mime := Field(rec, "mime_type");
    if ct.Str? && ParseContentType(ct.s).Some? && name.Str? && path.Str?
      && NatOf(size).Some? && mime.Str?
    then Some(CreateContentRequest(ParseContentType(ct.s).value, name.s, path.s, NatOf(size).value, mime.s))
    else None
  }

  /** `m` without its undefined members (`JSON.stringify` drops them). */
  function DropUndefined(m: map<string, Json>): (r: WireRecord)
    ensures forall k :: Field(r, k) == Field(m, k)
  {
    map k | k in m && !m[k].Undefined? :: m[k]
  }

  function TopicToWire(t: Topic): Json {
    Obj(DropUndefined(map["title" := t.title, "relevance_score" := t.relevanceScore]))
  }

  function TopicsToWire(ts: seq<Topic>): (r: seq<Json>)
    ensures |r| == |ts|
    ensures forall i :: 0 <= i < |ts| ==> r[i] == TopicToWire(ts[i])
  {
    seq(|ts|, i requires 0 <= i < |ts| => TopicToWire(ts[i]))
  }

  function TopicsMember(topics: Option<seq<Topic>>): Json {
    if topics.Some? then Arr(TopicsToWire(topics.value)) else Undefined
  }

  function OptToWire(v: Option<Json>): Json {
    if v.Some? then v.value else Undefined
  }

  /** The snake_case member of the wire record for each client field. */
  function ItemMembers(item: ContentItem): map<string, Json> {
    map[
      "id" := item.id,
      "user_id" := item.userId,
      "content_type" := item.contentType,
      "status" := item.status,
      "original_filename" := item.originalFilename,
      "file_path" := item.filePath,
      "file_size" := item.fileSize,
      "mime_type" := item.mimeType,
      "title" := item.title,
      "raw_text" := item.rawText,
      "language" := item.language,
      "topics" := TopicsMember(item.topics),
      "vocabulary" := OptToWire(item.vocabulary),
      "grammar_points" := OptToWire(item.grammarPoints),
      "chunk_count" := item.chunkCount,
      "error_message" := item.errorMessage,
      "created_at" := item.createdAt,
      "updated_at" := item.updatedAt]
  }

  /** The server-side record a client item renames back to; undefined
      members are left out, as `JSON.stringify` leaves them out. */
  function ItemToWire(item: ContentItem): (w: WireRecord)
    ensures forall k :: Field(w, k) == Field(ItemMembers(item), k)
  {
    DropUndefined(ItemMembers(item))
  }

  // ---------------------------------------------------------------------------
  // Properties
  // ---------------------------------------------------------------------------

  /** `parseJsonField` is absent exactly for falsy input and for strings that
      do not parse. */
  lemma ParseJsonFieldAbsent(field: Json, parse: string -> Option<Json>)
    ensures ParseJsonField(field, parse).None? <==> Falsy(field) || (field.Str? && parse(field.s).None?)
  {
  }

  /** A present string yields exactly what parsing it yields; a present
      non-string value comes back unchanged. */
  lemma ParseJsonFieldPresent(field: Json, parse: string -> Option<Json>)
    requires !Falsy(field)
    ensures field.Str? ==> ParseJsonField(field, parse) == parse(field.s)
    ensures !field.Str? ==> ParseJsonField(field, parse) == Some(field)
  {
  }

  /** Topics are mapped element-wise, with length and order kept, and the
      mapping fails exactly when some element is null or undefined. */
  lemma {:induction false} MapTopicsElementwise(raw: seq<Json>)
    ensures MapTopics(raw).Some? <==> forall i :: 0 <= i < |raw| ==> !Nullish(raw[i])
    ensures MapTopics(raw).Some? ==>
      |MapTopics(raw).value| == |raw| &&
      forall i :: 0 <= i < |raw| ==>
        MapTopics(raw).value[i] == Topic(Prop(raw[i], "title"), Prop(raw[i], "relevance_score"))
    decreases |raw|
  {
    if raw != [] {
      MapTopicsElementwise(raw[1..]);
      if TopicOf(raw[0]).Some? && MapTopics(raw[1..]).Some? {
        var rest := MapTopics(raw[1..]).value;
        forall i | 0 <= i < |raw|
          ensures MapTopics(raw).value[i] == Topic(Prop(raw[i], "title"), Prop(raw[i], "relevance_score"))
        {
          if i > 0 { assert raw[i] == raw[1..][i - 1]; }
        }
      } else if TopicOf(raw[0]).Some? {
        var j :| 0 <= j < |raw[1..]| && Nullish(raw[1..][j]);
        assert Nullish(raw[j + 1]);
      }
    }
  }

  /** Absent (or parsed-null) topics stay absent; an array is mapped. */
  lemma TransformTopicsCases(raw: Option<Json>)
    ensures (raw.None? || Nullish(raw.value)) ==> TransformTopics(raw) == Ok(None)
    ensures raw.Some? && raw.value.Arr? && MapTopics(raw.value.elems).Some? ==>
      TransformTopics(raw) == Ok(Some(MapTopics(raw.value.elems).value))
    ensures TransformTopics(raw).Err? <==>
      raw.Some? && !Nullish(raw.value) && (!raw.value.Arr? || MapTopics(raw.value.elems).None?)
  {
  }

  /** Normalisation fails only on the topics field; otherwise every scalar
      field is copied from its snake_case key unchanged, and the three JSON
      fields go through `parseJsonField` without renaming inside them. */
  lemma TransformCopiesFields(data: WireRecord, parse: string -> Option<Json>)
    ensures TransformContentItem(data, parse).Err? <==>
      TransformTopics(ParseJsonField(Field(data, "topics"), parse)).Err?
    ensures TransformContentItem(data, parse).Ok? ==>
      var item := TransformContentItem(data, parse).value;
      && item.id == Field(data, "id")
      && item.userId == Field(data, "user_id")
      && item.contentType == Field(data, "content_type")
      && item.status == Field(data, "status")
      && item.originalFilename == Field(data, "original_filename")
      && item.filePath == Field(data, "file_path")
      && item.fileSize == Field(data, "file_size")
      && item.mimeType == Field(data, "mime_type")
      && item.title == Field(data, "title")
      && item.rawText == Field(data, "raw_text")
      && item.language == Field(data, "language")
      && item.chunkCount == Field(data, "chunk_count")
      && item.errorMessage == Field(data, "error_message")
      && item.createdAt == Field(data, "created_at")
      && item.updatedAt == Field(data, "updated_at")
      && item.vocabulary == ParseJsonField(Field(data, "vocabulary"), parse)
      && item.grammarPoints == ParseJsonField(Field(data, "grammar_points"), parse)
      && TransformTopics(ParseJsonField(Field(data, "topics"), parse)) == Ok(item.topics)
  {
  }

  /** The request renaming round-trips through its wire record. */
  lemma RequestWireRoundTrip(req: CreateContentRequest)
    ensures RequestOfWire(TransformContentRequest(req)) == Some(req)
  {
    ContentTypeNameRoundTrip(req.contentType);
    var size := Num(req.fileSize as real);
    assert (req.fileSize as real).Floor == req.fileSize;
    assert NatOf(size) == Some(req.fileSize);
  }

  /** A record holding the request's wire fields normalises to an item whose
      five request fields read back as the request. */
  lemma RequestItemRoundTrip(req: CreateContentRequest, data: WireRecord, parse: string -> Option<Json>)
    requires forall k :: k in TransformContentRequest(req) ==> k in data && data[k] == TransformContentRequest(req)[k]
    ensures TransformContentItem(data, parse).Ok? ==> RequestOfItem(TransformContentItem(data, parse).value) == Some(req)
  {
    var wire := TransformContentRequest(req);
    assert "content_type" in wire && "original_filename" in wire && "file_path" in wire
      && "file_size" in wire && "mime_type" in wire;
    ContentTypeNameRoundTrip(req.contentType);
    assert (req.fileSize as real).Floor == req.fileSize;
  }

  /** An item whose parsed JSON fields are in parsed form (absent, or a value
      that is neither falsy nor a string). */
  predicate CanonicalItem(item: ContentItem) {
    (item.vocabulary.Some? ==> !Falsy(item.vocabulary.value) && !item.vocabulary.value.Str?)
    && (item.grammarPoints.Some? ==> !Falsy(item.grammarPoints.value) && !item.grammarPoints.value.Str?)
  }

  lemma {:induction false} TopicsRoundTrip(ts: seq<Topic>)
    ensures MapTopics(TopicsToWire(ts)) == Some(ts)
    decreases |ts|
  {
    if ts != [] {
      TopicsRoundTrip(ts[1..]);
      assert TopicsToWire(ts)[1..] == TopicsToWire(ts[1..]);
      var t := ts[0];
      var w := TopicsToWire(ts);
      assert w != [] && w[0] == TopicToWire(t);
      assert TopicOf(w[0]) == Some(t);
      assert MapTopics(w) == Some([t] + ts[1..]);
      assert [t] + ts[1..] == ts;
    }
  }

  // Proof steps of `ItemWireRoundTrip`, one group of members each: each
  // member of the renamed record holds the client field it came from.

  /** The renamed record carries the identity members. */
  lemma ItemToWireIdentity(item: ContentItem)
    ensures var w := ItemToWire(item);
      Field(w, "id") == item.id
      && Field(w, "user_id") == item.userId
      && Field(w, "status") == item.status
  {
  }

  /** The renamed record carries the kind and error members. */
  lemma ItemToWireKind(item: ContentItem)
    ensures var w := ItemToWire(item);
      Field(w, "content_type") == item.contentType
      && Field(w, "title") == item.title
      && Field(w, "error_message") == item.errorMessage
  {
  }

  /** The renamed record carries the file members. */
  lemma ItemToWireFile(item: ContentItem)
    ensures var w := ItemToWire(item);
      Field(w, "original_filename") == item.originalFilename
      && Field(w, "file_path") == item.filePath
      && Field(w, "file_size") == item.fileSize
  {
  }

  /** The renamed record carries the MIME type and timestamps. */
  lemma ItemToWireTimes(item: ContentItem)
    ensures var w := ItemToWire(item);
      Field(w, "mime_type") == item.mimeType
      && Field(w, "created_at") == item.createdAt
      && Field(w, "updated_at") == item.updatedAt
  {
  }

  /** The renamed record carries the text members. */
  lemma ItemToWireText(item: ContentItem)
    ensures var w := ItemToWire(item);
      Field(w, "raw_text") == item.rawText
      && Field(w, "language") == item.language
      && Field(w, "chunk_count") == item.chunkCount
  {
  }

  /** The renamed record carries the parsed JSON members. */
  lemma ItemToWireParsed(item: ContentItem)
    ensures var w := ItemToWire(item);
      Field(w, "topics") == TopicsMember(item.topics)
      && Field(w, "vocabulary") == OptToWire(item.vocabulary)
      && Field(w, "grammar_points") == OptToWire(item.grammarPoints)
  {
  }

  /** Renaming an item to the wire and normalising it back gives the item. */
  lemma ItemWireRoundTrip(item: ContentItem, parse: string -> Option<Json>)
    requires CanonicalItem(item)
    ensures TransformContentItem(ItemToWire(item), parse) == Ok(item)
  {
    var w := ItemToWire(item);
    ItemToWireIdentity(item);
    ItemToWireKind(item);
    ItemToWireFile(item);
    ItemToWireTimes(item);
    ItemToWireText(item);
    ItemToWireParsed(item);
    if item.topics.Some? {
      TopicsRoundTrip(item.topics.value);
    }
    TransformCopiesFields(w, parse);
  }

  /** The snake_case keys the normalisation reads. */
  const ITEM_KEYS: set<string> := {
    "id", "user_id", "content_type", "status", "original_filename", "file_path",
    "file_size", "mime_type", "title", "raw_text", "language", "topics", "vocabulary",
    "grammar_points", "chunk_count", "error_message", "created_at", "updated_at"}

  /** A record decoded from JSON holds no undefined members. */
  predicate NoUndefined(rec: WireRecord) {
    forall k :: k in rec ==> !rec[k].Undefined?
  }

  predicate CanonicalTopic(t: Json) {
    t.Obj? && t.fields.Keys <= {"title", "relevance_score"} && NoUndefined(t.fields)
  }

  /** A server record with only the documented keys, whose JSON members are
      already in parsed form: topics an array of topic objects, vocabulary and
      grammar points neither falsy nor a string. */
  predicate CanonicalRecord(rec: WireRecord) {
    && rec.Keys <= ITEM_KEYS
    && NoUndefined(rec)
    && ("topics" in rec ==>
          rec["topics"].Arr? && forall i :: 0 <= i < |rec["topics"].elems| ==> CanonicalTopic(rec["topics"].elems[i]))
    && ("vocabulary" in rec ==> !Falsy(rec["vocabulary"]) && !rec["vocabulary"].Str?)
    && ("grammar_points" in rec ==> !Falsy(rec["grammar_points"]) && !rec["grammar_points"].Str?)
  }

  /** Records without undefined members are equal when every key reads the same. */
  lemma FieldExtensional(a: WireRecord, b: WireRecord)
    requires NoUndefined(a) && NoUndefined(b)
    requires forall k :: Field(a, k) == Field(b, k)
    ensures a == b
  {
    assert forall k :: k in a <==> Field(a, k) != Undefined;
    assert forall k :: k in b <==> Field(b, k) != Undefined;
    assert a.Keys == b.Keys;
  }

  lemma ItemMembersKeys(item: ContentItem)
    ensures ItemMembers(item).Keys == ITEM_KEYS
  {
  }

  /** A canonical topic object survives mapping to a topic and back. */
  lemma TopicWireRoundTrip(t: Json)
    requires CanonicalTopic(t)
    ensures TopicToWire(TopicOf(t).value) == t
  {
    var back := TopicToWire(TopicOf(t).value);
    forall k ensures Field(back.fields, k) == Field(t.fields, k) {
      if k != "title" && k != "relevance_score" {
        assert k !in t.fields;
      }
    }
    FieldExtensional(back.fields, t.fields);
  }

  /** The topics of a canonical record rename back to the same array. */
  lemma CanonicalTopicsRoundTrip(rec: WireRecord, parse: string -> Option<Json>)
    requires CanonicalRecord(rec)
    ensures TransformContentItem(rec, parse).Ok?
    ensures TopicsMember(TransformContentItem(rec, parse).value.topics) == Field(rec, "topics")
  {
    TransformCopiesFields(rec, parse);
    if "topics" in rec {
      var es := rec["topics"].elems;
      MapTopicsElementwise(es);
      var ts := MapTopics(es).value;
      forall i | 0 <= i < |es| ensures TopicsToWire(ts)[i] == es[i] {
        TopicWireRoundTrip(es[i]);
      }
      assert TopicsToWire(ts) == es;
    }
  }

  // Proof steps of `WireItemRoundTrip`, one group of members each: every key
  // of the record comes back from the transformed item unchanged.

  lemma WireItemAgreeIdentity(rec: WireRecord, parse: string -> Option<Json>, k: string)
    requires TransformContentItem(rec, parse).Ok?
    requires k == "id" || k == "user_id" || k == "status"
    ensures Field(ItemToWire(TransformContentItem(rec, parse).value), k) == Field(rec, k)
  {
    TransformCopiesFields(rec, parse);
    ItemToWireIdentity(TransformContentItem(rec, parse).value);
  }

  lemma WireItemAgreeKind(rec: WireRecord, parse: string -> Option<Json>, k: string)
    requires TransformContentItem(rec, parse).Ok?
    requires k == "content_type" || k == "title" || k == "error_message"
    ensures Field(ItemToWire(TransformContentItem(rec, parse).value), k) == Field(rec, k)
  {
    TransformCopiesFields(rec, parse);
    ItemToWireKind(TransformContentItem(rec, parse).value);
  }

  lemma WireItemAgreeFile(rec: WireRecord, parse: string -> Option<Json>, k: string)
    requires TransformContentItem(rec, parse).Ok?
    requires k == "original_filename" || k == "file_path" || k == "file_size"
    ensures Field(ItemToWire(TransformContentItem(rec, parse).value), k) == Field(rec, k)
  {
    TransformCopiesFields(rec, parse);
    ItemToWireFile(TransformContentItem(rec, parse).value);
  }

  lemma WireItemAgreeTimes(rec: WireRecord, parse: string -> Option<Json>, k: string)
    requires TransformContentItem(rec, parse).Ok?
    requires k == "mime_type" || k == "created_at" || k == "updated_at"
    ensures Field(ItemToWire(TransformContentItem(rec, parse).value), k) == Field(rec, k)
  {
    TransformCopiesFields(rec, parse);
    ItemToWireTimes(TransformContentItem(rec, parse).value);
  }

  lemma WireItemAgreeText(rec: WireRecord, parse: string -> Option<Json>, k: string)
    requires TransformContentItem(rec, parse).Ok?
    requires k == "raw_text" || k == "language" || k == "chunk_count"
    ensures Field(ItemToWire(TransformContentItem(rec, parse).value), k) == Field(rec, k)
  {
    TransformCopiesFields(rec, parse);
    ItemToWireText(TransformContentItem(rec, parse).value);
  }

  lemma WireItemAgreeParsed(rec: WireRecord, parse: string -> Option<Json>)
    requires CanonicalRecord(rec)
    ensures TransformContentItem(rec, parse).Ok?
    ensures var w := ItemToWire(TransformContentItem(rec, parse).value);
      Field(w, "topics") == Field(rec, "topics")
      && Field(w, "vocabulary") == Field(rec, "vocabulary")
      && Field(w, "grammar_points") == Field(rec, "grammar_points")
  {
    CanonicalTopicsRoundTrip(rec, parse);
    TransformCopiesFields(rec, parse);
    ItemToWireParsed(TransformContentItem(rec, parse).value);
  }

  /** The member names, one by one. */
  lemma OutsideItemKeys(k: string)
    ensures k in ITEM_KEYS ==>
              || k == "id" || k == "user_id" || k == "status"
              || k == "content_type" || k == "title" || k == "error_message"
              || k == "original_filename" || k == "file_path" || k == "file_size"
              || k == "mime_type" || k == "created_at" || k == "updated_at"
              || k == "raw_text" || k == "language" || k == "chunk_count"
              || k == "topics" || k == "vocabulary" || k == "grammar_points"
  {
  }

  /** A key outside the record's members is absent on both sides. */
  lemma WireItemAgreeOutside(rec: WireRecord, parse: string -> Option<Json>, k: string)
    requires CanonicalRecord(rec)
    ensures TransformContentItem(rec, parse).Ok?
    ensures k !in ITEM_KEYS ==> Field(ItemToWire(TransformContentItem(rec, parse).value), k) == Field(rec, k)
  {
    WireItemAgreeParsed(rec, parse);
    ItemMembersKeys(TransformContentItem(rec, parse).value);
  }

  lemma WireItemAgreeFirst(rec: WireRecord, parse: string -> Option<Json>, k: string)
    requires TransformContentItem(rec, parse).Ok?
    ensures (|| k == "id" || k == "user_id" || k == "status"
             || k == "content_type" || k == "title" || k == "error_message"
             || k == "original_filename" || k == "file_path" || k == "file_size") ==>
      Field(ItemToWire(TransformContentItem(rec, parse).value), k) == Field(rec, k)
  {
    if k == "id" || k == "user_id" || k == "status" {
      WireItemAgreeIdentity(rec, parse, k);
    } else if k == "content_type" || k == "title" || k == "error_message" {
      WireItemAgreeKind(rec, parse, k);
    } else if k == "original_filename" || k == "file_path" || k == "file_size" {
      WireItemAgreeFile(rec, parse, k);
    }
  }

  lemma WireItemAgreeSecond(rec: WireRecord, parse: string -> Option<Json>, k: string)
    requires CanonicalRecord(rec)
    ensures TransformContentItem(rec, parse).Ok?
    ensures (|| k == "mime_type" || k == "created_at" || k == "updated_at"
             || k == "raw_text" || k == "language" || k == "chunk_count"
             || k == "topics" || k == "vocabulary" || k == "grammar_points") ==>
      Field(ItemToWire(TransformContentItem(rec, parse).value), k) == Field(rec, k)
  {
    WireItemAgreeParsed(rec, parse);
    if k == "mime_type" || k == "created_at" || k == "updated_at" {
      WireItemAgreeTimes(rec, parse, k);
    } else if k == "raw_text" || k == "language" || k == "chunk_count" {
      WireItemAgreeText(rec, parse, k);
    }
  }

  /** One key of a canonical record reads the same after normalising and
      renaming back. */
  lemma WireItemAgreeAt(rec: WireRecord, parse: string -> Option<Json>, k: string)
    requires CanonicalRecord(rec)
    ensures TransformContentItem(rec, parse).Ok?
    ensures Field(ItemToWire(TransformContentItem(rec, parse).value), k) == Field(rec, k)
  {
    WireItemAgreeParsed(rec, parse);
    OutsideItemKeys(k);
    WireItemAgreeOutside(rec, parse, k);
    WireItemAgreeFirst(rec, parse, k);
    WireItemAgreeSecond(rec, parse, k);
  }

  /** Normalising a canonical server record and renaming it back gives the
      record: the renaming is lossless in this direction too. */
  lemma WireItemRoundTrip(rec: WireRecord, parse: string -> Option<Json>)
    requires CanonicalRecord(rec)
    ensures TransformContentItem(rec, parse).Ok?
    ensures ItemToWire(TransformContentItem(rec, parse).value) == rec
  {
    WireItemAgreeParsed(rec, parse);
    var w := ItemToWire(TransformContentItem(rec, parse).value);
    forall k ensures Field(w, k) == Field(rec, k) {
      WireItemAgreeAt(rec, parse, k);
    }
    FieldExtensional(w, rec);
  }
}
