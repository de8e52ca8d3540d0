/**
 * The task record: a schema with a required owner (`userId`) and `title`,
 * `description` defaulting to the empty string, `deadline` defaulting to null,
 * `status` restricted to `todo | in-progress | done` and defaulting to `todo`,
 * and the `createdAt`/`updatedAt` timestamps the store keeps on every record.
 *
 * A stored record is a document: a map from field names to values, because an
 * update writes every key it is given, schema field or not. `Decode` views a
 * document that satisfies the schema as a typed `Task`.
 */
module TaskSchema {
  import opened Wrappers

  /** An object identifier: opaque, compared only for equality. */
  type Id = nat

  datatype Status = Todo | InProgress | Done

  /** The stored spelling of a status. */
  function StatusName(s: Status): string {
    match s
    case Todo => "todo"
    case InProgress => "in-progress"
    case Done => "done"
  }

  /** The enum check: only the three stored spellings name a status. */
  function ParseStatus(name: string): (r: Option<Status>)
    ensures r.Some? <==> (name == "todo" || name == "in-progress" || name == "done")
    ensures r.Some? ==> StatusName(r.value) == name
  {
    if name == "todo" then Some(Todo)
    else if name == "in-progress" then Some(InProgress)
    else if name == "done" then Some(Done)
    else None
  }

  /** A field value, as far as the model tells values apart (dates as milliseconds). */
  datatype Value = Str(text: string) | Bool(flag: bool) | Ref(id: Id) | Time(ms: int) | Null

  /** A stored document, or a request body: field names to values. */
  type Doc = map<string, Value>

  /** The fields the schema declares, timestamps included. */
  const SchemaKeys: set<string> :=
    {"userId", "title", "description", "deadline", "status", "createdAt", "updatedAt"}

  /** A conforming document seen through its schema fields; `deadline == None` is the stored null. */
  datatype Task = Task(userId: Id, title: string, description: string, deadline: Option<int>,
                       status: Status, createdAt: int, updatedAt: int)

  /** One failed schema rule; `NotInEnum` carries the rejected status. */
  datatype Violation = Required(path: string) | CastFailed(path: string) | NotInEnum(value: string)

  /** The defaults the schema fills in for absent fields. */
  function ApplyDefaults(d: Doc): (r: Doc)
    ensures r.Keys == d.Keys + {"description", "deadline", "status"}
    ensures forall k :: k in d ==> r[k] == d[k]
    ensures "description" !in d ==> r["description"] == Str("")
    ensures "deadline" !in d ==> r["deadline"] == Null
    ensures "status" !in d ==> r["status"] == Str("todo")
  {
    var d1 := if "description" in d then d else d["description" := Str("")];
    var d2 := if "deadline" in d1 then d1 else d1["deadline" := Null];
    if "status" in d2 then d2 else d2["status" := Str("todo")]
  }

  function OwnerViolations(d: Doc): seq<Violation> {
    if "userId" !in d || d["userId"] == Null then [Required("userId")]
    else if !d["userId"].Ref? then [CastFailed("userId")]
    else []
  }

  /** A string field that is required rejects a missing, null or empty value. */
  function TitleViolations(d: Doc): seq<Violation> {
    if "title" !in d || d["title"] == Null || d["title"] == Str("") then [Required("title")]
    else if !d["title"].Str? then [CastFailed("title")]
    else []
  }

  function StatusViolations(d: Doc): seq<Violation> {
    if "status" !in d then []
    else match d["status"]
      case Str(s) => if ParseStatus(s).Some? then [] else [NotInEnum(s)]
      case _ => [CastFailed("status")]
  }

  /** The optional fields are checked only for their kind when present. */
  function OptionalViolations(d: Doc): seq<Violation> {
    (if "description" in d && !d["description"].Str? then [CastFailed("description")] else [])
    + (if "deadline" in d && !(d["deadline"].Time? || d["deadline"].Null?) then [CastFailed("deadline")] else [])
  }

  /** The timestamps the schema adds after its own fields are checked for their kind when present. */
  function TimestampViolations(d: Doc): seq<Violation> {
    (if "createdAt" in d && !d["createdAt"].Time? then [CastFailed("createdAt")] else [])
    + (if "updatedAt" in d && !d["updatedAt"].Time? then [CastFailed("updatedAt")] else [])
  }

  /** Every schema rule `d` breaks, in the order the schema declares the fields. */
  function Violations(d: Doc): (r: seq<Violation>)
    ensures r == [] ==> "userId" in d && d["userId"].Ref? && "title" in d && d["title"].Str? && d["title"].text != ""
    ensures "userId" !in d ==> r != [] && r[0] == Required("userId")
  {
    OwnerViolations(d) + TitleViolations(d) + OptionalViolations(d) + StatusViolations(d) + TimestampViolations(d)
  }

  /** The typed view of a stored document, or `None` when it does not conform. */
  function Decode(d: Doc): (r: Option<Task>)
    ensures r.Some? ==> "userId" in d && d["userId"] == Ref(r.value.userId)
    ensures r.Some? ==> "title" in d && d["title"] == Str(r.value.title) && r.value.title != ""
  {
    if && "userId" in d && d["userId"].Ref?
       && "title" in d && d["title"].Str? && d["title"].text != ""
       && "description" in d && d["description"].Str?
       && "deadline" in d && (d["deadline"].Time? || d["deadline"].Null?)
       && "status" in d && d["status"].Str? && ParseStatus(d["status"].text).Some?
       && "createdAt" in d && d["createdAt"].Time?
       && "updatedAt" in d && d["updatedAt"].Time?
    then
      Some(Task(d["userId"].id, d["title"].text, d["description"].text,
                if d["deadline"].Time? then Some(d["deadline"].ms) else None,
                ParseStatus(d["status"].text).value, d["createdAt"].ms, d["updatedAt"].ms))
    else None
  }

  /** The document that stores `t`. */
  function Encode(t: Task): Doc {
    map["userId" := Ref(t.userId), "title" := Str(t.title), "description" := Str(t.description),
        "deadline" := (if t.deadline.Some? then Time(t.deadline.value) else Null),
        "status" := Str(StatusName(t.status)),
        "createdAt" := Time(t.createdAt), "updatedAt" := Time(t.updatedAt)]
  }

  /** A conforming document holds every schema field. */
  lemma DecodedKeys(d: Doc)
    requires Decode(d).Some?
    ensures SchemaKeys <= d.Keys
  {
  }

  /** A document decodes exactly when it carries every schema field and breaks no rule. */
  lemma DecodeIffConforms(d: Doc)
    ensures Decode(d).Some? <==> (SchemaKeys <= d.Keys && Violations(d) == [])
  {
    if SchemaKeys <= d.Keys && Violations(d) == [] {
      assert OwnerViolations(d) == [] && TitleViolations(d) == [];
      assert OptionalViolations(d) == [] && StatusViolations(d) == [] && TimestampViolations(d) == [];
    }
  }

  /** A task with a title survives storing and reading back. */
  lemma DecodeEncode(t: Task)
    requires t.title != ""
    ensures Decode(Encode(t)) == Some(t)
  {
    assert ParseStatus(StatusName(t.status)) == Some(t.status);
  }

  /** Decoding loses nothing of the schema fields: re-encoding gives them back. */
  lemma EncodeDecode(d: Doc)
    requires Decode(d).Some?
    ensures forall k :: k in SchemaKeys ==> k in d && d[k] == Encode(Decode(d).value)[k]
  {
  }

  /** The status of a conforming document is one of the three enum spellings. */
  lemma StatusInEnum(d: Doc)
    requires Decode(d).Some?
    ensures d["status"] == Str("todo") || d["status"] == Str("in-progress") || d["status"] == Str("done")
  {
  }

  /**
   * Creating a record: defaults applied, the schema validated, both timestamps
   * set to `now`. A record without an owner or without a title is rejected.
   */
  function NewDocument(fields: Doc, now: int): (r: Result<Doc, seq<Violation>>)
    ensures r.Ok? <==> Violations(ApplyDefaults(fields)) == []
    ensures r.Err? ==> r.error == Violations(ApplyDefaults(fields)) && r.error != []
    ensures "userId" !in fields ==> r.Err?
    ensures "title" !in fields ==> r.Err?
    ensures r.Ok? ==> Decode(r.value).Some?
    ensures r.Ok? ==> var t := Decode(r.value).value;
      && Some(t.userId) == (if fields["userId"].Ref? then Some(fields["userId"].id) else None)
      && Str(t.title) == fields["title"]
      && ("description" !in fields ==> t.description == "")
      && ("deadline" !in fields ==> t.deadline == None)
      && ("status" !in fields ==> t.status == Todo)
      && t.createdAt == now && t.updatedAt == now
    ensures r.Ok? ==> forall k :: k in fields && k != "createdAt" && k != "updatedAt" ==> k in r.value && r.value[k] == fields[k]
  {
    var d := ApplyDefaults(fields);
    var vs := Violations(d);
    if vs != [] then Err(vs)
    else
      var doc := d["createdAt" := Time(now)]["updatedAt" := Time(now)];
      assert OwnerViolations(d) == [] && TitleViolations(d) == [];
      assert OptionalViolations(d) == [] && StatusViolations(d) == [] && TimestampViolations(d) == [];
      DecodeIffConforms(doc);
      Ok(doc)
  }

  /** A draft with an owner, a non-empty title and well-kinded optional fields is accepted. */
  lemma DraftAccepted(fields: Doc, now: int)
    requires "userId" in fields && fields["userId"].Ref?
    requires "title" in fields && fields["title"].Str? && fields["title"].text != ""
    requires "description" in fields ==> fields["description"].Str?
    requires "deadline" in fields ==> fields["deadline"].Time? || fields["deadline"].Null?
    requires "status" in fields ==> fields["status"].Str? && ParseStatus(fields["status"].text).Some?
    requires "createdAt" !in fields && "updatedAt" !in fields
    ensures NewDocument(fields, now).Ok?
  {
    var d := ApplyDefaults(fields);
    assert OwnerViolations(d) == [] && TitleViolations(d) == [];
    assert OptionalViolations(d) == [] && StatusViolations(d) == [] && TimestampViolations(d) == [];
  }

  /**
   * Saving a record: the schema is validated again and `updatedAt` refreshed.
   * A complete document that breaks no rule is stored as a conforming one.
   */
  function SaveDocument(d: Doc, now: int): (r: Result<Doc, seq<Violation>>)
    ensures r.Ok? <==> Violations(d) == []
    ensures r.Ok? ==> r.value.Keys == d.Keys + {"updatedAt"}
    ensures r.Ok? ==> forall k :: k in d && k != "updatedAt" ==> r.value[k] == d[k]
    ensures r.Ok? ==> r.value["updatedAt"] == Time(now)
    ensures r.Ok? && SchemaKeys <= d.Keys ==> Decode(r.value).Some? && Decode(r.value).value.updatedAt == now
  {
    if Violations(d) != [] then Err(Violations(d))
    else
      var doc := d["updatedAt" := Time(now)];
      assert OwnerViolations(d) == [] && TitleViolations(d) == [];
      assert OptionalViolations(d) == [] && StatusViolations(d) == [] && TimestampViolations(d) == [];
      DecodeIffConforms(doc);
      Ok(doc)
  }

  function ViolationText(v: Violation): string {
    match v
    case Required(p) => p + ": Path `" + p + "` is required."
    case CastFailed(p) => p + ": Cast failed for value at path `" + p + "`."
    case NotInEnum(s) => "status: `" + s + "` is not a valid enum value for path `status`."
  }

  function JoinTexts(vs: seq<Violation>): string {
    if vs == [] then ""
    else if |vs| == 1 then ViolationText(vs[0])
    else ViolationText(vs[0]) + ", " + JoinTexts(vs[1..])
  }

  /** The message of the error a failed validation raises. */
  function ValidationMessage(vs: seq<Violation>): string {
    "Task validation failed: " + JoinTexts(vs)
  }
}
