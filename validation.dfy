/** The request schemas: what a create body, an update body and a list
    query must look like, and the values they yield. A failed parse reports
    the offending fields in schema order ("" for the body itself). */
module Validation {
  import opened Wrappers
  import opened Json
  import opened CustomerRequests

  /** The `type` enumeration: exactly "bug" or "feature". */
  function ParseType(s: string): (r: Option<RequestType>)
    ensures r.Some? ==> TypeName(r.value) == s
  {
    if s == "bug" then Some(Bug) else if s == "feature" then Some(Feature) else None
  }

  /** The status enumeration: the seven storable statuses, not "in_review". */
  function ParseStatusName(s: string): (r: Option<Status>)
    ensures r.Some? ==> StatusName(r.value) == s && Storable(r.value)
  {
    if s == "pending" then Some(Pending)
    else if s == "triaged" then Some(Triaged)
    else if s == "in_progress" then Some(InProgress)
    else if s == "resolved" then Some(Resolved)
    else if s == "closed" then Some(Closed)
    else if s == "cancelled" then Some(Cancelled)
    else if s == "error" then Some(Error)
    else None
  }

  /** Every type name parses back to its type. */
  lemma TypeNamesParse(t: RequestType)
    ensures ParseType(TypeName(t)) == Some(t)
  {
  }

  /** A status name is accepted exactly when its status is storable: the
      schema's enumeration and the table's CHECK admit the same statuses. */
  lemma StatusEnumIsStorable(st: Status)
    ensures ParseStatusName(StatusName(st)) == Some(st) <==> Storable(st)
    ensures !Storable(st) ==> ParseStatusName(StatusName(st)) == None
  {
  }

  /** `z.string().min(1)`: present, a string, not empty. */
  predicate NonEmptyText(fields: map<string, Json>, k: string) {
    k in fields && fields[k].JStr? && fields[k].s != ""
  }

  /** `z.string().optional()`: absent or a string. */
  predicate OptionalText(fields: map<string, Json>, k: string) {
    k !in fields || fields[k].JStr?
  }

  /** `z.string().min(1).optional()`: absent or a non-empty string. */
  predicate OptionalNonEmptyText(fields: map<string, Json>, k: string) {
    k !in fields || (fields[k].JStr? && fields[k].s != "")
  }

  /** `z.record(z.string(), z.unknown()).optional()`: absent or an object. */
  predicate OptionalRecord(fields: map<string, Json>, k: string) {
    k !in fields || fields[k].JObj?
  }

  predicate TypeField(fields: map<string, Json>) {
    "type" in fields && fields["type"].JStr? && ParseType(fields["type"].s).Some?
  }

  predicate OptionalTypeField(fields: map<string, Json>) {
    "type" !in fields || (fields["type"].JStr? && ParseType(fields["type"].s).Some?)
  }

  predicate OptionalStatusField(fields: map<string, Json>) {
    "status" !in fields || (fields["status"].JStr? && ParseStatusName(fields["status"].s).Some?)
  }

  function Issue(ok: bool, name: string): seq<string> {
    if ok then [] else [name]
  }

  function TextOf(fields: map<string, Json>, k: string): Option<string> {
    if k in fields && fields[k].JStr? then Some(fields[k].s) else None
  }

  function RecordOf(fields: map<string, Json>, k: string): Option<map<string, Json>> {
    if k in fields && fields[k].JObj? then Some(fields[k].fields) else None
  }

  /** A validated create body; keys outside the schema are dropped. */
  datatype CreateInput = CreateInput(
    content: string,
    kind: RequestType,
    externalUserId: string,
    userName: Option<string>,
    projectId: string,
    source: Option<string>,
    metadata: Option<map<string, Json>>)

  function CreateIssues(fields: map<string, Json>): seq<string> {
    Issue(NonEmptyText(fields, "content"), "content")
    + Issue(TypeField(fields), "type")
    + Issue(NonEmptyText(fields, "external_user_id"), "external_user_id")
    + Issue(OptionalText(fields, "user_name"), "user_name")
    + Issue(NonEmptyText(fields, "project_id"), "project_id")
    + Issue(OptionalText(fields, "source"), "source")
    + Issue(OptionalRecord(fields, "metadata"), "metadata")
  }

  function ParseCreate(body: Json): (r: Result<CreateInput, seq<string>>)
    ensures r.Ok? ==> r.value.content != "" && r.value.externalUserId != "" && r.value.projectId != ""
    ensures r.Err? ==> r.error != []
  {
    if !body.JObj? then Err([""])
    else
      var f := body.fields;
      var issues := CreateIssues(f);
      if issues != [] then Err(issues)
      else Ok(CreateInput(f["content"].s, ParseType(f["type"].s).value, f["external_user_id"].s,
                          TextOf(f, "user_name"), f["project_id"].s, TextOf(f, "source"),
                          RecordOf(f, "metadata")))
  }

  /** What a valid create body must satisfy. */
  predicate ValidCreate(c: CreateInput) {
    c.content != "" && c.externalUserId != "" && c.projectId != ""
  }

  /** `m` with `k` set to the value, when there is one. */
  function WithOptional(m: map<string, Json>, k: string, v: Option<Json>): map<string, Json> {
    if v.Some? then m[k := v.value] else m
  }

  /** The body a client sends for a create input. */
  function CreateToJson(c: CreateInput): Json {
    var required := map["content" := JStr(c.content), "type" := JStr(TypeName(c.kind)),
                        "external_user_id" := JStr(c.externalUserId), "project_id" := JStr(c.projectId)];
    var withUser := WithOptional(required, "user_name", if c.userName.Some? then Some(JStr(c.userName.value)) else None);
    var withSource := WithOptional(withUser, "source", if c.source.Some? then Some(JStr(c.source.value)) else None);
    JObj(WithOptional(withSource, "metadata", if c.metadata.Some? then Some(JObj(c.metadata.value)) else None))
  }

  /** The required fields of the body of a valid input pass their rules and
      carry the input's values. */
  lemma CreateBodyRequired(c: CreateInput)
    requires ValidCreate(c)
    ensures var f := CreateToJson(c).fields;
            NonEmptyText(f, "content") && f["content"].s == c.content
            && TypeField(f) && ParseType(f["type"].s) == Some(c.kind)
            && NonEmptyText(f, "external_user_id") && f["external_user_id"].s == c.externalUserId
            && NonEmptyText(f, "project_id") && f["project_id"].s == c.projectId
  {
    TypeNamesParse(c.kind);
  }

  /** The optional fields of the body carry exactly the input's values. */
  lemma CreateBodyOptional(c: CreateInput)
    ensures var f := CreateToJson(c).fields;
            OptionalText(f, "user_name") && TextOf(f, "user_name") == c.userName
            && OptionalText(f, "source") && TextOf(f, "source") == c.source
            && OptionalRecord(f, "metadata") && RecordOf(f, "metadata") == c.metadata
  {
  }

  /** A create body parses exactly when it is an object meeting every field
      rule; otherwise every failing field is reported. */
  lemma ParseCreateIff(body: Json)
    ensures ParseCreate(body).Ok? <==>
      body.JObj? && NonEmptyText(body.fields, "content") && TypeField(body.fields)
      && NonEmptyText(body.fields, "external_user_id") && OptionalText(body.fields, "user_name")
      && NonEmptyText(body.fields, "project_id") && OptionalText(body.fields, "source")
      && OptionalRecord(body.fields, "metadata")
    ensures body.JObj? && !NonEmptyText(body.fields, "content") ==> ParseCreate(body).Err? && ParseCreate(body).error[0] == "content"
  {
  }

  /** Every valid input survives being sent as a body and validated again. */
  lemma CreateRoundTrip(c: CreateInput)
    requires ValidCreate(c)
    ensures ParseCreate(CreateToJson(c)) == Ok(c)
  {
    CreateBodyRequired(c);
    CreateBodyOptional(c);
    assert CreateIssues(CreateToJson(c).fields) == [];
  }

  /** A validated body, sent again, validates to the same input: keys the
      schema does not know have no effect. */
  lemma ParseCreateStable(body: Json)
    requires ParseCreate(body).Ok?
    ensures ValidCreate(ParseCreate(body).value)
    ensures ParseCreate(CreateToJson(ParseCreate(body).value)) == ParseCreate(body)
  {
    CreateRoundTrip(ParseCreate(body).value);
  }

  /** A validated update body: every field optional. */
  datatype UpdateInput = UpdateInput(
    status: Option<Status>,
    content: Option<string>,
    kind: Option<RequestType>,
    response: Option<string>,
    metadata: Option<map<string, Json>>)

  function UpdateIssues(fields: map<string, Json>): seq<string> {
    Issue(OptionalStatusField(fields), "status")
    + Issue(OptionalNonEmptyText(fields, "content"), "content")
    + Issue(OptionalTypeField(fields), "type")
    + Issue(OptionalText(fields, "response"), "response")
    + Issue(OptionalRecord(fields, "metadata"), "metadata")
  }

  function ParseUpdate(body: Json): (r: Result<UpdateInput, seq<string>>)
    ensures r.Ok? && r.value.content.Some? ==> r.value.content.value != ""
    ensures r.Ok? && r.value.status.Some? ==> Storable(r.value.status.value)
    ensures r.Err? ==> r.error != []
  {
    if !body.JObj? then Err([""])
    else
      var f := body.fields;
      var issues := UpdateIssues(f);
      if issues != [] then Err(issues)
      else Ok(UpdateInput(
        if "status" in f then ParseStatusName(f["status"].s) else None,
        TextOf(f, "content"),
        if "type" in f then ParseType(f["type"].s) else None,
        TextOf(f, "response"),
        RecordOf(f, "metadata")))
  }

  /** Every field of an update may be left out; only an empty `content`
      (or a mistyped field) is refused. */
  lemma UpdateFieldsOptional(body: Json)
    ensures ParseUpdate(JObj(map[])) == Ok(UpdateInput(None, None, None, None, None))
    ensures body.JObj? && "content" in body.fields && body.fields["content"] == JStr("") ==>
      ParseUpdate(body).Err? && "content" in ParseUpdate(body).error
  {
    if body.JObj? && "content" in body.fields && body.fields["content"] == JStr("") {
      var f := body.fields;
      assert !OptionalNonEmptyText(f, "content");
      assert UpdateIssues(f)[|Issue(OptionalStatusField(f), "status")|] == "content";
    }
  }

  /** The list query as it arrives: each search parameter, with an empty
      value already read as absent. */
  datatype ListParams = ListParams(status: Option<string>, externalUserId: Option<string>,
                                   limit: Option<string>, cursor: Option<string>)

  datatype ListQuery = ListQuery(status: Option<Status>, externalUserId: Option<string>,
                                 limit: int, cursor: Option<string>)

  const DefaultLimit := 20
  const MaxLimit := 100

  /** `z.coerce.number().int().min(1).max(100)`: `number(s)` is `Number(s)`
      when that is a finite integer, and `None` otherwise. */
  predicate LimitOk(limit: Option<string>, number: string -> Option<int>) {
    limit.None? || (number(limit.value).Some? && 1 <= number(limit.value).value <= MaxLimit)
  }

  predicate StatusParamOk(status: Option<string>) {
    status.None? || ParseStatusName(status.value).Some?
  }

  function ParseListQuery(q: ListParams, number: string -> Option<int>): (r: Result<ListQuery, seq<string>>)
    ensures r.Ok? ==> 1 <= r.value.limit <= MaxLimit
    ensures r.Ok? && r.value.status.Some? ==> Storable(r.value.status.value)
    ensures r.Err? ==> r.error != []
  {
    var issues := Issue(StatusParamOk(q.status), "status") + Issue(LimitOk(q.limit, number), "limit");
    if issues != [] then Err(issues)
    else Ok(ListQuery(
      if q.status.Some? then ParseStatusName(q.status.value) else None,
      q.externalUserId,
      if q.limit.None? then DefaultLimit else number(q.limit.value).value,
      q.cursor))
  }

  /** The limit defaults to 20, is otherwise the coerced number, and is
      refused outside 1..100; the other parameters pass through. */
  lemma ListLimit(q: ListParams, number: string -> Option<int>)
    ensures q.limit.None? && StatusParamOk(q.status) ==> ParseListQuery(q, number).Ok? && ParseListQuery(q, number).value.limit == DefaultLimit
    ensures q.limit.Some? && number(q.limit.value).Some? && (number(q.limit.value).value < 1 || number(q.limit.value).value > MaxLimit) ==>
      ParseListQuery(q, number).Err?
    ensures ParseListQuery(q, number).Ok? && q.limit.Some? ==> ParseListQuery(q, number).value.limit == number(q.limit.value).value
    ensures ParseListQuery(q, number).Ok? ==>
              ParseListQuery(q, number).value.cursor == q.cursor
              && ParseListQuery(q, number).value.externalUserId == q.externalUserId
    ensures q.status == Some("in_review") ==> ParseListQuery(q, number).Err?
  {
  }
}
