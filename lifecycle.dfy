/** The customer-request API route: `POST` creates a record and its tracker
    ticket as a saga (insert, create the ticket, link it, or delete the row
    again), `GET` lists records by cursor. The tracker call, the fresh id,
    the clock and database failures are parameters. */
module Lifecycle {
  import opened Wrappers
  import opened Json
  import opened Strings
  import opened Config
  import opened Errors
  import opened CustomerRequests
  import opened Validation
  import opened ApiAuth
  import opened Store

  const ValidationMessage := "Validation failed"
  const TicketFailurePrefix := "Failed to create Linear issue: "
  const UnknownError := "Unknown error"
  const RetrieveFailedMessage := "Failed to retrieve created customer request"
  const TicketFailureStatus := 502

  datatype ResponseBody =
    | Created(record: CustomerRequest)
    | Listed(items: seq<CustomerRequest>, nextCursor: Option<string>)
    | ErrorBody(envelope: Envelope)

  datatype HttpResponse = HttpResponse(status: int, body: ResponseBody)

  /** The status `POST` answers a caught error with: a tracker error's own
      status code unless it is missing or zero, then 502. */
  function PostErrorStatus(t: Thrown): (status: int)
    ensures t.App? && t.error.UnauthorizedError? ==> status == 401
    ensures t.App? && t.error.ValidationError? ==> status == 400
    ensures t.App? && t.error.LinearApiError? ==>
      status == (if t.error.statusCode.Some? && t.error.statusCode.value != 0 then t.error.statusCode.value else 502)
    ensures !(t.App? && (t.error.UnauthorizedError? || t.error.ValidationError? || t.error.LinearApiError?)) ==> status == 500
  {
    if t.App? && t.error.UnauthorizedError? then 401
    else if t.App? && t.error.ValidationError? then 400
    else if t.App? && t.error.LinearApiError? then
      (if t.error.statusCode.Some? && t.error.statusCode.value != 0 then t.error.statusCode.value else 502)
    else 500
  }

  /** The status `GET` answers a caught error with: it has no branch for
      tracker errors. */
  function GetErrorStatus(t: Thrown): (status: int)
    ensures status == 401 <==> t.App? && t.error.UnauthorizedError?
    ensures status == 400 <==> t.App? && t.error.ValidationError?
    ensures status == 500 <==> !(t.App? && (t.error.UnauthorizedError? || t.error.ValidationError?))
  {
    if t.App? && t.error.UnauthorizedError? then 401
    else if t.App? && t.error.ValidationError? then 400
    else 500
  }

  function PostError(t: Thrown): HttpResponse {
    HttpResponse(PostErrorStatus(t), ErrorBody(FormatErrorResponse(t)))
  }

  function GetError(t: Thrown): HttpResponse {
    HttpResponse(GetErrorStatus(t), ErrorBody(FormatErrorResponse(t)))
  }

  /** The validation error raised for a schema failure; its details list
      the offending fields. */
  function ValidationFailure(issues: seq<string>): Thrown {
    App(ValidationError(ValidationMessage, Some(JArr(seq(|issues|, i requires 0 <= i < |issues| => JStr(issues[i]))))))
  }

  /** What the tracker is asked to create. */
  datatype TicketRequest = TicketRequest(projectId: string, content: string, kind: RequestType,
                                         userName: Option<string>, externalUserId: string)
  datatype Ticket = Ticket(id: string, identifier: string)

  /** The database failures of one `POST`, statement by statement: the
      INSERT, the linking UPDATE, the compensating DELETE and the final
      SELECT of the created row. */
  datatype Faults = Faults(insert: Option<string>, link: Option<string>, rollback: Option<string>,
                           read: Option<string>)

  /** `metadata || {}`, stored as null when it has no keys. */
  function StoredMetadata(m: Option<map<string, Json>>): (r: Option<Metadata>)
    ensures r.None? <==> m.None? || |m.value| == 0
    ensures r.Some? ==> r.value.Keys == m.value.Keys && forall k :: k in r.value ==> r.value[k] == Raw(m.value[k])
  {
    var metadata := m.GetOr(map[]);
    if |metadata| > 0 then Some(map k | k in metadata :: Raw(metadata[k])) else None
  }

  /** The row the INSERT writes. */
  function InitialRow(id: string, now: string, input: CreateInput): (row: CustomerRequest)
    ensures row.id == id && row.status == Pending && row.createdAt == now && row.updatedAt == now
    ensures row.linearIssueId.None? && row.response.None? && row.deletedAt.None?
    ensures row.content == input.content && row.kind == input.kind && row.externalUserId == input.externalUserId
    ensures row.projectId == input.projectId
    ensures row.userName == Normalize(input.userName) && row.source == Normalize(input.source)
    ensures row.metadata == StoredMetadata(input.metadata)
  {
    CustomerRequest(id, now, now, input.content, input.kind, Pending, input.externalUserId,
                    if Truthy(input.userName) then input.userName else None,
                    input.projectId, None, None,
                    if Truthy(input.source) then input.source else None,
                    StoredMetadata(input.metadata), None)
  }

  function TicketFailure(t: Thrown): Thrown {
    App(LinearApiError(TicketFailurePrefix + MessageOr(t, UnknownError), Some(TicketFailureStatus), Some(JObj(map[]))))
  }

  /** The compensating step: delete the row, then report the tracker failure
      (or the delete's own failure, leaving the row in place). */
  function RolledBack(rows: map<string, CustomerRequest>, id: string, cause: Thrown, fault: Option<string>)
    : (map<string, CustomerRequest>, HttpResponse)
  {
    var d := Deleted(rows, id, fault);
    if d.1.Err? then (d.0, PostError(PlainError(d.1.error)))
    else (d.0, PostError(TicketFailure(cause)))
  }

  function TicketFor(input: CreateInput): TicketRequest {
    TicketRequest(input.projectId, input.content, input.kind, input.userName, input.externalUserId)
  }

  /** The steps after the insert: the tracker's answer, the link update,
      the compensating delete, and the final read of the row. The read runs
      after the compensation is over: its failure leaves the linked row. */
  function Linked(rows: map<string, CustomerRequest>, id: string, ticket: Result<Ticket, Thrown>,
                  later: string, faults: Faults)
    : (map<string, CustomerRequest>, HttpResponse)
  {
    if ticket.Err? then RolledBack(rows, id, ticket.error, faults.rollback)
    else
      var link := Updated(rows, id, Link(ticket.value.id, later), faults.link);
      if link.1.Err? then RolledBack(link.0, id, PlainError(link.1.error), faults.rollback)
      else if faults.read.Some? then (link.0, PostError(PlainError(faults.read.value)))
      else if id !in link.0 then (link.0, PostError(PlainError(RetrieveFailedMessage)))
      else (link.0, HttpResponse(201, Created(ParseCustomerRequest(link.0[id]))))
  }

  /** The saga proper, for a validated input: the store afterwards, the
      reply, and how many times the tracker was asked for a ticket. */
  function Saga(rows: map<string, CustomerRequest>, input: CreateInput, id: string, now: string, later: string,
                createTicket: TicketRequest -> Result<Ticket, Thrown>, faults: Faults)
    : (map<string, CustomerRequest>, HttpResponse, int)
  {
    var ins := Inserted(rows, InitialRow(id, now, input), faults.insert);
    if ins.1.Err? then (rows, PostError(PlainError(ins.1.error)), 0)
    else
      var l := Linked(ins.0, id, createTicket(TicketFor(input)), later, faults);
      (l.0, l.1, 1)
  }

  /** The whole `POST`. */
  function CreateOutcome(rows: map<string, CustomerRequest>, env: Env, authorization: Option<string>,
                         body: Result<Json, string>, id: string, now: string, later: string,
                         createTicket: TicketRequest -> Result<Ticket, Thrown>, faults: Faults)
    : (map<string, CustomerRequest>, HttpResponse, int)
  {
    var auth := RequireBearerAuth(env, authorization);
    if auth.Err? then (rows, PostError(App(auth.error)), 0)
    else if body.Err? then (rows, PostError(PlainError(body.error)), 0)
    else
      var validated := ParseCreate(body.value);
      if validated.Err? then (rows, PostError(ValidationFailure(validated.error)), 0)
      else Saga(rows, validated.value, id, now, later, createTicket, faults)
  }

  /** After inserting a fresh pending row, the saga either links it to the
      ticket (201) or undoes the insert. Two failures answer 500 and leave a
      row behind: a failing compensating delete leaves the unlinked row, and
      a failing final read leaves the row linked to the new ticket. */
  lemma LinkedOutcome(rows: map<string, CustomerRequest>, row: CustomerRequest, ticket: Result<Ticket, Thrown>,
                      later: string, faults: Faults)
    requires row.id !in rows && Storable(row.status)
    ensures var (rows', resp) := Linked(rows[row.id := row], row.id, ticket, later, faults);
      && (resp.status == 201 ==>
            && ticket.Ok?
            && rows' == rows[row.id := row.(linearIssueId := Some(ticket.value.id), updatedAt := later)]
            && resp.body == Created(ParseCustomerRequest(rows'[row.id])))
      && (resp.status != 201 ==>
            || rows' == rows
            || (faults.rollback.Some? && resp.status == 500 && rows' == rows[row.id := row])
            || (&& ticket.Ok? && faults.link.None? && faults.read.Some? && resp.status == 500
                && rows' == rows[row.id := row.(linearIssueId := Some(ticket.value.id), updatedAt := later)]))
  {
    assert rows[row.id := row] - {row.id} == rows;
  }

  /** `POST /api/v1/customer-requests`. */
  method Create(store: RecordStore, env: Env, authorization: Option<string>, body: Result<Json, string>,
                id: string, now: string, later: string,
                createTicket: TicketRequest -> Result<Ticket, Thrown>, faults: Faults)
    returns (resp: HttpResponse, ticketCalls: int)
    requires store.Valid()
    modifies store
    ensures store.Valid()
    ensures (store.rows, resp, ticketCalls) ==
      CreateOutcome(old(store.rows), env, authorization, body, id, now, later, createTicket, faults)
  {
    ticketCalls := 0;
    var auth := RequireBearerAuth(env, authorization);
    if auth.Err? {
      resp := PostError(App(auth.error));
      return;
    }
    if body.Err? {
      resp := PostError(PlainError(body.error));
      return;
    }
    var validated := ParseCreate(body.value);
    if validated.Err? {
      resp := PostError(ValidationFailure(validated.error));
      return;
    }
    var input := validated.value;
    var row := InitialRow(id, now, input);
    var inserted := store.Insert(row, faults.insert);
    if inserted.Err? {
      resp := PostError(PlainError(inserted.error));
      return;
    }
    ghost var afterInsert := store.rows;
    var failure: Option<Thrown> := None;
    var ticket := createTicket(TicketFor(input));
    ticketCalls := 1;
    if ticket.Err? {
      failure := Some(ticket.error);
    } else {
      var linked := store.Update(id, Link(ticket.value.id, later), faults.link);
      if linked.Err? {
        failure := Some(PlainError(linked.error));
      }
    }
    if failure.Some? {
      var deleted := store.Delete(id, faults.rollback);
      if deleted.Err? {
        resp := PostError(PlainError(deleted.error));
      } else {
        resp := PostError(TicketFailure(failure.value));
      }
      return;
    }
    if faults.read.Some? {
      resp := PostError(PlainError(faults.read.value));
      return;
    }
    var created := store.Get(id);
    if created.None? {
      resp := PostError(PlainError(RetrieveFailedMessage));
      return;
    }
    resp := HttpResponse(201, Created(ParseCustomerRequest(created.value)));
  }

  /** Every early reply of the `POST` is an error, so a 201 means the saga
      ran on the validated input. */
  lemma Created201RunsSaga(rows: map<string, CustomerRequest>, env: Env, authorization: Option<string>,
                           body: Result<Json, string>, id: string, now: string, later: string,
                           createTicket: TicketRequest -> Result<Ticket, Thrown>, faults: Faults)
    ensures CreateOutcome(rows, env, authorization, body, id, now, later, createTicket, faults).1.status == 201 ==>
      && RequireBearerAuth(env, authorization).Ok? && body.Ok? && ParseCreate(body.value).Ok?
      && CreateOutcome(rows, env, authorization, body, id, now, later, createTicket, faults)
         == Saga(rows, ParseCreate(body.value).value, id, now, later, createTicket, faults)
  {
  }

  /** A saga that answers 201 inserted a fresh row, asked the tracker once
      and linked the row to the ticket it returned. */
  lemma SagaSucceeds(rows: map<string, CustomerRequest>, input: CreateInput, id: string, now: string, later: string,
                     createTicket: TicketRequest -> Result<Ticket, Thrown>, faults: Faults)
    requires Saga(rows, input, id, now, later, createTicket, faults).1.status == 201
    ensures var ticket := createTicket(TicketFor(input));
      var (rows', resp, calls) := Saga(rows, input, id, now, later, createTicket, faults);
      && id !in rows && ticket.Ok? && calls == 1
      && rows' == rows[id := InitialRow(id, now, input).(linearIssueId := Some(ticket.value.id), updatedAt := later)]
      && resp.body == Created(ParseCustomerRequest(rows'[id]))
  {
    var row := InitialRow(id, now, input);
    LinkedOutcome(rows, row, createTicket(TicketFor(input)), later, faults);
  }

  /** A created record is stored pending and linked to the new ticket,
      after exactly one tracker call, under an id the table did not hold. */
  lemma CreateSucceeds(rows: map<string, CustomerRequest>, env: Env, authorization: Option<string>,
                       body: Result<Json, string>, id: string, now: string, later: string,
                       createTicket: TicketRequest -> Result<Ticket, Thrown>, faults: Faults)
    requires CreateOutcome(rows, env, authorization, body, id, now, later, createTicket, faults).1.status == 201
    ensures body.Ok? && ParseCreate(body.value).Ok? && id !in rows
    ensures var input := ParseCreate(body.value).value;
      var ticket := createTicket(TicketFor(input));
      var (rows', resp, calls) := CreateOutcome(rows, env, authorization, body, id, now, later, createTicket, faults);
      && ticket.Ok? && calls == 1
      && rows' == rows[id := InitialRow(id, now, input).(linearIssueId := Some(ticket.value.id), updatedAt := later)]
      && resp.body == Created(ParseCustomerRequest(rows'[id]))
  {
    Created201RunsSaga(rows, env, authorization, body, id, now, later, createTicket, faults);
    SagaSucceeds(rows, ParseCreate(body.value).value, id, now, later, createTicket, faults);
  }

  /** The saga leaves no half-done work it could undo: a failed `POST`
      leaves the table as it was, except when the compensating delete itself
      fails, which leaves the unlinked pending row, or when the final read
      fails after the link, which leaves the linked row; both answer 500. */
  lemma CreateFailsCleanly(rows: map<string, CustomerRequest>, env: Env, authorization: Option<string>,
                           body: Result<Json, string>, id: string, now: string, later: string,
                           createTicket: TicketRequest -> Result<Ticket, Thrown>, faults: Faults)
    requires CreateOutcome(rows, env, authorization, body, id, now, later, createTicket, faults).1.status != 201
    ensures var (rows', resp, calls) := CreateOutcome(rows, env, authorization, body, id, now, later, createTicket, faults);
      || rows' == rows
      || (&& faults.rollback.Some? && resp.status == 500 && body.Ok? && ParseCreate(body.value).Ok?
          && rows' == rows[id := InitialRow(id, now, ParseCreate(body.value).value)])
      || (&& faults.link.None? && faults.read.Some? && resp.status == 500 && body.Ok? && ParseCreate(body.value).Ok?
          && var input := ParseCreate(body.value).value;
          && var ticket := createTicket(TicketFor(input));
          && ticket.Ok? && calls == 1
          && rows' == rows[id := InitialRow(id, now, input).(linearIssueId := Some(ticket.value.id), updatedAt := later)])
  {
    if RequireBearerAuth(env, authorization).Ok? && body.Ok? && ParseCreate(body.value).Ok? {
      var input := ParseCreate(body.value).value;
      var row := InitialRow(id, now, input);
      if faults.insert.None? && id !in rows {
        LinkedOutcome(rows, row, createTicket(TicketFor(input)), later, faults);
      }
    }
  }

  /** The tracker is asked at most once, and only after the row was
      inserted under a fresh id. */
  lemma TrackerCalledOnce(rows: map<string, CustomerRequest>, env: Env, authorization: Option<string>,
                          body: Result<Json, string>, id: string, now: string, later: string,
                          createTicket: TicketRequest -> Result<Ticket, Thrown>, faults: Faults)
    ensures var (rows', resp, calls) := CreateOutcome(rows, env, authorization, body, id, now, later, createTicket, faults);
      (calls == 0 || calls == 1) && (calls == 1 ==> id !in rows && faults.insert.None?)
  {
  }

  /** A tracker failure whose compensation succeeds answers 502 with the
      tracker's message behind a fixed prefix (or "Unknown error" for a
      thrown non-error), and leaves the table as it was before the insert. */
  lemma TicketFailureAnswers502(rows: map<string, CustomerRequest>, row: CustomerRequest, t: Thrown,
                                later: string, faults: Faults)
    requires row.id !in rows && faults.rollback.None?
    ensures Linked(rows[row.id := row], row.id, Err(t), later, faults) ==
      (rows, HttpResponse(502, ErrorBody(Envelope(TicketFailurePrefix + MessageOr(t, UnknownError), Some(JObj(map[]))))))
  {
    assert rows[row.id := row] - {row.id} == rows;
  }

  /** A failing link update is handled like a tracker failure: with a
      working compensation it answers 502 with the update's message behind
      the same prefix, and leaves the table as it was before the insert. */
  lemma LinkFailureAnswers502(rows: map<string, CustomerRequest>, row: CustomerRequest, tk: Ticket,
                              later: string, faults: Faults)
    requires row.id !in rows && Storable(row.status)
    requires faults.rollback.None? && faults.link.Some?
    ensures Linked(rows[row.id := row], row.id, Ok(tk), later, faults) ==
      (rows, HttpResponse(502, ErrorBody(Envelope(TicketFailurePrefix + faults.link.value, Some(JObj(map[]))))))
  {
    assert rows[row.id := row] - {row.id} == rows;
  }

  /** Authentication comes first: an unauthenticated `POST` answers 401
      whatever its body, changes nothing and never reaches the tracker; an
      invalid body answers 400 the same way. */
  lemma CreateRejectsEarly(rows: map<string, CustomerRequest>, env: Env, authorization: Option<string>,
                           body: Result<Json, string>, id: string, now: string, later: string,
                           createTicket: TicketRequest -> Result<Ticket, Thrown>, faults: Faults)
    ensures RequireBearerAuth(env, authorization).Err? ==>
      var (rows', resp, calls) := CreateOutcome(rows, env, authorization, body, id, now, later, createTicket, faults);
      rows' == rows && resp.status == 401 && calls == 0
    ensures RequireBearerAuth(env, authorization).Ok? && body.Ok? && ParseCreate(body.value).Err? ==>
      var (rows', resp, calls) := CreateOutcome(rows, env, authorization, body, id, now, later, createTicket, faults);
      rows' == rows && resp.status == 400 && calls == 0
  {
  }

  /** The search parameters as read: `get(name) || undefined`. */
  datatype SearchParams = SearchParams(status: Option<string>, externalUserId: Option<string>,
                                       limit: Option<string>, cursor: Option<string>)

  function ReadParams(p: SearchParams): (q: ListParams)
    ensures q.status == Normalize(p.status) && q.externalUserId == Normalize(p.externalUserId)
    ensures q.limit == Normalize(p.limit) && q.cursor == Normalize(p.cursor)
  {
    ListParams(Normalize(p.status), Normalize(p.externalUserId), Normalize(p.limit), Normalize(p.cursor))
  }

  function QueryFilter(q: ListQuery): Filter {
    Filter(q.status, q.externalUserId, q.cursor)
  }

  /** A listed page: the first `limit` matching rows in ascending id order,
      each as parsed, and a cursor exactly when more rows match, naming the
      last listed row. */
  ghost predicate IsPage(rows: map<string, CustomerRequest>, f: Filter, limit: nat,
                         items: seq<CustomerRequest>, next: Option<string>)
  {
    && IsFirst(IdsOf(items), Matching(rows, f), limit)
    && (forall i :: 0 <= i < |items| ==> items[i].id in rows && items[i] == ParseCustomerRequest(rows[items[i].id]))
    && (next.Some? <==> exists x :: x in Matching(rows, f) && x !in IdsOf(items))
    && (next.Some? ==> |items| > 0 && next.value == items[|items| - 1].id)
  }

  /** Of the first `n + 1` members, the first `n` are the first `n`, and
      there is an `n + 1`-th exactly when some member is left out of them. */
  lemma FirstPrefix(ids: seq<string>, m: set<string>, n: nat)
    requires IsFirst(ids, m, n + 1)
    ensures var k := if |ids| < n then |ids| else n;
      && IsFirst(ids[..k], m, n)
      && (|ids| > n <==> exists x :: x in m && x !in ids[..k])
  {
    var k := if |ids| < n then |ids| else n;
    var p := ids[..k];
    forall x | x in m && x !in p ensures forall i :: 0 <= i < |p| ==> StrLt(p[i], x) {
      if x in ids {
        var j :| 0 <= j < |ids| && ids[j] == x;
        assert j >= k;
      }
    }
    if |ids| > n {
      forall i | 0 <= i < |p| ensures p[i] != ids[n] {
        StrLtIrreflexive(ids[n]);
      }
      assert ids[n] in m && ids[n] !in p;
    } else {
      assert p == ids;
    }
  }

  /** The response's page from the `limit + 1` rows fetched: the first
      `limit`, parsed, and the last listed id when more rows came back. */
  function PageOf(results: seq<CustomerRequest>, limit: nat): (seq<CustomerRequest>, Option<string>)
    requires limit > 0
  {
    var kept := if |results| < limit then results else results[..limit];
    (seq(|kept|, i requires 0 <= i < |kept| => ParseCustomerRequest(kept[i])),
     if |results| > limit then Some(results[limit - 1].id) else None)
  }

  lemma PageOfItems(results: seq<CustomerRequest>, limit: nat)
    requires limit > 0
    ensures var items := PageOf(results, limit).0;
      var k := if |results| < limit then |results| else limit;
      && |items| == k
      && (forall i :: 0 <= i < k ==> items[i] == ParseCustomerRequest(results[i]))
      && IdsOf(items) == IdsOf(results)[..k]
  {
    var items := PageOf(results, limit).0;
    var k := if |results| < limit then |results| else limit;
    forall i | 0 <= i < k ensures IdsOf(items)[i] == IdsOf(results)[..k][i] {
      assert items[i] == ParseCustomerRequest(results[i]);
    }
  }

  /** The cursor, when there is one, is the id of the last listed item. */
  lemma PageOfCursor(results: seq<CustomerRequest>, limit: nat)
    requires limit > 0
    ensures var page := PageOf(results, limit);
      page.1.Some? ==> |page.0| > 0 && page.1.value == page.0[|page.0| - 1].id
  {
    var page := PageOf(results, limit);
    if |results| > limit {
      PageOfItems(results, limit);
      assert |page.0| == limit;
      assert page.0[limit - 1] == ParseCustomerRequest(results[limit - 1]);
    }
  }

  /** The ids of the page are the first `limit` of the fetched ids; a
      cursor exactly when more matched. */
  lemma PageOfIds(m: set<string>, limit: nat, results: seq<CustomerRequest>)
    requires limit > 0
    requires IsFirst(IdsOf(results), m, limit + 1)
    ensures var page := PageOf(results, limit);
      && IsFirst(IdsOf(page.0), m, limit)
      && (page.1.Some? <==> exists x :: x in m && x !in IdsOf(page.0))
  {
    FirstPrefix(IdsOf(results), m, limit);
    PageOfItems(results, limit);
  }

  /** Each listed item is the parsed form of its stored row. */
  lemma PageOfRows(rows: map<string, CustomerRequest>, limit: nat, results: seq<CustomerRequest>)
    requires limit > 0
    requires forall i :: 0 <= i < |results| ==> results[i].id in rows && rows[results[i].id] == results[i]
    ensures var items := PageOf(results, limit).0;
      forall i :: 0 <= i < |items| ==> items[i].id in rows && items[i] == ParseCustomerRequest(rows[items[i].id])
  {
    var items := PageOf(results, limit).0;
    PageOfItems(results, limit);
    forall i | 0 <= i < |items|
      ensures items[i].id in rows && items[i] == ParseCustomerRequest(rows[items[i].id])
    {
      assert items[i] == ParseCustomerRequest(results[i]);
    }
  }

  lemma PageOfResults(rows: map<string, CustomerRequest>, f: Filter, limit: nat, results: seq<CustomerRequest>)
    requires limit > 0
    requires IsFirst(IdsOf(results), Matching(rows, f), limit + 1)
    requires forall i :: 0 <= i < |results| ==> results[i].id in rows && rows[results[i].id] == results[i]
    ensures IsPage(rows, f, limit, PageOf(results, limit).0, PageOf(results, limit).1)
  {
    PageOfIds(Matching(rows, f), limit, results);
    PageOfCursor(results, limit);
    PageOfRows(rows, limit, results);
  }

  /** `GET /api/v1/customer-requests`: read-only. `number` is the schema's
      numeric coercion; `fault` a failure of the query. */
  method List(store: RecordStore, env: Env, authorization: Option<string>, params: SearchParams,
              number: string -> Option<int>, fault: Option<string>)
    returns (resp: HttpResponse)
    requires store.Valid()
    ensures RequireBearerAuth(env, authorization).Err? ==>
      resp == GetError(App(RequireBearerAuth(env, authorization).error))
    ensures RequireBearerAuth(env, authorization).Ok? && ParseListQuery(ReadParams(params), number).Err? ==>
      resp == GetError(ValidationFailure(ParseListQuery(ReadParams(params), number).error))
    ensures resp.status == 200 <==>
      RequireBearerAuth(env, authorization).Ok? && ParseListQuery(ReadParams(params), number).Ok? && fault.None?
    ensures RequireBearerAuth(env, authorization).Ok? && ParseListQuery(ReadParams(params), number).Ok? && fault.Some? ==>
      resp == GetError(PlainError(fault.value))
    ensures resp.status == 200 ==>
      var q := ParseListQuery(ReadParams(params), number).value;
      resp.body.Listed? && IsPage(store.rows, QueryFilter(q), q.limit, resp.body.items, resp.body.nextCursor)
  {
    var auth := RequireBearerAuth(env, authorization);
    if auth.Err? {
      resp := GetError(App(auth.error));
      return;
    }
    var validated := ParseListQuery(ReadParams(params), number);
    if validated.Err? {
      resp := GetError(ValidationFailure(validated.error));
      return;
    }
    var q := validated.value;
    if fault.Some? {
      resp := GetError(PlainError(fault.value));
      return;
    }
    var results := store.SelectFirst(QueryFilter(q), q.limit + 1);
    var (items, nextCursor) := PageOf(results, q.limit);
    PageOfResults(store.rows, QueryFilter(q), q.limit, results);
    resp := HttpResponse(200, Listed(items, nextCursor));
  }

  /** Following `next_cursor` neither skips nor repeats a record: the first
      page followed by the page after its cursor is the first page of the
      combined size. */
  lemma PagesContinue(rows: map<string, CustomerRequest>, f: Filter, l1: nat, l2: nat,
                      items1: seq<CustomerRequest>, c: string, items2: seq<CustomerRequest>, next2: Option<string>)
    requires WellFormed(rows)
    requires IsPage(rows, f, l1, items1, Some(c))
    requires IsPage(rows, f.(after := Some(c)), l2, items2, next2)
    ensures IsFirst(IdsOf(items1 + items2), Matching(rows, f), l1 + l2)
  {
    FullPage(rows, f, l1, items1, c);
    NextPage(rows, f, l1, l2, IdsOf(items1), c, IdsOf(items2));
    IdsOfAppend(items1, items2);
  }

  lemma NextPage(rows: map<string, CustomerRequest>, f: Filter, l1: nat, l2: nat,
                 ids1: seq<string>, c: string, ids2: seq<string>)
    requires WellFormed(rows)
    requires IsFirst(ids1, Matching(rows, f), l1) && |ids1| == l1 && l1 > 0 && c == ids1[l1 - 1]
    requires IsFirst(ids2, Matching(rows, f.(after := Some(c))), l2)
    ensures IsFirst(ids1 + ids2, Matching(rows, f), l1 + l2)
  {
    var m := Matching(rows, f);
    MatchingAfterCursor(rows, f, c);
    FirstThenRest(ids1, ids2, m, l1, l2);
  }

  /** A page with a cursor is full, and the cursor is its last id. */
  lemma FullPage(rows: map<string, CustomerRequest>, f: Filter, limit: nat, items: seq<CustomerRequest>, c: string)
    requires IsPage(rows, f, limit, items, Some(c))
    ensures |items| == limit && limit > 0 && c == IdsOf(items)[limit - 1] && c in Matching(rows, f)
  {
    var x :| x in Matching(rows, f) && x !in IdsOf(items);
  }

  /** A page is determined by the rows, the filter and the limit. */
  lemma PageIsDetermined(rows: map<string, CustomerRequest>, f: Filter, limit: nat,
                         items1: seq<CustomerRequest>, next1: Option<string>,
                         items2: seq<CustomerRequest>, next2: Option<string>)
    requires IsPage(rows, f, limit, items1, next1) && IsPage(rows, f, limit, items2, next2)
    ensures items1 == items2 && next1 == next2
  {
    IsFirstUnique(IdsOf(items1), IdsOf(items2), Matching(rows, f), limit);
    assert |items1| == |items2|;
    forall i | 0 <= i < |items1| ensures items1[i] == items2[i] {
      assert items1[i].id == IdsOf(items1)[i];
    }
  }
}
