/** The tracker's webhook endpoint: it authenticates a delivery, routes it by
    event type and action, and reconciles the record store with the ticket:
    status changes (with an optional generated resolution reply), soft
    deletion and latest-comment capture. HMAC, JSON parsing, the state
    mapping, the comment fetch, text generation and the clock are
    parameters. */
module Webhook {
  import opened Wrappers
  import opened Strings
  import opened Config
  import opened Errors
  import opened Bearer
  import opened CustomerRequests
  import opened Store

  const BearerVar := "WEBHOOK_BEARER_TOKEN"
  const SecretVar := "LINEAR_WEBHOOK_SECRET"
  const SignaturePrefix := "sha256="
  const AuthFailedMessage := "Invalid webhook authentication"
  const LinearStateKey := "linear_state"
  const LatestCommentKey := "latest_comment"
  /** What the runtime throws when a handler reads `event.data.id` of an
      event without `data`. */
  const MissingDataMessage := "Cannot read properties of undefined (reading 'id')"

  /** `process.env[key]?.trim()` */
  function EnvTrimmed(env: Env, key: string): (r: Option<string>)
    ensures r.Some? <==> key in env
    ensures r.Some? ==> r.value == Trim(env[key])
  {
    if key in env then Some(Trim(env[key])) else None
  }

  /** `signature.replace(/^sha256=/, "")`: one leading prefix is removed. */
  function StripPrefix(signature: string): (r: string)
    ensures r == signature || signature == SignaturePrefix + r
  {
    if |signature| >= |SignaturePrefix| && signature[..|SignaturePrefix|] == SignaturePrefix
    then signature[|SignaturePrefix|..] else signature
  }

  /** `hmac(secret, body)` is the hex HMAC-SHA256 digest of the body. */
  function VerifyWebhookHmacSignature(env: Env, signature: Option<string>, body: string,
                                      hmac: (string, string) -> string): bool
  {
    var secret := EnvTrimmed(env, SecretVar);
    if !Truthy(secret) then false
    else if !Truthy(signature) then false
    else
      var expected := hmac(secret.value, body);
      StripPrefix(signature.value) == expected || signature.value == expected
  }

  /** A signature passes exactly when a secret is configured and the
      signature is the digest, bare or behind one "sha256=" prefix. */
  lemma HmacSignatureIff(env: Env, signature: Option<string>, body: string, hmac: (string, string) -> string)
    ensures VerifyWebhookHmacSignature(env, signature, body, hmac) <==>
      var secret := EnvTrimmed(env, SecretVar);
      Truthy(secret) && Truthy(signature)
      && (signature.value == hmac(secret.value, body) || signature.value == SignaturePrefix + hmac(secret.value, body))
  {
    var secret := EnvTrimmed(env, SecretVar);
    if Truthy(secret) && Truthy(signature) {
      var e := hmac(secret.value, body);
      if signature.value == SignaturePrefix + e {
        assert signature.value[..|SignaturePrefix|] == SignaturePrefix;
        assert signature.value[|SignaturePrefix|..] == e;
      }
    }
  }

  function VerifyWebhookAuth(env: Env, authorization: Option<string>, signature: Option<string>, body: string,
                             hmac: (string, string) -> string): bool
  {
    var bearer := EnvTrimmed(env, BearerVar);
    if Truthy(bearer) && VerifyBearerToken(authorization, bearer.value) then true
    else if VerifyWebhookHmacSignature(env, signature, body, hmac) then true
    else if !(Truthy(bearer) || Truthy(EnvTrimmed(env, SecretVar))) then true
    else false
  }

  /** The webhook gate fails open: with neither a bearer token nor a secret
      configured, every delivery passes. Otherwise either credential that is
      configured suffices: a delivery passes exactly when its header carries
      the bearer token or its signature verifies. */
  lemma WebhookAuthDecision(env: Env, authorization: Option<string>, signature: Option<string>, body: string,
                            hmac: (string, string) -> string)
    ensures !Truthy(EnvTrimmed(env, BearerVar)) && !Truthy(EnvTrimmed(env, SecretVar)) ==>
      VerifyWebhookAuth(env, authorization, signature, body, hmac)
    ensures !Truthy(EnvTrimmed(env, BearerVar)) && Truthy(EnvTrimmed(env, SecretVar)) ==>
      (VerifyWebhookAuth(env, authorization, signature, body, hmac) <==>
       VerifyWebhookHmacSignature(env, signature, body, hmac))
    ensures Truthy(EnvTrimmed(env, BearerVar)) && !Truthy(EnvTrimmed(env, SecretVar)) ==>
      (VerifyWebhookAuth(env, authorization, signature, body, hmac) <==>
       VerifyBearerToken(authorization, EnvTrimmed(env, BearerVar).value))
    ensures VerifyWebhookAuth(env, authorization, signature, body, hmac) <==>
      || (Truthy(EnvTrimmed(env, BearerVar)) && VerifyBearerToken(authorization, EnvTrimmed(env, BearerVar).value))
      || VerifyWebhookHmacSignature(env, signature, body, hmac)
      || (!Truthy(EnvTrimmed(env, BearerVar)) && !Truthy(EnvTrimmed(env, SecretVar)))
  {
  }

  /** The handler a delivery is routed to. */
  datatype Route = UpsertRoute | DeletionRoute | CommentRoute | Ignored

  function Classify(kind: string, action: string): (r: Route)
    ensures r == UpsertRoute <==> kind == "Issue" && (action == "create" || action == "update")
    ensures r == DeletionRoute <==> kind == "Issue" && (action == "remove" || action == "delete")
    ensures r == CommentRoute <==> kind == "Comment" && action == "create"
  {
    if kind == "Issue" then
      if action == "create" || action == "update" then UpsertRoute
      else if action == "remove" || action == "delete" then DeletionRoute
      else Ignored
    else if kind == "Comment" && action == "create" then CommentRoute
    else Ignored
  }

  datatype StateRef = StateRef(id: string, name: string)
  datatype CommentNode = CommentNode(id: string, body: string, createdAt: string, user: Option<User>)
  datatype CommentList = CommentList(nodes: Option<seq<CommentNode>>)
  datatype EventData = EventData(id: Option<string>, identifier: Option<string>, state: Option<StateRef>,
                                 comments: Option<CommentList>)

  /** A parsed delivery. An absent `type` or `action` is represented by a
      string no route uses. */
  datatype WebhookEvent = WebhookEvent(kind: string, action: string, data: Option<EventData>)

  /** What the reply generator is given. */
  datatype ResolutionInput = ResolutionInput(userName: Option<string>, originalContent: string,
                                             latestCommentText: string, issueIdentifier: string)

  /** The tracker-side collaborators: `mapState` may throw (`Err`); a failed
      or empty comment fetch and a failed or disabled generation read as
      `None`. */
  datatype Tracker = Tracker(
    mapState: string -> Result<Status, string>,
    latestComment: string -> Option<string>,
    generate: ResolutionInput -> Option<string>)

  /** The reply text after a status change: replaced only on a transition
      into `resolved` when a comment and a generated reply both exist. */
  function Resolution(parsed: CustomerRequest, newStatus: Status, issueId: string, identifier: Option<string>,
                      tracker: Tracker): Option<string>
  {
    if newStatus == Resolved && parsed.status != Resolved then
      var text := tracker.latestComment(issueId);
      if Truthy(text) then
        var generated := tracker.generate(ResolutionInput(parsed.userName, parsed.content, text.value,
                                                          if Truthy(identifier) then identifier.value else issueId));
        if Truthy(generated) then generated else parsed.response
      else parsed.response
    else parsed.response
  }

  /** The one UPDATE a status change performs. */
  function StatusPatch(stored: CustomerRequest, state: StateRef, newStatus: Status, issueId: string,
                       identifier: Option<string>, tracker: Tracker, now1: string, now2: string): Patch
  {
    var parsed := ParseCustomerRequest(stored);
    StatusChange(newStatus,
                 parsed.metadata.GetOr(map[])[LinearStateKey := LinearStateSnapshot(state.id, state.name, now1)],
                 Resolution(parsed, newStatus, issueId, identifier, tracker),
                 now2)
  }

  function Lift(r: (map<string, CustomerRequest>, Result<(), string>)): (map<string, CustomerRequest>, Result<(), Thrown>) {
    (r.0, if r.1.Ok? then Ok(()) else Err(PlainError(r.1.error)))
  }

  /** The store after the upsert handler and what it reports, given the row
      the lookup matched. */
  function UpsertEffect(rows: map<string, CustomerRequest>, data: EventData, matched: Option<string>,
                        tracker: Tracker, now1: string, now2: string, fault: Option<string>)
    : (map<string, CustomerRequest>, Result<(), Thrown>)
    requires matched.Some? ==> matched.value in rows
  {
    if !Truthy(data.id) || data.state.None? || matched.None? then (rows, Ok(()))
    else
      var stored := rows[matched.value];
      var mapped := tracker.mapState(data.state.value.name);
      if mapped.Err? then (rows, Err(PlainError(mapped.error)))
      else if ParseCustomerRequest(stored).status == mapped.value then (rows, Ok(()))
      else Lift(Updated(rows, matched.value,
                        StatusPatch(stored, data.state.value, mapped.value, data.id.value, data.identifier, tracker, now1, now2),
                        fault))
  }

  function DeletionEffect(rows: map<string, CustomerRequest>, data: EventData, matched: Option<string>,
                          now1: string, fault: Option<string>)
    : (map<string, CustomerRequest>, Result<(), Thrown>)
  {
    if !Truthy(data.id) || matched.None? then (rows, Ok(()))
    else Lift(Updated(rows, matched.value, SoftDelete(now1), fault))
  }

  /** The comment list of an event, when it has at least one comment. */
  function Comments(data: EventData): Option<seq<CommentNode>> {
    if data.comments.Some? && data.comments.value.nodes.Some? && |data.comments.value.nodes.value| > 0
    then data.comments.value.nodes else None
  }

  function CommentPatch(stored: CustomerRequest, latest: CommentNode, now1: string): Patch {
    CommentCapture(ParseCustomerRequest(stored).metadata.GetOr(map[])
                     [LatestCommentKey := CommentSnapshot(latest.id, latest.body, latest.createdAt, latest.user)],
                   now1)
  }

  function CommentEffect(rows: map<string, CustomerRequest>, data: EventData, matched: Option<string>,
                         now1: string, fault: Option<string>)
    : (map<string, CustomerRequest>, Result<(), Thrown>)
    requires matched.Some? ==> matched.value in rows
  {
    var comments := Comments(data);
    if !Truthy(data.id) || comments.None? || matched.None? then (rows, Ok(()))
    else
      var latest := comments.value[|comments.value| - 1];
      Lift(Updated(rows, matched.value, CommentPatch(rows[matched.value], latest, now1), fault))
  }

  /** Whether the handler of `route` gets as far as looking up the row
      linked to the ticket. */
  predicate ReachesLookup(route: Route, data: EventData) {
    match route
    case UpsertRoute => Truthy(data.id) && data.state.Some?
    case DeletionRoute => Truthy(data.id)
    case CommentRoute => Truthy(data.id) && Comments(data).Some?
    case Ignored => false
  }

  /** The lookup found `matched` for the ticket, or found nothing. */
  predicate LookupResult(rows: map<string, CustomerRequest>, ticket: string, matched: Option<string>) {
    && (matched.Some? ==> matched.value in rows && LinkedTo(rows[matched.value], ticket))
    && (matched.None? ==> forall id :: id in rows ==> !LinkedTo(rows[id], ticket))
  }

  /** At most one live row is linked to the ticket. */
  predicate UniqueLink(rows: map<string, CustomerRequest>, ticket: string) {
    forall a, b :: a in rows && b in rows && LinkedTo(rows[a], ticket) && LinkedTo(rows[b], ticket) ==> a == b
  }

  /** `handleIssueEvent`. `labelled` says whether the tracker was asked to
      label the ticket (a best-effort call whose failure is ignored). */
  method HandleIssueEvent(store: RecordStore, data: EventData, action: string, tracker: Tracker,
                          now1: string, now2: string, lookupFault: Option<string>, fault: Option<string>)
    returns (matched: Option<string>, labelled: bool, r: Result<(), Thrown>)
    requires store.Valid()
    modifies store
    ensures store.Valid()
    ensures labelled <==> Truthy(data.id) && action == "create"
    ensures matched.Some? ==> ReachesLookup(UpsertRoute, data) && lookupFault.None?
    ensures ReachesLookup(UpsertRoute, data) && lookupFault.None? ==> LookupResult(old(store.rows), data.id.value, matched)
    ensures ReachesLookup(UpsertRoute, data) && lookupFault.Some? ==>
      store.rows == old(store.rows) && r == Err(PlainError(lookupFault.value))
    ensures !(ReachesLookup(UpsertRoute, data) && lookupFault.Some?) ==>
      (store.rows, r) == UpsertEffect(old(store.rows), data, matched, tracker, now1, now2, fault)
  {
    matched := None;
    labelled := false;
    r := Ok(());
    if !Truthy(data.id) {
      return;
    }
    var issueId := data.id.value;
    if action == "create" {
      labelled := true;
    }
    if data.state.None? {
      return;
    }
    var state := data.state.value;
    if lookupFault.Some? {
      r := Err(PlainError(lookupFault.value));
      return;
    }
    matched := store.FindLinked(issueId);
    if matched.None? {
      return;
    }
    var stored := store.rows[matched.value];
    var customerRequest := ParseCustomerRequest(stored);
    var mapped := tracker.mapState(state.name);
    if mapped.Err? {
      r := Err(PlainError(mapped.error));
      return;
    }
    var newStatus := mapped.value;
    if customerRequest.status != newStatus {
      var metadata := customerRequest.metadata.GetOr(map[]);
      metadata := metadata[LinearStateKey := LinearStateSnapshot(state.id, state.name, now1)];
      var responseText := customerRequest.response;
      if newStatus == Resolved && customerRequest.status != Resolved {
        var latestCommentText := tracker.latestComment(issueId);
        if Truthy(latestCommentText) {
          var identifier := if Truthy(data.identifier) then data.identifier.value else issueId;
          var resolutionResponse := tracker.generate(
            ResolutionInput(customerRequest.userName, customerRequest.content, latestCommentText.value, identifier));
          if Truthy(resolutionResponse) {
            responseText := resolutionResponse;
          }
        }
      }
      var w := store.Update(customerRequest.id, StatusChange(newStatus, metadata, responseText, now2), fault);
      r := if w.Ok? then Ok(()) else Err(PlainError(w.error));
    }
  }

  /** `handleIssueDeletion`: the matched live row is soft-deleted. */
  method HandleIssueDeletion(store: RecordStore, data: EventData, now1: string,
                             lookupFault: Option<string>, fault: Option<string>)
    returns (matched: Option<string>, r: Result<(), Thrown>)
    requires store.Valid()
    modifies store
    ensures store.Valid()
    ensures matched.Some? ==> ReachesLookup(DeletionRoute, data) && lookupFault.None?
    ensures ReachesLookup(DeletionRoute, data) && lookupFault.None? ==> LookupResult(old(store.rows), data.id.value, matched)
    ensures ReachesLookup(DeletionRoute, data) && lookupFault.Some? ==>
      store.rows == old(store.rows) && r == Err(PlainError(lookupFault.value))
    ensures !(ReachesLookup(DeletionRoute, data) && lookupFault.Some?) ==>
      (store.rows, r) == DeletionEffect(old(store.rows), data, matched, now1, fault)
  {
    matched := None;
    r := Ok(());
    if !Truthy(data.id) {
      return;
    }
    if lookupFault.Some? {
      r := Err(PlainError(lookupFault.value));
      return;
    }
    matched := store.FindLinked(data.id.value);
    if matched.None? {
      return;
    }
    var deletedAt := now1;
    var w := store.Update(store.rows[matched.value].id, SoftDelete(deletedAt), fault);
    r := if w.Ok? then Ok(()) else Err(PlainError(w.error));
  }

  /** `handleCommentEvent`: the last comment of the event is recorded. */
  method HandleCommentEvent(store: RecordStore, data: EventData, now1: string,
                            lookupFault: Option<string>, fault: Option<string>)
    returns (matched: Option<string>, r: Result<(), Thrown>)
    requires store.Valid()
    modifies store
    ensures store.Valid()
    ensures matched.Some? ==> ReachesLookup(CommentRoute, data) && lookupFault.None?
    ensures ReachesLookup(CommentRoute, data) && lookupFault.None? ==> LookupResult(old(store.rows), data.id.value, matched)
    ensures ReachesLookup(CommentRoute, data) && lookupFault.Some? ==>
      store.rows == old(store.rows) && r == Err(PlainError(lookupFault.value))
    ensures !(ReachesLookup(CommentRoute, data) && lookupFault.Some?) ==>
      (store.rows, r) == CommentEffect(old(store.rows), data, matched, now1, fault)
  {
    matched := None;
    r := Ok(());
    var comments := Comments(data);
    if !Truthy(data.id) || comments.None? {
      return;
    }
    var latestComment := comments.value[|comments.value| - 1];
    if lookupFault.Some? {
      r := Err(PlainError(lookupFault.value));
      return;
    }
    matched := store.FindLinked(data.id.value);
    if matched.None? {
      return;
    }
    var customerRequest := ParseCustomerRequest(store.rows[matched.value]);
    var metadata := customerRequest.metadata.GetOr(map[]);
    metadata := metadata[LatestCommentKey :=
      CommentSnapshot(latestComment.id, latestComment.body, latestComment.createdAt, latestComment.user)];
    var w := store.Update(customerRequest.id, CommentCapture(metadata, now1), fault);
    r := if w.Ok? then Ok(()) else Err(PlainError(w.error));
  }

  /** The body of a webhook reply. */
  datatype ReplyBody = Success | Failure(error: Envelope) | AuthFailure(error: Envelope)
  datatype Reply = Reply(status: int, body: ReplyBody)

  /** The reply for a handler outcome: any thrown error still answers 200. */
  function ReplyFor(r: Result<(), Thrown>): (reply: Reply)
    ensures reply.status == 200
    ensures reply.body == Success <==> r.Ok?
  {
    if r.Ok? then Reply(200, Success) else Reply(200, Failure(FormatErrorResponse(r.error)))
  }

  /** The webhook `POST`: authenticate, parse the body, route, reply.
      `route` is the handler chosen, `matched` the row its lookup found;
      `lookupFault` is a failure of the handler's lookup query, `fault` one
      of its UPDATE. */
  method Post(store: RecordStore, env: Env, authorization: Option<string>, signature: Option<string>, body: string,
              hmac: (string, string) -> string, parse: string -> Result<WebhookEvent, string>,
              tracker: Tracker, now1: string, now2: string, lookupFault: Option<string>, fault: Option<string>)
    returns (reply: Reply, route: Route, matched: Option<string>)
    requires store.Valid()
    modifies store
    ensures store.Valid()
    ensures !VerifyWebhookAuth(env, authorization, signature, body, hmac) ==>
      reply == Reply(401, AuthFailure(Envelope(AuthFailedMessage, None))) && store.rows == old(store.rows)
    ensures VerifyWebhookAuth(env, authorization, signature, body, hmac) ==> reply.status == 200
    ensures VerifyWebhookAuth(env, authorization, signature, body, hmac) && parse(body).Err? ==>
      reply == Reply(200, Failure(Envelope(parse(body).error, None))) && store.rows == old(store.rows)
    ensures route == Ignored ==> matched.None? && store.rows == old(store.rows)
    ensures matched.Some? ==> matched.value in old(store.rows)
    ensures VerifyWebhookAuth(env, authorization, signature, body, hmac) && parse(body).Ok? ==>
      route == Classify(parse(body).value.kind, parse(body).value.action)
    ensures route == Ignored && VerifyWebhookAuth(env, authorization, signature, body, hmac) && parse(body).Ok? ==>
      reply == Reply(200, Success)
    ensures route != Ignored && parse(body).Ok? && parse(body).value.data.None? ==>
      reply == Reply(200, Failure(Envelope(MissingDataMessage, None))) && store.rows == old(store.rows)
    ensures route != Ignored && parse(body).Ok? && parse(body).value.data.Some?
            && ReachesLookup(route, parse(body).value.data.value) && lookupFault.None? ==>
      LookupResult(old(store.rows), parse(body).value.data.value.id.value, matched)
    ensures route != Ignored && parse(body).Ok? && parse(body).value.data.Some?
            && ReachesLookup(route, parse(body).value.data.value) && lookupFault.Some? ==>
      reply == Reply(200, Failure(Envelope(lookupFault.value, None))) && store.rows == old(store.rows)
    ensures route != Ignored && parse(body).Ok? && parse(body).value.data.Some?
            && !(ReachesLookup(route, parse(body).value.data.value) && lookupFault.Some?) ==>
      var data := parse(body).value.data.value;
      (store.rows, reply) ==
        (var e :=
           if route == UpsertRoute then UpsertEffect(old(store.rows), data, matched, tracker, now1, now2, fault)
           else if route == DeletionRoute then DeletionEffect(old(store.rows), data, matched, now1, fault)
           else CommentEffect(old(store.rows), data, matched, now1, fault);
         (e.0, ReplyFor(e.1)))
  {
    route := Ignored;
    matched := None;
    if !VerifyWebhookAuth(env, authorization, signature, body, hmac) {
      reply := Reply(401, AuthFailure(FormatErrorResponse(App(WebhookAuthError(AuthFailedMessage)))));
      return;
    }
    var event := parse(body);
    if event.Err? {
      reply := ReplyFor(Err(PlainError(event.error)));
      return;
    }
    route := Classify(event.value.kind, event.value.action);
    var r: Result<(), Thrown> := Ok(());
    if route != Ignored && event.value.data.None? {
      r := Err(PlainError(MissingDataMessage));
    } else if route == UpsertRoute {
      var labelled;
      matched, labelled, r := HandleIssueEvent(store, event.value.data.value, event.value.action, tracker, now1, now2, lookupFault, fault);
    } else if route == DeletionRoute {
      matched, r := HandleIssueDeletion(store, event.value.data.value, now1, lookupFault, fault);
    } else if route == CommentRoute {
      matched, r := HandleCommentEvent(store, event.value.data.value, now1, lookupFault, fault);
    }
    reply := ReplyFor(r);
  }
  /** The response a status change writes is the stored one (an empty one
      reading as none) unless the record moves into `resolved` and both the
      latest comment and the generated reply exist; a stored reply is never
      lost. */
  lemma ResolutionNeverDestroys(parsed: CustomerRequest, newStatus: Status, issueId: string,
                                identifier: Option<string>, tracker: Tracker)
    ensures var r := Resolution(parsed, newStatus, issueId, identifier, tracker);
      r == parsed.response
      || (&& newStatus == Resolved && parsed.status != Resolved
          && Truthy(tracker.latestComment(issueId)) && Truthy(r))
    ensures Truthy(parsed.response) ==> Truthy(Resolution(parsed, newStatus, issueId, identifier, tracker))
    ensures newStatus != Resolved ==> Resolution(parsed, newStatus, issueId, identifier, tracker) == parsed.response
  {
  }

  /** A status change rewrites exactly the matched row, and in it only the
      status, the `linear_state` metadata entry (other entries are kept, a
      null bag becomes an empty one), the response and `updated_at`. */
  lemma StatusChangeEffect(rows: map<string, CustomerRequest>, data: EventData, m: string,
                           tracker: Tracker, now1: string, now2: string, fault: Option<string>)
    requires m in rows && Truthy(data.id) && data.state.Some?
    requires tracker.mapState(data.state.value.name).Ok?
    requires ParseCustomerRequest(rows[m]).status != tracker.mapState(data.state.value.name).value
    requires UpsertEffect(rows, data, Some(m), tracker, now1, now2, fault).1.Ok?
    ensures var rows' := UpsertEffect(rows, data, Some(m), tracker, now1, now2, fault).0;
      var old_row := rows[m];
      var new_row := rows'[m];
      var state := data.state.value;
      && rows'.Keys == rows.Keys
      && (forall id :: id in rows && id != m ==> rows'[id] == rows[id])
      && new_row.status == tracker.mapState(state.name).value
      && new_row.updatedAt == now2
      && new_row.metadata.Some?
      && new_row.metadata.value[LinearStateKey] == LinearStateSnapshot(state.id, state.name, now1)
      && (forall k :: k != LinearStateKey ==>
            (k in new_row.metadata.value <==> k in old_row.metadata.GetOr(map[]))
            && (k in new_row.metadata.value ==> new_row.metadata.value[k] == old_row.metadata.GetOr(map[])[k]))
      && new_row.response == Resolution(ParseCustomerRequest(old_row), new_row.status, data.id.value, data.identifier, tracker)
      && new_row == old_row.(status := new_row.status, metadata := new_row.metadata,
                             response := new_row.response, updatedAt := now2)
  {
  }

  /** Replaying a delivery is harmless: once the upsert has succeeded, the
      same event again (at any later time, whatever the database does)
      finds the status already equal and writes nothing. This relies on
      the ticket being linked to at most one live row. */
  lemma UpsertIdempotent(rows: map<string, CustomerRequest>, data: EventData, m1: Option<string>, m2: Option<string>,
                         tracker: Tracker, now1: string, now2: string, fault: Option<string>,
                         later1: string, later2: string, fault2: Option<string>)
    requires WellFormed(rows)
    requires Truthy(data.id) && data.state.Some?
    requires LookupResult(rows, data.id.value, m1) && UniqueLink(rows, data.id.value)
    requires UpsertEffect(rows, data, m1, tracker, now1, now2, fault).1.Ok?
    requires LookupResult(UpsertEffect(rows, data, m1, tracker, now1, now2, fault).0, data.id.value, m2)
    ensures var rows1 := UpsertEffect(rows, data, m1, tracker, now1, now2, fault).0;
      UpsertEffect(rows1, data, m2, tracker, later1, later2, fault2) == (rows1, Ok(()))
  {
    var ticket := data.id.value;
    var rows1 := UpsertEffect(rows, data, m1, tracker, now1, now2, fault).0;
    if m1.None? {
      assert rows1 == rows;
    } else {
      var id := m1.value;
      var mapped := tracker.mapState(data.state.value.name);
      var stored := rows[id];
      if ParseCustomerRequest(stored).status == mapped.value {
        assert rows1 == rows;
        if m2.Some? { assert m2.value == id; }
      } else {
        var p := StatusPatch(stored, data.state.value, mapped.value, ticket, data.identifier, tracker, now1, now2);
        assert p.StatusChange? && p.status == mapped.value;
        assert rows1 == Updated(rows, id, p, fault).0;
        UpdatedLinksWithin(rows, id, p, fault, ticket);
        assert rows1[id] == Apply(stored, p);
        if m2.Some? { assert m2.value == id; }
      }
    }
  }

  /** Only live rows linked to the ticket match, and a match gets the same
      timestamp as `deleted_at` and `updated_at`; nothing else changes. */
  lemma DeletionMarks(rows: map<string, CustomerRequest>, data: EventData, m: string, now1: string)
    requires m in rows && Truthy(data.id) && WellFormed(rows)
    ensures var rows' := DeletionEffect(rows, data, Some(m), now1, None).0;
      && DeletionEffect(rows, data, Some(m), now1, None).1.Ok?
      && rows'.Keys == rows.Keys
      && rows'[m] == rows[m].(deletedAt := Some(now1), updatedAt := now1)
      && (forall id :: id in rows && id != m ==> rows'[id] == rows[id])
  {
  }

  /** A second deletion of the same ticket finds no live linked row and is a
      no-op, provided the ticket was linked to at most one live row. */
  lemma DeletionIdempotent(rows: map<string, CustomerRequest>, data: EventData, m1: Option<string>, m2: Option<string>,
                           now1: string, fault: Option<string>, later: string, fault2: Option<string>)
    requires Truthy(data.id)
    requires LookupResult(rows, data.id.value, m1) && UniqueLink(rows, data.id.value)
    requires DeletionEffect(rows, data, m1, now1, fault).1.Ok?
    requires LookupResult(DeletionEffect(rows, data, m1, now1, fault).0, data.id.value, m2)
    ensures m2.None?
    ensures var rows1 := DeletionEffect(rows, data, m1, now1, fault).0;
      DeletionEffect(rows1, data, m2, later, fault2) == (rows1, Ok(()))
  {
    var rows1 := DeletionEffect(rows, data, m1, now1, fault).0;
    forall id | id in rows1 ensures !LinkedTo(rows1[id], data.id.value) {
      assert m1.Some? && id != m1.value ==> rows1[id] == rows[id];
    }
  }

  /** The comment handler records the last comment of the event (its user
      only when the comment has one), keeps every other metadata entry and
      touches only the matched row. */
  lemma CommentCaptured(rows: map<string, CustomerRequest>, data: EventData, m: string, now1: string)
    requires m in rows && Truthy(data.id) && Comments(data).Some? && WellFormed(rows)
    ensures var rows' := CommentEffect(rows, data, Some(m), now1, None).0;
      var nodes := data.comments.value.nodes.value;
      var latest := nodes[|nodes| - 1];
      var md := rows'[m].metadata;
      && CommentEffect(rows, data, Some(m), now1, None).1.Ok?
      && rows'.Keys == rows.Keys
      && (forall id :: id in rows && id != m ==> rows'[id] == rows[id])
      && md.Some?
      && md.value[LatestCommentKey] == CommentSnapshot(latest.id, latest.body, latest.createdAt, latest.user)
      && (forall k :: k != LatestCommentKey ==>
            (k in md.value <==> k in rows[m].metadata.GetOr(map[]))
            && (k in md.value ==> md.value[k] == rows[m].metadata.GetOr(map[])[k]))
      && rows'[m] == rows[m].(metadata := md, updatedAt := now1)
  {
  }

  /** An event without a comment leaves the store alone. */
  lemma NoCommentsNoChange(rows: map<string, CustomerRequest>, data: EventData, m: Option<string>,
                           now1: string, fault: Option<string>)
    requires m.Some? ==> m.value in rows
    requires data.comments.None? || data.comments.value.nodes.None? || data.comments.value.nodes.value == []
    ensures CommentEffect(rows, data, m, now1, fault) == (rows, Ok(()))
  {
  }

  /** An update that does not link keeps a ticket linked to at most one
      live row: it never links a row, and never revives a deleted one. */
  lemma UpdatedLinksWithin(rows: map<string, CustomerRequest>, id: string, p: Patch, fault: Option<string>, ticket: string)
    requires !p.Link?
    ensures var r := Updated(rows, id, p, fault).0;
      forall x :: x in r && LinkedTo(r[x], ticket) ==> x in rows && LinkedTo(rows[x], ticket)
  {
  }

  lemma UpdatedKeepsUniqueLink(rows: map<string, CustomerRequest>, id: string, p: Patch, fault: Option<string>, ticket: string)
    requires !p.Link?
    requires UniqueLink(rows, ticket)
    ensures UniqueLink(Updated(rows, id, p, fault).0, ticket)
  {
    UpdatedLinksWithin(rows, id, p, fault, ticket);
  }

  lemma UpsertKeepsUniqueLink(rows: map<string, CustomerRequest>, data: EventData, m: Option<string>, ticket: string,
                              tracker: Tracker, now1: string, now2: string, fault: Option<string>)
    requires m.Some? ==> m.value in rows
    requires UniqueLink(rows, ticket)
    ensures UniqueLink(UpsertEffect(rows, data, m, tracker, now1, now2, fault).0, ticket)
  {
    if Truthy(data.id) && m.Some? && data.state.Some? {
      var mapped := tracker.mapState(data.state.value.name);
      if mapped.Ok? {
        var p := StatusPatch(rows[m.value], data.state.value, mapped.value, data.id.value, data.identifier, tracker, now1, now2);
        assert p.StatusChange?;
        UpdatedKeepsUniqueLink(rows, m.value, p, fault, ticket);
      }
    }
  }

  lemma CommentKeepsUniqueLink(rows: map<string, CustomerRequest>, data: EventData, m: Option<string>, ticket: string,
                               now1: string, fault: Option<string>)
    requires m.Some? ==> m.value in rows
    requires UniqueLink(rows, ticket)
    ensures UniqueLink(CommentEffect(rows, data, m, now1, fault).0, ticket)
  {
    var comments := Comments(data);
    if Truthy(data.id) && m.Some? && comments.Some? {
      var p := CommentPatch(rows[m.value], comments.value[|comments.value| - 1], now1);
      assert p.CommentCapture?;
      UpdatedKeepsUniqueLink(rows, m.value, p, fault, ticket);
    }
  }

  /** No handler links or unlinks a ticket, so a ticket linked to at most one
      live row stays so. */
  lemma HandlersKeepUniqueLink(rows: map<string, CustomerRequest>, data: EventData, m: Option<string>, ticket: string,
                               tracker: Tracker, now1: string, now2: string, fault: Option<string>)
    requires m.Some? ==> m.value in rows
    requires UniqueLink(rows, ticket)
    ensures UniqueLink(UpsertEffect(rows, data, m, tracker, now1, now2, fault).0, ticket)
    ensures UniqueLink(DeletionEffect(rows, data, m, now1, fault).0, ticket)
    ensures UniqueLink(CommentEffect(rows, data, m, now1, fault).0, ticket)
  {
    UpsertKeepsUniqueLink(rows, data, m, ticket, tracker, now1, now2, fault);
    if Truthy(data.id) && m.Some? {
      UpdatedKeepsUniqueLink(rows, m.value, SoftDelete(now1), fault, ticket);
    }
    CommentKeepsUniqueLink(rows, data, m, ticket, now1, fault);
  }
}
