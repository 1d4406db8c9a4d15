# linear-public-client, modelled in Dafny

This project models the server core of linear-public-client. The service
collects customer requests (bug reports and feature wishes), files each one
as a ticket in the Linear issue tracker, and keeps its own record of it in a
Cloudflare D1 table. It also runs a small dashboard that lists a project's
issues.

The model covers these parts of the service:

- **Request API** (`app/api/v1/customer-requests/route.ts`, module
  `Lifecycle`).
  - `POST` is a saga. It inserts a pending row, asks the tracker for a
    ticket, and links the row to that ticket. If the ticket call or the link
    update fails, it deletes the row again. A failure of the final read of
    the row leaves the linked row and answers 500.
  - `GET` lists live rows in ascending id order, one page at a time, with a
    cursor to the next page.
- **Webhook receiver** (`app/api/v1/webhooks/linear/route.ts`, module
  `Webhook`). It authenticates a delivery by bearer token or HMAC
  signature, or lets it through when neither is configured. It routes the
  delivery by event type and action. It then changes the store in one of
  three ways:
  - a status change, which can carry a generated resolution reply;
  - a soft delete;
  - a capture of the latest comment.
- **Record table** (module `Store`). It is a class over a map from id to
  row.
  - Its write methods are the routes' SQL statements.
  - The database can refuse any of them (the `fault` parameter).
  - The table refuses a duplicate id, and a status its CHECK constraint
    does not admit.
- **SQL placeholder substitution** (`lib/db/client.ts`, module
  `SqlClient`). A loop fills each `?` with the next parameter and quotes
  strings.
- **Request schemas** (`lib/validations/customer-request.ts`, module
  `Validation`) and the row-to-record conversion (module
  `CustomerRequests`).
- **Error classes and the JSON error envelope** (`lib/errors.ts`, module
  `Errors`).
- **Authentication and configuration**:
  - bearer-header parsing (`lib/auth/bearer.ts`, module `Bearer`);
  - the API gate (`lib/auth/middleware.ts`, module `ApiAuth`);
  - the dashboard's query-token gate (`middleware.ts`, module `PageGate`);
  - per-deployment tracker settings (`lib/config.ts`, module `Config`);
  - the text-generation flag and settings (`lib/openai/client.ts`, module
    `AiClient`).
- **Tracker client** (`lib/linear.ts`, module `Linear`). This covers the
  page size, the API-key rules, the checks on a GraphQL response, and the
  mapping of issue nodes. The HTTP round trip is a parameter.
- **Dashboard tables**. `components/project-issues.tsx` (module
  `ProjectIssues`) has the priority label and the sort orders.
  `components/completed-issues.tsx` (module `CompletedIssues`) has the
  "completed within" filter.
- **Migration script** (`scripts/migrate.ts`, module `Migrate`). It splits
  the schema file into statements and runs them in order, stopping at the
  first failure.

Shared modules:

- `Wrappers` has `Option` and `Result`.
- `Strings` models the JavaScript string primitives the code relies on:
  - `trim` and the `\s` character class;
  - `toLowerCase`;
  - `split(";")`, `split(/\s+/)` and `join`;
  - `String(n)`;
  - the text order the table's `ORDER BY id` uses.
- `Json` is a JSON value.

Everything the code only calls is a function-valued parameter:

- HMAC-SHA256;
- `JSON.parse` and `JSON.stringify`;
- `Number()`;
- `Date` parsing;
- `localeCompare`;
- the tracker's own calls: `mapLinearStateToStatus`,
  `fetchLinearIssueComments`, `createLinearIssue` and the GraphQL `fetch`;
- `generateResolutionResponse`.

The clock and `randomUUID` are plain parameters, and so are database
failures.

## Model

| member | source | states |
|---|---|---|
| Config.EnvKey | lib/config.ts:9 | The variable read is the prefix, then "_", then the suffix. |
| Config.ReadTrimmed | lib/config.ts:8-11 | A value exists only for a set variable. It is that variable's trimmed text, and it is never empty. |
| Config.ResolveProjectConfigFields | lib/config.ts:7-18 | `apiKey`, `projectId` and `teamId` come from `<prefix>_API_KEY`, `_PROJECT_ID` and `_TEAM_ID`. Each is undefined exactly when its variable is unset or all white space. Otherwise it has no white space at either end. |
| Config.ResolveProjectConfig | lib/config.ts:7-18 | Defines the settings of one deployment. Its properties are stated by `Config.ResolveProjectConfigFields`. |
| AiClient.AIFlag | lib/openai/client.ts:1-4 | An unset flag means disabled. "true" or "1" in any letter case and with any padding means enabled. Any other word, with any padding, means disabled. |
| AiClient.IsAIEnabled | lib/openai/client.ts:1-4 | Defines the flag test. Its properties, in both directions, are stated by `AiClient.AIFlag`. |
| AiClient.RequireOpenAIApiKey | lib/openai/client.ts:6-16 | It returns the trimmed key exactly when the key is set and not blank. Otherwise it throws an Error with the fixed message. |
| AiClient.GetOpenAIModel | lib/openai/client.ts:18-20 | The model name is never empty. |
| AiClient.ModelChoice | lib/openai/client.ts:18-20 | The model is the trimmed setting, or "gpt-4o-mini" when the setting is unset or blank. Either way it is trimmed. |
| Bearer.AcceptsPaddedHeader | lib/auth/bearer.ts:3-18 | A header is accepted when it has any padding, "bearer" in any letter case, any run of white space, and then the expected token. |
| Bearer.AcceptsPlainHeader | lib/auth/bearer.ts:3-18 | `<scheme> <token>` with a single space is accepted. |
| Bearer.RejectsOtherToken | lib/auth/bearer.ts:11-17 | The token comparison is exact and case-sensitive, so a different token is refused. |
| Bearer.AcceptedTokenHasNoSpace | lib/auth/bearer.ts:6-17 | An accepted header is present and non-empty. An expected token that contains white space can never match. |
| Bearer.AcceptedHeaderShape | lib/auth/bearer.ts:6-17 | An accepted header is exactly padding, the scheme "bearer" in some letter case, a non-empty run of white space, the non-empty expected token and padding. A third word, another scheme or a missing gap is refused. |
| Bearer.VerifyBearerTokenIff | lib/auth/bearer.ts:3-18 | A header is accepted exactly when it has that layout around the expected token. |
| Bearer.VerifyBearerToken | lib/auth/bearer.ts:3-18 | Defines the header check. Its properties are stated by `Bearer.VerifyBearerTokenIff`, `Bearer.AcceptedHeaderShape` and `Bearer.RejectsOtherToken`. |
| ApiAuth.RequireBearerAuth | lib/auth/middleware.ts:5-15 | Every failure is an `UnauthorizedError`. |
| ApiAuth.RequireBearerAuthIff | lib/auth/middleware.ts:5-15 | The gate passes exactly when a non-blank token is configured and the header carries it. With no token configured, every request fails with "not configured". With a token configured, every refusal says "Invalid or missing bearer token". |
| ApiAuth.AcceptsConfiguredToken | lib/auth/middleware.ts:5-15 | A well-formed header carrying the configured token passes, even when the configured value is padded. |
| PageGate.GateDecision | middleware.ts:4-20 | Paths other than "/", "/donde" and "/ondamx" always pass. With no secret configured, every request passes. Otherwise a request passes exactly when its token equals the trimmed secret, and the only refusal is 401 "Unauthorized". |
| PageGate.Middleware | middleware.ts:4-16 | Defines the gate on a matched path. Its properties are stated by `PageGate.GateDecision`. |
| Errors.NewNotFoundError | lib/errors.ts:8-13 | The default message is "Resource not found". |
| Errors.NewWebhookAuthError | lib/errors.ts:22-27 | The default message is "Webhook authentication failed". |
| Errors.NewUnauthorizedError | lib/errors.ts:29-34 | The default message is "Unauthorized". |
| Errors.FormatErrorResponse | lib/errors.ts:43-85 | The envelope's message is the error's message. For a thrown value that is not an Error, it is "An unexpected error occurred". |
| Errors.EnvelopeDetails | lib/errors.ts:43-85 | Only validation and tracker errors carry `details`, and they carry them unchanged. The status code never reaches the envelope. |
| Linear.GetPageSize | lib/linear.ts:53-55 | A given `first`, 0 included, wins over the default. The default is 100. |
| Linear.GetLinearApiKey | lib/linear.ts:57-65 | A key that is returned is the raw trimmed key. It is non-empty and does not spell "undefined" or "null" in any letter case. Conversely, every raw key that is non-empty and spells neither is returned. |
| Linear.ApiKeyPrecedence | lib/linear.ts:57-65 | A configured key overrides the environment, even a blank one, which then means no key at all. A configured key that is not blank and spells neither "undefined" nor "null" is the key returned, trimmed. Without a configured key, the same holds for the environment key. With neither key there is no key. Returned keys are trimmed. |
| Linear.RequireLinearApiKey | lib/linear.ts:67-73 | It throws the missing-key error exactly when there is no key. Otherwise it returns that key. |
| Linear.PresentLabels | lib/linear.ts:327 | `filter(Boolean)` keeps only present labels and never adds one. |
| Linear.PresentLabelsAppend | lib/linear.ts:327 | The label filter keeps order: it distributes over concatenation, keeps a present label and drops a null. |
| Linear.MapIssueNodes | lib/linear.ts:323-328 | There is one issue per node, in order, carrying the node's fields and its present labels. A missing list gives no issues. |
| Linear.CheckResponse | lib/linear.ts:307-315 | A response passes exactly when it is OK and has no GraphQL errors. |
| Linear.FetchIssuesNeedsKey | lib/linear.ts:282-287 | Without a key, fetching issues throws the missing-key error. |
| Linear.FetchIssuesOutcome | lib/linear.ts:282-396 | A fetch succeeds exactly when the response passes its checks and names the project or team. A non-OK status takes precedence over GraphQL errors. A missing node fails with "Linear project <id> not found" or "Linear team <id> not found". |
| Linear.FetchIssuesResult | lib/linear.ts:317-339 | The result carries the node's id and name and one mapped issue per node. A team has no URL. |
| Linear.FetchProjectsOutcome | lib/linear.ts:398-429 | Listing projects fails without a key, and otherwise fails exactly when the response checks fail. A missing `projects` gives an empty list. |
| Linear.FetchIssues | lib/linear.ts:282-396 | Defines fetching a project's or a team's issues. Its properties are stated by `Linear.FetchIssuesNeedsKey`, `Linear.FetchIssuesOutcome` and `Linear.FetchIssuesResult`. |
| Linear.FetchProjects | lib/linear.ts:398-429 | Defines listing the projects. Its properties are stated by `Linear.FetchProjectsOutcome`. |
| CustomerRequests.Normalize | app/api/v1/webhooks/linear/route.ts:301-307 | A present, non-empty text is kept. Anything else becomes null. |
| CustomerRequests.ParseCustomerRequest | app/api/v1/webhooks/linear/route.ts:291-309 | Each nullable text column (user name, ticket id, response, source, deletion time) reads as null when empty. Every other column is kept as stored. |
| CustomerRequests.ParseNormalizes | app/api/v1/customer-requests/route.ts:207-225 | A parsed record has no empty nullable text. A record without empty nullable text parses to itself, so parsing is idempotent. |
| Validation.ParseType | lib/validations/customer-request.ts:3 | Only "bug" and "feature" parse, and each parses to the type of that name. |
| Validation.ParseStatusName | lib/validations/customer-request.ts:5-13 | A name that parses is exactly the name of the status it gives, and that status is storable. |
| Validation.TypeNamesParse | lib/validations/customer-request.ts:3 | Every type name parses back to its type. |
| Validation.StatusEnumIsStorable | lib/validations/customer-request.ts:5-13 | The schema enumeration and the table's CHECK admit the same statuses. "in_review" is refused. |
| Validation.ParseCreate | lib/validations/customer-request.ts:17-25 | A valid body has non-empty content, user id and project id. A failure names at least one field. |
| Validation.ParseCreateIff | lib/validations/customer-request.ts:17-25 | A create body parses exactly when it is an object that meets every field rule. A failure on empty content reports `content` first. |
| Validation.CreateBodyRequired | lib/validations/customer-request.ts:18-22 | The body built for a valid input passes every required-field rule and carries the input's values. |
| Validation.CreateBodyOptional | lib/validations/customer-request.ts:21-24 | The optional fields of that body carry exactly the input's values. |
| Validation.CreateRoundTrip | lib/validations/customer-request.ts:17-25 | Every valid input, sent as a body, validates back to itself. |
| Validation.ParseCreateStable | lib/validations/customer-request.ts:17-25 | Validating a validated body again gives the same input. Unknown keys have no effect. |
| Validation.ParseUpdate | lib/validations/customer-request.ts:27-33 | A validated update has non-empty content when content is present, and a storable status when a status is present. |
| Validation.UpdateFieldsOptional | lib/validations/customer-request.ts:27-33 | An empty object is a valid update that sets nothing. An empty `content` is refused. |
| Validation.ParseListQuery | lib/validations/customer-request.ts:35-40 | A valid query's limit is within 1..100, and its status is storable. |
| Validation.ListLimit | lib/validations/customer-request.ts:35-40 | The limit defaults to 20. Otherwise it is the coerced number, and values outside 1..100 are refused. The user filter and cursor pass through. "in_review" is refused. |
| SqlClient.BuildParameterizedSql | lib/db/client.ts:14-46 | The scanning loop with its running parameter index produces exactly the substitution. A missing or empty parameter list returns the statement unchanged. |
| SqlClient.Substitute | lib/db/client.ts:20-45 | Defines the substitution the loop computes. Its properties are stated by `SqlClient.SubstituteOkIff`, `SqlClient.SubstituteAppend`, `SqlClient.PlaceholderGetsParam`, `SqlClient.NoPlaceholdersUnchanged` and `SqlClient.ExcessParamsIgnored`. |
| SqlClient.Render | lib/db/client.ts:28-44 | Null and undefined become NULL, and booleans become true or false. A number becomes its canonical decimal text, which reads back as the number. Text and objects become quoted literals; `SqlClient.QuotedReadsBack` states that text reads back. |
| SqlClient.SubstituteOkIff | lib/db/client.ts:20-26 | Substitution fails exactly when the statement has more placeholders than there are parameters, and then with "Not enough parameters provided for SQL query". |
| SqlClient.NoPlaceholdersUnchanged | lib/db/client.ts:21-45 | A statement without `?` comes back unchanged. |
| SqlClient.ExcessParamsIgnored | lib/db/client.ts:21-26 | Parameters after the last placeholder are ignored. |
| SqlClient.SubstituteAppend | lib/db/client.ts:20-26 | Substituting a concatenation substitutes each part. The second part starts after the parameters the first part consumed. |
| SqlClient.PlaceholderGetsParam | lib/db/client.ts:20-26 | The placeholder after text `a` receives parameter number k plus the placeholders in `a`, rendered. If that parameter does not exist, substitution fails. |
| SqlClient.UnescapeEscape | lib/db/client.ts:34 | Doubling quotes is undone by collapsing them. |
| SqlClient.ReadEscapedBody | lib/db/client.ts:32-36 | SQL reads an escaped text up to the closing quote and gives back exactly the original text. |
| SqlClient.QuotedReadsBack | lib/db/client.ts:32-36 | A quoted string parameter is read back by SQL as exactly one literal holding the original string. |
| Store.Apply | app/api/v1/webhooks/linear/route.ts:198-209 | An UPDATE never changes a row's id, creation time, content, user or project. |
| Store.Inserted | app/api/v1/customer-requests/route.ts:36-57 | The INSERT succeeds exactly when there is no fault, the id is new and the status is storable. Then it adds exactly that row. On failure the table is unchanged. |
| Store.Deleted | app/api/v1/customer-requests/route.ts:90 | The DELETE removes exactly that id, unless it fails. |
| Store.Updated | app/api/v1/webhooks/linear/route.ts:237-242 | An UPDATE changes at most the row with that id, and changes nothing on failure. |
| Store.UpdatedWellFormed | lib/db/schema.ts:10 | Updates keep every stored status admissible under the CHECK constraint. |
| Store.RecordStore.constructor | lib/db/schema.ts:4-19 | The table starts empty. |
| Store.RecordStore.Insert | app/api/v1/customer-requests/route.ts:45-57 | It covers each refusal (fault, duplicate id, CHECK) and otherwise adds exactly the row. |
| Store.RecordStore.Update | app/api/v1/customer-requests/route.ts:82-86 | A missing id is no error. Otherwise the patch is applied to exactly that row, unless there is a fault or a CHECK failure. |
| Store.RecordStore.Delete | app/api/v1/customer-requests/route.ts:90 | It removes exactly that id, unless there is a fault. |
| Store.RecordStore.Get | app/api/v1/customer-requests/route.ts:99-106 | It returns the row with that id, or none. |
| Store.RecordStore.FindLinked | app/api/v1/webhooks/linear/route.ts:144-152 | It finds a live row linked to the ticket, or reports that there is none. |
| Store.RecordStore.NextMatching | app/api/v1/customer-requests/route.ts:166-180 | It returns the smallest matching id above the bound, or reports that none exists. |
| Store.RecordStore.SelectFirst | app/api/v1/customer-requests/route.ts:175-183 | `ORDER BY id ASC LIMIT n` returns the first n matching rows in ascending order, or all of them when fewer match. |
| Store.IsFirstUnique | app/api/v1/customer-requests/route.ts:178 | The first n matching ids are determined by the set of matching ids. |
| Store.FirstThenRest | app/api/v1/customer-requests/route.ts:166-170 | A full first page followed by the first ids above its last id is the first page of the combined size. |
| Store.MatchingAfterCursor | app/api/v1/customer-requests/route.ts:167-170 | With a matching cursor, the rows that match are exactly the matching rows above the cursor. |
| Webhook.EnvTrimmed | app/api/v1/webhooks/linear/route.ts:63 | A set variable is read trimmed. An unset one is absent. |
| Webhook.StripPrefix | app/api/v1/webhooks/linear/route.ts:55 | It removes at most one leading "sha256=". |
| Webhook.HmacSignatureIff | app/api/v1/webhooks/linear/route.ts:39-59 | A signature passes exactly when a secret is configured and the signature is the digest, either bare or behind one "sha256=". |
| Webhook.WebhookAuthDecision | app/api/v1/webhooks/linear/route.ts:61-81 | A delivery passes exactly when its header carries the configured bearer token, or its signature verifies, or neither credential is configured. So the gate fails open, and when both are configured either one suffices. |
| Webhook.VerifyWebhookAuth | app/api/v1/webhooks/linear/route.ts:61-81 | Defines the gate. Its properties are stated by `Webhook.WebhookAuthDecision`. |
| Webhook.VerifyWebhookHmacSignature | app/api/v1/webhooks/linear/route.ts:39-59 | Defines the signature check. Its properties are stated by `Webhook.HmacSignatureIff`. |
| Webhook.Classify | app/api/v1/webhooks/linear/route.ts:95-103 | Issue create/update goes to the upsert handler, Issue remove/delete to the deletion handler, Comment create to the comment handler. Everything else is ignored. |
| Webhook.HandleIssueEvent | app/api/v1/webhooks/linear/route.ts:118-211 | A label is requested exactly on create. A failing lookup query changes nothing and is reported. Otherwise the lookup finds a live linked row or none, and the store then changes as the upsert effect says. |
| Webhook.HandleIssueDeletion | app/api/v1/webhooks/linear/route.ts:213-243 | A failing lookup query changes nothing and is reported. Otherwise the lookup finds a live linked row or none, and the store then changes as the deletion effect says. |
| Webhook.HandleCommentEvent | app/api/v1/webhooks/linear/route.ts:245-289 | A failing lookup query changes nothing and is reported. Otherwise the lookup finds a live linked row or none, and the store then changes as the comment effect says. |
| Webhook.ReplyFor | app/api/v1/webhooks/linear/route.ts:105-114 | A handler outcome always answers 200. The body reports success exactly when the handler succeeded. |
| Webhook.Post | app/api/v1/webhooks/linear/route.ts:83-116 | Failed authentication answers 401 and changes nothing. Every other outcome answers 200. A parse error, an event without data or a failing lookup query is reported in the body and changes nothing. Ignored events change nothing. A routed event's matched row is the one linked to the event's ticket, and the event has its handler's effect. |
| Webhook.UpsertEffect | app/api/v1/webhooks/linear/route.ts:137-210 | Defines the upsert handler's effect. Its properties are stated by `Webhook.StatusChangeEffect`, `Webhook.UpsertIdempotent` and `Webhook.UpsertKeepsUniqueLink`. |
| Webhook.Resolution | app/api/v1/webhooks/linear/route.ts:166-196 | Defines the reply text after a status change. Its properties are stated by `Webhook.ResolutionNeverDestroys`. |
| Webhook.DeletionEffect | app/api/v1/webhooks/linear/route.ts:222-242 | Defines the deletion handler's effect. Its properties are stated by `Webhook.DeletionMarks` and `Webhook.DeletionIdempotent`. |
| Webhook.CommentEffect | app/api/v1/webhooks/linear/route.ts:249-288 | Defines the comment handler's effect. Its properties are stated by `Webhook.CommentCaptured`, `Webhook.NoCommentsNoChange` and `Webhook.CommentKeepsUniqueLink`. |
| Webhook.ResolutionNeverDestroys | app/api/v1/webhooks/linear/route.ts:166-196 | The stored response is replaced only on a move into "resolved" when both a comment and a generated reply exist. A stored response is never lost. |
| Webhook.StatusChangeEffect | app/api/v1/webhooks/linear/route.ts:157-210 | A status change rewrites only the matched row. In it, only the status, the `linear_state` metadata entry, the response and `updated_at` change, and the other metadata entries are kept. |
| Webhook.UpsertIdempotent | app/api/v1/webhooks/linear/route.ts:157-158 | Redelivering a successful upsert changes nothing, when the ticket is linked to at most one live row. |
| Webhook.DeletionMarks | app/api/v1/webhooks/linear/route.ts:233-242 | A soft delete sets `deleted_at` and `updated_at` of the matched row to the same time and changes nothing else. |
| Webhook.DeletionIdempotent | app/api/v1/webhooks/linear/route.ts:222-231 | When the ticket is linked to at most one live row, a second deletion of the same ticket finds no row and changes nothing. |
| Webhook.CommentCaptured | app/api/v1/webhooks/linear/route.ts:253-288 | The last comment of the event is stored under `latest_comment`. The other metadata entries and the other rows are kept. |
| Webhook.NoCommentsNoChange | app/api/v1/webhooks/linear/route.ts:249-251 | An event without comments leaves the store alone. |
| Webhook.UpdatedLinksWithin | app/api/v1/webhooks/linear/route.ts:198-209 | An update that does not link never links or revives a row. |
| Webhook.UpdatedKeepsUniqueLink | app/api/v1/webhooks/linear/route.ts:237-242 | Such an update keeps a ticket linked to at most one live row. |
| Webhook.UpsertKeepsUniqueLink | app/api/v1/webhooks/linear/route.ts:198-209 | So does the upsert handler. |
| Webhook.CommentKeepsUniqueLink | app/api/v1/webhooks/linear/route.ts:283-288 | So does the comment handler. |
| Webhook.HandlersKeepUniqueLink | app/api/v1/webhooks/linear/route.ts:143-147 | No handler breaks "at most one live row per ticket", which is what the lookup relies on. |
| Lifecycle.PostErrorStatus | app/api/v1/customer-requests/route.ts:111-126 | `POST` answers 401 for unauthorized and 400 for validation. A tracker error answers with its own status code, or 502 when that is missing or zero. Everything else answers 500. |
| Lifecycle.GetErrorStatus | app/api/v1/customer-requests/route.ts:193-204 | `GET` answers 401 or 400 exactly for those errors and 500 otherwise. It has no tracker branch. |
| Lifecycle.StoredMetadata | app/api/v1/customer-requests/route.ts:32-43 | Missing or empty metadata is stored as null. Otherwise the stored bag has the same keys and values. |
| Lifecycle.InitialRow | app/api/v1/customer-requests/route.ts:36-57 | The inserted row is pending and unlinked, with no response and not deleted. Its fields come from the input, with empty optional text stored as null. |
| Lifecycle.LinkedOutcome | app/api/v1/customer-requests/route.ts:59-110 | After the insert, either the row is linked and the answer is 201, or the insert is undone. Two failures answer 500 and leave a row: a failing compensating delete leaves the unlinked row, and a failing final read leaves the row linked to the new ticket. |
| Lifecycle.Create | app/api/v1/customer-requests/route.ts:12-127 | The method's new table, reply and number of tracker calls are those of the `POST` outcome. |
| Lifecycle.CreateOutcome | app/api/v1/customer-requests/route.ts:12-127 | Defines the outcome of `POST`. Its properties are stated by `Lifecycle.CreateSucceeds`, `Lifecycle.CreateFailsCleanly`, `Lifecycle.TrackerCalledOnce` and `Lifecycle.CreateRejectsEarly`. |
| Lifecycle.Saga | app/api/v1/customer-requests/route.ts:45-110 | Defines the saga on a validated input. Its properties are stated by `Lifecycle.SagaSucceeds` and `Lifecycle.LinkedOutcome`. |
| Lifecycle.Created201RunsSaga | app/api/v1/customer-requests/route.ts:13-25 | A 201 means authentication and validation passed and the saga ran. |
| Lifecycle.SagaSucceeds | app/api/v1/customer-requests/route.ts:45-110 | A successful saga inserted under a fresh id, called the tracker once, and linked the row to the returned ticket. |
| Lifecycle.CreateSucceeds | app/api/v1/customer-requests/route.ts:12-110 | A created record is stored pending and linked to the new ticket after exactly one tracker call, and 201 returns it. |
| Lifecycle.CreateFailsCleanly | app/api/v1/customer-requests/route.ts:87-96 | A failed `POST` leaves the table as it was, with two exceptions, both answering 500. A failed compensating delete leaves the pending row. A failed final read, after the tracker call and a successful link, leaves the linked row. |
| Lifecycle.TrackerCalledOnce | app/api/v1/customer-requests/route.ts:59-72 | The tracker is called at most once, and only after a successful insert. |
| Lifecycle.TicketFailureAnswers502 | app/api/v1/customer-requests/route.ts:87-96 | A tracker failure answers 502 with the prefixed message, and the row is gone. |
| Lifecycle.LinkFailureAnswers502 | app/api/v1/customer-requests/route.ts:74-96 | A failing link update is treated like a tracker failure. It answers 502 with the update's message behind the same prefix, and the row is gone. |
| Lifecycle.CreateRejectsEarly | app/api/v1/customer-requests/route.ts:13-25 | An unauthenticated request answers 401 and an invalid body 400. Neither changes anything or calls the tracker. |
| Lifecycle.ReadParams | app/api/v1/customer-requests/route.ts:134-139 | Empty search parameters are read as absent. |
| Lifecycle.FirstPrefix | app/api/v1/customer-requests/route.ts:181-187 | Of the first limit+1 rows, the first `limit` are the page. A row beyond them exists exactly when more rows match. |
| Lifecycle.PageOfItems | app/api/v1/customer-requests/route.ts:186 | The items are the first `limit` fetched rows, each parsed. |
| Lifecycle.PageOfCursor | app/api/v1/customer-requests/route.ts:187 | The cursor, when there is one, is the id of the last listed item. |
| Lifecycle.PageOfIds | app/api/v1/customer-requests/route.ts:181-187 | The page holds the first `limit` matching ids. There is a cursor exactly when some matching row is left out. |
| Lifecycle.PageOfRows | app/api/v1/customer-requests/route.ts:186 | Each listed item is its stored row, parsed. |
| Lifecycle.PageOfResults | app/api/v1/customer-requests/route.ts:181-192 | The response of `GET` is a page in the sense above. |
| Lifecycle.PageOf | app/api/v1/customer-requests/route.ts:186-187 | Defines the page cut from the fetched rows. Its properties are stated by `Lifecycle.PageOfItems`, `Lifecycle.PageOfCursor`, `Lifecycle.PageOfIds` and `Lifecycle.PageOfResults`. |
| Lifecycle.List | app/api/v1/customer-requests/route.ts:129-205 | Authentication comes first, then validation. The answer is 200 exactly when both pass and the query does not fail, and then the body is the page. A failing query answers 500 with its message. |
| Lifecycle.PagesContinue | app/api/v1/customer-requests/route.ts:166-170 | Following `next_cursor` neither skips nor repeats a record. |
| Lifecycle.NextPage | app/api/v1/customer-requests/route.ts:166-178 | The ids after the cursor continue the first page's ids in order. |
| Lifecycle.FullPage | app/api/v1/customer-requests/route.ts:187 | A page with a cursor is full, and the cursor is its last id. |
| Lifecycle.PageIsDetermined | app/api/v1/customer-requests/route.ts:175-180 | A page is determined by the rows, the filter and the limit. |
| ProjectIssues.FormatPriority | components/project-issues.tsx:35-39 | A non-empty label is shown as is. Otherwise a numeric priority is shown as "P" and the canonical decimal text of its number: no leading zero and no "-0", so it is exactly `String(n)`, and it reads back as that number. Otherwise the text is "No priority". |
| ProjectIssues.SortBy | components/project-issues.tsx:66 | The sort returns a permutation of its input. |
| ProjectIssues.SortBySorted | components/project-issues.tsx:66 | The stable sort's result is ordered by any total-preorder comparator. |
| ProjectIssues.TiesKeepOrder | components/project-issues.tsx:66 | Items that all tie keep their input order. |
| ProjectIssues.PriorityOrderFacts | components/project-issues.tsx:173-189 | The priority order is antisymmetric and transitive, and ties exactly equal priorities. "low-high" is "high-low" reversed. |
| ProjectIssues.StatusOrderFacts | components/project-issues.tsx:191-207 | "az" and "za" are antisymmetric and transitive whenever collation is. |
| ProjectIssues.CompareTransitive | components/project-issues.tsx:49-64 | The combined comparator is transitive. |
| ProjectIssues.ComparatorPreorder | components/project-issues.tsx:49-64 | The combined comparator is a total preorder whenever collation is. |
| ProjectIssues.CompareMeaning | components/project-issues.tsx:49-64 | "a before b" means: priority order, then status order among equal priorities, then identifier order. |
| ProjectIssues.CompareIssues | components/project-issues.tsx:49-64 | Defines the corrected comparator. Its properties are stated by `ProjectIssues.CompareMeaning`, `ProjectIssues.CompareTransitive` and `ProjectIssues.ComparatorPreorder`. |
| ProjectIssues.SortIssuesOrder | components/project-issues.tsx:48-67 | The table holds the same issues. For "high-low" priorities ascend with missing ones last, and for "low-high" they descend. Status names follow "az" or "za" among equal priorities. Identifiers break the remaining ties, so with both sorts at default the order is by identifier alone. |
| ProjectIssues.SortIssues | components/project-issues.tsx:48-67 | Defines the sorted table. Its properties are stated by `ProjectIssues.SortIssuesOrder`. |
| ProjectIssues.MissingPrioritiesKeepInputOrder | components/project-issues.tsx:176-181 | As written, issues without a priority keep their input order under a priority sort. |
| ProjectIssues.MissingPriorityExample | components/project-issues.tsx:176-181 | This is a concrete input on which the written comparator and the intended one disagree. |
| ProjectIssues.CompareAsWritten | components/project-issues.tsx:49-64 | Defines the comparator as written, NaN included. Its properties are stated by `ProjectIssues.MissingPrioritiesKeepInputOrder` and `ProjectIssues.MissingPriorityExample`. |
| CompletedIssues.FindOption | components/completed-issues.tsx:43 | `find` returns the first option with that value, or none when no option has it. |
| CompletedIssues.SelectedOption | components/completed-issues.tsx:31-43 | "week" is 7 days and "month" is 30. Any other value falls back to the first option. |
| CompletedIssues.FilterCompleted | components/completed-issues.tsx:47-51 | Every kept issue qualifies and comes from the input. |
| CompletedIssues.FilterMembership | components/completed-issues.tsx:44-51 | An issue is shown exactly when it is in the input and qualifies. |
| CompletedIssues.FilterAppend | components/completed-issues.tsx:47 | The filter keeps relative order, because it distributes over concatenation. |
| CompletedIssues.IncompleteHidden | components/completed-issues.tsx:48 | An issue without `completedAt` is never shown. |
| CompletedIssues.BoundIsInclusive | components/completed-issues.tsx:44-50 | An issue completed exactly at the threshold is shown. One completed a millisecond earlier is not. |
| CompletedIssues.MonthCoversWeek | components/completed-issues.tsx:31-50 | Widening the range from week to month only adds issues. |
| CompletedIssues.OnReset | components/completed-issues.tsx:127-166 | After a reset the filter is inactive. Resetting an inactive filter does nothing. |
| Migrate.TrimmedPieces | scripts/migrate.ts:18-19 | No kept piece is empty. |
| Migrate.PiecesTrimmed | scripts/migrate.ts:18 | No kept piece has white space at either end. |
| Migrate.PiecesAvoid | scripts/migrate.ts:16-19 | Trimming and dropping pieces adds no character. |
| Migrate.Statements | scripts/migrate.ts:16-19 | No statement is empty. |
| Migrate.StatementsShape | scripts/migrate.ts:16-19 | No statement has white space at either end or a ";" inside. |
| Migrate.TrimmedPiecesAppend | scripts/migrate.ts:18-19 | Trimming and filtering distribute over concatenation. |
| Migrate.SplitOnAppend | scripts/migrate.ts:17 | Splitting at a separator placed between two texts splits each text on its own. |
| Migrate.SplitOnFree | scripts/migrate.ts:17 | A text without ";" is one piece. |
| Migrate.StatementsAppend | scripts/migrate.ts:16-19 | The statements of `a;b` are those of `a` followed by those of `b`. |
| Migrate.StatementsOfOne | scripts/migrate.ts:16-19 | A single trimmed statement without ";" reads back as itself. |
| Migrate.StatementsOfJoin | scripts/migrate.ts:16-19 | A file made of statements joined by ";" yields exactly those statements, in order. |
| Migrate.BlankHasNoStatements | scripts/migrate.ts:18-19 | Pieces that are all white space yield no statements. |
| Migrate.RunStatements | scripts/migrate.ts:21-31 | Statements are sent in order, each with ";" added back. The loop stops at the first failure, which is the last statement sent, and the exit code is 1. Otherwise every statement is sent and the exit code is 0. |
| Migrate.RunMigrations | scripts/migrate.ts:5-31 | An unreadable source sends nothing and exits 1. Otherwise the file's statements run as above. |
| Migrate.SentStatementShape | scripts/migrate.ts:22 | Each sent statement ends with its only ";". |
| Strings.TrimIsTrimmed | lib/config.ts:9 | `trim` leaves no white space at either end. |
| Strings.TrimIdempotent | lib/config.ts:9 | `trim` is idempotent. |
| Strings.TrimEmptyIffAllSpace | lib/config.ts:9-10 | `trim` gives "" exactly for all-white-space text. |
| Strings.TrimOfPadded | lib/auth/bearer.ts:11 | Trimming white space padded around trimmed text gives that text back. |
| Strings.SplitOnJoin | scripts/migrate.ts:17 | `split(";")` then `join(";")` gives the text back, and no piece contains ";". |
| Strings.SplitSpacesNoSpace | lib/auth/bearer.ts:11 | No piece of `split(/\s+/)` contains white space. |
| Strings.SplitSpacesTwoWords | lib/auth/bearer.ts:11 | Two words separated by white space split into exactly those two words. |
| Strings.IntToStringRoundTrip | components/project-issues.tsx:37 | `String(n)` reads back as n, for every integer n. |
| Strings.IntToStringCanonical | components/project-issues.tsx:37 | `String(n)` is canonical: no leading zero unless the number is 0, and never "-0". |
| Strings.StrLtTransitive | app/api/v1/customer-requests/route.ts:178 | The id order used by `ORDER BY id` and `id > ?` is transitive. |
| Strings.StrLtTotal | app/api/v1/customer-requests/route.ts:178 | That order is total. |

## Left out

- Network and SDK I/O are not modelled:
  - the GraphQL `fetch` (a function parameter);
  - `createLinearIssue`, `addLabelToLinearIssue`, `fetchLinearIssueComments` and `mapLinearStateToStatus`, which are parameters or oracles;
  - `generateResolutionResponse`, an oracle returning an optional text that never fails;
  - `createD1Client` and `getD1Client`.
- `mapLinearStateToStatus`, `addLabelToLinearIssue`, `fetchLinearIssueComments` and `createLinearIssue` are defined in no file available here. They are not part of this model.
- UI rendering (JSX), the prompt templates of `lib/openai/prompts.ts`, `scripts/list-projects.ts` and console logging are left out: they hold no logic that can be stated.
- The webhook's `addLabelToLinearIssue` call is left out. `Webhook.HandleIssueEvent` reports it only as the `labelled` flag, because its failure is caught and ignored.
- Opaque primitives are parameters: HMAC-SHA256, `randomUUID`, `new Date().toISOString()`, `JSON.parse`/`JSON.stringify`, `Number()`, `Date` parsing and `localeCompare`. `localeCompare` is taken to be an arbitrary total preorder.
- Concurrency is left out. Deliveries are applied one after another. Two deliveries for one ticket can interleave between the webhook's read and its write, and nothing in the model adds a guard against that.
- Store.RecordStore.FindLinked: the webhook lookup returns "some live row linked to the ticket, or none". A failure of the lookup query is the handlers' `lookupFault` parameter. The code indexes the query result as `results[0]?.results?.[0]` in two places (app/api/v1/webhooks/linear/route.ts:154, 233; app/api/v1/customer-requests/route.ts:108) but as `results[0]` in a third (route.ts:268). That result shape is not modelled.
- Store.RecordStore.SelectFirst: `GET` reads `result.results[0]?.results` (app/api/v1/customer-requests/route.ts:184). It is modelled as the rows the query returns. Read failures of `SELECT` other than a fault of the whole query are not modelled.
- Store.RecordStore.Insert: the database's constraint-violation messages are constants whose wording belongs to the database service.
- The `type` CHECK and the `team_id` column of the migration in lib/db/schema.ts:13 are left out. The routes write `project_id`, and `team_id` is not written.
- Lifecycle.Create: the tracker error's `details` are modelled as an empty object, and the zod issue list as the names of the failing fields. `validated.reason` (app/api/v1/customer-requests/route.ts:68) is not a schema field, so it is not passed on. The tracker's identifier is unused, because the code never uses it either.
- Lifecycle.Create: the JSON round trip of `metadata` (stringify on insert, parse on read) is the identity on the stored bag.
- Lifecycle.Create: a failure of the final `SELECT` is `faults.read`. Its "Failed to retrieve created customer request" branch, for an empty result, is modelled but unreachable in a sequential model.
- Lifecycle.List: the page is computed only for a positive limit. The schema guarantees a limit of 1..100, so `validated.limit || 20` never falls back.
- Webhook.Post: an event without `data` is reported with the runtime's TypeError message, written as a constant. A delivery body that is not valid JSON is reported with the parser's message, which is a parameter.
- Webhook.HandleIssueEvent: the status-change handler's `metadata` is rewritten in a copy of the map rather than mutated in place. Because the model has values rather than shared objects, this is the same.
- Strings.ToLower: it lowercases ASCII letters only. Every comparison in the code is against an all-lowercase ASCII word ("bearer", "true", "undefined", "null"), so that is enough for those uses.
- Strings.IntToStringRoundTrip: numbers are integers throughout. Floating-point priorities, limits and SQL parameters are not modelled.
- CompletedIssues.BoundIsInclusive: time is an integer count of milliseconds, and "n days ago" is n × 86 400 000 ms. `setDate` calendar arithmetic, daylight saving and local time are not modelled.
- ProjectIssues.SortIssuesOrder: this is the comparator with a missing priority read as +∞ and two missing priorities tying. The written comparator's NaN is modelled separately, under Findings. `Array.prototype.sort` is modelled as stable insertion sort. Sorting a copy is immaterial on values, because the input sequence is never changed.
- Migrate.RunMigrations: `fails` depends only on a statement's text. A failure of `getD1Client` or `readFileSync` is the single `None` source.
- The `[id]` route (app/api/v1/customer-requests/[id]/route.ts) is not part of this model, and neither are its update and soft-delete endpoints.

## Findings

| source | as written | input that shows it | evidently intended | confidence | as-written member | corrected member |
|---|---|---|---|---|---|---|
| components/project-issues.tsx:176-181 | A missing priority becomes `Number.POSITIVE_INFINITY`. For two issues without a priority, `Infinity - Infinity` is NaN. NaN is not `0`, so the comparator returns it, and the sort treats it as a tie. The status and identifier tie-breaks (lines 58-63) are never reached. | Issues "ENG-2" then "ENG-1", neither with a priority, sorted "high-low": the table keeps ENG-2 first. | Two missing priorities tie at the priority level and fall through to the status and identifier tie-breaks, which put ENG-1 first. | medium, not executed | ProjectIssues.MissingPriorityExample | ProjectIssues.SortIssuesOrder |
