/** The customer-request record as the `customer_requests` table holds it,
    its status and type enumerations, and its open metadata bag. */
module CustomerRequests {
  import opened Wrappers
  import opened Json
  import opened Strings

  datatype RequestType = Bug | Feature

  /** The eight statuses of the record type. Only seven of them are allowed
      by the table's CHECK constraint and by the request schemas: `InReview`
      is declared but cannot be stored. */
  datatype Status = Pending | Triaged | InProgress | InReview | Resolved | Closed | Cancelled | Error

  function StatusName(s: Status): string {
    match s
    case Pending => "pending"
    case Triaged => "triaged"
    case InProgress => "in_progress"
    case InReview => "in_review"
    case Resolved => "resolved"
    case Closed => "closed"
    case Cancelled => "cancelled"
    case Error => "error"
  }

  function TypeName(t: RequestType): string {
    match t
    case Bug => "bug"
    case Feature => "feature"
  }

  /** The statuses the table's CHECK constraint admits. */
  predicate Storable(s: Status) {
    s != InReview
  }

  datatype User = User(id: string, name: string)

  /** A metadata value: the two snapshots the webhook engine writes, or any
      other JSON value a caller supplied. A snapshot replaces its key as a
      unit. */
  datatype MetaValue =
    | LinearStateSnapshot(stateId: string, stateName: string, updatedAt: string)
    | CommentSnapshot(commentId: string, body: string, createdAt: string, user: Option<User>)
    | Raw(value: Json)

  type Metadata = map<string, MetaValue>

  datatype CustomerRequest = CustomerRequest(
    id: string,
    createdAt: string,
    updatedAt: string,
    content: string,
    kind: RequestType,
    status: Status,
    externalUserId: string,
    userName: Option<string>,
    projectId: string,
    linearIssueId: Option<string>,
    response: Option<string>,
    source: Option<string>,
    metadata: Option<Metadata>,
    deletedAt: Option<string>)

  /** `x ? String(x) : null` on an optional text column. */
  function Normalize(o: Option<string>): (r: Option<string>)
    ensures Truthy(o) ==> r == o
    ensures !Truthy(o) ==> r == None
  {
    if Truthy(o) then o else None
  }

  /** The row-to-record conversion: each nullable text column that is empty
      reads as null; every other column is kept. */
  function ParseCustomerRequest(row: CustomerRequest): (r: CustomerRequest)
    ensures r.id == row.id && r.status == row.status && r.linearIssueId == Normalize(row.linearIssueId)
    ensures r.deletedAt == Normalize(row.deletedAt) && r.response == Normalize(row.response)
    ensures r.userName == Normalize(row.userName) && r.source == Normalize(row.source)
    ensures && r.content == row.content && r.createdAt == row.createdAt && r.updatedAt == row.updatedAt
            && r.kind == row.kind && r.externalUserId == row.externalUserId
            && r.projectId == row.projectId && r.metadata == row.metadata
  {
    row.(userName := Normalize(row.userName),
         linearIssueId := Normalize(row.linearIssueId),
         response := Normalize(row.response),
         source := Normalize(row.source),
         deletedAt := Normalize(row.deletedAt))
  }

  /** A parsed record holds no empty text in its nullable columns. */
  predicate NoEmptyNullables(r: CustomerRequest) {
    && (r.userName == None || Truthy(r.userName))
    && (r.linearIssueId == None || Truthy(r.linearIssueId))
    && (r.response == None || Truthy(r.response))
    && (r.source == None || Truthy(r.source))
    && (r.deletedAt == None || Truthy(r.deletedAt))
  }

  /** Parsing leaves no empty nullable text, changes nothing else about a
      record that has none, and so is idempotent. */
  lemma ParseNormalizes(row: CustomerRequest)
    ensures NoEmptyNullables(ParseCustomerRequest(row))
    ensures NoEmptyNullables(row) ==> ParseCustomerRequest(row) == row
    ensures ParseCustomerRequest(ParseCustomerRequest(row)) == ParseCustomerRequest(row)
  {
  }
}
