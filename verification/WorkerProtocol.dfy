/** The gateway and a restricted worker: requests, receipts and responses as JSON objects, with each side hashing
    on its own. The byte encoding and its signature are left to the transport. */
module WorkerProtocol {
  import opened Collections
  import opened Ordering
  import opened Json

  type Object = map<string, Json>

  /** The object keys of the protocol. */
  datatype Field =
    | CapabilityId | ExecutionPlane | IsolationRequired | NetworkPolicy | FilesystemPolicy | MaxRuntime | MaxMemory
    | ServiceAccount
    | EvidenceRequired
    | ReceiptId | WorkerId | InputHash | OutputHash | EvidenceRefs | ClosureRequired | NotClosure
    | RequestId | TenantId | IdentityId | CommandId | ConversationId | IntentKey | BoundaryKey | Metadata | Skill
    | Action | Params
    | Status | ResultKey | ReceiptKey | ErrorKey
    | AttachedBoundary | AttachedReceipt | AttachedRequestId

  function WireName(f: Field): string {
    match f
    case CapabilityId => "capability_id" case ExecutionPlane => "execution_plane"
    case IsolationRequired => "isolation_required"
    case NetworkPolicy => "network_policy" case FilesystemPolicy => "filesystem_policy"
    case MaxRuntime => "max_runtime_seconds"
    case MaxMemory => "max_memory_mb" case ServiceAccount => "service_account"
    case EvidenceRequired => "evidence_required"
    case ReceiptId => "receipt_id" case WorkerId => "worker_id" case InputHash => "input_hash"
    case OutputHash => "output_hash"
    case EvidenceRefs => "evidence_refs" case ClosureRequired => "terminal_closure_required"
    case NotClosure => "receipt_is_not_terminal_closure"
    case RequestId => "request_id" case TenantId => "tenant_id" case IdentityId => "identity_id"
    case CommandId => "command_id"
    case ConversationId => "conversation_id" case IntentKey => "intent" case BoundaryKey => "boundary"
    case Metadata => "metadata"
    case Skill => "skill" case Action => "action" case Params => "params"
    case Status => "status" case ResultKey => "result" case ReceiptKey => "receipt" case ErrorKey => "error"
    case AttachedBoundary => "capability_execution_boundary" case AttachedReceipt => "capability_execution_receipt"
    case AttachedRequestId => "capability_execution_request_id"
  }

  /** Length and two letters tell the wire names apart. */
  function FieldNamed(s: string): Option<Field> {
    match |s|
    case 5 =>
      (match (s[1], s[2]) case ('k', 'i') => Some(Skill) case ('r', 'r') => Some(ErrorKey) case _ => None)
    case 6 =>
      (match (s[1], s[2])
        case ('n', 't') => Some(IntentKey) case ('c', 't') => Some(Action) case ('a', 'r') => Some(Params)
        case ('t', 'a') => Some(Status) case ('e', 's') => Some(ResultKey) case _ => None)
    case 7 => Some(ReceiptKey)
    case 8 =>
      (match (s[1], s[2]) case ('o', 'u') => Some(BoundaryKey) case ('e', 't') => Some(Metadata) case _ => None)
    case 9 =>
      (match (s[1], s[2]) case ('o', 'r') => Some(WorkerId) case ('e', 'n') => Some(TenantId) case _ => None)
    case 10 =>
      (match (s[1], s[2])
        case ('e', 'c') => Some(ReceiptId) case ('n', 'p') => Some(InputHash) case ('e', 'q') => Some(RequestId)
        case ('o', 'm') => Some(CommandId) case _ => None)
    case 11 =>
      (match (s[1], s[2]) case ('u', 't') => Some(OutputHash) case ('d', 'e') => Some(IdentityId) case _ => None)
    case 13 =>
      (match (s[1], s[2])
        case ('a', 'p') => Some(CapabilityId) case ('a', 'x') => Some(MaxMemory)
        case ('v', 'i') => Some(EvidenceRefs) case _ => None)
    case 14 => Some(NetworkPolicy)
    case 15 =>
      (match (s[1], s[2])
        case ('x', 'e') => Some(ExecutionPlane) case ('e', 'r') => Some(ServiceAccount)
        case ('o', 'n') => Some(ConversationId) case _ => None)
    case 17 =>
      (match (s[1], s[2]) case ('i', 'l') => Some(FilesystemPolicy) case ('v', 'i') => Some(EvidenceRequired)
       case _ => None)
    case 18 => Some(IsolationRequired)
    case 19 => Some(MaxRuntime)
    case 25 => Some(ClosureRequired)
    case 28 => Some(AttachedReceipt)
    case 29 => Some(AttachedBoundary)
    case 31 =>
      (match (s[1], s[2]) case ('e', 'c') => Some(NotClosure) case ('a', 'p') => Some(AttachedRequestId) case _ => None)
    case _ => None
  }

  const ALL_FIELDS := [
    CapabilityId, ExecutionPlane, IsolationRequired, NetworkPolicy, FilesystemPolicy, MaxRuntime, MaxMemory,
    ServiceAccount, EvidenceRequired, ReceiptId, WorkerId, InputHash, OutputHash, EvidenceRefs,
    ClosureRequired, NotClosure, RequestId, TenantId, IdentityId, CommandId, ConversationId,
    IntentKey, BoundaryKey, Metadata, Skill, Action, Params, Status,
    ResultKey, ReceiptKey, ErrorKey, AttachedBoundary, AttachedReceipt, AttachedRequestId]

  /** str.strip leaves something. */
  function IsText(): string -> bool { s => !Blank(s) }

  /** The names in use are told apart, so everything below holds of them. */
  lemma WireNamesValid(hash: Json -> string)
    requires forall j :: !Blank(hash(j))
    ensures Wire(WireName, FieldNamed, ALL_FIELDS, hash, IsText()).Valid()
  {
    forall f ensures FieldNamed(WireName(f)) == Some(f) && f in ALL_FIELDS {
      NameTold(f);
      FieldListed(f);
    }
  }

  datatype Group = OfBoundary | OfPolicy | OfReceipt | OfClosure | OfRequest | OfResponse

  function GroupOf(f: Field): Group {
    match f
    case CapabilityId | ExecutionPlane | IsolationRequired | ServiceAccount | EvidenceRequired => OfBoundary
    case NetworkPolicy | FilesystemPolicy | MaxRuntime | MaxMemory => OfPolicy
    case ReceiptId | WorkerId | InputHash | OutputHash => OfReceipt
    case EvidenceRefs | ClosureRequired | NotClosure => OfClosure
    case RequestId | TenantId | IdentityId | CommandId | ConversationId | IntentKey | BoundaryKey | Metadata | Skill
      | Action | Params => OfRequest
    case _ => OfResponse
  }

  lemma BoundaryNameTold(f: Field)
    requires GroupOf(f) == OfBoundary
    ensures FieldNamed(WireName(f)) == Some(f)
  {
  }

  lemma PolicyNameTold(f: Field)
    requires GroupOf(f) == OfPolicy
    ensures FieldNamed(WireName(f)) == Some(f)
  {
  }

  lemma ReceiptNameTold(f: Field)
    requires GroupOf(f) == OfReceipt
    ensures FieldNamed(WireName(f)) == Some(f)
  {
  }

  lemma ClosureNameTold(f: Field)
    requires GroupOf(f) == OfClosure
    ensures FieldNamed(WireName(f)) == Some(f)
  {
  }

  lemma RequestNameTold(f: Field)
    requires GroupOf(f) == OfRequest
    ensures FieldNamed(WireName(f)) == Some(f)
  {
  }

  lemma ResponseNameTold(f: Field)
    requires GroupOf(f) == OfResponse
    ensures FieldNamed(WireName(f)) == Some(f)
  {
  }

  lemma NameTold(f: Field)
    ensures FieldNamed(WireName(f)) == Some(f)
  {
    match GroupOf(f)
    case OfBoundary => BoundaryNameTold(f);
    case OfPolicy => PolicyNameTold(f);
    case OfReceipt => ReceiptNameTold(f);
    case OfClosure => ClosureNameTold(f);
    case OfRequest => RequestNameTold(f);
    case OfResponse => ResponseNameTold(f);
  }

  lemma FieldListed(f: Field)
    ensures f in ALL_FIELDS
  {
  }

  /** Both sides share the field names, the order fields are written in, and the hash; nothing below depends on which
      names, only that they can be told apart. */
  datatype Wire = Wire(name: Field -> string, field: string -> Option<Field>, order: seq<Field>,
                       hash: Json -> string, text: string -> bool) {
    ghost predicate Valid() {
      && (forall f :: field(name(f)) == Some(f))
      && (forall f :: f in order)
      && (forall j :: text(hash(j)))
      && (forall c, s :: 'a' <= c <= 'z' ==> text([c] + s))
    }

    /** The JSON object whose fields are those the content gives a value. */
    function Object(content: Field -> Option<Json>): Object { Write(order, content) }

    function Write(fields: seq<Field>, content: Field -> Option<Json>): Object {
      if fields == [] then map[]
      else
        var rest := Write(fields[1..], content);
        if content(fields[0]).None? then rest else rest[name(fields[0]) := content(fields[0]).value]
    }
  }

  lemma {:induction false} WriteGet(w: Wire, fields: seq<Field>, content: Field -> Option<Json>, f: Field)
    requires w.Valid()
    ensures w.name(f) in w.Write(fields, content) <==> f in fields && content(f).Some?
    ensures w.name(f) in w.Write(fields, content) ==> w.Write(fields, content)[w.name(f)] == content(f).value
  {
    if fields != [] {
      assert fields == [fields[0]] + fields[1..];
      WriteGet(w, fields[1..], content, f);
      assert w.name(f) == w.name(fields[0]) ==> f == fields[0] by {
        assert w.field(w.name(f)) == Some(f) && w.field(w.name(fields[0])) == Some(fields[0]);
      }
    }
  }

  /** An object holds what its content says, field by field. */
  lemma Get(w: Wire, content: Field -> Option<Json>, f: Field, value: Json)
    requires w.Valid() && content(f) == Some(value)
    ensures w.name(f) in w.Object(content) && w.Object(content)[w.name(f)] == value
  {
    WriteGet(w, w.order, content, f);
  }

  datatype Boundary = Boundary(capabilityId: string, plane: string, isolation: bool, network: seq<string>,
                               filesystem: string,
                               maxRuntime: int, maxMemory: int, serviceAccount: string, evidence: seq<string>)

  predicate AllText(w: Wire, s: seq<string>) { forall t | t in s :: w.text(t) }

  predicate ValidBoundary(w: Wire, b: Boundary) {
    w.text(b.capabilityId) && w.text(b.plane) && w.text(b.filesystem) && b.maxRuntime > 0 && b.maxMemory > 0
    && w.text(b.serviceAccount) && AllText(w, b.evidence)
  }

  datatype Request = Request(requestId: string, tenantId: string, identityId: string, intent: Object,
                             boundary: Boundary,
                             inputHash: string, commandId: string, conversationId: string, metadata: Object)

  datatype Receipt = Receipt(receiptId: string, capabilityId: string, plane: string, isolation: bool, workerId: string,
                             inputHash: string, outputHash: string, evidenceRefs: seq<string>)

  predicate ValidReceipt(w: Wire, r: Receipt) {
    w.text(r.receiptId) && w.text(r.capabilityId) && w.text(r.plane) && w.text(r.workerId) && w.text(r.inputHash)
    && w.text(r.outputHash) && r.evidenceRefs != [] && AllText(w, r.evidenceRefs)
  }

  datatype Response = Response(requestId: string, status: string, result: Option<Object>, receipt: Receipt,
                               error: string)

  datatype Failure =
    | RequestInvalid | BoundaryMissing | IntentMissing | RequestMalformed | InputHashMismatch
    | NotIsolated | NotIsolatedPlane | BoundaryMismatch | ReceiptInvalid | ResponseInvalid
    | ReceiptMissing | ResultNotObject | ResponseMalformed
    | RequestMismatch | NotSucceeded | CapabilityMismatch | PlaneMismatch | IsolationMismatch | IsolatedPlaneRequired
    | InputMismatch | EvidenceMissing | OutputMismatch

  // ----- JSON fields ----------------------------------------------------------------------

  predicate HasText(o: Object, k: string) { k in o && o[k].JStr? }
  predicate HasBool(o: Object, k: string) { k in o && o[k].JBool? }
  predicate HasInt(o: Object, k: string) { k in o && o[k].JInt? }
  predicate HasObject(o: Object, k: string) { k in o && o[k].JObj? }
  predicate HasTexts(o: Object, k: string) {
    k in o && o[k].JArr? && forall i | 0 <= i < |o[k].items| :: o[k].items[i].JStr?
  }

  /** raw.get(k, "") and raw.get(k, {}) */
  predicate TextOrNone(o: Object, k: string) { k in o ==> o[k].JStr? }
  predicate ObjectOrNone(o: Object, k: string) { k in o ==> o[k].JObj? }
  function TextOr(o: Object, k: string): string { if HasText(o, k) then o[k].text else "" }
  function ObjectOr(o: Object, k: string): Object { if HasObject(o, k) then o[k].fields else map[] }

  function Texts(items: seq<Json>): seq<string>
    requires forall i | 0 <= i < |items| :: items[i].JStr?
  {
    seq(|items|, i requires 0 <= i < |items| => items[i].text)
  }

  function TextArray(s: seq<string>): Json { JArr(seq(|s|, i requires 0 <= i < |s| => JStr(s[i]))) }

  lemma TextsRoundTrip(s: seq<string>)
    ensures forall i | 0 <= i < |TextArray(s).items| :: TextArray(s).items[i].JStr?
    ensures Texts(TextArray(s).items) == s
  {
  }

  // ----- Boundaries and receipts ------------------------------------------------------------

  function BoundaryContent(b: Boundary): Field -> Option<Json>
  {
    (f: Field) =>
      match f
      case CapabilityId => Some(JStr(b.capabilityId))
      case ExecutionPlane => Some(JStr(b.plane))
      case IsolationRequired => Some(JBool(b.isolation))
      case NetworkPolicy => Some(TextArray(b.network))
      case FilesystemPolicy => Some(JStr(b.filesystem))
      case MaxRuntime => Some(JInt(b.maxRuntime))
      case MaxMemory => Some(JInt(b.maxMemory))
      case ServiceAccount => Some(JStr(b.serviceAccount))
      case EvidenceRequired => Some(TextArray(b.evidence))
      case _ => None
  }

  function BoundaryFields(w: Wire, b: Boundary): Object
  {
    w.Object(BoundaryContent(b))
  }

  predicate HasBoundary(w: Wire, o: Object) {
    && HasText(o, w.name(CapabilityId)) && HasText(o, w.name(ExecutionPlane)) && HasBool(o, w.name(IsolationRequired))
    && HasTexts(o, w.name(NetworkPolicy)) && HasText(o, w.name(FilesystemPolicy)) && HasInt(o, w.name(MaxRuntime))
    && HasInt(o, w.name(MaxMemory)) && HasText(o, w.name(ServiceAccount)) && HasTexts(o, w.name(EvidenceRequired))
  }

  function ReadBoundary(w: Wire, o: Object): Boundary
    requires HasBoundary(w, o)
  {
    Boundary(o[w.name(CapabilityId)].text, o[w.name(ExecutionPlane)].text, o[w.name(IsolationRequired)].flag,
             Texts(o[w.name(NetworkPolicy)].items), o[w.name(FilesystemPolicy)].text, o[w.name(MaxRuntime)].number,
             o[w.name(MaxMemory)].number, o[w.name(ServiceAccount)].text, Texts(o[w.name(EvidenceRequired)].items))
  }

  function ParseBoundary(w: Wire, o: Object): Option<Boundary> {
    if HasBoundary(w, o) && ValidBoundary(w, ReadBoundary(w, o)) then Some(ReadBoundary(w, o)) else None
  }

  lemma ReadBoundaryRoundTrip(w: Wire, b: Boundary)
    requires w.Valid()
    ensures HasBoundary(w, BoundaryFields(w, b)) && ReadBoundary(w, BoundaryFields(w, b)) == b
  {
    WrittenBoundaryTexts(w, b);
    Get(w, BoundaryContent(b), IsolationRequired, JBool(b.isolation));
    Get(w, BoundaryContent(b), NetworkPolicy, TextArray(b.network));
    Get(w, BoundaryContent(b), MaxRuntime, JInt(b.maxRuntime));
    Get(w, BoundaryContent(b), MaxMemory, JInt(b.maxMemory));
    Get(w, BoundaryContent(b), EvidenceRequired, TextArray(b.evidence));
    TextsRoundTrip(b.network);
    TextsRoundTrip(b.evidence);
  }

  lemma WrittenBoundaryTexts(w: Wire, b: Boundary)
    requires w.Valid()
    ensures var o := BoundaryFields(w, b);
            && Says(w, o, CapabilityId, b.capabilityId) && Says(w, o, ExecutionPlane, b.plane)
            && Says(w, o, FilesystemPolicy, b.filesystem) && Says(w, o, ServiceAccount, b.serviceAccount)
  {
    Get(w, BoundaryContent(b), CapabilityId, JStr(b.capabilityId));
    Get(w, BoundaryContent(b), ExecutionPlane, JStr(b.plane));
    Get(w, BoundaryContent(b), FilesystemPolicy, JStr(b.filesystem));
    Get(w, BoundaryContent(b), ServiceAccount, JStr(b.serviceAccount));
  }

  lemma BoundaryRoundTrip(w: Wire, b: Boundary)
    requires w.Valid() && ValidBoundary(w, b)
    ensures ParseBoundary(w, BoundaryFields(w, b)) == Some(b)
  {
    ReadBoundaryRoundTrip(w, b);
  }

  function ReceiptContent(r: Receipt): Field -> Option<Json>
  {
    (f: Field) =>
      match f
      case ReceiptId => Some(JStr(r.receiptId))
      case CapabilityId => Some(JStr(r.capabilityId))
      case ExecutionPlane => Some(JStr(r.plane))
      case IsolationRequired => Some(JBool(r.isolation))
      case WorkerId => Some(JStr(r.workerId))
      case InputHash => Some(JStr(r.inputHash))
      case OutputHash => Some(JStr(r.outputHash))
      case EvidenceRefs => Some(TextArray(r.evidenceRefs))
      case ClosureRequired => Some(JBool(true))
      case NotClosure => Some(JBool(true))
      case _ => None
  }

  function ReceiptFields(w: Wire, r: Receipt): Object
  {
    w.Object(ReceiptContent(r))
  }

  predicate HasReceipt(w: Wire, o: Object) {
    && HasText(o, w.name(ReceiptId)) && HasText(o, w.name(CapabilityId)) && HasText(o, w.name(ExecutionPlane))
    && HasBool(o, w.name(IsolationRequired)) && HasText(o, w.name(WorkerId)) && HasText(o, w.name(InputHash))
    && HasText(o, w.name(OutputHash)) && HasTexts(o, w.name(EvidenceRefs))
    && HasBool(o, w.name(ClosureRequired)) && HasBool(o, w.name(NotClosure))
  }

  function ReadReceipt(w: Wire, o: Object): Receipt
    requires HasReceipt(w, o)
  {
    Receipt(o[w.name(ReceiptId)].text, o[w.name(CapabilityId)].text, o[w.name(ExecutionPlane)].text,
            o[w.name(IsolationRequired)].flag,
            o[w.name(WorkerId)].text, o[w.name(InputHash)].text, o[w.name(OutputHash)].text,
            Texts(o[w.name(EvidenceRefs)].items))
  }

  function ParseReceipt(w: Wire, o: Object): Option<Receipt> {
    if HasReceipt(w, o) && o[w.name(ClosureRequired)].flag && o[w.name(NotClosure)].flag
       && ValidReceipt(w, ReadReceipt(w, o))
    then Some(ReadReceipt(w, o)) else None
  }

  lemma ReadReceiptRoundTrip(w: Wire, r: Receipt)
    requires w.Valid()
    ensures var o := ReceiptFields(w, r);
            HasReceipt(w, o) && ReadReceipt(w, o) == r && o[w.name(ClosureRequired)].flag && o[w.name(NotClosure)].flag
  {
    Get(w, ReceiptContent(r), ReceiptId, JStr(r.receiptId));
    Get(w, ReceiptContent(r), CapabilityId, JStr(r.capabilityId));
    Get(w, ReceiptContent(r), ExecutionPlane, JStr(r.plane));
    Get(w, ReceiptContent(r), IsolationRequired, JBool(r.isolation));
    Get(w, ReceiptContent(r), WorkerId, JStr(r.workerId));
    Get(w, ReceiptContent(r), InputHash, JStr(r.inputHash));
    Get(w, ReceiptContent(r), OutputHash, JStr(r.outputHash));
    Get(w, ReceiptContent(r), EvidenceRefs, TextArray(r.evidenceRefs));
    Get(w, ReceiptContent(r), ClosureRequired, JBool(true));
    Get(w, ReceiptContent(r), NotClosure, JBool(true));
    TextsRoundTrip(r.evidenceRefs);
  }

  lemma ReceiptRoundTrip(w: Wire, r: Receipt)
    requires w.Valid() && ValidReceipt(w, r)
    ensures ParseReceipt(w, ReceiptFields(w, r)) == Some(r)
  {
    ReadReceiptRoundTrip(w, r);
  }

  // ----- Requests ------------------------------------------------------------------------

  function IntentContent(skill: string, action: string, params: Object): Field -> Option<Json>
  {
    (f: Field) =>
      match f
      case Skill => Some(JStr(skill))
      case Action => Some(JStr(action))
      case Params => Some(JObj(params))
      case _ => None
  }

  function IntentFields(w: Wire, skill: string, action: string, params: Object): Object
  {
    w.Object(IntentContent(skill, action, params))
  }

  function InputContent(intent: Object, tenant: string, identity: string, command: string, conversation: string,
                        boundary: Object, metadata: Object): Field -> Option<Json>
  {
    (f: Field) =>
      match f
      case IntentKey => Some(JObj(intent))
      case TenantId => Some(JStr(tenant))
      case IdentityId => Some(JStr(identity))
      case CommandId => Some(JStr(command))
      case ConversationId => Some(JStr(conversation))
      case BoundaryKey => Some(JObj(boundary))
      case Metadata => Some(JObj(metadata))
      case _ => None
  }

  /** What both sides hash as the input of an execution. */
  function Input(w: Wire, intent: Object, tenant: string, identity: string, command: string, conversation: string,
                 b: Boundary, metadata: Object): Json
  {
    JObj(w.Object(InputContent(intent, tenant, identity, command, conversation, BoundaryFields(w, b), metadata)))
  }

  function InputOf(w: Wire, r: Request): Json
  {
    Input(w, r.intent, r.tenantId, r.identityId, r.commandId, r.conversationId, r.boundary, r.metadata)
  }

  /** Construction refuses blank ids, an unnamed intent, and a boundary drawn for another capability. */
  predicate ValidRequest(w: Wire, r: Request) {
    var skill, action := TextOr(r.intent, w.name(Skill)), TextOr(r.intent, w.name(Action));
    w.text(r.requestId) && w.text(r.tenantId) && w.text(r.identityId) && ValidBoundary(w, r.boundary)
    && w.text(r.inputHash)
    && w.text(skill) && w.text(action) && r.boundary.capabilityId == skill + "." + action
  }

  /** digest[:16] */
  function Short(s: string): string { if |s| <= 16 then s else s[..16] }

  datatype Call = Call(skill: string, action: string, params: Object, tenantId: string, identityId: string,
                       commandId: string, conversationId: string, metadata: Object)

  function BuildRequest(w: Wire, c: Call, b: Boundary): Result<Request, Failure>
  {
    var intent := IntentFields(w, c.skill, c.action, c.params);
    var inputHash := w.hash(Input(w, intent, c.tenantId, c.identityId, c.commandId, c.conversationId, b, c.metadata));
    var requestHash :=
      w.hash(JObj(Input(w, intent, c.tenantId, c.identityId, c.commandId, c.conversationId, b, c.metadata)
                                   .fields[w.name(InputHash) := JStr(inputHash)]));
    var r := Request("capability-request-" + Short(requestHash), c.tenantId, c.identityId, intent, b, inputHash,
                     c.commandId, c.conversationId, c.metadata);
    if ValidRequest(w, r) then Ok(r) else Err(RequestInvalid)
  }

  function RequestContent(r: Request, boundary: Object): Field -> Option<Json>
  {
    (f: Field) =>
      match f
      case RequestId => Some(JStr(r.requestId))
      case TenantId => Some(JStr(r.tenantId))
      case IdentityId => Some(JStr(r.identityId))
      case CommandId => Some(JStr(r.commandId))
      case ConversationId => Some(JStr(r.conversationId))
      case IntentKey => Some(JObj(r.intent))
      case BoundaryKey => Some(JObj(boundary))
      case InputHash => Some(JStr(r.inputHash))
      case Metadata => Some(JObj(r.metadata))
      case _ => None
  }

  function RequestFields(w: Wire, r: Request): Object
  {
    w.Object(RequestContent(r, BoundaryFields(w, r.boundary)))
  }

  predicate HasRequest(w: Wire, o: Object) {
    && HasText(o, w.name(RequestId)) && HasText(o, w.name(TenantId)) && HasText(o, w.name(IdentityId))
       && HasText(o, w.name(InputHash))
    && TextOrNone(o, w.name(CommandId)) && TextOrNone(o, w.name(ConversationId)) && ObjectOrNone(o, w.name(Metadata))
  }

  function ReadRequest(w: Wire, o: Object, b: Boundary, intent: Object): Request
    requires HasRequest(w, o)
  {
    Request(o[w.name(RequestId)].text, o[w.name(TenantId)].text, o[w.name(IdentityId)].text, intent, b,
            o[w.name(InputHash)].text,
            TextOr(o, w.name(CommandId)), TextOr(o, w.name(ConversationId)), ObjectOr(o, w.name(Metadata)))
  }

  /** The worker's reading of a request body: well formed, and hashing to what it says it hashes to. */
  function ParseRequest(w: Wire, o: Object): (r: Result<Request, Failure>)
    ensures r.Ok? ==> ValidRequest(w, r.value) && r.value.inputHash == w.hash(InputOf(w, r.value))
  {
    if !HasObject(o, w.name(BoundaryKey)) then Err(BoundaryMissing)
    else if !HasObject(o, w.name(IntentKey)) then Err(IntentMissing)
    else
      match ParseBoundary(w, o[w.name(BoundaryKey)].fields)
      case None => Err(RequestMalformed)
      case Some(b) =>
        if !HasRequest(w, o) then Err(RequestMalformed)
        else
          var r := ReadRequest(w, o, b, o[w.name(IntentKey)].fields);
          if !ValidRequest(w, r) then Err(RequestMalformed)
          else if r.inputHash != w.hash(InputOf(w, r)) then Err(InputHashMismatch)
          else Ok(r)
  }

  lemma WrittenRequest(w: Wire, r: Request, boundary: Object)
    requires w.Valid()
    ensures var o := w.Object(RequestContent(r, boundary));
            HasRequest(w, o) && ReadRequest(w, o, r.boundary, r.intent) == r
  {
    WrittenRequestTexts(w, r, boundary);
    WrittenRequestRest(w, r, boundary);
  }

  lemma WrittenRequestTexts(w: Wire, r: Request, boundary: Object)
    requires w.Valid()
    ensures var o := w.Object(RequestContent(r, boundary));
            && Says(w, o, RequestId, r.requestId) && Says(w, o, TenantId, r.tenantId)
            && Says(w, o, IdentityId, r.identityId) && Says(w, o, InputHash, r.inputHash)
  {
    Get(w, RequestContent(r, boundary), RequestId, JStr(r.requestId));
    Get(w, RequestContent(r, boundary), TenantId, JStr(r.tenantId));
    Get(w, RequestContent(r, boundary), IdentityId, JStr(r.identityId));
    Get(w, RequestContent(r, boundary), InputHash, JStr(r.inputHash));
  }

  lemma WrittenRequestRest(w: Wire, r: Request, boundary: Object)
    requires w.Valid()
    ensures var o := w.Object(RequestContent(r, boundary));
            && Says(w, o, CommandId, r.commandId) && Says(w, o, ConversationId, r.conversationId)
            && HasObject(o, w.name(Metadata)) && o[w.name(Metadata)].fields == r.metadata
  {
    Get(w, RequestContent(r, boundary), CommandId, JStr(r.commandId));
    Get(w, RequestContent(r, boundary), ConversationId, JStr(r.conversationId));
    Get(w, RequestContent(r, boundary), Metadata, JObj(r.metadata));
  }

  predicate Says(w: Wire, o: Object, f: Field, text: string) { HasText(o, w.name(f)) && o[w.name(f)].text == text }

  lemma WrittenParts(w: Wire, r: Request, boundary: Object)
    requires w.Valid()
    ensures var o := w.Object(RequestContent(r, boundary));
            && HasObject(o, w.name(BoundaryKey)) && o[w.name(BoundaryKey)].fields == boundary
            && HasObject(o, w.name(IntentKey)) && o[w.name(IntentKey)].fields == r.intent
  {
    Get(w, RequestContent(r, boundary), BoundaryKey, JObj(boundary));
    Get(w, RequestContent(r, boundary), IntentKey, JObj(r.intent));
  }

  /** A request read back from its own payload is the same request, unless its input hash was wrong to begin with. */
  lemma RequestRoundTrip(w: Wire, r: Request)
    requires w.Valid() && ValidRequest(w, r)
    ensures ParseRequest(w, RequestFields(w, r))
            == if r.inputHash == w.hash(InputOf(w, r)) then Ok(r) else Err(InputHashMismatch)
  {
    BoundaryRoundTrip(w, r.boundary);
    WrittenRequest(w, r, BoundaryFields(w, r.boundary));
    WrittenParts(w, r, BoundaryFields(w, r.boundary));
  }

  /** Every built request survives the trip. */
  lemma BuiltRequestRoundTrip(w: Wire, c: Call, b: Boundary)
    requires w.Valid() && BuildRequest(w, c, b).Ok?
    ensures ParseRequest(w, RequestFields(w, BuildRequest(w, c, b).value)) == Ok(BuildRequest(w, c, b).value)
  {
    RequestRoundTrip(w, BuildRequest(w, c, b).value);
  }

  /** The input hash covers everything the worker acts on: equal inputs are equal requests, ids aside. */
  lemma InputDetermines(w: Wire, r: Request, q: Request)
    requires w.Valid() && InputOf(w, r) == InputOf(w, q)
    ensures r == q.(requestId := r.requestId, inputHash := r.inputHash)
  {
    var b, d := BoundaryFields(w, r.boundary), BoundaryFields(w, q.boundary);
    assert w.Object(InputContentOf(r, b)) == w.Object(InputContentOf(q, d));
    SameParties(w, r, b, q, d);
    SameObjects(w, r, b, q, d);
    ReadBoundaryRoundTrip(w, r.boundary);
    ReadBoundaryRoundTrip(w, q.boundary);
  }

  function InputContentOf(r: Request, boundary: Object): Field -> Option<Json> {
    InputContent(r.intent, r.tenantId, r.identityId, r.commandId, r.conversationId, boundary, r.metadata)
  }

  lemma SameParties(w: Wire, r: Request, b: Object, q: Request, d: Object)
    requires w.Valid() && w.Object(InputContentOf(r, b)) == w.Object(InputContentOf(q, d))
    ensures r.tenantId == q.tenantId && r.identityId == q.identityId && r.commandId == q.commandId
            && r.conversationId == q.conversationId
  {
    ReadInputParties(w, r, b);
    ReadInputParties(w, q, d);
    ReadInputContext(w, r, b);
    ReadInputContext(w, q, d);
  }

  lemma SameObjects(w: Wire, r: Request, b: Object, q: Request, d: Object)
    requires w.Valid() && w.Object(InputContentOf(r, b)) == w.Object(InputContentOf(q, d))
    ensures r.intent == q.intent && b == d && r.metadata == q.metadata
  {
    ReadInputObjects(w, r, b);
    ReadInputObjects(w, q, d);
  }

  lemma ReadInputParties(w: Wire, r: Request, boundary: Object)
    requires w.Valid()
    ensures var o := w.Object(InputContentOf(r, boundary));
            && HasText(o, w.name(TenantId)) && r.tenantId == o[w.name(TenantId)].text
            && HasText(o, w.name(IdentityId)) && r.identityId == o[w.name(IdentityId)].text
  {
    Get(w, InputContentOf(r, boundary), TenantId, JStr(r.tenantId));
    Get(w, InputContentOf(r, boundary), IdentityId, JStr(r.identityId));
  }

  lemma ReadInputContext(w: Wire, r: Request, boundary: Object)
    requires w.Valid()
    ensures var o := w.Object(InputContentOf(r, boundary));
            && HasText(o, w.name(CommandId)) && r.commandId == o[w.name(CommandId)].text
            && HasText(o, w.name(ConversationId)) && r.conversationId == o[w.name(ConversationId)].text
  {
    Get(w, InputContentOf(r, boundary), CommandId, JStr(r.commandId));
    Get(w, InputContentOf(r, boundary), ConversationId, JStr(r.conversationId));
  }

  lemma ReadInputObjects(w: Wire, r: Request, boundary: Object)
    requires w.Valid()
    ensures var o := w.Object(InputContentOf(r, boundary));
            && HasObject(o, w.name(IntentKey)) && r.intent == o[w.name(IntentKey)].fields
            && HasObject(o, w.name(BoundaryKey)) && boundary == o[w.name(BoundaryKey)].fields
            && HasObject(o, w.name(Metadata)) && r.metadata == o[w.name(Metadata)].fields
  {
    Get(w, InputContentOf(r, boundary), IntentKey, JObj(r.intent));
    Get(w, InputContentOf(r, boundary), BoundaryKey, JObj(boundary));
    Get(w, InputContentOf(r, boundary), Metadata, JObj(r.metadata));
  }

  /** Two bodies the worker accepts under one input hash ask for the same thing. */
  lemma AcceptedInputsAgree(w: Wire, o: Object, p: Object)
    requires w.Valid() && ParseRequest(w, o).Ok? && ParseRequest(w, p).Ok?
    requires var r, q := ParseRequest(w, o).value, ParseRequest(w, p).value;
             r.inputHash == q.inputHash && CollisionFree(w.hash, {InputOf(w, r), InputOf(w, q)})
    ensures var r, q := ParseRequest(w, o).value, ParseRequest(w, p).value; r == q.(requestId := r.requestId)
  {
    InputDetermines(w, ParseRequest(w, o).value, ParseRequest(w, p).value);
  }

  // ----- The worker -----------------------------------------------------------------------

  type Dispatcher = Call -> Option<Object>

  const ISOLATED_WORKER := "isolated_worker"

  function OrEmpty(result: Option<Object>): Json { JObj(if result.Some? then result.value else map[]) }

  function ReceiptHashContent(b: Boundary, workerId: string, inputHash: string,
                              outputHash: string): Field -> Option<Json> {
    (f: Field) =>
      match f
      case CapabilityId => Some(JStr(b.capabilityId))
      case ExecutionPlane => Some(JStr(b.plane))
      case WorkerId => Some(JStr(workerId))
      case InputHash => Some(JStr(inputHash))
      case OutputHash => Some(JStr(outputHash))
      case ClosureRequired => Some(JBool(true))
      case NotClosure => Some(JBool(true))
      case _ => None
  }

  function InputOfCall(w: Wire, c: Call, b: Boundary): Json {
    Input(w, IntentFields(w, c.skill, c.action, c.params), c.tenantId, c.identityId, c.commandId, c.conversationId,
          b, c.metadata)
  }

  function ReceiptFor(w: Wire, workerId: string, c: Call, b: Boundary, result: Option<Object>): Receipt {
    var inputHash, outputHash := w.hash(InputOfCall(w, c, b)), w.hash(OrEmpty(result));
    ReceiptWith(b, workerId, inputHash, outputHash,
                Short(w.hash(JObj(w.Object(ReceiptHashContent(b, workerId, inputHash, outputHash))))))
  }

  function ReceiptWith(b: Boundary, workerId: string, inputHash: string, outputHash: string, digest: string): Receipt {
    Receipt("capability-receipt-" + digest, b.capabilityId, b.plane, b.isolation, workerId, inputHash, outputHash,
            ["capability_execution:" + digest])
  }

  /** The local worker: it hashes its own view of the input and its raw output, then attaches both records. */
  function LocalExecute(w: Wire, workerId: string, dispatch: Dispatcher, c: Call,
                        b: Boundary): Result<(Option<Object>, Receipt), Failure> {
    if b.capabilityId != c.skill + "." + c.action then Err(BoundaryMismatch)
    else
      var result := dispatch(c);
      var receipt := ReceiptFor(w, workerId, c, b, result);
      if !ValidReceipt(w, receipt) then Err(ReceiptInvalid)
      else if result.None? then Ok((None, receipt))
      else Ok((Some(result.value[w.name(AttachedBoundary) := JObj(BoundaryFields(w, b))]
                                  [w.name(AttachedReceipt) := JObj(ReceiptFields(w, receipt))]), receipt))
  }

  function Reserved(w: Wire): set<string> {
    {w.name(AttachedBoundary), w.name(AttachedReceipt), w.name(AttachedRequestId)}
  }

  /** Strip the local worker's records, which the gateway attaches again. */
  function TransportResult(w: Wire, result: Option<Object>): Option<Object> {
    if result.None? then None else Some(result.value - Reserved(w))
  }

  function ResponseContent(r: Response, receipt: Object): Field -> Option<Json> {
    (f: Field) =>
      match f
      case RequestId => Some(JStr(r.requestId))
      case Status => Some(JStr(r.status))
      case ResultKey => Some(if r.result.None? then JNull else JObj(r.result.value))
      case ReceiptKey => Some(JObj(receipt))
      case ErrorKey => Some(JStr(r.error))
      case _ => None
  }

  function ResponseFields(w: Wire, r: Response): Object { w.Object(ResponseContent(r, ReceiptFields(w, r.receipt))) }

  const SUCCEEDED := "succeeded"

  function Respond(requestId: string, result: Option<Object>, receipt: Receipt): Response {
    Response(requestId, if result.Some? then SUCCEEDED else "failed", result, receipt,
             if result.Some? then "" else "capability dispatch returned no result")
  }

  function CallOf(w: Wire, r: Request): Call {
    Call(TextOr(r.intent, w.name(Skill)), TextOr(r.intent, w.name(Action)), ObjectOr(r.intent, w.name(Params)),
         r.tenantId, r.identityId,
         r.commandId, r.conversationId, r.metadata)
  }

  /** The restricted worker, from the body of a request to the body of its reply. */
  function WorkerReply(w: Wire, workerId: string, dispatch: Dispatcher, body: Object): Result<Object, Failure> {
    match ParseRequest(w, body)
    case Err(e) => Err(e)
    case Ok(r) =>
      if !r.boundary.isolation then Err(NotIsolated)
      else if r.boundary.plane != ISOLATED_WORKER then Err(NotIsolatedPlane)
      else if !ObjectOrNone(r.intent, w.name(Params)) then Err(RequestMalformed)
      else
        match LocalExecute(w, workerId, dispatch, CallOf(w, r), r.boundary)
        case Err(e) => Err(e)
        case Ok((result, receipt)) => Ok(ResponseFields(w, Respond(r.requestId, TransportResult(w, result), receipt)))
  }

  function Worker(w: Wire, workerId: string, dispatch: Dispatcher): Object -> Result<Object, Failure> {
    (body: Object) => WorkerReply(w, workerId, dispatch, body)
  }

  // ----- The gateway ------------------------------------------------------------------------

  /** null, an object, or absent; anything else is refused. */
  predicate ResultOk(w: Wire, o: Object) {
    w.name(ResultKey) in o ==> o[w.name(ResultKey)].JNull? || o[w.name(ResultKey)].JObj?
  }

  predicate HasResponse(w: Wire, o: Object) {
    && HasText(o, w.name(RequestId)) && w.text(o[w.name(RequestId)].text)
    && HasText(o, w.name(Status)) && w.text(o[w.name(Status)].text)
    && TextOrNone(o, w.name(ErrorKey))
  }

  function ReadResponse(w: Wire, o: Object, receipt: Receipt): Response
    requires HasResponse(w, o)
  {
    Response(o[w.name(RequestId)].text, o[w.name(Status)].text,
             if HasObject(o, w.name(ResultKey)) then Some(o[w.name(ResultKey)].fields)
             else None, receipt, TextOr(o, w.name(ErrorKey)))
  }

  function ParseResponse(w: Wire, o: Object): (r: Result<Response, Failure>)
    ensures r.Ok? ==> ValidReceipt(w, r.value.receipt)
  {
    if !HasObject(o, w.name(ReceiptKey)) then Err(ReceiptMissing)
    else if !ResultOk(w, o) then Err(ResultNotObject)
    else
      match ParseReceipt(w, o[w.name(ReceiptKey)].fields)
      case None => Err(ResponseMalformed)
      case Some(receipt) => if HasResponse(w, o) then Ok(ReadResponse(w, o, receipt)) else Err(ResponseMalformed)
  }

  function ValidateResponse(w: Wire, q: Request, r: Response): Option<Failure> {
    if r.requestId != q.requestId then Some(RequestMismatch)
    else if r.status != SUCCEEDED then Some(NotSucceeded)
    else if r.receipt.capabilityId != q.boundary.capabilityId then Some(CapabilityMismatch)
    else if r.receipt.plane != q.boundary.plane then Some(PlaneMismatch)
    else if r.receipt.isolation != q.boundary.isolation then Some(IsolationMismatch)
    else if q.boundary.isolation && r.receipt.plane != ISOLATED_WORKER then Some(IsolatedPlaneRequired)
    else if r.receipt.inputHash != q.inputHash then Some(InputMismatch)
    else if r.receipt.evidenceRefs == [] then Some(EvidenceMissing)
    else if r.receipt.outputHash != w.hash(OrEmpty(r.result)) then Some(OutputMismatch)
    else None
  }

  /** The result with the three records attached. */
  function Attach(w: Wire, result: Object, b: Boundary, receipt: Receipt, requestId: string): Object {
    result[w.name(AttachedBoundary) := JObj(BoundaryFields(w, b))]
          [w.name(AttachedReceipt) := JObj(ReceiptFields(w, receipt))]
          [w.name(AttachedRequestId) := JStr(requestId)]
  }

  function RemoteExecute(w: Wire, transport: Object -> Result<Object, Failure>, c: Call,
                         b: Boundary): Result<(Option<Object>, Receipt), Failure> {
    match BuildRequest(w, c, b)
    case Err(e) => Err(e)
    case Ok(q) =>
      match transport(RequestFields(w, q))
      case Err(e) => Err(e)
      case Ok(body) =>
        match ParseResponse(w, body)
        case Err(e) => Err(e)
        case Ok(r) =>
          match ValidateResponse(w, q, r)
          case Some(e) => Err(e)
          case None =>
            Ok((if r.result.None? then None else Some(Attach(w, r.result.value, b, r.receipt, q.requestId)), r.receipt))
  }

  /** The receipt is for this input, this boundary and this output. */
  ghost predicate Receipted(w: Wire, c: Call, b: Boundary, result: Option<Object>, receipt: Receipt) {
    && ValidReceipt(w, receipt) && receipt.inputHash == w.hash(InputOfCall(w, c, b))
       && receipt.outputHash == w.hash(OrEmpty(result))
    && receipt.capabilityId == b.capabilityId && receipt.plane == b.plane && receipt.isolation == b.isolation
    && (b.isolation ==> b.plane == ISOLATED_WORKER)
  }

  /** The checks that leave no failure, as facts. */
  lemma ValidatedMatches(w: Wire, q: Request, r: Response)
    requires ValidateResponse(w, q, r).None?
    ensures r.requestId == q.requestId && r.receipt.inputHash == q.inputHash
            && r.receipt.outputHash == w.hash(OrEmpty(r.result))
    ensures r.receipt.capabilityId == q.boundary.capabilityId && r.receipt.plane == q.boundary.plane
    ensures r.receipt.isolation == q.boundary.isolation
            && (q.boundary.isolation ==> q.boundary.plane == ISOLATED_WORKER)
  {
  }

  lemma ValidatedIsReceipted(w: Wire, c: Call, b: Boundary, r: Response)
    requires w.Valid() && BuildRequest(w, c, b).Ok? && ValidateResponse(w, BuildRequest(w, c, b).value, r).None?
             && ValidReceipt(w, r.receipt)
    ensures Receipted(w, c, b, r.result, r.receipt) && r.requestId == BuildRequest(w, c, b).value.requestId
  {
    CallRoundTrip(w, c, b);
    ValidatedMatches(w, BuildRequest(w, c, b).value, r);
  }

  /** Whatever is at the other end, what the gateway accepts carries a receipt for its own input, capability and
      plane, and for exactly the output it delivers. */
  lemma AcceptedReplyIsReceipted(w: Wire, transport: Object -> Result<Object, Failure>, c: Call, b: Boundary)
    requires w.Valid() && RemoteExecute(w, transport, c, b).Ok?
    ensures var (delivered, receipt) := RemoteExecute(w, transport, c, b).value;
            exists result: Option<Object> ::
              Receipted(w, c, b, result, receipt)
              && delivered == if result.None? then None
                              else Some(Attach(w, result.value, b, receipt, BuildRequest(w, c, b).value.requestId))
  {
    var q := BuildRequest(w, c, b).value;
    var r := ParseResponse(w, transport(RequestFields(w, q)).value).value;
    ValidatedIsReceipted(w, c, b, r);
    assert RemoteExecute(w, transport, c, b).value
           == (if r.result.None? then None else Some(Attach(w, r.result.value, b, r.receipt, q.requestId)), r.receipt);
    assert Receipted(w, c, b, r.result, r.receipt);
  }

  // ----- Both ends together -------------------------------------------------------------------

  lemma IntentRoundTrip(w: Wire, skill: string, action: string, params: Object)
    requires w.Valid()
    ensures var o := IntentFields(w, skill, action, params);
            && TextOr(o, w.name(Skill)) == skill && TextOr(o, w.name(Action)) == action
            && ObjectOrNone(o, w.name(Params)) && ObjectOr(o, w.name(Params)) == params
  {
    Get(w, IntentContent(skill, action, params), Skill, JStr(skill));
    Get(w, IntentContent(skill, action, params), Action, JStr(action));
    Get(w, IntentContent(skill, action, params), Params, JObj(params));
  }

  lemma RequestIdIsText(w: Wire, digest: string)
    requires w.Valid()
    ensures w.text("capability-request-" + digest)
  {
    assert "capability-request-" + digest == ['c'] + ("apability-request-" + digest);
  }

  /** A request is built exactly when nothing that must be text is blank and the boundary was drawn for this
      capability. */
  lemma BuildsIff(w: Wire, c: Call, b: Boundary)
    requires w.Valid()
    ensures BuildRequest(w, c, b).Ok? <==>
              && w.text(c.tenantId) && w.text(c.identityId) && w.text(c.skill) && w.text(c.action)
              && ValidBoundary(w, b) && b.capabilityId == c.skill + "." + c.action
  {
    IntentRoundTrip(w, c.skill, c.action, c.params);
    var inputHash := w.hash(InputOfCall(w, c, b));
    RequestIdIsText(w, Short(w.hash(JObj(InputOfCall(w, c, b).fields[w.name(InputHash) := JStr(inputHash)]))));
  }

  lemma CallRoundTrip(w: Wire, c: Call, b: Boundary)
    requires w.Valid() && BuildRequest(w, c, b).Ok?
    ensures var q := BuildRequest(w, c, b).value;
            && CallOf(w, q) == c && q.boundary == b && q.inputHash == w.hash(InputOfCall(w, c, b))
               && ObjectOrNone(q.intent, w.name(Params))
            && b.capabilityId == c.skill + "." + c.action && ValidBoundary(w, b) && w.text(q.requestId)
  {
    IntentRoundTrip(w, c.skill, c.action, c.params);
  }

  lemma IdsAreText(w: Wire, s: string)
    requires w.Valid()
    ensures w.text("capability-receipt-" + s) && w.text("capability_execution:" + s)
  {
    assert "capability-receipt-" + s == ['c'] + ("apability-receipt-" + s);
    assert "capability_execution:" + s == ['c'] + ("apability_execution:" + s);
  }

  lemma ReceiptWithValid(w: Wire, b: Boundary, workerId: string, inputHash: string, outputHash: string, digest: string)
    requires w.Valid() && ValidBoundary(w, b) && w.text(workerId) && w.text(inputHash) && w.text(outputHash)
    ensures ValidReceipt(w, ReceiptWith(b, workerId, inputHash, outputHash, digest))
  {
    IdsAreText(w, digest);
  }

  lemma WorkerReceiptValid(w: Wire, workerId: string, c: Call, b: Boundary, result: Option<Object>)
    requires w.Valid() && ValidBoundary(w, b) && w.text(workerId)
    ensures ValidReceipt(w, ReceiptFor(w, workerId, c, b, result))
  {
    var inputHash, outputHash := w.hash(InputOfCall(w, c, b)), w.hash(OrEmpty(result));
    ReceiptWithValid(w, b, workerId, inputHash, outputHash,
                     Short(w.hash(JObj(w.Object(ReceiptHashContent(b, workerId, inputHash, outputHash))))));
  }

  lemma WrittenTexts(w: Wire, r: Response, receipt: Object)
    requires w.Valid() && w.text(r.requestId) && w.text(r.status)
    ensures var o := w.Object(ResponseContent(r, receipt));
            HasResponse(w, o) && o[w.name(RequestId)].text == r.requestId && o[w.name(Status)].text == r.status
            && TextOr(o, w.name(ErrorKey)) == r.error
  {
    Get(w, ResponseContent(r, receipt), RequestId, JStr(r.requestId));
    Get(w, ResponseContent(r, receipt), Status, JStr(r.status));
    Get(w, ResponseContent(r, receipt), ErrorKey, JStr(r.error));
  }

  lemma WrittenObjects(w: Wire, r: Response, receipt: Object)
    requires w.Valid()
    ensures var o := w.Object(ResponseContent(r, receipt));
            && HasObject(o, w.name(ReceiptKey)) && o[w.name(ReceiptKey)].fields == receipt && ResultOk(w, o)
            && r.result == if HasObject(o, w.name(ResultKey)) then Some(o[w.name(ResultKey)].fields) else None
  {
    Get(w, ResponseContent(r, receipt), ReceiptKey, JObj(receipt));
    Get(w, ResponseContent(r, receipt), ResultKey, if r.result.None? then JNull else JObj(r.result.value));
  }

  lemma ResponseRoundTrip(w: Wire, r: Response)
    requires w.Valid() && ValidReceipt(w, r.receipt) && w.text(r.requestId) && w.text(r.status)
    ensures ParseResponse(w, ResponseFields(w, r)) == Ok(r)
  {
    ReceiptRoundTrip(w, r.receipt);
    WrittenTexts(w, r, ReceiptFields(w, r.receipt));
    WrittenObjects(w, r, ReceiptFields(w, r.receipt));
    assert ReadResponse(w, ResponseFields(w, r), r.receipt) == r;
  }

  ghost predicate Clean(w: Wire, result: Option<Object>) { result.Some? && result.value.Keys !! Reserved(w) }

  lemma StripAttached(w: Wire, raw: Object, b: Json, r: Json)
    ensures raw[w.name(AttachedBoundary) := b][w.name(AttachedReceipt) := r] - Reserved(w) == raw - Reserved(w)
    ensures raw - Reserved(w) == raw <==> raw.Keys !! Reserved(w)
  {
    if raw - Reserved(w) == raw { assert (raw - Reserved(w)).Keys == raw.Keys - Reserved(w); }
  }

  /** What a worker answers a built request: it runs it only behind an isolated boundary, and replies with the raw
      result stripped of reserved keys under a receipt for the raw result. */
  lemma WorkerAnswers(w: Wire, workerId: string, dispatch: Dispatcher, c: Call, b: Boundary)
    requires w.Valid() && w.text(workerId) && BuildRequest(w, c, b).Ok?
    ensures var q := BuildRequest(w, c, b).value;
            WorkerReply(w, workerId, dispatch, RequestFields(w, q))
            == if !b.isolation then Err(NotIsolated)
               else if b.plane != ISOLATED_WORKER then Err(NotIsolatedPlane)
               else Ok(ResponseFields(w, Respond(q.requestId, TransportResult(w, dispatch(c)),
                                                 ReceiptFor(w, workerId, c, b, dispatch(c)))))
  {
    var q := BuildRequest(w, c, b).value;
    BuiltRequestRoundTrip(w, c, b);
    CallRoundTrip(w, c, b);
    LocalAnswers(w, workerId, dispatch, c, b);
  }

  lemma LocalAnswers(w: Wire, workerId: string, dispatch: Dispatcher, c: Call, b: Boundary)
    requires w.Valid() && w.text(workerId) && ValidBoundary(w, b) && b.capabilityId == c.skill + "." + c.action
    ensures var r := LocalExecute(w, workerId, dispatch, c, b);
            && r.Ok? && r.value.1 == ReceiptFor(w, workerId, c, b, dispatch(c))
            && TransportResult(w, r.value.0) == TransportResult(w, dispatch(c))
  {
    var receipt := ReceiptFor(w, workerId, c, b, dispatch(c));
    LocalAccepts(w, workerId, dispatch, c, b);
    RecordsStripped(w, dispatch(c), JObj(BoundaryFields(w, b)), JObj(ReceiptFields(w, receipt)));
  }

  lemma LocalAccepts(w: Wire, workerId: string, dispatch: Dispatcher, c: Call, b: Boundary)
    requires w.Valid() && w.text(workerId) && ValidBoundary(w, b) && b.capabilityId == c.skill + "." + c.action
    ensures var receipt := ReceiptFor(w, workerId, c, b, dispatch(c));
            LocalExecute(w, workerId, dispatch, c, b)
            == Ok((WithRecords(w, dispatch(c), JObj(BoundaryFields(w, b)), JObj(ReceiptFields(w, receipt))), receipt))
  {
    WorkerReceiptValid(w, workerId, c, b, dispatch(c));
  }

  function WithRecords(w: Wire, result: Option<Object>, b: Json, r: Json): Option<Object> {
    if result.None? then None else Some(result.value[w.name(AttachedBoundary) := b][w.name(AttachedReceipt) := r])
  }

  lemma RecordsStripped(w: Wire, result: Option<Object>, b: Json, r: Json)
    ensures TransportResult(w, WithRecords(w, result, b, r)) == TransportResult(w, result)
  {
    if result.Some? { StripAttached(w, result.value, b, r); }
  }

  /** Gateway and worker agree on a built request exactly when the boundary is isolated and dispatch returned an object
      with none of the reserved keys; the gateway then delivers that object with the three records attached. */
  lemma GatewayAcceptsIff(w: Wire, workerId: string, dispatch: Dispatcher, c: Call, b: Boundary)
    requires w.Valid() && w.text(workerId) && BuildRequest(w, c, b).Ok?
    requires CollisionFree(w.hash, {OrEmpty(dispatch(c)), OrEmpty(TransportResult(w, dispatch(c)))})
    ensures var r, q := RemoteExecute(w, Worker(w, workerId, dispatch), c, b), BuildRequest(w, c, b).value;
            && (r.Ok? <==> b.isolation && b.plane == ISOLATED_WORKER && Clean(w, dispatch(c)))
            && (r.Ok? ==> var receipt := ReceiptFor(w, workerId, c, b, dispatch(c));
                            r.value == (Some(Attach(w, dispatch(c).value, b, receipt, q.requestId)), receipt))
  {
    var q := BuildRequest(w, c, b).value;
    WorkerAnswers(w, workerId, dispatch, c, b);
    if b.isolation && b.plane == ISOLATED_WORKER {
      IsolatedExchange(w, workerId, Worker(w, workerId, dispatch), c, b, dispatch(c));
    } else {
      RefusedExchange(w, Worker(w, workerId, dispatch), c, b);
    }
  }

  lemma RefusedExchange(w: Wire, transport: Object -> Result<Object, Failure>, c: Call, b: Boundary)
    requires BuildRequest(w, c, b).Ok? && transport(RequestFields(w, BuildRequest(w, c, b).value)).Err?
    ensures RemoteExecute(w, transport, c, b).Err?
  {
  }

  lemma IsolatedExchange(w: Wire, workerId: string, transport: Object -> Result<Object, Failure>, c: Call,
                         b: Boundary, result: Option<Object>)
    requires w.Valid() && w.text(workerId) && BuildRequest(w, c, b).Ok? && b.isolation && b.plane == ISOLATED_WORKER
    requires CollisionFree(w.hash, {OrEmpty(result), OrEmpty(TransportResult(w, result))})
    requires var q := BuildRequest(w, c, b).value;
             transport(RequestFields(w, q))
             == Ok(ResponseFields(w, Respond(q.requestId, TransportResult(w, result),
                                             ReceiptFor(w, workerId, c, b, result))))
    ensures var r, q := RemoteExecute(w, transport, c, b), BuildRequest(w, c, b).value;
            && (r.Ok? <==> Clean(w, result))
            && (r.Ok? ==> var receipt := ReceiptFor(w, workerId, c, b, result);
                          r.value == (Some(Attach(w, result.value, b, receipt, q.requestId)), receipt))
  {
    var q := BuildRequest(w, c, b).value;
    GoodReply(w, workerId, c, b, result);
    GatewayReceives(w, transport, c, b,
                    Respond(q.requestId, TransportResult(w, result), ReceiptFor(w, workerId, c, b, result)));
    ReplyAcceptedIff(w, workerId, c, b, result);
  }

  lemma GoodReply(w: Wire, workerId: string, c: Call, b: Boundary, result: Option<Object>)
    requires w.Valid() && w.text(workerId) && BuildRequest(w, c, b).Ok?
    ensures var reply := Respond(BuildRequest(w, c, b).value.requestId, TransportResult(w, result),
                                 ReceiptFor(w, workerId, c, b, result));
            ValidReceipt(w, reply.receipt) && w.text(reply.requestId) && w.text(reply.status)
  {
    CallRoundTrip(w, c, b);
    WorkerReceiptValid(w, workerId, c, b, result);
    StatusIsText(w);
  }

  lemma GatewayReceives(w: Wire, transport: Object -> Result<Object, Failure>, c: Call, b: Boundary, reply: Response)
    requires w.Valid() && BuildRequest(w, c, b).Ok?
    requires transport(RequestFields(w, BuildRequest(w, c, b).value)) == Ok(ResponseFields(w, reply))
    requires ValidReceipt(w, reply.receipt) && w.text(reply.requestId) && w.text(reply.status)
    ensures var q := BuildRequest(w, c, b).value;
            RemoteExecute(w, transport, c, b)
            == match ValidateResponse(w, q, reply)
               case Some(e) => Err(e)
               case None =>
                 Ok((if reply.result.None? then None
                     else Some(Attach(w, reply.result.value, b, reply.receipt, q.requestId)), reply.receipt))
  {
    ResponseRoundTrip(w, reply);
  }

  lemma StatusIsText(w: Wire)
    requires w.Valid()
    ensures w.text(SUCCEEDED) && w.text("failed")
  {
    assert SUCCEEDED == ['s'] + "ucceeded" && "failed" == ['f'] + "ailed";
  }

  lemma StrippedOutput(w: Wire, result: Option<Object>)
    requires CollisionFree(w.hash, {OrEmpty(result), OrEmpty(TransportResult(w, result))})
    ensures Clean(w, result) <==> result.Some? && w.hash(OrEmpty(TransportResult(w, result))) == w.hash(OrEmpty(result))
    ensures Clean(w, result) ==> TransportResult(w, result) == result
  {
    if result.Some? { StripAttached(w, result.value, JNull, JNull); }
  }

  lemma ReplyAcceptedIff(w: Wire, workerId: string, c: Call, b: Boundary, result: Option<Object>)
    requires w.Valid() && BuildRequest(w, c, b).Ok? && b.isolation && b.plane == ISOLATED_WORKER
    requires CollisionFree(w.hash, {OrEmpty(result), OrEmpty(TransportResult(w, result))})
    ensures var q := BuildRequest(w, c, b).value;
            ValidateResponse(w, q, Respond(q.requestId, TransportResult(w, result),
                                           ReceiptFor(w, workerId, c, b, result))).None?
            <==> Clean(w, result)
    ensures Clean(w, result) ==> TransportResult(w, result) == result
  {
    var q := BuildRequest(w, c, b).value;
    CallRoundTrip(w, c, b);
    StrippedOutput(w, result);
    SucceededIff(q.requestId, TransportResult(w, result), ReceiptFor(w, workerId, c, b, result));
    OutputDecides(w, q, Respond(q.requestId, TransportResult(w, result), ReceiptFor(w, workerId, c, b, result)));
  }

  /** Between matching ends only the status and the output hash are left to check. */
  lemma OutputDecides(w: Wire, q: Request, r: Response)
    requires r.requestId == q.requestId && r.receipt.inputHash == q.inputHash && r.receipt.evidenceRefs != []
    requires r.receipt.capabilityId == q.boundary.capabilityId && r.receipt.plane == q.boundary.plane
    requires r.receipt.isolation == q.boundary.isolation
             && (q.boundary.isolation ==> q.boundary.plane == ISOLATED_WORKER)
    ensures ValidateResponse(w, q, r).None?
            <==> r.status == SUCCEEDED && r.receipt.outputHash == w.hash(OrEmpty(r.result))
  {
  }

  lemma SucceededIff(requestId: string, result: Option<Object>, receipt: Receipt)
    ensures Respond(requestId, result, receipt).status == SUCCEEDED <==> result.Some?
  {
    assert "failed"[0] == 'f' && SUCCEEDED[0] == 's';
  }
}
