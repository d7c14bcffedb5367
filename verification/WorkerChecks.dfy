/** What each end accepts, told in the JSON fields of the body and the fields of what is read from it, both ways; and
    what a reply must say before the gateway delivers it. */
module WorkerChecks {
  import opened Collections
  import opened Json
  import opened WorkerProtocol

  // ----- Single fields ----------------------------------------------------------------------

  ghost predicate TextAt(w: Wire, o: Object, f: Field, text: string) { w.name(f) in o && o[w.name(f)] == JStr(text) }
  ghost predicate FlagAt(w: Wire, o: Object, f: Field, flag: bool) { w.name(f) in o && o[w.name(f)] == JBool(flag) }
  ghost predicate NumberAt(w: Wire, o: Object, f: Field, n: int) { w.name(f) in o && o[w.name(f)] == JInt(n) }
  ghost predicate ObjectAt(w: Wire, o: Object, f: Field, x: Object) { w.name(f) in o && o[w.name(f)] == JObj(x) }

  ghost predicate ListAt(w: Wire, o: Object, f: Field, texts: seq<string>) {
    && w.name(f) in o && o[w.name(f)].JArr? && |o[w.name(f)].items| == |texts|
    && forall i | 0 <= i < |texts| :: o[w.name(f)].items[i] == JStr(texts[i])
  }

  /** The text there, or nothing where there is none. */
  ghost predicate TextOrBlankAt(w: Wire, o: Object, f: Field, text: string) {
    if w.name(f) in o then o[w.name(f)] == JStr(text) else text == ""
  }

  ghost predicate ObjectOrEmptyAt(w: Wire, o: Object, f: Field, x: Object) {
    if w.name(f) in o then o[w.name(f)] == JObj(x) else x == map[]
  }

  lemma ListMeans(w: Wire, o: Object, f: Field, texts: seq<string>)
    ensures HasTexts(o, w.name(f)) && Texts(o[w.name(f)].items) == texts <==> ListAt(w, o, f, texts)
  {
    if HasTexts(o, w.name(f)) {
      var items := o[w.name(f)].items;
      if Texts(items) == texts {
        forall i | 0 <= i < |texts| ensures items[i] == JStr(texts[i]) { assert Texts(items)[i] == items[i].text; }
      }
      if ListAt(w, o, f, texts) { assert Texts(items) == texts; }
    }
    if ListAt(w, o, f, texts) {
      forall i | 0 <= i < |o[w.name(f)].items| ensures o[w.name(f)].items[i].JStr? {
        assert o[w.name(f)].items[i] == JStr(texts[i]);
      }
    }
  }

  // ----- Boundaries and receipts --------------------------------------------------------------

  ghost predicate BoundarySays(w: Wire, o: Object, b: Boundary) {
    && TextAt(w, o, CapabilityId, b.capabilityId) && TextAt(w, o, ExecutionPlane, b.plane)
    && FlagAt(w, o, IsolationRequired, b.isolation) && ListAt(w, o, NetworkPolicy, b.network)
    && TextAt(w, o, FilesystemPolicy, b.filesystem) && NumberAt(w, o, MaxRuntime, b.maxRuntime)
    && NumberAt(w, o, MaxMemory, b.maxMemory) && TextAt(w, o, ServiceAccount, b.serviceAccount)
    && ListAt(w, o, EvidenceRequired, b.evidence)
  }

  /** No text of it is blank, the network policy apart, and both its limits are positive. */
  ghost predicate BoundaryFit(w: Wire, b: Boundary) {
    && w.text(b.capabilityId) && w.text(b.plane) && w.text(b.filesystem) && w.text(b.serviceAccount)
    && b.maxRuntime > 0 && b.maxMemory > 0 && forall i | 0 <= i < |b.evidence| :: w.text(b.evidence[i])
  }

  lemma AllTextMeans(w: Wire, s: seq<string>)
    ensures AllText(w, s) <==> forall i | 0 <= i < |s| :: w.text(s[i])
  {
    if forall i | 0 <= i < |s| :: w.text(s[i]) {
      forall t | t in s ensures w.text(t) { var i :| 0 <= i < |s| && s[i] == t; }
    }
  }

  /** A boundary is read from an object exactly when the object says so field by field and it is fit. */
  lemma BoundaryReadIff(w: Wire, o: Object, b: Boundary)
    ensures ParseBoundary(w, o) == Some(b) <==> BoundarySays(w, o, b) && BoundaryFit(w, b)
  {
    ListMeans(w, o, NetworkPolicy, b.network);
    ListMeans(w, o, EvidenceRequired, b.evidence);
    AllTextMeans(w, b.evidence);
    if HasBoundary(w, o) {
      ListMeans(w, o, NetworkPolicy, ReadBoundary(w, o).network);
      ListMeans(w, o, EvidenceRequired, ReadBoundary(w, o).evidence);
    }
  }

  ghost predicate ReceiptSays(w: Wire, o: Object, r: Receipt) {
    && TextAt(w, o, ReceiptId, r.receiptId) && TextAt(w, o, CapabilityId, r.capabilityId)
    && TextAt(w, o, ExecutionPlane, r.plane) && FlagAt(w, o, IsolationRequired, r.isolation)
    && TextAt(w, o, WorkerId, r.workerId) && TextAt(w, o, InputHash, r.inputHash)
    && TextAt(w, o, OutputHash, r.outputHash) && ListAt(w, o, EvidenceRefs, r.evidenceRefs)
  }

  ghost predicate ReceiptFit(w: Wire, r: Receipt) {
    && w.text(r.receiptId) && w.text(r.capabilityId) && w.text(r.plane) && w.text(r.workerId)
    && w.text(r.inputHash) && w.text(r.outputHash)
    && r.evidenceRefs != [] && forall i | 0 <= i < |r.evidenceRefs| :: w.text(r.evidenceRefs[i])
  }

  /** So is a receipt, which must also say that it closes nothing. */
  lemma ReceiptReadIff(w: Wire, o: Object, r: Receipt)
    ensures ParseReceipt(w, o) == Some(r) <==>
            && ReceiptSays(w, o, r) && ReceiptFit(w, r)
            && FlagAt(w, o, ClosureRequired, true) && FlagAt(w, o, NotClosure, true)
  {
    ListMeans(w, o, EvidenceRefs, r.evidenceRefs);
    AllTextMeans(w, r.evidenceRefs);
    if HasReceipt(w, o) { ListMeans(w, o, EvidenceRefs, ReadReceipt(w, o).evidenceRefs); }
  }

  // ----- Requests ---------------------------------------------------------------------------

  ghost predicate RequestSays(w: Wire, o: Object, r: Request) {
    && TextAt(w, o, RequestId, r.requestId) && TextAt(w, o, TenantId, r.tenantId)
    && TextAt(w, o, IdentityId, r.identityId) && TextAt(w, o, InputHash, r.inputHash)
    && TextOrBlankAt(w, o, CommandId, r.commandId) && TextOrBlankAt(w, o, ConversationId, r.conversationId)
    && ObjectOrEmptyAt(w, o, Metadata, r.metadata) && ObjectAt(w, o, IntentKey, r.intent)
  }

  /** Its ids are no blank text, its intent names a skill and an action, and its boundary is of just that capability. */
  ghost predicate RequestFit(w: Wire, r: Request) {
    && w.text(r.requestId) && w.text(r.tenantId) && w.text(r.identityId) && w.text(r.inputHash)
    && exists skill, action ::
         && TextAt(w, r.intent, Skill, skill) && TextAt(w, r.intent, Action, action)
         && w.text(skill) && w.text(action) && r.boundary.capabilityId == skill + "." + action
  }

  lemma RequestFitMeans(w: Wire, r: Request)
    requires !w.text("")
    ensures ValidRequest(w, r) <==> RequestFit(w, r) && BoundaryFit(w, r.boundary)
  {
    AllTextMeans(w, r.boundary.evidence);
    var skill, action := TextOr(r.intent, w.name(Skill)), TextOr(r.intent, w.name(Action));
    if w.text(skill) && w.text(action) {
      assert TextAt(w, r.intent, Skill, skill) && TextAt(w, r.intent, Action, action);
    }
  }

  lemma RequestSaysMeans(w: Wire, o: Object, r: Request)
    ensures RequestSays(w, o, r) <==>
            && HasObject(o, w.name(IntentKey)) && HasRequest(w, o)
            && r == ReadRequest(w, o, r.boundary, o[w.name(IntentKey)].fields)
  {
  }

  /** The worker reads a request from a body exactly when the body says so field by field, its boundary's object
      likewise, both are fit, and the input hash is that of what it asks for. */
  lemma RequestReadIff(w: Wire, o: Object, r: Request)
    requires !w.text("")
    ensures ParseRequest(w, o) == Ok(r) <==>
            && RequestSays(w, o, r) && RequestFit(w, r) && BoundaryFit(w, r.boundary)
            && (exists x :: ObjectAt(w, o, BoundaryKey, x) && BoundarySays(w, x, r.boundary))
            && r.inputHash == w.hash(InputOf(w, r))
  {
    RequestFitMeans(w, r);
    RequestSaysMeans(w, o, r);
    if HasObject(o, w.name(BoundaryKey)) {
      var x := o[w.name(BoundaryKey)].fields;
      assert ObjectAt(w, o, BoundaryKey, x);
      BoundaryReadIff(w, x, r.boundary);
      if ParseBoundary(w, x).Some? { BoundaryReadIff(w, x, ParseBoundary(w, x).value); }
    }
  }

  // ----- Replies ----------------------------------------------------------------------------

  ghost predicate ResponseSays(w: Wire, o: Object, r: Response) {
    && TextAt(w, o, RequestId, r.requestId) && TextAt(w, o, Status, r.status) && TextOrBlankAt(w, o, ErrorKey, r.error)
    && match r.result
       case Some(x) => ObjectAt(w, o, ResultKey, x)
       case None => w.name(ResultKey) in o ==> o[w.name(ResultKey)] == JNull
  }

  /** The gateway reads a reply from a body exactly when the body says so field by field, its receipt's object
      likewise, and both are fit. */
  lemma ResponseReadIff(w: Wire, o: Object, r: Response)
    ensures ParseResponse(w, o) == Ok(r) <==>
            && ResponseSays(w, o, r) && w.text(r.requestId) && w.text(r.status)
            && exists x :: ObjectAt(w, o, ReceiptKey, x) && ReceiptSays(w, x, r.receipt) && ReceiptFit(w, r.receipt)
                           && FlagAt(w, x, ClosureRequired, true) && FlagAt(w, x, NotClosure, true)
  {
    if HasObject(o, w.name(ReceiptKey)) {
      var x := o[w.name(ReceiptKey)].fields;
      assert ObjectAt(w, o, ReceiptKey, x);
      ReceiptReadIff(w, x, r.receipt);
      if ParseReceipt(w, x).Some? { ReceiptReadIff(w, x, ParseReceipt(w, x).value); }
    }
  }

  /** The reply answers this request: under its id, succeeded, with a receipt for its capability, plane and input,
      from an isolated worker where isolation is required, and for just the result it delivers. */
  ghost predicate Answers(w: Wire, q: Request, r: Response) {
    && r.requestId == q.requestId && r.status == "succeeded"
    && r.receipt.capabilityId == q.boundary.capabilityId && r.receipt.plane == q.boundary.plane
    && r.receipt.isolation == q.boundary.isolation && (q.boundary.isolation ==> r.receipt.plane == "isolated_worker")
    && r.receipt.inputHash == q.inputHash && r.receipt.evidenceRefs != []
    && r.receipt.outputHash == w.hash(match r.result case Some(x) => JObj(x) case None => JObj(map[]))
  }

  lemma AnswersMeans(w: Wire, q: Request, r: Response)
    ensures ValidateResponse(w, q, r).None? <==> Answers(w, q, r)
  {
  }

  /** Whatever is at the other end, the gateway delivers exactly what answers the request it built. */
  lemma DeliveredIff(w: Wire, transport: Object -> Result<Object, Failure>, c: Call, b: Boundary)
    ensures RemoteExecute(w, transport, c, b).Ok? <==>
            && BuildRequest(w, c, b).Ok?
            && var q := BuildRequest(w, c, b).value;
               var body := transport(RequestFields(w, q));
               && body.Ok? && ParseResponse(w, body.value).Ok?
               && Answers(w, q, ParseResponse(w, body.value).value)
  {
    if BuildRequest(w, c, b).Ok? {
      var q := BuildRequest(w, c, b).value;
      var body := transport(RequestFields(w, q));
      if body.Ok? && ParseResponse(w, body.value).Ok? { AnswersMeans(w, q, ParseResponse(w, body.value).value); }
    }
  }

  /** A refusal says what in the reply is wrong. */
  lemma RefusalTrue(w: Wire, q: Request, r: Response)
    requires ValidateResponse(w, q, r).Some?
    ensures match ValidateResponse(w, q, r).value
            case RequestMismatch => r.requestId != q.requestId
            case NotSucceeded => r.status != "succeeded"
            case CapabilityMismatch => r.receipt.capabilityId != q.boundary.capabilityId
            case PlaneMismatch => r.receipt.plane != q.boundary.plane
            case IsolationMismatch => r.receipt.isolation != q.boundary.isolation
            case IsolatedPlaneRequired => q.boundary.isolation && r.receipt.plane != "isolated_worker"
            case InputMismatch => r.receipt.inputHash != q.inputHash
            case EvidenceMissing => r.receipt.evidenceRefs == []
            case OutputMismatch =>
              r.receipt.outputHash != w.hash(match r.result case Some(x) => JObj(x) case None => JObj(map[]))
            case _ => false
  {
  }

  // ----- What the worker writes -----------------------------------------------------------------

  /** What the digest of a receipt is taken over: just these seven fields. */
  ghost predicate Digested(w: Wire, o: Object, b: Boundary, workerId: string, inputHash: string, outputHash: string) {
    && TextAt(w, o, CapabilityId, b.capabilityId) && TextAt(w, o, ExecutionPlane, b.plane)
    && TextAt(w, o, WorkerId, workerId) && TextAt(w, o, InputHash, inputHash) && TextAt(w, o, OutputHash, outputHash)
    && FlagAt(w, o, ClosureRequired, true) && FlagAt(w, o, NotClosure, true)
    && forall f | w.name(f) in o ::
         f in {CapabilityId, ExecutionPlane, WorkerId, InputHash, OutputHash, ClosureRequired, NotClosure}
  }

  lemma DigestedContent(w: Wire, b: Boundary, workerId: string, inputHash: string, outputHash: string)
    requires w.Valid()
    ensures Digested(w, w.Object(ReceiptHashContent(b, workerId, inputHash, outputHash)), b, workerId, inputHash,
                     outputHash)
  {
    var content := ReceiptHashContent(b, workerId, inputHash, outputHash);
    Get(w, content, CapabilityId, JStr(b.capabilityId));
    Get(w, content, ExecutionPlane, JStr(b.plane));
    Get(w, content, WorkerId, JStr(workerId));
    Get(w, content, InputHash, JStr(inputHash));
    Get(w, content, OutputHash, JStr(outputHash));
    Get(w, content, ClosureRequired, JBool(true));
    Get(w, content, NotClosure, JBool(true));
    forall f | w.name(f) in w.Object(content)
      ensures f in {CapabilityId, ExecutionPlane, WorkerId, InputHash, OutputHash, ClosureRequired, NotClosure} {
      WriteGet(w, w.order, content, f);
    }
  }

  /** The first sixteen characters, or all where there are fewer. */
  ghost predicate FrontOf(front: string, whole: string) {
    front <= whole && (|front| == 16 || (front == whole && |whole| < 16))
  }

  /** The receipt of a run: for the boundary's capability and plane, by this worker, over the hashes of the input and
      of the raw result, under an id and an evidence reference of one digest of them. */
  lemma ReceiptTold(w: Wire, workerId: string, c: Call, b: Boundary, result: Option<Object>)
    requires w.Valid()
    ensures var r := ReceiptFor(w, workerId, c, b, result);
            && r.capabilityId == b.capabilityId && r.plane == b.plane && r.isolation == b.isolation
            && r.workerId == workerId && r.inputHash == w.hash(InputOfCall(w, c, b))
            && r.outputHash == w.hash(match result case Some(x) => JObj(x) case None => JObj(map[]))
            && exists o, digest :: Digested(w, o, b, workerId, r.inputHash, r.outputHash)
                                   && FrontOf(digest, w.hash(JObj(o))) && r.receiptId == "capability-receipt-" + digest
                                   && r.evidenceRefs == ["capability_execution:" + digest]
  {
    var inputHash, outputHash := w.hash(InputOfCall(w, c, b)), w.hash(OrEmpty(result));
    var o := w.Object(ReceiptHashContent(b, workerId, inputHash, outputHash));
    DigestedContent(w, b, workerId, inputHash, outputHash);
    assert FrontOf(Short(w.hash(JObj(o))), w.hash(JObj(o)));
    DigestShown(b, workerId, inputHash, outputHash, Short(w.hash(JObj(o))));
  }

  lemma DigestShown(b: Boundary, workerId: string, inputHash: string, outputHash: string, digest: string)
    ensures var r := ReceiptWith(b, workerId, inputHash, outputHash, digest);
            r.receiptId == "capability-receipt-" + digest && r.evidenceRefs == ["capability_execution:" + digest]
  {
  }

  /** The result with the two records under their keys, and otherwise as it was. */
  ghost predicate Recorded(w: Wire, raw: Object, out: Object, b: Boundary, receipt: Receipt) {
    && ObjectAt(w, out, AttachedBoundary, BoundaryFields(w, b))
    && ObjectAt(w, out, AttachedReceipt, ReceiptFields(w, receipt))
    && forall k | k != w.name(AttachedBoundary) && k != w.name(AttachedReceipt) ::
         (k in out <==> k in raw) && (k in out ==> out[k] == raw[k])
  }

  lemma RecordsAttached(w: Wire, raw: Object, b: Boundary, receipt: Receipt)
    requires w.Valid()
    ensures Recorded(w, raw, WithRecords(w, Some(raw), JObj(BoundaryFields(w, b)),
                                         JObj(ReceiptFields(w, receipt))).value,
                     b, receipt)
  {
    NamesDiffer(w, AttachedBoundary, AttachedReceipt);
    TwoAdded(raw, w.name(AttachedBoundary), w.name(AttachedReceipt), JObj(BoundaryFields(w, b)),
             JObj(ReceiptFields(w, receipt)));
  }

  lemma TwoAdded(raw: Object, p: string, q: string, x: Json, y: Json)
    requires p != q
    ensures var out := raw[p := x][q := y];
            && p in out && out[p] == x && q in out && out[q] == y
            && forall k | k != p && k != q :: (k in out <==> k in raw) && (k in out ==> out[k] == raw[k])
  {
  }

  lemma NamesDiffer(w: Wire, f: Field, g: Field)
    requires w.Valid() && f != g
    ensures w.name(f) != w.name(g)
  {
    assert w.field(w.name(f)) == Some(f) && w.field(w.name(g)) == Some(g);
  }

  lemma LocalRunIs(w: Wire, workerId: string, dispatch: Dispatcher, c: Call, b: Boundary)
    ensures var receipt := ReceiptFor(w, workerId, c, b, dispatch(c));
            LocalExecute(w, workerId, dispatch, c, b)
            == if b.capabilityId != c.skill + "." + c.action then Err(BoundaryMismatch)
               else if !ValidReceipt(w, receipt) then Err(ReceiptInvalid)
               else Ok((WithRecords(w, dispatch(c), JObj(BoundaryFields(w, b)), JObj(ReceiptFields(w, receipt))),
                        receipt))
  {
  }

  /** The local run: refused where the boundary is of another capability, or the receipt would not be fit; else the raw
      result with both records attached, or none, and the receipt. */
  lemma LocalRunTold(w: Wire, workerId: string, dispatch: Dispatcher, c: Call, b: Boundary)
    requires w.Valid()
    ensures var r, receipt := LocalExecute(w, workerId, dispatch, c, b), ReceiptFor(w, workerId, c, b, dispatch(c));
            if b.capabilityId != c.skill + "." + c.action then r == Err(BoundaryMismatch)
            else if !ReceiptFit(w, receipt) then r == Err(ReceiptInvalid)
            else r.Ok? && r.value.1 == receipt && (r.value.0.Some? <==> dispatch(c).Some?)
                 && (dispatch(c).Some? ==> Recorded(w, dispatch(c).value, r.value.0.value, b, receipt))
  {
    var receipt := ReceiptFor(w, workerId, c, b, dispatch(c));
    LocalRunIs(w, workerId, dispatch, c, b);
    AllTextMeans(w, receipt.evidenceRefs);
    if dispatch(c).Some? { RecordsAttached(w, dispatch(c).value, b, receipt); }
  }

  /** The reply of a run: succeeded with the result, or failed without one and with an error. */
  lemma ReplyTold(requestId: string, result: Option<Object>, receipt: Receipt)
    ensures var r := Respond(requestId, result, receipt);
            && r.requestId == requestId && r.result == result && r.receipt == receipt
            && (result.Some? ==> r.status == "succeeded" && r.error == "")
            && (result.None? ==> r.status == "failed" && r.error != "")
  {
  }

  /** The call a request asks for. */
  ghost predicate AsksFor(w: Wire, r: Request, c: Call) {
    && TextAt(w, r.intent, Skill, c.skill) && TextAt(w, r.intent, Action, c.action)
    && ObjectOrEmptyAt(w, r.intent, Params, c.params)
    && c.tenantId == r.tenantId && c.identityId == r.identityId && c.commandId == r.commandId
    && c.conversationId == r.conversationId && c.metadata == r.metadata
  }

  /** What is left of a result without the keys the gateway writes itself. */
  ghost predicate Stripped(w: Wire, result: Option<Object>, left: Option<Object>) {
    && (left.Some? <==> result.Some?)
    && (result.Some? ==>
          forall k ::
            (k in left.value <==>
             k in result.value && k != w.name(AttachedBoundary) && k != w.name(AttachedReceipt)
             && k != w.name(AttachedRequestId))
            && (k in left.value ==> left.value[k] == result.value[k]))
  }

  /** The reply is what the run of this call comes to. */
  ghost predicate RepliesTo(w: Wire, workerId: string, dispatch: Dispatcher, r: Request, c: Call,
                            reply: Result<Object, Failure>) {
    match LocalExecute(w, workerId, dispatch, c, r.boundary)
    case Err(e) => reply == Err(e)
    case Ok((result, receipt)) =>
      exists left :: Stripped(w, result, left) && reply == Ok(ResponseFields(w, Respond(r.requestId, left, receipt)))
  }

  lemma RunReplied(w: Wire, workerId: string, dispatch: Dispatcher, body: Object)
    requires ParseRequest(w, body).Ok?
    requires var r := ParseRequest(w, body).value;
             r.boundary.isolation && r.boundary.plane == ISOLATED_WORKER && ObjectOrNone(r.intent, w.name(Params))
    ensures var r := ParseRequest(w, body).value;
            RepliesTo(w, workerId, dispatch, r, CallOf(w, r), WorkerReply(w, workerId, dispatch, body))
  {
    var r := ParseRequest(w, body).value;
    var run := LocalExecute(w, workerId, dispatch, CallOf(w, r), r.boundary);
    if run.Ok? { StrippedResult(w, run.value.0); }
  }

  lemma StrippedResult(w: Wire, result: Option<Object>)
    ensures Stripped(w, result, TransportResult(w, result))
  {
  }

  /** The worker refuses, saying why, what it cannot read and what is not for an isolated worker; anything else it runs
      as asked and replies with the stripped result and the receipt of the run. */
  lemma WorkerRepliesExactly(w: Wire, workerId: string, dispatch: Dispatcher, body: Object)
    requires !w.text("")
    ensures var reply := WorkerReply(w, workerId, dispatch, body);
            match ParseRequest(w, body)
            case Err(e) => reply == Err(e)
            case Ok(r) =>
              if !r.boundary.isolation then reply == Err(NotIsolated)
              else if r.boundary.plane != "isolated_worker" then reply == Err(NotIsolatedPlane)
              else if w.name(Params) in r.intent && !r.intent[w.name(Params)].JObj? then reply == Err(RequestMalformed)
              else exists c :: AsksFor(w, r, c) && RepliesTo(w, workerId, dispatch, r, c, reply)
  {
    if ParseRequest(w, body).Ok? {
      var r := ParseRequest(w, body).value;
      AskedCall(w, r);
      if r.boundary.isolation && r.boundary.plane == ISOLATED_WORKER && ObjectOrNone(r.intent, w.name(Params)) {
        RunReplied(w, workerId, dispatch, body);
      }
    }
  }

  lemma AskedCall(w: Wire, r: Request)
    requires !w.text("") && ValidRequest(w, r)
    ensures ObjectOrNone(r.intent, w.name(Params)) ==> AsksFor(w, r, CallOf(w, r))
  {
  }
}
