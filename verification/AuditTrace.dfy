/** The external auditor's checks over an append-order event log. The event hash is a
    parameter; theorems assume only that it does not collide on the logs they speak about. */
module AuditTrace {
  import opened Collections
  import opened Json
  import Merkle

  type Hash = string
  type CommandState = string
  const RECEIVED: CommandState := "received"

  /** The payload the event hash is taken over. */
  datatype EventSeed = EventSeed(
    commandId: string, previousState: CommandState, nextState: CommandState, policyVersion: string,
    riskTier: string, budgetDecision: string, approvalId: string, toolName: string, inputHash: string,
    outputHash: string, traceId: string, prevEventHash: Hash, timestamp: string, detail: Json)

  datatype CommandEvent = CommandEvent(
    eventId: string, commandId: string, tenantId: string, actorId: string, sourceChannel: string,
    idempotencyKey: string, previousState: CommandState, nextState: CommandState, policyVersion: string,
    riskTier: string, budgetDecision: string, approvalId: string, toolName: string, inputHash: string,
    outputHash: string, traceId: string, prevEventHash: Hash, eventHash: Hash, timestamp: string, detail: Json)

  type Hasher = EventSeed -> Hash

  function SeedOf(e: CommandEvent): EventSeed {
    EventSeed(e.commandId, e.previousState, e.nextState, e.policyVersion, e.riskTier, e.budgetDecision,
              e.approvalId, e.toolName, e.inputHash, e.outputHash, e.traceId, e.prevEventHash, e.timestamp, e.detail)
  }

  function RecomputeEventHash(hash: Hasher, e: CommandEvent): Hash { hash(SeedOf(e)) }

  // ----- Global chain ---------------------------------------------------------------

  datatype Failure =
    | GlobalChainBreak(eventId: string)
    | EventHashMismatch(eventId: string)
    | AnchorNotFound
    | AnchorEventCountMismatch
    | AnchoredEventHashMismatch(eventId: string)
    | AnchorMerkleRootMismatch
    | AnchorSignatureInvalid
    | ReplayInitialStateGap(eventId: string)
    | ReplayTransitionGap(eventId: string)
    | ReplayNoEvents
    | ReplayStateDiverges
    | CommandNotFound

  datatype GlobalChainVerification = GlobalChainVerification(eventCount: nat, chainIntact: bool, failures: seq<Failure>)

  predicate Linked(events: seq<CommandEvent>, i: nat)
    requires i < |events|
  {
    i == 0 || events[i].prevEventHash == events[i - 1].eventHash
  }

  predicate Hashed(hash: Hasher, e: CommandEvent) { hash(SeedOf(e)) == e.eventHash }

  /** Every event carries its own hash and points at its predecessor. */
  predicate Intact(hash: Hasher, events: seq<CommandEvent>) {
    IntactUpTo(hash, events, |events|)
  }

  predicate IntactUpTo(hash: Hasher, events: seq<CommandEvent>, n: nat)
    requires n <= |events|
  {
    (forall i | 0 <= i < n :: Linked(events, i)) && (forall i | 0 <= i < n :: Hashed(hash, events[i]))
  }

  function FailuresAt(hash: Hasher, events: seq<CommandEvent>, i: nat): seq<Failure>
    requires i < |events|
  {
    (if Linked(events, i) then [] else [GlobalChainBreak(events[i].eventId)])
    + (if Hashed(hash, events[i]) then [] else [EventHashMismatch(events[i].eventId)])
  }

  /** The failures of the first `n` events: broken link before mismatched hash, in log order. */
  function ChainFailures(hash: Hasher, events: seq<CommandEvent>, n: nat): seq<Failure>
    requires n <= |events|
  {
    if n == 0 then [] else ChainFailures(hash, events, n - 1) + FailuresAt(hash, events, n - 1)
  }

  function GlobalFailures(hash: Hasher, events: seq<CommandEvent>): seq<Failure> {
    ChainFailures(hash, events, |events|)
  }

  lemma {:induction false} NoFailuresIffIntact(hash: Hasher, events: seq<CommandEvent>, n: nat)
    requires n <= |events|
    ensures ChainFailures(hash, events, n) == [] <==> IntactUpTo(hash, events, n)
  {
    if n > 0 { NoFailuresIffIntact(hash, events, n - 1); }
  }

  method VerifyGlobalEventChain(hash: Hasher, events: seq<CommandEvent>) returns (r: GlobalChainVerification)
    ensures r == GlobalChainVerification(|events|, Intact(hash, events), GlobalFailures(hash, events))
  {
    var failures: seq<Failure> := [];
    var previousHash := if events == [] then "" else events[0].prevEventHash;
    var i := 0;
    while i < |events|
      invariant 0 <= i <= |events|
      invariant failures == ChainFailures(hash, events, i)
      invariant i > 0 ==> previousHash == events[i - 1].eventHash
      invariant i == 0 && events != [] ==> previousHash == events[0].prevEventHash
    {
      var event := events[i];
      if event.prevEventHash != previousHash {
        failures := failures + [GlobalChainBreak(event.eventId)];
      }
      if RecomputeEventHash(hash, event) != event.eventHash {
        failures := failures + [EventHashMismatch(event.eventId)];
      }
      previousHash := event.eventHash;
      i := i + 1;
    }
    NoFailuresIffIntact(hash, events, |events|);
    r := GlobalChainVerification(|events|, failures == [], failures);
  }

  // ----- Tamper evidence ------------------------------------------------------------

  ghost function Seeds(events: seq<CommandEvent>): set<EventSeed> {
    set i | 0 <= i < |events| :: SeedOf(events[i])
  }

  /** Agreement on every field the event hash covers. */
  ghost predicate SameHashedContent(a: CommandEvent, b: CommandEvent) {
    && a.commandId == b.commandId && a.previousState == b.previousState && a.nextState == b.nextState
    && a.policyVersion == b.policyVersion && a.riskTier == b.riskTier && a.budgetDecision == b.budgetDecision
    && a.approvalId == b.approvalId && a.toolName == b.toolName && a.inputHash == b.inputHash
    && a.outputHash == b.outputHash && a.traceId == b.traceId && a.prevEventHash == b.prevEventHash
    && a.timestamp == b.timestamp && a.detail == b.detail && a.eventHash == b.eventHash
  }

  lemma SameHashSameContent(hash: Hasher, a: CommandEvent, b: CommandEvent, seeds: set<EventSeed>)
    requires Hashed(hash, a) && Hashed(hash, b) && a.eventHash == b.eventHash
    requires CollisionFree(hash, seeds) && SeedOf(a) in seeds && SeedOf(b) in seeds
    ensures SameHashedContent(a, b)
  {
  }

  /** Two intact logs ending in the same hash agree, event by event from the end, as far back
      as both reach. Equal lengths give agreement at every position. */
  lemma {:induction false} SameEndSameHistory(hash: Hasher, a: seq<CommandEvent>, b: seq<CommandEvent>, k: nat)
    requires Intact(hash, a) && Intact(hash, b)
    requires CollisionFree(hash, Seeds(a) + Seeds(b))
    requires k < |a| && k < |b|
    requires a[|a| - 1].eventHash == b[|b| - 1].eventHash
    ensures SameHashedContent(a[|a| - 1 - k], b[|b| - 1 - k])
  {
    var i, j := |a| - 1 - k, |b| - 1 - k;
    if k > 0 {
      SameEndSameHistory(hash, a, b, k - 1);
      assert Linked(a, i + 1) && Linked(b, j + 1);
    }
    assert Hashed(hash, a[i]) && Hashed(hash, b[j]);
    assert SeedOf(a[i]) in Seeds(a) && SeedOf(b[j]) in Seeds(b);
    SameHashSameContent(hash, a[i], b[j], Seeds(a) + Seeds(b));
  }

  /** The hash `a` starts from is the hash of no event of `b`. */
  ghost predicate StartsOutside(a: seq<CommandEvent>, b: seq<CommandEvent>) {
    a != [] ==> forall i | 0 <= i < |b| :: b[i].eventHash != a[0].prevEventHash
  }

  lemma NotShorter(hash: Hasher, a: seq<CommandEvent>, b: seq<CommandEvent>)
    requires Intact(hash, a) && Intact(hash, b)
    requires CollisionFree(hash, Seeds(a) + Seeds(b))
    requires a != [] && b != [] && a[|a| - 1].eventHash == b[|b| - 1].eventHash
    requires StartsOutside(a, b)
    ensures |a| >= |b|
  {
    if |a| < |b| {
      assert Linked(b, |b| - |a|);
      SameEndSameHistory(hash, a, b, |a| - 1);
    }
  }

  lemma SameEndSameLength(hash: Hasher, a: seq<CommandEvent>, b: seq<CommandEvent>)
    requires Intact(hash, a) && Intact(hash, b)
    requires CollisionFree(hash, Seeds(a) + Seeds(b))
    requires a != [] && b != [] && a[|a| - 1].eventHash == b[|b| - 1].eventHash
    requires StartsOutside(a, b) && StartsOutside(b, a)
    ensures |a| == |b|
  {
    NotShorter(hash, a, b);
    assert Seeds(b) + Seeds(a) == Seeds(a) + Seeds(b);
    NotShorter(hash, b, a);
  }

  /** With starting points that are no event's hash, the last hash also fixes the length. */
  lemma SameEndSameLog(hash: Hasher, a: seq<CommandEvent>, b: seq<CommandEvent>)
    requires Intact(hash, a) && Intact(hash, b)
    requires CollisionFree(hash, Seeds(a) + Seeds(b))
    requires a != [] && b != [] && a[|a| - 1].eventHash == b[|b| - 1].eventHash
    requires StartsOutside(a, b) && StartsOutside(b, a)
    ensures |a| == |b|
    ensures forall i | 0 <= i < |a| :: SameHashedContent(a[i], b[i])
  {
    SameEndSameLength(hash, a, b);
    forall i | 0 <= i < |a| ensures SameHashedContent(a[i], b[i]) {
      SameEndSameHistory(hash, a, b, |a| - 1 - i);
    }
  }

  lemma SameContentSameChecks(hash: Hasher, a: seq<CommandEvent>, b: seq<CommandEvent>, i: nat)
    requires |a| == |b| && i < |a|
    requires SameHashedContent(a[i], b[i]) && (i > 0 ==> SameHashedContent(a[i - 1], b[i - 1]))
    ensures Linked(a, i) == Linked(b, i) && Hashed(hash, a[i]) == Hashed(hash, b[i])
  {
    assert SeedOf(a[i]) == SeedOf(b[i]);
  }

  /** What the chain does not protect: the five fields outside the event hash can be rewritten
      in any event without a single failure appearing or disappearing. */
  lemma {:induction false} UnhashedFieldsUnchecked(hash: Hasher, a: seq<CommandEvent>, b: seq<CommandEvent>, n: nat)
    requires |a| == |b| && n <= |a|
    requires forall i | 0 <= i < n :: SameHashedContent(a[i], b[i])
    ensures |ChainFailures(hash, a, n)| == |ChainFailures(hash, b, n)|
    ensures IntactUpTo(hash, a, n) <==> IntactUpTo(hash, b, n)
  {
    if n > 0 {
      UnhashedFieldsUnchecked(hash, a, b, n - 1);
      SameContentSameChecks(hash, a, b, n - 1);
    }
    NoFailuresIffIntact(hash, a, n);
    NoFailuresIffIntact(hash, b, n);
  }

  /** Appending as the ledger does: stamp the seed with the last hash, then hash it. */
  function Append(hash: Hasher, events: seq<CommandEvent>, draft: CommandEvent): seq<CommandEvent> {
    var linked := draft.(prevEventHash := if events == [] then "" else events[|events| - 1].eventHash);
    events + [linked.(eventHash := hash(SeedOf(linked)))]
  }

  function AppendAll(hash: Hasher, drafts: seq<CommandEvent>): seq<CommandEvent> {
    if drafts == [] then [] else Append(hash, AppendAll(hash, drafts[..|drafts| - 1]), drafts[|drafts| - 1])
  }

  lemma AppendKeepsIntact(hash: Hasher, before: seq<CommandEvent>, draft: CommandEvent)
    requires Intact(hash, before)
    ensures Intact(hash, Append(hash, before, draft))
  {
    var after := Append(hash, before, draft);
    assert before == after[..|before|];
    forall i | 0 <= i < |after| ensures Linked(after, i) && Hashed(hash, after[i]) {
      if i < |before| {
        assert after[i] == before[i] && Linked(before, i) && Hashed(hash, before[i]);
      } else {
        var linked := draft.(prevEventHash := if before == [] then "" else before[|before| - 1].eventHash);
        assert SeedOf(after[i]) == SeedOf(linked);
      }
      if i > 0 { assert after[i - 1] == before[i - 1]; }
    }
  }

  /** The honest ledger is never accused. */
  lemma {:induction false} HonestLogIsIntact(hash: Hasher, drafts: seq<CommandEvent>)
    ensures Intact(hash, AppendAll(hash, drafts))
    ensures |AppendAll(hash, drafts)| == |drafts|
    ensures drafts != [] ==> AppendAll(hash, drafts)[0].prevEventHash == ""
  {
    if drafts != [] {
      HonestLogIsIntact(hash, drafts[..|drafts| - 1]);
      AppendKeepsIntact(hash, AppendAll(hash, drafts[..|drafts| - 1]), drafts[|drafts| - 1]);
    }
  }

  lemma CutIntact(hash: Hasher, events: seq<CommandEvent>, k: nat)
    requires k <= |events| && Intact(hash, events)
    ensures Intact(hash, events[..k]) && Intact(hash, events[k..])
    ensures 0 < k < |events| ==> events[k].prevEventHash == events[k - 1].eventHash
  {
    var front, back := events[..k], events[k..];
    forall i | 0 <= i < k ensures Linked(front, i) && Hashed(hash, front[i]) {
      assert Linked(events, i) && Hashed(hash, events[i]);
    }
    forall i | 0 <= i < |back| ensures Linked(back, i) && Hashed(hash, back[i]) {
      assert Linked(events, i + k) && Hashed(hash, events[i + k]);
    }
    if 0 < k < |events| { assert Linked(events, k); }
  }

  /** The first link is taken on trust: cutting an intact log anywhere leaves two intact logs, and two intact logs join
      into one exactly when the second starts from where the first ends. */
  lemma CutIntactIff(hash: Hasher, events: seq<CommandEvent>, k: nat)
    requires k <= |events|
    ensures Intact(hash, events) <==>
            Intact(hash, events[..k]) && Intact(hash, events[k..])
            && (0 < k < |events| ==> events[k].prevEventHash == events[k - 1].eventHash)
  {
    if Intact(hash, events) {
      CutIntact(hash, events, k);
    } else if k == 0 {
      assert events[k..] == events;
    } else if k == |events| {
      assert events[..k] == events;
    } else if Intact(hash, events[..k]) && Intact(hash, events[k..]) {
      JoinIntact(hash, events[..k], events[k..]);
      assert events[..k] + events[k..] == events;
    }
  }

  lemma JoinIntact(hash: Hasher, front: seq<CommandEvent>, back: seq<CommandEvent>)
    requires Intact(hash, front) && Intact(hash, back) && front != [] && back != []
    ensures Intact(hash, front + back) <==> back[0].prevEventHash == front[|front| - 1].eventHash
  {
    var both := front + back;
    forall i | 0 <= i < |both| ensures Hashed(hash, both[i]) && (i != |front| ==> Linked(both, i)) {
      if i < |front| {
        assert Hashed(hash, front[i]) && Linked(front, i);
      } else {
        assert Hashed(hash, back[i - |front|]) && Linked(back, i - |front|);
      }
    }
    assert Linked(both, |front|) <==> back[0].prevEventHash == front[|front| - 1].eventHash;
  }

  // ----- Anchors --------------------------------------------------------------------

  datatype Anchor = Anchor(anchorId: string, fromEventHash: Hash, toEventHash: Hash, eventCount: nat,
                           merkleRoot: string, signature: string, signatureKeyId: string, anchoredAt: string)

  datatype AnchorVerification = AnchorVerification(
    anchorId: string, anchorPresent: bool, merkleRootValid: bool, signatureValid: bool, failures: seq<Failure>)

  /** The first position at or after `start` whose event carries `h`. */
  function FirstAt(events: seq<CommandEvent>, h: Hash, start: nat): (r: Option<nat>)
    requires start <= |events|
    ensures r.Some? ==> start <= r.value < |events| && events[r.value].eventHash == h
                        && forall i | start <= i < r.value :: events[i].eventHash != h
    ensures r.None? ==> forall i | start <= i < |events| :: events[i].eventHash != h
    decreases |events| - start
  {
    if start == |events| then None
    else if events[start].eventHash == h then Some(start)
    else FirstAt(events, h, start + 1)
  }

  function EventsForAnchor(events: seq<CommandEvent>, anchor: Anchor): seq<CommandEvent> {
    match FirstAt(events, anchor.fromEventHash, 0)
    case None => []
    case Some(start) =>
      match FirstAt(events, anchor.toEventHash, start)
      case None => events[start..]
      case Some(end) => events[start..end + 1]
  }

  /** In an intact log whose starting point is no event's hash, all hashes differ. */
  lemma HashesDistinct(hash: Hasher, events: seq<CommandEvent>)
    requires Intact(hash, events) && CollisionFree(hash, Seeds(events))
    requires StartsOutside(events, events)
    ensures forall i, j | 0 <= i < j < |events| :: events[i].eventHash != events[j].eventHash
  {
    forall i, j | 0 <= i < j < |events| ensures events[i].eventHash != events[j].eventHash {
      Descend(hash, events, i, j);
    }
  }

  lemma {:induction false} Descend(hash: Hasher, events: seq<CommandEvent>, i: nat, j: nat)
    requires Intact(hash, events) && CollisionFree(hash, Seeds(events))
    requires StartsOutside(events, events)
    requires i < j < |events|
    ensures events[i].eventHash != events[j].eventHash
  {
    if events[i].eventHash == events[j].eventHash {
      assert Hashed(hash, events[i]) && Hashed(hash, events[j]);
      assert SeedOf(events[i]) in Seeds(events) && SeedOf(events[j]) in Seeds(events);
      assert SeedOf(events[i]) == SeedOf(events[j]);
      assert Linked(events, i) && Linked(events, j);
      if i > 0 { Descend(hash, events, i - 1, j - 1); }
    }
  }

  /** An anchor whose endpoints occur in order names exactly one contiguous range. */
  lemma AnchorRangeExact(hash: Hasher, events: seq<CommandEvent>, anchor: Anchor, i: nat, j: nat)
    requires Intact(hash, events) && CollisionFree(hash, Seeds(events))
    requires StartsOutside(events, events)
    requires i <= j < |events|
    requires events[i].eventHash == anchor.fromEventHash && events[j].eventHash == anchor.toEventHash
    ensures EventsForAnchor(events, anchor) == events[i..j + 1]
    ensures forall i', j' | 0 <= i' <= j' < |events| && events[i'].eventHash == anchor.fromEventHash
              && events[j'].eventHash == anchor.toEventHash :: i' == i && j' == j
  {
    HashesDistinct(hash, events);
  }

  /** Endpoints out of order never select backwards: the range then runs to the end of the log. */
  lemma AnchorRangeBackwards(hash: Hasher, events: seq<CommandEvent>, anchor: Anchor, i: nat, j: nat)
    requires Intact(hash, events) && CollisionFree(hash, Seeds(events))
    requires StartsOutside(events, events)
    requires j < i < |events|
    requires events[i].eventHash == anchor.fromEventHash && events[j].eventHash == anchor.toEventHash
    ensures EventsForAnchor(events, anchor) == events[i..]
  {
    HashesDistinct(hash, events);
  }

  function EventHashOf(): CommandEvent -> Hash { (e: CommandEvent) => e.eventHash }

  function MismatchFailures(hash: Hasher, events: seq<CommandEvent>, n: nat): seq<Failure>
    requires n <= |events|
  {
    if n == 0 then []
    else MismatchFailures(hash, events, n - 1)
         + (if Hashed(hash, events[n - 1]) then [] else [AnchoredEventHashMismatch(events[n - 1].eventId)])
  }

  lemma {:induction false} NoMismatchIffHashed(hash: Hasher, events: seq<CommandEvent>, n: nat)
    requires n <= |events|
    ensures MismatchFailures(hash, events, n) == [] <==> forall i | 0 <= i < n :: Hashed(hash, events[i])
  {
    if n > 0 { NoMismatchIffHashed(hash, events, n - 1); }
  }

  function FindAnchor(anchors: seq<Anchor>, anchorId: string): (r: Option<Anchor>)
    ensures r.Some? ==> r.value in anchors && r.value.anchorId == anchorId
    ensures r.None? ==> forall a | a in anchors :: a.anchorId != anchorId
  {
    if anchors == [] then None
    else if anchors[0].anchorId == anchorId then Some(anchors[0])
    else FindAnchor(anchors[1..], anchorId)
  }

  /** The anchor and the range it selects pass every check. */
  ghost predicate AnchorClean(hash: Hasher, sha: Merkle.Sha, sign: Anchor -> string, events: seq<CommandEvent>,
                              anchor: Anchor) {
    var range := EventsForAnchor(events, anchor);
    && |range| == anchor.eventCount
    && (forall i | 0 <= i < |range| :: Hashed(hash, range[i]))
    && Merkle.Root(sha, Map(range, EventHashOf())) == anchor.merkleRoot
    && sign(anchor) == anchor.signature
  }

  /** Everything wrong with the range under an anchor, in the order the checks are made. */
  function AnchorFailures(hash: Hasher, sha: Merkle.Sha, sign: Anchor -> string, events: seq<CommandEvent>,
                          anchor: Anchor): seq<Failure> {
    var range := EventsForAnchor(events, anchor);
    var counted := if |range| == anchor.eventCount then [] else [AnchorEventCountMismatch];
    var hashed := counted + MismatchFailures(hash, range, |range|);
    var rooted := if Merkle.Root(sha, Map(range, EventHashOf())) == anchor.merkleRoot then hashed
                  else hashed + [AnchorMerkleRootMismatch];
    if sign(anchor) == anchor.signature then rooted else rooted + [AnchorSignatureInvalid]
  }

  function AnchorReport(hash: Hasher, sha: Merkle.Sha, sign: Anchor -> string, events: seq<CommandEvent>,
                        anchor: Anchor): AnchorVerification {
    AnchorVerification(anchor.anchorId, true,
                       Merkle.Root(sha, Map(EventsForAnchor(events, anchor), EventHashOf())) == anchor.merkleRoot,
                       sign(anchor) == anchor.signature, AnchorFailures(hash, sha, sign, events, anchor))
  }

  lemma NoAnchorFailuresIffClean(hash: Hasher, sha: Merkle.Sha, sign: Anchor -> string, events: seq<CommandEvent>,
                                 anchor: Anchor)
    ensures AnchorFailures(hash, sha, sign, events, anchor) == [] <==> AnchorClean(hash, sha, sign, events, anchor)
  {
    NoMismatchIffHashed(hash, EventsForAnchor(events, anchor), |EventsForAnchor(events, anchor)|);
  }

  /** The loop over the anchored events, adding to what was found so far. */
  method CheckHashes(hash: Hasher, range: seq<CommandEvent>, found: seq<Failure>) returns (failures: seq<Failure>)
    ensures failures == found + MismatchFailures(hash, range, |range|)
  {
    failures := found;
    var i := 0;
    while i < |range|
      invariant 0 <= i <= |range|
      invariant failures == found + MismatchFailures(hash, range, i)
    {
      if RecomputeEventHash(hash, range[i]) != range[i].eventHash {
        failures := failures + [AnchoredEventHashMismatch(range[i].eventId)];
      }
      i := i + 1;
    }
  }

  /** The four checks on an anchor that was found. */
  method CheckAnchor(hash: Hasher, sha: Merkle.Sha, sign: Anchor -> string, events: seq<CommandEvent>, anchor: Anchor)
    returns (r: AnchorVerification)
    ensures r == AnchorReport(hash, sha, sign, events, anchor)
  {
    var failures: seq<Failure> := [];
    var range := EventsForAnchor(events, anchor);
    if |range| != anchor.eventCount { failures := [AnchorEventCountMismatch]; }
    failures := CheckHashes(hash, range, failures);
    var root := Merkle.ComputeMerkleRoot(sha, Map(range, EventHashOf()));
    var merkleValid := root == anchor.merkleRoot;
    if !merkleValid { failures := failures + [AnchorMerkleRootMismatch]; }
    var signatureValid := sign(anchor) == anchor.signature;
    if !signatureValid { failures := failures + [AnchorSignatureInvalid]; }
    r := AnchorVerification(anchor.anchorId, true, merkleValid, signatureValid, failures);
  }

  /** `sign` is the HMAC over the anchor's signed payload under the auditor's secret. */
  method VerifyAnchor(hash: Hasher, sha: Merkle.Sha, sign: Anchor -> string, signingSecret: string,
                      events: seq<CommandEvent>, anchors: seq<Anchor>, anchorId: string)
    returns (r: Result<AnchorVerification, string>)
    ensures r.Err? <==> signingSecret == ""
    ensures r.Ok? ==> r.value == match FindAnchor(anchors, anchorId)
                                 case None => AnchorVerification(anchorId, false, false, false, [AnchorNotFound])
                                 case Some(anchor) => AnchorReport(hash, sha, sign, events, anchor)
    ensures r.Ok? && r.value.anchorPresent ==>
              (r.value.failures == [] <==> AnchorClean(hash, sha, sign, events, FindAnchor(anchors, anchorId).value))
  {
    if signingSecret == "" { return Err("signing_secret_required"); }
    var found := FindAnchor(anchors, anchorId);
    if found.None? { return Ok(AnchorVerification(anchorId, false, false, false, [AnchorNotFound])); }
    var report := CheckAnchor(hash, sha, sign, events, found.value);
    NoAnchorFailuresIffClean(hash, sha, sign, events, found.value);
    r := Ok(report);
  }

  /** Two ledgers that both verify one anchor cleanly hold the same hashed events under it. */
  lemma CleanAnchorsAgree(hash: Hasher, sha: Merkle.Sha, sign: Anchor -> string,
                          a: seq<CommandEvent>, b: seq<CommandEvent>, anchor: Anchor)
    requires AnchorClean(hash, sha, sign, a, anchor) && AnchorClean(hash, sha, sign, b, anchor)
    requires CollisionFree(hash, Seeds(EventsForAnchor(a, anchor)) + Seeds(EventsForAnchor(b, anchor)))
    requires Merkle.SoundFor(sha, Map(EventsForAnchor(a, anchor), EventHashOf()),
                             Map(EventsForAnchor(b, anchor), EventHashOf()))
    ensures |EventsForAnchor(a, anchor)| == |EventsForAnchor(b, anchor)|
    ensures forall i | 0 <= i < |EventsForAnchor(a, anchor)| ::
              SameHashedContent(EventsForAnchor(a, anchor)[i], EventsForAnchor(b, anchor)[i])
  {
    var x, y := EventsForAnchor(a, anchor), EventsForAnchor(b, anchor);
    var hx, hy := Map(x, EventHashOf()), Map(y, EventHashOf());
    Merkle.RootInjective(sha, hx, hy);
    forall i | 0 <= i < |x| ensures SameHashedContent(x[i], y[i]) {
      assert hx[i] == hy[i];
      assert Hashed(hash, x[i]) && Hashed(hash, y[i]);
      assert SeedOf(x[i]) in Seeds(x) && SeedOf(y[i]) in Seeds(y);
    }
  }

  /** The anchor the ledger issues over the events from `i` to the end of its log. */
  function IssueAnchor(sha: Merkle.Sha, sign: Anchor -> string, events: seq<CommandEvent>, i: nat,
                       keyId: string, at: string, idOf: string -> string): Anchor
    requires i < |events|
  {
    var hashes := Map(events[i..], EventHashOf());
    var root := Merkle.Root(sha, hashes);
    var unsigned := Anchor(idOf(root), hashes[0], hashes[|hashes| - 1], |hashes|, root, "", keyId, at);
    unsigned.(signature := sign(unsigned))
  }

  /** Round trip: an issued anchor verifies cleanly, and keeps doing so however long the log
      grows afterwards, provided the signature covers no signature. */
  lemma IssuedAnchorVerifies(hash: Hasher, sha: Merkle.Sha, sign: Anchor -> string, events: seq<CommandEvent>,
                             later: seq<CommandEvent>, i: nat, keyId: string, at: string, idOf: string -> string)
    requires i < |events| && Intact(hash, events + later) && CollisionFree(hash, Seeds(events + later))
    requires StartsOutside(events + later, events + later)
    requires forall a: Anchor, s: string :: sign(a.(signature := s)) == sign(a)
    ensures AnchorClean(hash, sha, sign, events + later, IssueAnchor(sha, sign, events, i, keyId, at, idOf))
  {
    var log := events + later;
    var anchor := IssueAnchor(sha, sign, events, i, keyId, at, idOf);
    var hashes := Map(events[i..], EventHashOf());
    assert hashes[0] == log[i].eventHash && hashes[|hashes| - 1] == log[|events| - 1].eventHash;
    AnchorRangeExact(hash, log, anchor, i, |events| - 1);
    assert log[i..|events|] == events[i..];
    forall k | 0 <= k < |events| - i ensures Hashed(hash, events[i..][k]) { assert Hashed(hash, log[i + k]); }
    var unsigned := anchor.(signature := "");
    assert sign(unsigned.(signature := sign(unsigned))) == sign(unsigned);
  }

  // ----- Replay ---------------------------------------------------------------------

  datatype ReplayStateVerification = ReplayStateVerification(
    commandPresent: bool, replayedState: Option<CommandState>, liveState: Option<CommandState>,
    transitionChainValid: bool, statesMatch: bool, eventCount: nat, failures: seq<Failure>)

  predicate Continues(events: seq<CommandEvent>, i: nat)
    requires i < |events|
  {
    if i == 0 then events[0].previousState == RECEIVED && events[0].nextState == RECEIVED
    else events[i].previousState == events[i - 1].nextState
  }

  predicate WithoutGap(events: seq<CommandEvent>) {
    events != [] && forall i | 0 <= i < |events| :: Continues(events, i)
  }

  function FinalState(events: seq<CommandEvent>): Option<CommandState> {
    if events == [] then None else Some(events[|events| - 1].nextState)
  }

  /** The events of one command walk from RECEIVED to its live state without a gap. */
  predicate Replays(events: seq<CommandEvent>, live: CommandState) {
    WithoutGap(events) && FinalState(events) == Some(live)
  }

  function ReplayGaps(events: seq<CommandEvent>, n: nat): seq<Failure>
    requires n <= |events|
  {
    if n == 0 then []
    else ReplayGaps(events, n - 1)
         + (if Continues(events, n - 1) then []
            else if n == 1 then [ReplayInitialStateGap(events[0].eventId)]
            else [ReplayTransitionGap(events[n - 1].eventId)])
  }

  function ReplayFailures(events: seq<CommandEvent>, live: CommandState): seq<Failure> {
    ReplayGaps(events, |events|)
    + (if events == [] then [ReplayNoEvents] else if FinalState(events) == Some(live) then []
       else [ReplayStateDiverges])
  }

  lemma {:induction false} NoGapsIffContinues(events: seq<CommandEvent>, n: nat)
    requires n <= |events|
    ensures ReplayGaps(events, n) == [] <==> forall i | 0 <= i < n :: Continues(events, i)
  {
    if n > 0 { NoGapsIffContinues(events, n - 1); }
  }

  /** `live` is the state of the command, if the ledger knows it. */
  method VerifyReplayStateConsistency(events: seq<CommandEvent>, live: Option<CommandState>)
    returns (r: ReplayStateVerification)
    ensures r == if live.None? then ReplayStateVerification(false, None, None, false, false, 0, [CommandNotFound])
                 else ReplayStateVerification(true, FinalState(events), live, WithoutGap(events),
                                              FinalState(events) == live,
                                              |events|, ReplayFailures(events, live.value))
    ensures r.failures == [] <==> live.Some? && Replays(events, live.value)
  {
    if live.None? { return ReplayStateVerification(false, None, None, false, false, 0, [CommandNotFound]); }
    var failures: seq<Failure> := [];
    var replayed: Option<CommandState> := None;
    var valid := true;
    var i := 0;
    while i < |events|
      invariant 0 <= i <= |events|
      invariant failures == ReplayGaps(events, i) && valid == (failures == [])
      invariant replayed == if i == 0 then None else Some(events[i - 1].nextState)
    {
      var event := events[i];
      if replayed.None? {
        if event.previousState != RECEIVED || event.nextState != RECEIVED {
          failures := failures + [ReplayInitialStateGap(event.eventId)];
          valid := false;
        }
      } else if event.previousState != replayed.value {
        failures := failures + [ReplayTransitionGap(event.eventId)];
        valid := false;
      }
      replayed := Some(event.nextState);
      i := i + 1;
    }
    NoGapsIffContinues(events, |events|);
    if replayed.None? {
      return ReplayStateVerification(true, None, live, false, false, 0, failures + [ReplayNoEvents]);
    }
    var statesMatch := replayed == live;
    if !statesMatch { failures := failures + [ReplayStateDiverges]; }
    r := ReplayStateVerification(true, replayed, live, valid, statesMatch, |events|, failures);
  }
}
