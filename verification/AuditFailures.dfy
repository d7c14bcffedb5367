/** What each failure the auditor reports says about the log, told in the fields of its events: which event is named, in
    what way it is wrong, and that nothing wrong goes unnamed. */
module AuditFailures {
  import opened Collections
  import opened AuditTrace
  import Merkle

  /** The seed repeats the event, field by field. */
  ghost predicate TakenFrom(seed: EventSeed, e: CommandEvent) {
    && seed.commandId == e.commandId && seed.previousState == e.previousState && seed.nextState == e.nextState
    && seed.policyVersion == e.policyVersion && seed.riskTier == e.riskTier && seed.budgetDecision == e.budgetDecision
    && seed.approvalId == e.approvalId && seed.toolName == e.toolName && seed.inputHash == e.inputHash
    && seed.outputHash == e.outputHash && seed.traceId == e.traceId && seed.prevEventHash == e.prevEventHash
    && seed.timestamp == e.timestamp && seed.detail == e.detail
  }

  /** The event carries a hash that is not that of its own fields. */
  ghost predicate Misstates(hash: Hasher, e: CommandEvent) {
    exists seed :: TakenFrom(seed, e) && hash(seed) != e.eventHash
  }

  lemma MisstatesMeans(hash: Hasher, e: CommandEvent)
    ensures Misstates(hash, e) <==> !Hashed(hash, e)
    ensures forall seed | TakenFrom(seed, e) :: (hash(seed) != e.eventHash <==> Misstates(hash, e))
  {
    assert TakenFrom(SeedOf(e), e);
    forall seed | TakenFrom(seed, e) ensures seed == SeedOf(e) {}
  }

  /** The event does not point back at the one before it. */
  ghost predicate Unlinked(events: seq<CommandEvent>, i: nat)
    requires i < |events|
  {
    i > 0 && events[i].prevEventHash != events[i - 1].eventHash
  }

  // ----- The whole log ------------------------------------------------------------------

  /** Log order, and within one event the broken link before the wrong hash. */
  lemma EachEventAdds(hash: Hasher, events: seq<CommandEvent>, i: nat)
    requires i < |events|
    ensures ChainFailures(hash, events, 0) == []
    ensures ChainFailures(hash, events, i + 1)
            == ChainFailures(hash, events, i)
               + (if Unlinked(events, i) then [GlobalChainBreak(events[i].eventId)] else [])
               + (if Misstates(hash, events[i]) then [EventHashMismatch(events[i].eventId)] else [])
  {
    MisstatesMeans(hash, events[i]);
    assert Linked(events, i) <==> !Unlinked(events, i);
    var before, broken := ChainFailures(hash, events, i), [GlobalChainBreak(events[i].eventId)];
    var wrong := [EventHashMismatch(events[i].eventId)];
    assert before + (broken + wrong) == before + broken + wrong;
    assert before + ([] + wrong) == before + [] + wrong && before + ([] + []) == before + [] + [];
    assert before + (broken + []) == before + broken + [];
  }

  /** What a report may hold: a break or a wrong hash of an event that really has it. */
  ghost predicate Deserved(hash: Hasher, events: seq<CommandEvent>, n: nat, f: Failure)
    requires n <= |events|
  {
    match f
    case GlobalChainBreak(id) => exists i :: 0 <= i < n && events[i].eventId == id && Unlinked(events, i)
    case EventHashMismatch(id) => exists i :: 0 <= i < n && events[i].eventId == id && Misstates(hash, events[i])
    case _ => false
  }

  /** A failure is reported exactly when it is deserved. */
  lemma {:induction false} ReportedIffDeserved(hash: Hasher, events: seq<CommandEvent>, n: nat, f: Failure)
    requires n <= |events|
    ensures f in ChainFailures(hash, events, n) <==> Deserved(hash, events, n, f)
  {
    if n > 0 {
      ReportedIffDeserved(hash, events, n - 1, f);
      ReportedNext(hash, events, n - 1, f);
      DeservedNext(hash, events, n - 1, f);
    } else {
      NothingDeserved(hash, events, f);
    }
  }

  lemma NothingDeserved(hash: Hasher, events: seq<CommandEvent>, f: Failure)
    ensures !Deserved(hash, events, 0, f) && ChainFailures(hash, events, 0) == []
  {
  }

  lemma ReportedNext(hash: Hasher, events: seq<CommandEvent>, i: nat, f: Failure)
    requires i < |events|
    ensures f in ChainFailures(hash, events, i + 1) <==>
            f in ChainFailures(hash, events, i) || NewlyDeserved(hash, events, i, f)
  {
    EachEventAdds(hash, events, i);
    var before, e := ChainFailures(hash, events, i), events[i];
    InConcat(before, if Unlinked(events, i) then [GlobalChainBreak(e.eventId)] else [],
             if Misstates(hash, e) then [EventHashMismatch(e.eventId)] else [], f);
  }

  ghost predicate NewlyDeserved(hash: Hasher, events: seq<CommandEvent>, i: nat, f: Failure)
    requires i < |events|
  {
    || (f == GlobalChainBreak(events[i].eventId) && Unlinked(events, i))
    || (f == EventHashMismatch(events[i].eventId) && Misstates(hash, events[i]))
  }

  lemma InConcat<T>(a: seq<T>, b: seq<T>, c: seq<T>, x: T)
    ensures x in a + b + c <==> x in a || x in b || x in c
  {
  }

  lemma DeservedNext(hash: Hasher, events: seq<CommandEvent>, i: nat, f: Failure)
    requires i < |events|
    ensures Deserved(hash, events, i + 1, f) <==>
            Deserved(hash, events, i, f) || NewlyDeserved(hash, events, i, f)
  {
  }

  // ----- One anchor ---------------------------------------------------------------------

  lemma {:induction false} MismatchNamed(hash: Hasher, events: seq<CommandEvent>, n: nat, f: Failure)
    requires n <= |events|
    ensures f in MismatchFailures(hash, events, n) <==>
            f.AnchoredEventHashMismatch?
            && exists i :: 0 <= i < n && events[i].eventId == f.eventId && Misstates(hash, events[i])
  {
    if n > 0 {
      MismatchNamed(hash, events, n - 1, f);
      MisstatesMeans(hash, events[n - 1]);
    }
  }

  /** Under an anchor each of the four checks is reported exactly when it fails, and nothing else is. */
  lemma AnchorReportExact(hash: Hasher, sha: Merkle.Sha, sign: Anchor -> string, events: seq<CommandEvent>,
                          anchor: Anchor, f: Failure)
    ensures var range := EventsForAnchor(events, anchor);
            f in AnchorFailures(hash, sha, sign, events, anchor) <==>
            match f
            case AnchorEventCountMismatch => |range| != anchor.eventCount
            case AnchoredEventHashMismatch(id) =>
              exists i :: 0 <= i < |range| && range[i].eventId == id && Misstates(hash, range[i])
            case AnchorMerkleRootMismatch =>
              Merkle.Root(sha, seq(|range|, i requires 0 <= i < |range| => range[i].eventHash)) != anchor.merkleRoot
            case AnchorSignatureInvalid => sign(anchor) != anchor.signature
            case _ => false
  {
    var range := EventsForAnchor(events, anchor);
    MismatchNamed(hash, range, |range|, f);
    assert seq(|range|, i requires 0 <= i < |range| => range[i].eventHash) == Map(range, EventHashOf());
  }

  /** Of several anchors under one id the first is checked. */
  lemma {:induction false} FirstAnchorChecked(anchors: seq<Anchor>, id: string, i: nat)
    requires i < |anchors| && anchors[i].anchorId == id && forall j | 0 <= j < i :: anchors[j].anchorId != id
    ensures FindAnchor(anchors, id) == Some(anchors[i])
  {
    if i > 0 {
      assert anchors[0].anchorId != id && anchors[1..][i - 1] == anchors[i];
      FirstAnchorChecked(anchors[1..], id, i - 1);
    }
  }

  /** An anchor issued over the events from `i` on names the first and last of them, their number, the root of their
      hashes, the key and the time, and is signed over all of that. */
  lemma IssuedAnchorSays(sha: Merkle.Sha, sign: Anchor -> string, events: seq<CommandEvent>, i: nat, keyId: string,
                         at: string, idOf: string -> string)
    requires i < |events|
    ensures var a := IssueAnchor(sha, sign, events, i, keyId, at, idOf);
            && a.fromEventHash == events[i].eventHash && a.toEventHash == events[|events| - 1].eventHash
            && a.eventCount == |events| - i
            && a.merkleRoot
               == Merkle.Root(sha, seq(|events| - i, n requires 0 <= n < |events| - i => events[i + n].eventHash))
            && a.anchorId == idOf(a.merkleRoot) && a.signatureKeyId == keyId && a.anchoredAt == at
            && a.signature == sign(a.(signature := ""))
  {
    assert seq(|events| - i, n requires 0 <= n < |events| - i => events[i + n].eventHash)
           == Map(events[i..], EventHashOf());
  }

  // ----- One command's replay -------------------------------------------------------------

  /** What goes wrong at one event of a command: the first must receive it and every later one go on from the state the
      one before left. */
  ghost predicate GapAt(events: seq<CommandEvent>, i: nat, f: Failure)
    requires i < |events|
  {
    match f
    case ReplayInitialStateGap(id) =>
      i == 0 && id == events[i].eventId && !(events[i].previousState == "received" && events[i].nextState == "received")
    case ReplayTransitionGap(id) =>
      i > 0 && id == events[i].eventId && events[i].previousState != events[i - 1].nextState
    case _ => false
  }

  lemma {:induction false} GapNamed(events: seq<CommandEvent>, n: nat, f: Failure)
    requires n <= |events|
    ensures f in ReplayGaps(events, n) <==> exists i :: 0 <= i < n && GapAt(events, i, f)
  {
    if n > 0 {
      GapNamed(events, n - 1, f);
      assert Continues(events, n - 1) || GapAt(events, n - 1, if n == 1 then ReplayInitialStateGap(events[0].eventId)
                                               else ReplayTransitionGap(events[n - 1].eventId));
    }
  }

  /** Of a command each gap is reported exactly where it is, an empty history as such, and a replay that ends elsewhere
      than the live state as such. */
  lemma ReplayReportExact(events: seq<CommandEvent>, live: CommandState, f: Failure)
    ensures f in ReplayFailures(events, live) <==>
            || (f == ReplayNoEvents && events == [])
            || (f == ReplayStateDiverges && events != [] && events[|events| - 1].nextState != live)
            || exists i :: 0 <= i < |events| && GapAt(events, i, f)
  {
    GapNamed(events, |events|, f);
  }
}
