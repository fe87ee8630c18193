/**
 The loops that work on whole lists: the triage of a claimed batch
 (workers/push/receipt-lifecycle.ts), chunks and ticket responses (workers/push/protocol.ts).
 */
module ReceiptBatch {
  import opened Wrappers
  import opened ExpoProtocol
  import opened ReceiptClaims
  import opened ReceiptProtocol

  // ----- the triage of a batch -----

  /** What `runDue` does with a claim of the batch. */
  datatype Route = LeaveToLease | ExecutePending | StageConflict | StageHorizon | PollReceipt

  predicate SharesAttempt(claims: seq<Claim>, c: Claim) {
    exists d :: d in claims && d != c && d.target.attemptId == c.target.attemptId
  }

  predicate SharesReceiptId(claims: seq<Claim>, c: Claim) {
    exists d :: d in claims && d != c && d.target.receiptId == c.target.receiptId
  }

  function RouteOf(claims: seq<Claim>, c: Claim, now: int): Route {
    if SharesAttempt(claims, c) then LeaveToLease
    else if c.pendingAction.Some? then ExecutePending
    else if c.referenceState.Conflict? || SharesReceiptId(claims, c) then StageConflict
    else if now >= c.horizonAt then StageHorizon
    else PollReceipt
  }

  predicate AreDistinct(claims: seq<Claim>) { forall i, j :: 0 <= i < j < |claims| ==> claims[i] != claims[j] }

  function Count(claims: seq<Claim>, keyOf: Claim -> string, key: string): nat {
    if claims == [] then 0
    else Count(claims[..|claims| - 1], keyOf, key) + if keyOf(claims[|claims| - 1]) == key then 1 else 0
  }

  /** Among different claims a key counts more than once exactly when another claim has it. */
  lemma {:induction false} CountTellsSharing(claims: seq<Claim>, keyOf: Claim -> string, c: Claim)
    requires AreDistinct(claims)
    ensures c !in claims ==> (Count(claims, keyOf, keyOf(c)) > 0 <==> exists d :: d in claims && keyOf(d) == keyOf(c))
    ensures c in claims ==>
              (Count(claims, keyOf, keyOf(c)) > 1 <==> exists d :: d in claims && d != c && keyOf(d) == keyOf(c))
    ensures c in claims ==> Count(claims, keyOf, keyOf(c)) > 0
  {
    if claims != [] {
      var front, last := claims[..|claims| - 1], claims[|claims| - 1];
      CountTellsSharing(front, keyOf, c);
      assert last !in front;
      assert forall d :: d in claims <==> d in front || d == last;
      if last == c {
        assert c !in front;
      }
    }
  }

  /** The two counting maps. */
  method CountBy(claims: seq<Claim>, keyOf: Claim -> string) returns (counts: map<string, nat>)
    ensures forall key :: (if key in counts then counts[key] else 0) == Count(claims, keyOf, key)
  {
    counts := map[];
    for i := 0 to |claims|
      invariant forall key :: (if key in counts then counts[key] else 0) == Count(claims[..i], keyOf, key)
    {
      assert claims[..i + 1][..i] == claims[..i];
      var key := keyOf(claims[i]);
      counts := counts[key := 1 + if key in counts then counts[key] else 0];
    }
    assert claims[..|claims|] == claims;
  }

  function InvalidCount(cfg: Config, raw: seq<Claim>, now: int): nat {
    if raw == [] then 0
    else InvalidCount(cfg, raw[..|raw| - 1], now) + if ClaimIsValid(cfg, raw[|raw| - 1], now) then 0 else 1
  }

  /** Keeps the first of equal claims and drops what does not parse. */
  method ParseClaims(cfg: Config, raw: seq<Claim>, now: int) returns (claims: seq<Claim>, invalid: nat)
    ensures AreDistinct(claims)
    ensures forall c :: c in claims <==> c in raw && ClaimIsValid(cfg, c, now)
    ensures invalid == InvalidCount(cfg, raw, now)
  {
    hide ClaimIsValid;
    claims, invalid := [], 0;
    for i := 0 to |raw|
      invariant AreDistinct(claims)
      invariant forall c :: c in claims <==> c in raw[..i] && ClaimIsValid(cfg, c, now)
      invariant invalid == InvalidCount(cfg, raw[..i], now)
    {
      assert raw[..i + 1][..i] == raw[..i];
      assert forall c :: c in raw[..i + 1] <==> c in raw[..i] || c == raw[i];
      if !ClaimIsValid(cfg, raw[i], now) {
        invalid := invalid + 1;
      } else if raw[i] !in claims {
        claims := claims + [raw[i]];
      }
    }
    assert raw[..|raw|] == raw;
  }

  function AttemptOf(c: Claim): string { c.target.attemptId }

  function ReceiptOf(c: Claim): string { c.target.receiptId }

  function CountIn(counts: map<string, nat>, key: string): nat { if key in counts then counts[key] else 0 }

  lemma RouteByCounts(claims: seq<Claim>, c: Claim, now: int, attempts: map<string, nat>, receipts: map<string, nat>)
    requires AreDistinct(claims) && c in claims
    requires CountIn(attempts, AttemptOf(c)) == Count(claims, AttemptOf, AttemptOf(c))
    requires CountIn(receipts, ReceiptOf(c)) == Count(claims, ReceiptOf, ReceiptOf(c))
    ensures CountIn(attempts, AttemptOf(c)) > 1 <==> SharesAttempt(claims, c)
    ensures CountIn(receipts, ReceiptOf(c)) > 1 <==> SharesReceiptId(claims, c)
  {
    CountTellsSharing(claims, AttemptOf, c);
    CountTellsSharing(claims, ReceiptOf, c);
  }

  /** The claims of a part of the batch that are polled, in the order of the batch. */
  function Polled(claims: seq<Claim>, part: seq<Claim>, now: int): seq<Claim> {
    if part == [] then []
    else
      var last := part[|part| - 1];
      Polled(claims, part[..|part| - 1], now) + if RouteOf(claims, last, now).PollReceipt? then [last] else []
  }

  lemma {:induction false} PolledAreOfThePart(claims: seq<Claim>, part: seq<Claim>, now: int)
    requires AreDistinct(part)
    ensures forall c :: c in Polled(claims, part, now) <==> c in part && RouteOf(claims, c, now).PollReceipt?
    ensures AreDistinct(Polled(claims, part, now))
  {
    hide RouteOf;
    if part != [] {
      var front, last := part[..|part| - 1], part[|part| - 1];
      PolledAreOfThePart(claims, front, now);
      assert last !in front && forall c :: c in part <==> c in front || c == last;
    }
  }

  /** The triage loop: every claim is routed by what the batch holds, and the pollable ones are collected in order. */
  method Triage(claims: seq<Claim>, now: int) returns (routes: seq<Route>, pollable: seq<Claim>)
    requires AreDistinct(claims)
    ensures |routes| == |claims| && forall i :: 0 <= i < |claims| ==> routes[i] == RouteOf(claims, claims[i], now)
    ensures pollable == Polled(claims, claims, now)
  {
    hide Count, SharesAttempt, SharesReceiptId;
    var attemptCounts := CountBy(claims, AttemptOf);
    var receiptCounts := CountBy(claims, ReceiptOf);
    routes, pollable := [], [];
    for i := 0 to |claims|
      invariant |routes| == i && forall j :: 0 <= j < i ==> routes[j] == RouteOf(claims, claims[j], now)
      invariant pollable == Polled(claims, claims[..i], now)
    {
      var c := claims[i];
      RouteByCounts(claims, c, now, attemptCounts, receiptCounts);
      assert claims[..i + 1][..i] == claims[..i];
      var route :=
        if CountIn(attemptCounts, AttemptOf(c)) > 1 then LeaveToLease
        else if c.pendingAction.Some? then ExecutePending
        else if c.referenceState.Conflict? || CountIn(receiptCounts, ReceiptOf(c)) > 1 then StageConflict
        else if now >= c.horizonAt then StageHorizon
        else PollReceipt;
      assert route == RouteOf(claims, c, now);
      hide RouteOf;
      routes := routes + [route];
      if route.PollReceipt? {
        pollable := pollable + [c];
      }
    }
    assert claims[..|claims|] == claims;
  }

  lemma SharedReceiptIsNeverPolled(claims: seq<Claim>, c: Claim, d: Claim, now: int)
    requires c in claims && d in claims && c != d && c.target.receiptId == d.target.receiptId
    ensures !RouteOf(claims, c, now).PollReceipt? && !RouteOf(claims, c, now).StageHorizon?
  {
  }

  /**
   However a batch repeats attempts and receipt IDs, what is asked of the provider repeats neither, so
   each answer belongs to one attempt; and every claim asked about is open and before its horizon.
   */
  lemma PolledDiffer(claims: seq<Claim>, now: int)
    requires AreDistinct(claims)
    ensures var polled := Polled(claims, claims, now);
            && (forall i, j :: 0 <= i < j < |polled| ==>
                  polled[i].target.receiptId != polled[j].target.receiptId &&
                  polled[i].target.attemptId != polled[j].target.attemptId)
            && (forall c :: c in polled ==> c.pendingAction.None? && c.referenceState.Unique? && now < c.horizonAt)
  {
    PolledAreOfThePart(claims, claims, now);
    hide Polled, RouteOf;
    var polled := Polled(claims, claims, now);
    forall i, j | 0 <= i < j < |polled|
      ensures polled[i].target.receiptId != polled[j].target.receiptId
      ensures polled[i].target.attemptId != polled[j].target.attemptId
    {
      PolledIsOpen(claims, polled[i], polled[j], now);
    }
    forall c | c in polled
      ensures c.pendingAction.None? && c.referenceState.Unique? && now < c.horizonAt
    {
      PolledIsOpen(claims, c, c, now);
    }
  }

  lemma PolledIsOpen(claims: seq<Claim>, c: Claim, d: Claim, now: int)
    requires c in claims && d in claims && RouteOf(claims, c, now).PollReceipt?
    ensures c.pendingAction.None? && c.referenceState.Unique? && now < c.horizonAt
    ensures c != d ==> c.target.receiptId != d.target.receiptId && c.target.attemptId != d.target.attemptId
  {
    if c != d && c.target.receiptId == d.target.receiptId {
      SharedReceiptIsNeverPolled(claims, c, d, now);
    }
  }

  /** The step of the lifecycle that a route stands for; a claim left to its lease takes none. */
  function Routed(cfg: Config, s: State, token: Token, task: Task, route: Route): State
    requires route.ExecutePending? ==> task.claim.pendingAction.Some?
  {
    match route
    case LeaveToLease => s
    case ExecutePending => Execute(s, token, task.(plan := task.claim.pendingAction), task.claim.pendingAction.value)
    case StageConflict => StageKnown(cfg, s, token, task, CONFLICT_ACTION)
    case StageHorizon => StageKnown(cfg, s, token, task, TerminalUnknown(HorizonReason(task.claim.lastReason)))
    case PollReceipt => WithTask(s, token, task.(pc := Polling))
  }

  /**
   Triage of one claim in the lifecycle is its route in the batch, the flag being that its receipt ID
   repeats there.
   */
  lemma TriageFollowsRoute(cfg: Config, s: State, token: Token, claims: seq<Claim>)
    requires token in s.tasks && s.tasks[token].claim in claims && !SharesAttempt(claims, s.tasks[token].claim)
    requires s.tasks[token].pc == Claimed(SharesReceiptId(claims, s.tasks[token].claim))
    ensures ApplyTriage(cfg, s, token) ==
            Routed(cfg, s, token, s.tasks[token], RouteOf(claims, s.tasks[token].claim, s.tasks[token].now))
  {
    hide Execute, StageKnown, SharesAttempt, SharesReceiptId;
  }

  // ----- chunks -----

  function Joined<T>(chunks: seq<seq<T>>): seq<T> {
    if chunks == [] then [] else Joined(chunks[..|chunks| - 1]) + chunks[|chunks| - 1]
  }

  /** `chunkExpoValues`: consecutive full chunks and a last one that is not empty; an error is its throw. */
  method Chunks<T>(values: seq<T>, maximum: int) returns (r: Result<seq<seq<T>>, string>)
    ensures r.Ok? <==> 1 <= maximum <= 1_000
    ensures r.Ok? ==> Joined(r.value) == values
    ensures r.Ok? ==> forall i :: 0 <= i < |r.value| ==>
              1 <= |r.value[i]| <= maximum && (i < |r.value| - 1 ==> |r.value[i]| == maximum)
  {
    if maximum < 1 || maximum > 1_000 {
      return Err("Expo chunk size is invalid.");
    }
    var chunks: seq<seq<T>>, offset := [], 0;
    while offset < |values|
      invariant offset >= 0 && Joined(chunks) == values[..if offset < |values| then offset else |values|]
      invariant forall i :: 0 <= i < |chunks| ==>
                  1 <= |chunks[i]| <= maximum && (offset < |values| || i < |chunks| - 1 ==> |chunks[i]| == maximum)
    {
      var end := if offset + maximum < |values| then offset + maximum else |values|;
      ghost var before := chunks;
      chunks := chunks + [values[offset..end]];
      assert chunks[..|before|] == before;
      assert values[..end] == values[..offset] + values[offset..end];
      offset := offset + maximum;
    }
    assert values[..|values|] == values;
    r := Ok(chunks);
  }

  // ----- ticket responses -----

  /** One entry of the response's data; `None` is a field that is not a string. */
  datatype TicketItem = OkTicket(id: Option<string>) | ErrorTicket(error: Option<string>) | MalformedTicket

  function MapError(error: string): Outcome {
    if error == "DeviceNotRegistered" then FailedOutcome(DeviceNotRegistered, None, true)
    else if error == "MessageTooBig" then FailedOutcome(MessageTooBig, None, false)
    else if error == "MessageRateExceeded" then Retry(None, MessageRateExceeded)
    else if error == "MismatchSenderId" then FailedOutcome(MismatchSenderId, None, false)
    else if error == "InvalidCredentials" then FailedOutcome(InvalidCredentials, None, false)
    else Unknown(None, TicketErrorUnknown)
  }

  function MapTicket(item: TicketItem): Outcome {
    match item
    case OkTicket(Some(id)) => AcceptedOutcome(id)
    case OkTicket(None) => Unknown(None, TicketResponseInvalid)
    case ErrorTicket(Some(error)) => MapError(error)
    case ErrorTicket(None) => Unknown(None, TicketErrorUnknown)
    case MalformedTicket => Unknown(None, TicketResponseInvalid)
  }

  /** The name Expo gives the error of a failure that no repetition mends. */
  function ErrorName(reason: Reason): Option<string> {
    match reason
    case DeviceNotRegistered => Some("DeviceNotRegistered")
    case MessageTooBig => Some("MessageTooBig")
    case MismatchSenderId => Some("MismatchSenderId")
    case InvalidCredentials => Some("InvalidCredentials")
    case _ => None
  }

  lemma ErrorNamesDiffer()
    ensures forall r, q :: ErrorName(r).Some? && ErrorName(r) == ErrorName(q) ==> r == q
    ensures forall r :: ErrorName(r) != Some("MessageRateExceeded")
  {
    assert "DeviceNotRegistered"[0] == 'D' && "InvalidCredentials"[0] == 'I' && "MessageTooBig"[7] == 'T';
    assert "MismatchSenderId"[1] == 'i' && "MessageTooBig"[1] == 'e' && "MessageRateExceeded"[7] == 'R';
    assert |"MessageTooBig"| == 13 && |"MismatchSenderId"| == 16 && |"MessageRateExceeded"| == 19;
  }

  /** What each ticket is taken for: one ticket, or one kind of it, for each outcome. */
  lemma TicketIff(item: TicketItem, reference: string, reason: Reason)
    ensures MapTicket(item) == Accepted(reference) <==> item == OkTicket(Some(reference)) && IsSafeReference(reference)
    ensures MapTicket(item) == Failed(FailedState, None, reason, reason.DeviceNotRegistered?) <==>
              ErrorName(reason).Some? && item == ErrorTicket(ErrorName(reason))
    ensures MapTicket(item) == Retry(None, MessageRateExceeded) <==> item == ErrorTicket(Some("MessageRateExceeded"))
    ensures MapTicket(item) == Unknown(None, TicketErrorUnknown) <==>
              && item.ErrorTicket? && item != ErrorTicket(Some("MessageRateExceeded"))
              && forall r :: ErrorName(r).Some? ==> item != ErrorTicket(ErrorName(r))
    ensures MapTicket(item) == Unknown(None, TicketResponseInvalid) <==>
              !item.ErrorTicket? && !exists id :: item == OkTicket(Some(id)) && IsSafeReference(id)
  {
    ErrorNamesDiffer();
    assert ErrorName(DeviceNotRegistered) == Some("DeviceNotRegistered");
    assert ErrorName(MessageTooBig) == Some("MessageTooBig");
    assert ErrorName(MismatchSenderId) == Some("MismatchSenderId");
    assert ErrorName(InvalidCredentials) == Some("InvalidCredentials");
  }

  const INVALID_TICKET := Unknown(None, TicketResponseInvalid)

  /** The outcome at a position, before repeated references are taken out. */
  function TicketAt(data: seq<TicketItem>, i: nat): Outcome {
    if i < |data| then MapTicket(data[i]) else Unknown(None, TicketMissing)
  }

  ghost predicate IsRepeated(data: seq<TicketItem>, i: nat) {
    TicketAt(data, i).Accepted? && exists j: nat :: j != i && TicketAt(data, j) == TicketAt(data, i)
  }

  function ReferenceCount(outcomes: seq<Outcome>, reference: string): nat {
    if outcomes == [] then 0
    else
      var last := outcomes[|outcomes| - 1];
      ReferenceCount(outcomes[..|outcomes| - 1], reference) + if last == Accepted(reference) then 1 else 0
  }

  lemma {:induction false} CountTellsRepeats(outcomes: seq<Outcome>, reference: string)
    ensures ReferenceCount(outcomes, reference) == 0 <==> Accepted(reference) !in outcomes
    ensures ReferenceCount(outcomes, reference) <= 1 <==>
              forall i, j :: 0 <= i < j < |outcomes| && outcomes[i] == Accepted(reference) ==>
                outcomes[j] != Accepted(reference)
  {
    if outcomes != [] {
      var front, last := outcomes[..|outcomes| - 1], outcomes[|outcomes| - 1];
      CountTellsRepeats(front, reference);
      if last == Accepted(reference) && Accepted(reference) in front {
        var i :| 0 <= i < |front| && front[i] == Accepted(reference);
        assert outcomes[i] == Accepted(reference) && outcomes[|front|] == Accepted(reference);
      }
    }
  }

  /**
   `parseExpoTicketResponse`, of the response's data if it is a list of at most the expected length:
   one outcome per message, and none accepted under a reference that another message was given too.
   */
  method ParseTickets(data: Option<seq<TicketItem>>, expectedCount: int) returns (r: Result<seq<Outcome>, string>)
    ensures r.Ok? <==> 1 <= expectedCount <= EXPO_SEND_CHUNK_SIZE
    ensures r.Ok? ==> |r.value| == expectedCount
    ensures r.Ok? && (data.None? || |data.value| > expectedCount) ==>
              forall i :: 0 <= i < expectedCount ==> r.value[i] == INVALID_TICKET
    ensures r.Ok? && data.Some? && |data.value| <= expectedCount ==>
              forall i :: 0 <= i < expectedCount ==>
                r.value[i] == if IsRepeated(data.value, i) then INVALID_TICKET else TicketAt(data.value, i)
  {
    if expectedCount < 1 || expectedCount > EXPO_SEND_CHUNK_SIZE {
      return Err("Expo ticket count is invalid.");
    }
    if data.None? || |data.value| > expectedCount {
      return Ok(seq(expectedCount, _ => INVALID_TICKET));
    }
    hide MapTicket;
    var outcomes := seq(expectedCount, i requires i >= 0 => TicketAt(data.value, i));
    var counts: map<string, nat> := map[];
    for i := 0 to |outcomes|
      invariant forall key :: (if key in counts then counts[key] else 0) == ReferenceCount(outcomes[..i], key)
    {
      hide TicketAt;
      assert outcomes[..i + 1][..i] == outcomes[..i];
      if outcomes[i].Accepted? {
        var key := outcomes[i].reference;
        counts := counts[key := 1 + if key in counts then counts[key] else 0];
      }
    }
    assert outcomes[..|outcomes|] == outcomes;
    var results: seq<Outcome> := [];
    for i := 0 to |outcomes|
      invariant |results| == i
      invariant forall j :: 0 <= j < i ==>
                  results[j] == if IsRepeated(data.value, j) then INVALID_TICKET else TicketAt(data.value, j)
    {
      hide ReferenceCount, IsRepeated;
      RepeatsByCount(data.value, outcomes, i);
      var repeated := outcomes[i].Accepted? && (outcomes[i].reference !in counts || counts[outcomes[i].reference] != 1);
      results := results + [if repeated then INVALID_TICKET else outcomes[i]];
    }
    r := Ok(results);
  }

  lemma RepeatsByCount(data: seq<TicketItem>, outcomes: seq<Outcome>, i: nat)
    requires |data| <= |outcomes| && i < |outcomes|
    requires forall j :: 0 <= j < |outcomes| ==> outcomes[j] == TicketAt(data, j)
    ensures IsRepeated(data, i) <==> outcomes[i].Accepted? && ReferenceCount(outcomes, outcomes[i].reference) != 1
  {
    hide MapTicket;
    if outcomes[i].Accepted? {
      var reference := outcomes[i].reference;
      CountTellsRepeats(outcomes, reference);
      if j: nat :| j != i && TicketAt(data, j) == TicketAt(data, i) {
        assert j < |outcomes| && outcomes[j] == Accepted(reference);
      }
      if ReferenceCount(outcomes, reference) > 1 {
        var j, k :| 0 <= j < k < |outcomes| && outcomes[j] == Accepted(reference) && outcomes[k] == Accepted(reference);
        assert TicketAt(data, j) == TicketAt(data, i) && TicketAt(data, k) == TicketAt(data, i);
      }
    }
  }

  /** Whatever a ticket maps to is a canonical outcome of the ticket phase: the outcome parser takes it as it is. */
  lemma TicketsAreCanonical(item: TicketItem)
    ensures ParseOutcome(ToRaw(MapTicket(item)), Some(Ticket)) == Some(MapTicket(item))
  {
    assert IsCanonical(MapTicket(item), Some(Ticket));
  }
}
