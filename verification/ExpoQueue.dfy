/**
 The coalescing queue and the chunk routine of `LedgeredExpoPushAdapter` (workers/push/adapter.ts), and
 a whole run of the queue. An entry is a work item with the number of the call whose promise is to be
 resolved.
 */
module ExpoQueue {
  import opened Wrappers
  import opened SendOutcomes
  import opened SendProtocol
  import ExpoSend
  import ExpoProtocol

  const CHUNK := ExpoProtocol.EXPO_SEND_CHUNK_SIZE

  datatype QueueEntry = QueueEntry(call: nat, work: Work)

  function Flatten<T>(chunks: seq<seq<T>>): seq<T> {
    if chunks == [] then [] else Flatten(chunks[..|chunks| - 1]) + chunks[|chunks| - 1]
  }

  lemma FlattenOneMore<T>(chunks: seq<seq<T>>, chunk: seq<T>)
    ensures Flatten(chunks + [chunk]) == Flatten(chunks) + chunk
  {
    assert (chunks + [chunk])[..|chunks|] == chunks;
  }

  class Queue {
    var pending: seq<QueueEntry>
    /** Whether `#flushTimer` is set. */
    var timer: bool
    /** The chunks handed to `#sendProviderChunk`, in order. */
    var dispatched: seq<seq<QueueEntry>>
    /** Everything ever enqueued, in order. */
    ghost var enqueued: seq<QueueEntry>

    /**
     Between steps: fewer than 100 wait, the timer is set exactly when some do, and nothing is lost,
     doubled or reordered.
     */
    ghost predicate Valid()
      reads this
    {
      && |pending| < CHUNK
      && (timer <==> pending != [])
      && Conserves()
      && (forall c :: c in dispatched ==> 1 <= |c| <= CHUNK)
    }

    ghost predicate Conserves()
      reads this
    {
      Flatten(dispatched) + pending == enqueued
    }

    constructor ()
      ensures Valid() && enqueued == [] && dispatched == []
    {
      pending, timer, dispatched, enqueued := [], false, [], [];
    }

    /** `#enqueueProviderIo`. */
    method Enqueue(entry: QueueEntry)
      requires Valid()
      modifies this
      ensures Valid() && enqueued == old(enqueued) + [entry]
      ensures if |old(pending)| + 1 == CHUNK
              then pending == [] && dispatched == old(dispatched) + [old(pending) + [entry]]
              else pending == old(pending) + [entry] && dispatched == old(dispatched)
    {
      pending := pending + [entry];
      enqueued := enqueued + [entry];
      assert Flatten(dispatched) + pending == old(Flatten(dispatched) + pending) + [entry];
      if |pending| >= CHUNK {
        timer := false;
        FlushPendingChunks(false);
        return;
      }
      ScheduleFlush();
    }

    /** `#scheduleFlush`. */
    method ScheduleFlush()
      modifies this`timer
      ensures timer
    {
      if timer {
        return;
      }
      timer := true;
    }

    /** The timer's callback: everything that waits goes out. */
    method TimerFires()
      requires Valid() && timer
      modifies this
      ensures Valid() && enqueued == old(enqueued)
      ensures pending == [] && !timer && dispatched == old(dispatched) + [old(pending)]
    {
      timer := false;
      FlushPendingChunks(true);
    }

    /** Takes the next chunk off the queue and hands it over. */
    method Dispatch()
      requires Conserves() && 1 <= |pending| <= CHUNK
      requires forall c :: c in dispatched ==> 1 <= |c| <= CHUNK
      modifies this`pending, this`dispatched
      ensures Conserves() && pending == [] && dispatched == old(dispatched) + [old(pending)]
      ensures forall c :: c in dispatched ==> 1 <= |c| <= CHUNK
    {
      hide Flatten;
      var size := if |pending| < CHUNK then |pending| else CHUNK;
      var chunk := pending[..size];
      FlattenOneMore(dispatched, chunk);
      assert chunk == pending && pending[size..] == [];
      assert Flatten(dispatched) + pending == Flatten(dispatched) + pending + [];
      pending := pending[size..];
      dispatched := dispatched + [chunk];
    }

    /** `#flushPendingChunks`. */
    method FlushPendingChunks(includePartial: bool)
      requires Conserves() && !timer && |pending| <= CHUNK
      requires forall c :: c in dispatched ==> 1 <= |c| <= CHUNK
      modifies this`pending, this`timer, this`dispatched
      ensures Valid()
      ensures if |old(pending)| == CHUNK || (includePartial && old(pending) != [])
              then pending == [] && dispatched == old(dispatched) + [old(pending)]
              else pending == old(pending) && dispatched == old(dispatched)
    {
      ghost var first := true;
      while |pending| >= CHUNK || (includePartial && |pending| > 0)
        invariant Conserves() && !timer && |pending| <= CHUNK
        invariant forall c :: c in dispatched ==> 1 <= |c| <= CHUNK
        invariant if first then pending == old(pending) && dispatched == old(dispatched)
                  else pending == [] && dispatched == old(dispatched) + [old(pending)] &&
                       (|old(pending)| == CHUNK || (includePartial && old(pending) != []))
        decreases |pending|
      {
        hide Conserves;
        Dispatch();
        first := false;
      }
      if |pending| > 0 {
        ScheduleFlush();
      }
    }
  }

  // ----- the chunk routine -----

  /** What the environment answers while a chunk is sent, entry by entry. */
  datatype Answers = Answers(
    before: ExpoSend.Clock, eligibility: nat -> ExpoSend.Eligibility, after: ExpoSend.Clock,
    transport: nat -> ExpoSend.TransportResult)

  /** The first clock read was taken before the entry's expiry. */
  predicate IsFresh(work: Work, before: ExpoSend.Clock) {
    before.ClockAt? && work.createdAt.Some? && before.time < ExpoExpiresAt(work.createdAt.value)
  }

  /** A clock that throws fails the whole chunk; the second one is read only if an entry is fresh. */
  predicate ChunkFails(chunk: seq<Work>, a: Answers) {
    a.before.ClockThrew? || (a.after.ClockThrew? && exists i :: 0 <= i < |chunk| && IsFresh(chunk[i], a.before))
  }

  /** The checks as they bear on one entry, in the terms of the send protocol. */
  function ChecksOf(chunk: seq<Work>, a: Answers, i: nat): Checks {
    ExpoChecks(ChunkFails(chunk, a), a.before, a.eligibility(i), a.after)
  }

  /** What one entry of the chunk is to be given: the one-item routine. */
  function ItemCompletion(chunk: seq<Work>, a: Answers, i: nat): Completion
    requires i < |chunk|
  {
    match ExpoCheckFailure(chunk[i], ChecksOf(chunk, a, i))
    case Some(completion) => completion
    case None => ExpoSend.TransportCompletion(a.transport(i))
  }

  predicate IsSent(chunk: seq<Work>, a: Answers, i: nat) {
    i < |chunk| && ExpoCheckFailure(chunk[i], ChecksOf(chunk, a, i)).None?
  }

  /** Nothing crosses the provider boundary at or past its expiry, or without being eligible. */
  lemma SentInTime(chunk: seq<Work>, a: Answers, i: nat)
    ensures IsSent(chunk, a, i) <==>
              && i < |chunk| && !ChunkFails(chunk, a) && a.eligibility(i).Eligible?
              && chunk[i].createdAt.Some?
              && a.before.ClockAt? && a.before.time < ExpoExpiresAt(chunk[i].createdAt.value)
              && a.after.ClockAt? && a.after.time < ExpoExpiresAt(chunk[i].createdAt.value)
  {
  }

  datatype Fresh = Fresh(work: Work, expiresAt: int, pendingIndex: nat)

  /** `#sendProviderChunk` with its `catch`: `sent` lists the entries that reach the transport, in order. */
  method SendChunk(chunk: seq<Work>, a: Answers) returns (completions: seq<Completion>, sent: seq<nat>)
    ensures |completions| == |chunk|
    ensures forall i :: 0 <= i < |chunk| ==> completions[i] == ItemCompletion(chunk, a, i)
    ensures forall i :: i in sent <==> 0 <= i && IsSent(chunk, a, i)
    ensures forall i, j :: 0 <= i < j < |sent| ==> sent[i] < sent[j]
  {
    var unknown := ExpoSend.UNKNOWN_SEND_OUTCOME;
    if a.before.ClockThrew? {
      return seq(|chunk|, _ => unknown), [];
    }
    var slots, entries := FirstChecks(chunk, a.before);
    sent := [];
    if |entries| > 0 {
      FreshIsFresh(chunk, a, entries);
      if a.after.ClockThrew? {
        return seq(|chunk|, _ => unknown), [];
      }
      var sendable;
      slots, sendable := SecondChecks(chunk, a, slots, entries);
      slots, sent := Send(chunk, a, slots, entries, sendable);
    } else {
      NothingFresh(chunk, a, entries);
    }
    completions := [];
    for i := 0 to |chunk|
      invariant |completions| == i
      invariant forall j :: 0 <= j < i ==> completions[j] == ItemCompletion(chunk, a, j)
    {
      completions := completions + [slots[i].GetOr(unknown)];
    }
  }

  /** The places of the first `n` entries. */
  function Places(entries: seq<Fresh>, n: nat): (r: set<nat>)
    requires n <= |entries|
    ensures forall k :: 0 <= k < n ==> entries[k].pendingIndex in r
  {
    set k | 0 <= k < n :: entries[k].pendingIndex
  }

  /** `entries` lists the fresh entries with their places, and the other slots are settled. */
  ghost predicate FirstDone(chunk: seq<Work>, before: ExpoSend.Clock, slots: seq<Option<Completion>>,
                            entries: seq<Fresh>, n: nat)
    requires |slots| == n <= |chunk|
  {
    && (forall k :: 0 <= k < |entries| ==>
          && entries[k].pendingIndex < n && entries[k].work == chunk[entries[k].pendingIndex]
          && IsFresh(entries[k].work, before) && entries[k].expiresAt == ExpoExpiresAt(entries[k].work.createdAt.value))
    && (forall k, l :: 0 <= k < l < |entries| ==> entries[k].pendingIndex < entries[l].pendingIndex)
    && (forall i :: 0 <= i < n && IsFresh(chunk[i], before) ==> slots[i].None? && i in Places(entries, |entries|))
    && (forall i :: 0 <= i < n && !IsFresh(chunk[i], before) ==>
          slots[i] == Some(if before.ClockAt? && chunk[i].createdAt.Some? then ExpoSend.EXPIRED_COMPLETION
                           else ExpoSend.UNKNOWN_SEND_OUTCOME))
  }

  lemma FirstStep(chunk: seq<Work>, before: ExpoSend.Clock, slots: seq<Option<Completion>>, entries: seq<Fresh>, n: nat)
    requires n < |chunk| && |slots| == n && FirstDone(chunk, before, slots, entries, n)
    ensures var work := chunk[n];
            if IsFresh(work, before)
            then
              var added := Fresh(work, ExpoExpiresAt(work.createdAt.value), n);
              FirstDone(chunk, before, slots + [None], entries + [added], n + 1)
            else
              var settled := if before.ClockAt? && work.createdAt.Some? then ExpoSend.EXPIRED_COMPLETION
                             else ExpoSend.UNKNOWN_SEND_OUTCOME;
              FirstDone(chunk, before, slots + [Some(settled)], entries, n + 1)
  {
    var work := chunk[n];
    if IsFresh(work, before) {
      PlacesAppend(entries, Fresh(work, ExpoExpiresAt(work.createdAt.value), n));
    }
    hide Places, ExpoExpiresAt;
  }

  method FirstChecks(chunk: seq<Work>, before: ExpoSend.Clock)
    returns (slots: seq<Option<Completion>>, entries: seq<Fresh>)
    ensures |slots| == |chunk| && FirstDone(chunk, before, slots, entries, |chunk|)
  {
    slots, entries := [], [];
    for i := 0 to |chunk|
      invariant |slots| == i && FirstDone(chunk, before, slots, entries, i)
    {
      var work := chunk[i];
      FirstStep(chunk, before, slots, entries, i);
      hide FirstDone;
      if !before.ClockAt? || work.createdAt.None? {
        slots := slots + [Some(ExpoSend.UNKNOWN_SEND_OUTCOME)];
      } else if before.time < ExpoExpiresAt(work.createdAt.value) {
        entries := entries + [Fresh(work, ExpoExpiresAt(work.createdAt.value), i)];
        slots := slots + [None];
      } else {
        slots := slots + [Some(ExpoSend.EXPIRED_COMPLETION)];
      }
    }
  }

  lemma FreshIsFresh(chunk: seq<Work>, a: Answers, entries: seq<Fresh>)
    requires |entries| > 0 && entries[0].pendingIndex < |chunk| && IsFresh(chunk[entries[0].pendingIndex], a.before)
    ensures ChunkFails(chunk, a) <==> a.before.ClockThrew? || a.after.ClockThrew?
  {
  }

  lemma NothingFresh(chunk: seq<Work>, a: Answers, entries: seq<Fresh>)
    requires forall i :: 0 <= i < |chunk| ==> !IsFresh(chunk[i], a.before)
    ensures ChunkFails(chunk, a) <==> a.before.ClockThrew?
    ensures forall i :: !IsSent(chunk, a, i)
  {
  }

  /** The entries before `n` have their completions, but for those in `sendable`, which are to be sent. */
  ghost predicate SecondDone(chunk: seq<Work>, a: Answers, slots: seq<Option<Completion>>, entries: seq<Fresh>,
                             sendable: seq<Fresh>, n: nat)
    requires |slots| == |chunk| && n <= |entries|
  {
    && (forall i :: 0 <= i < |chunk| ==>
          !IsFresh(chunk[i], a.before) || (i in Places(entries, n) && !IsSent(chunk, a, i)) ==>
            slots[i] == Some(ItemCompletion(chunk, a, i)))
    && (forall i :: i in Places(entries, n) && IsSent(chunk, a, i) ==> i in Places(sendable, |sendable|))
    && (forall k :: 0 <= k < |sendable| ==>
          && IsSent(chunk, a, sendable[k].pendingIndex) && sendable[k].work == chunk[sendable[k].pendingIndex]
          && sendable[k].pendingIndex in Places(entries, n))
    && (forall k, l :: 0 <= k < l < |sendable| ==> sendable[k].pendingIndex < sendable[l].pendingIndex)
  }

  lemma PlacesOneMore(entries: seq<Fresh>, n: nat)
    requires n < |entries|
    ensures Places(entries, n + 1) == Places(entries, n) + {entries[n].pendingIndex}
  {
  }

  lemma PlacesAppend(entries: seq<Fresh>, e: Fresh)
    ensures Places(entries + [e], |entries| + 1) == Places(entries, |entries|) + {e.pendingIndex}
  {
    assert forall k :: 0 <= k < |entries| ==> (entries + [e])[k] == entries[k];
    assert (entries + [e])[|entries|] == e;
  }

  lemma SecondStep(chunk: seq<Work>, a: Answers, slots: seq<Option<Completion>>, entries: seq<Fresh>,
                   sendable: seq<Fresh>, n: nat)
    requires |slots| == |chunk| && n < |entries| && SecondDone(chunk, a, slots, entries, sendable, n)
    requires entries[n].pendingIndex < |chunk| && entries[n].work == chunk[entries[n].pendingIndex]
    requires IsFresh(entries[n].work, a.before)
    requires forall i :: i in Places(entries, n) ==> i < entries[n].pendingIndex
    requires ExpoCheckFailure(entries[n].work, ChecksOf(chunk, a, entries[n].pendingIndex)) == Decision(a, entries[n])
    ensures var decision := Decision(a, entries[n]);
            if decision.Some?
            then SecondDone(chunk, a, slots[entries[n].pendingIndex := decision], entries, sendable, n + 1)
            else SecondDone(chunk, a, slots, entries, sendable + [entries[n]], n + 1)
  {
    hide ExpoCheckFailure, Decision, ChecksOf, IsFresh, Places;
    PlacesOneMore(entries, n);
    PlacesAppend(sendable, entries[n]);
  }

  /** The decision on one fresh entry; `None` adds it to the sendable ones. */
  function Decision(a: Answers, e: Fresh): Option<Completion> {
    var ineligible := ExpoSend.EligibilityFailure(a.eligibility(e.pendingIndex));
    if ineligible.Some? then ineligible
    else if !a.after.ClockAt? then Some(ExpoSend.UNKNOWN_SEND_OUTCOME)
    else if a.after.time >= e.expiresAt then Some(ExpoSend.EXPIRED_COMPLETION)
    else None
  }

  lemma DecisionIsCheck(chunk: seq<Work>, a: Answers, e: Fresh)
    requires IsFresh(e.work, a.before) && e.expiresAt == ExpoExpiresAt(e.work.createdAt.value) && !ChunkFails(chunk, a)
    ensures ExpoCheckFailure(e.work, ChecksOf(chunk, a, e.pendingIndex)) == Decision(a, e)
  {
  }

  lemma NotFreshIsSettled(chunk: seq<Work>, a: Answers, i: nat)
    requires i < |chunk| && !IsFresh(chunk[i], a.before) && !ChunkFails(chunk, a)
    ensures ItemCompletion(chunk, a, i) ==
            if a.before.ClockAt? && chunk[i].createdAt.Some? then ExpoSend.EXPIRED_COMPLETION
            else ExpoSend.UNKNOWN_SEND_OUTCOME
  {
  }

  /** The eligibility answers and the second clock. */
  method SecondChecks(chunk: seq<Work>, a: Answers, before: seq<Option<Completion>>, entries: seq<Fresh>)
    returns (slots: seq<Option<Completion>>, sendable: seq<Fresh>)
    requires |before| == |chunk| && FirstDone(chunk, a.before, before, entries, |chunk|)
    requires !ChunkFails(chunk, a)
    ensures |slots| == |chunk| && SecondDone(chunk, a, slots, entries, sendable, |entries|)
  {
    hide ExpoCheckFailure, ChunkFails;
    slots, sendable := before, [];
    forall i | 0 <= i < |chunk| && !IsFresh(chunk[i], a.before)
      ensures slots[i] == Some(ItemCompletion(chunk, a, i))
    {
      NotFreshIsSettled(chunk, a, i);
    }
    for n := 0 to |entries|
      invariant |slots| == |chunk| && SecondDone(chunk, a, slots, entries, sendable, n)
    {
      hide SecondDone, IsFresh, Decision;
      var candidate := entries[n];
      assert forall i :: i in Places(entries, n) ==> i < candidate.pendingIndex;
      DecisionIsCheck(chunk, a, candidate);
      SecondStep(chunk, a, slots, entries, sendable, n);
      var decision := Decision(a, candidate);
      if decision.Some? {
        slots := slots[candidate.pendingIndex := decision];
      } else {
        sendable := sendable + [candidate];
      }
    }
  }

  /** The sends: each sendable entry reaches the transport once, and its slot takes what comes back. */
  method Send(chunk: seq<Work>, a: Answers, before: seq<Option<Completion>>, ghost entries: seq<Fresh>,
              sendable: seq<Fresh>)
    returns (slots: seq<Option<Completion>>, sent: seq<nat>)
    requires |before| == |chunk| && SecondDone(chunk, a, before, entries, sendable, |entries|)
    requires forall i :: 0 <= i < |chunk| && IsFresh(chunk[i], a.before) ==> i in Places(entries, |entries|)
    ensures |slots| == |chunk|
    ensures forall i :: 0 <= i < |chunk| ==> slots[i] == Some(ItemCompletion(chunk, a, i))
    ensures forall i :: i in sent <==> 0 <= i && IsSent(chunk, a, i)
    ensures forall i, j :: 0 <= i < j < |sent| ==> sent[i] < sent[j]
  {
    hide ExpoCheckFailure, ChunkFails;
    slots, sent := before, [];
    for n := 0 to |sendable|
      invariant |slots| == |chunk| && |sent| == n
      invariant forall k :: 0 <= k < n ==> sent[k] == sendable[k].pendingIndex
      invariant forall k :: 0 <= k < n ==>
                  slots[sendable[k].pendingIndex] == Some(ItemCompletion(chunk, a, sendable[k].pendingIndex))
      invariant forall i :: 0 <= i < |chunk| && i !in sent ==> slots[i] == before[i]
    {
      var candidate := sendable[n];
      slots := slots[candidate.pendingIndex := Some(ExpoSend.TransportCompletion(a.transport(candidate.pendingIndex)))];
      sent := sent + [candidate.pendingIndex];
    }
    forall i: nat
      ensures IsSent(chunk, a, i) <==> i in sent
    {
      SentIsFresh(chunk, a, i);
      if IsSent(chunk, a, i) {
        var k :| 0 <= k < |sendable| && sendable[k].pendingIndex == i;
        assert sent[k] == i;
      }
    }
  }

  lemma SentIsFresh(chunk: seq<Work>, a: Answers, i: nat)
    ensures IsSent(chunk, a, i) ==> IsFresh(chunk[i], a.before)
  {
  }

  // ----- a whole run -----

  datatype Event = Call(work: Work) | Timer

  /** The calls so far, numbered in order. */
  function Calls(events: seq<Event>): seq<QueueEntry> {
    if events == [] then []
    else
      var before := Calls(events[..|events| - 1]);
      match events[|events| - 1]
      case Call(work) => before + [QueueEntry(|before|, work)]
      case Timer => before
  }

  lemma {:induction false} CallsAreNumbered(events: seq<Event>)
    ensures forall i :: 0 <= i < |Calls(events)| ==> Calls(events)[i].call == i
  {
    if events != [] {
      CallsAreNumbered(events[..|events| - 1]);
    }
  }

  function Works(entries: seq<QueueEntry>): (r: seq<Work>)
    ensures |r| == |entries| && forall i :: 0 <= i < |entries| ==> r[i] == entries[i].work
  {
    seq(|entries|, i requires 0 <= i < |entries| => entries[i].work)
  }

  /** A promise that was resolved, by the number of its call. */
  datatype Settlement = Settlement(call: nat, completion: Completion)

  /** What the entries of one chunk are given, in order. */
  function ChunkSettlements(chunk: seq<QueueEntry>, a: Answers): seq<Settlement> {
    seq(|chunk|, i requires 0 <= i < |chunk| => Settlement(chunk[i].call, ItemCompletion(Works(chunk), a, i)))
  }

  /** Sends a chunk and resolves its entries. */
  method SettleChunk(chunk: seq<QueueEntry>, a: Answers) returns (settled: seq<Settlement>)
    ensures settled == ChunkSettlements(chunk, a)
  {
    hide ItemCompletion;
    var completions, _ := SendChunk(Works(chunk), a);
    settled := seq(|chunk|, i requires 0 <= i < |chunk| => Settlement(chunk[i].call, completions[i]));
  }

  /** All that is resolved once the chunks handed over were sent, the n-th of them under the n-th answers. */
  function Settlements(chunks: seq<seq<QueueEntry>>, env: nat -> Answers): seq<Settlement> {
    if chunks == [] then []
    else
      var n := |chunks| - 1;
      Settlements(chunks[..n], env) + ChunkSettlements(chunks[n], env(n))
  }

  lemma SettlementsOneMore(chunks: seq<seq<QueueEntry>>, chunk: seq<QueueEntry>, env: nat -> Answers)
    ensures Settlements(chunks + [chunk], env) == Settlements(chunks, env) + ChunkSettlements(chunk, env(|chunks|))
  {
    assert (chunks + [chunk])[..|chunks|] == chunks;
  }

  lemma {:induction false} SettlementsMatch(chunks: seq<seq<QueueEntry>>, env: nat -> Answers)
    ensures |Settlements(chunks, env)| == |Flatten(chunks)|
    ensures forall i :: 0 <= i < |Flatten(chunks)| ==> Settlements(chunks, env)[i].call == Flatten(chunks)[i].call
  {
    hide ItemCompletion;
    if chunks != [] {
      SettlementsMatch(chunks[..|chunks| - 1], env);
    }
  }

  lemma NothingSettled(env: nat -> Answers)
    ensures Settlements([], env) == []
  {
  }

  /**
   A run of the queue: every call and every firing of the timer in turn, each chunk being sent as it is
   handed over.
   */
  method Run(events: seq<Event>, env: nat -> Answers)
    returns (dispatched: seq<seq<QueueEntry>>, waiting: seq<QueueEntry>, settled: seq<Settlement>)
    ensures Flatten(dispatched) + waiting == Calls(events) && |waiting| < 100
    ensures forall c :: c in dispatched ==> 1 <= |c| <= 100
    ensures settled == Settlements(dispatched, env)
    ensures |settled| + |waiting| == |Calls(events)| && forall i :: 0 <= i < |settled| ==> settled[i].call == i
    ensures events != [] && events[|events| - 1].Timer? ==> waiting == []
  {
    hide Flatten, Settlements, ChunkSettlements;
    NothingSettled(env);
    var queue := new Queue();
    settled := [];
    var calls := 0;
    dispatched := [];
    for i := 0 to |events|
      invariant fresh(queue) && queue.Valid() && queue.enqueued == Calls(events[..i]) && calls == |queue.enqueued|
      invariant dispatched == queue.dispatched && settled == Settlements(dispatched, env)
      invariant i > 0 && events[i - 1].Timer? ==> queue.pending == []
    {
      assert events[..i + 1][..i] == events[..i];
      match events[i] {
        case Call(work) =>
          queue.Enqueue(QueueEntry(calls, work));
          calls := calls + 1;
        case Timer =>
          if queue.timer {
            queue.TimerFires();
          }
      }
      if |queue.dispatched| > |dispatched| {
        var chunk := queue.dispatched[|dispatched|];
        SettlementsOneMore(dispatched, chunk, env);
        var now := SettleChunk(chunk, env(|dispatched|));
        dispatched, settled := dispatched + [chunk], settled + now;
      }
    }
    assert events[..|events|] == events;
    waiting := queue.pending;
    SettlementsMatch(dispatched, env);
    CallsAreNumbered(events);
    forall i | 0 <= i < |settled|
      ensures settled[i].call == i
    {
      assert Calls(events)[i] == Flatten(dispatched)[i];
    }
  }
}
