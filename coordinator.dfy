/**
 * cmd/coordinator/server.go: the coordinator's slot scheduler. Participants
 * register for consecutive time slots; the cursor `currentSlot` names the
 * slot whose participant may submit; expired slots are skipped when a later
 * participant asks, and waiting slots are pushed back when the current one
 * overruns. The wall clock, the fresh ticket and the decoded submission are
 * parameters.
 */
module Scheduler {
  import opened Wrappers
  import opened Groups
  import opened Schema
  import opened Verify

  /** Seconds a participant has, gap before the next slot, grace before an immediate start, push-back step. */
  const ParticipantTime: int := 20
  const CoordinatorTime: int := 120
  const ImmediateStartDelay: int := 5
  const PushbackDelay: int := 10
  const Rounds: nat := 10

  /** One participant's slot: its position, its time window, its ticket, whether it submitted. */
  datatype Slot = Slot(index: nat, start: int, deadline: int, participantTicket: string, submitted: bool)

  datatype RegistrationResponse = RegistrationResponse(start: int, deadline: int, ticket: string)

  /** The ceremony is present only when the caller's slot is the current one. */
  datatype FetchResponse = FetchResponse(start: int, deadline: int, ceremony: Option<Ceremony>)

  /** A handler's answer: a body (status 200), or a bare error status. */
  datatype Reply<T> = Success(body: T) | Refused(status: int)

  // ------------------------------------------------------------ the schedule

  /** Slot i sits at position i. */
  predicate WellIndexed(slots: seq<Slot>)
  {
    forall i :: 0 <= i < |slots| ==> slots[i].index == i
  }

  /** Every window lasts exactly ParticipantTime. */
  predicate Windows(slots: seq<Slot>)
  {
    forall i :: 0 <= i < |slots| ==> slots[i].deadline == slots[i].start + ParticipantTime
  }

  /** From the cursor on, each slot starts at least CoordinatorTime after the previous deadline. */
  predicate Scheduled(slots: seq<Slot>, current: nat)
  {
    forall i :: current <= i && i + 1 < |slots| ==> slots[i].deadline + CoordinatorTime <= slots[i + 1].start
  }

  /** Every ticket names a slot that carries it. */
  predicate TicketsResolve(slotByTicket: map<string, nat>, slots: seq<Slot>)
  {
    forall t :: t in slotByTicket ==> slotByTicket[t] < |slots| && slots[slotByTicket[t]].participantTicket == t
  }

  /** The slot RegisterParticipant appends: now + 5 if it is current at once, else after the last one. */
  function NextSlot(slots: seq<Slot>, current: nat, now: int, ticket: string): (s: Slot)
    requires current <= |slots|
    ensures s.index == |slots| && s.participantTicket == ticket && !s.submitted
    ensures s.deadline - s.start == ParticipantTime
    ensures current == |slots| ==> s.start - now == ImmediateStartDelay
    ensures current < |slots| ==> s.start - slots[|slots| - 1].deadline == CoordinatorTime
  {
    var start := if current == |slots| then now + ImmediateStartDelay
                 else slots[|slots| - 1].deadline + CoordinatorTime;
    Slot(|slots|, start, start + ParticipantTime, ticket, false)
  }

  /** Registration keeps the schedule: the new slot is indexed, lasts 20 seconds, and follows the last one. */
  lemma RegisterKeepsSchedule(slots: seq<Slot>, current: nat, now: int, ticket: string)
    requires current <= |slots| && WellIndexed(slots) && Windows(slots) && Scheduled(slots, current)
    ensures var slots' := slots + [NextSlot(slots, current, now, ticket)];
      WellIndexed(slots') && Windows(slots') && Scheduled(slots', current)
  {
    var slots' := slots + [NextSlot(slots, current, now, ticket)];
    forall i | current <= i && i + 1 < |slots'|
      ensures slots'[i].deadline + CoordinatorTime <= slots'[i + 1].start
    {
      if i + 1 == |slots| {
        assert slots'[i + 1] == NextSlot(slots, current, now, ticket);
      }
    }
  }

  /** A slot the reclaim loop may skip: not submitted, and its deadline has passed. */
  predicate Expired(s: Slot, now: int)
  {
    !s.submitted && s.deadline < now
  }

  /**
   * Where the reclaim loop of RetrieveParticipant leaves the cursor: past
   * every expired slot from `current` on, stopping at the first live one
   * and never beyond the caller's slot `idx`.
   */
  function ReclaimedTo(slots: seq<Slot>, current: nat, idx: nat, now: int): (k: nat)
    requires current <= idx < |slots|
    ensures current <= k <= idx
    ensures forall j :: current <= j < k ==> Expired(slots[j], now)
    ensures k < idx ==> !Expired(slots[k], now)
    decreases idx - current
  {
    if current == idx || !Expired(slots[current], now) then current
    else ReclaimedTo(slots, current + 1, idx, now)
  }

  function Delayed(s: Slot): (d: Slot)
    ensures d.start - s.start == PushbackDelay && d.deadline - d.start == s.deadline - s.start
    ensures d.index == s.index && d.participantTicket == s.participantTicket && d.submitted == s.submitted
  {
    s.(start := s.start + PushbackDelay, deadline := s.deadline + PushbackDelay)
  }

  /** Every slot from `from` on moved PushbackDelay later. */
  function PushedBack(slots: seq<Slot>, from: nat): (r: seq<Slot>)
    ensures |r| == |slots|
    ensures forall i :: 0 <= i < |slots| && i < from ==> r[i] == slots[i]
    ensures forall i :: from <= i < |slots| ==> r[i] == Delayed(slots[i])
  {
    seq(|slots|, i requires 0 <= i < |slots| => if i >= from then Delayed(slots[i]) else slots[i])
  }

  /**
   * Pushing back every slot after the current one keeps the schedule: the
   * waiting slots keep their durations and their mutual gaps, the gap after
   * the current slot only grows, and the current slot is untouched.
   */
  lemma PushbackKeepsSchedule(slots: seq<Slot>, current: nat)
    requires current < |slots| && WellIndexed(slots) && Windows(slots) && Scheduled(slots, current)
    ensures var r := PushedBack(slots, current + 1);
      && WellIndexed(r) && Windows(r) && Scheduled(r, current)
      && r[..current + 1] == slots[..current + 1]
      && forall i :: current < i < |r| ==> r[i].deadline - r[i].start == slots[i].deadline - slots[i].start
  {
    var r := PushedBack(slots, current + 1);
    forall i | current <= i && i + 1 < |r|
      ensures r[i].deadline + CoordinatorTime <= r[i + 1].start
    {
      assert slots[i].deadline + CoordinatorTime <= slots[i + 1].start;
    }
  }

  /**
   * The coordinator's invariant on its fields. The last clause records that
   * the history only ever repeats the initial ceremony: acceptance appends
   * the ceremony that was already the latest.
   */
  predicate Consistent(slotByTicket: map<string, nat>, slots: seq<Slot>, current: nat, ceremonies: seq<Ceremony>)
  {
    && WellIndexed(slots)
    && Windows(slots)
    && current <= |slots|
    && Scheduled(slots, current)
    && TicketsResolve(slotByTicket, slots)
    && |ceremonies| >= 1
    && forall i :: 0 <= i < |ceremonies| ==> ceremonies[i] == ceremonies[0]
  }

  /** Moving the cursor forward, up to the end of the list, keeps the invariant. */
  lemma AdvanceKeepsConsistent(m: map<string, nat>, slots: seq<Slot>, current: nat, k: nat, cs: seq<Ceremony>)
    requires Consistent(m, slots, current, cs) && current <= k <= |slots|
    ensures Consistent(m, slots, k, cs)
  {
  }

  /**
   * Marking the current slot submitted keeps the invariant, with the cursor
   * where it is or one further on, and with the latest ceremony appended
   * to the history once more.
   */
  lemma SubmitKeepsConsistent(m: map<string, nat>, slots: seq<Slot>, current: nat, cs: seq<Ceremony>)
    requires Consistent(m, slots, current, cs) && current < |slots|
    ensures var slots' := slots[current := slots[current].(submitted := true)];
      && Consistent(m, slots', current, cs)
      && Consistent(m, slots', current + 1, cs)
      && Consistent(m, slots', current + 1, cs + [cs[|cs| - 1]])
  {
    var slots' := slots[current := slots[current].(submitted := true)];
    assert forall i :: 0 <= i < |slots| ==> slots'[i].start == slots[i].start && slots'[i].deadline == slots[i].deadline;
    var cs' := cs + [cs[|cs| - 1]];
    assert forall i :: 0 <= i < |cs'| ==> cs'[i] == cs[0];
  }

  // ------------------------------------------------------------ the coordinator

  class Coordinator {
    var slotByTicket: map<string, nat>
    var slots: seq<Slot>
    var currentSlot: nat
    var ceremonies: seq<Ceremony>
    var maxRounds: nat

    /** The invariant every handler keeps. */
    predicate Valid()
      reads this
    {
      Consistent(slotByTicket, slots, currentSlot, ceremonies)
    }

    /** NewCoordinator: no slots, the cursor at 0, the initial ceremony as the whole history. */
    constructor NewCoordinator(initial: Ceremony)
      ensures Valid()
      ensures slotByTicket == map[] && slots == [] && currentSlot == 0
      ensures ceremonies == [initial] && maxRounds == Rounds
    {
      slotByTicket := map[];
      slots := [];
      currentSlot := 0;
      ceremonies := [initial];
      maxRounds := Rounds;
    }

    /**
     * RegisterParticipant: one new slot at the end, found under its ticket;
     * no expired slot is reclaimed and nothing else changes.
     */
    method RegisterParticipant(now: int, ticket: string) returns (resp: RegistrationResponse)
      requires Valid()
      modifies this
      ensures Valid()
      ensures slots == old(slots) + [NextSlot(old(slots), old(currentSlot), now, ticket)]
      ensures slotByTicket == old(slotByTicket)[ticket := |old(slots)|]
      ensures currentSlot == old(currentSlot) && ceremonies == old(ceremonies) && maxRounds == old(maxRounds)
      ensures resp == RegistrationResponse(slots[|old(slots)|].start, slots[|old(slots)|].deadline, ticket)
    {
      var index := |slots|;
      var start: int;
      if currentSlot == index {
        start := now + ImmediateStartDelay;
      } else {
        start := slots[|slots| - 1].deadline + CoordinatorTime;
      }
      var slot := Slot(index, start, start + ParticipantTime, ticket, false);
      RegisterKeepsSchedule(slots, currentSlot, now, ticket);
      slots := slots + [slot];
      slotByTicket := slotByTicket[ticket := index];
      resp := RegistrationResponse(slot.start, slot.deadline, slot.participantTicket);
    }

    /**
     * RetrieveParticipant: an unknown ticket or a passed slot is refused
     * with no change. Otherwise expired slots before the caller's are
     * skipped; if the caller's slot is then current it is refused when its
     * deadline has passed (and the cursor moves past it) or served the
     * latest ceremony; if it is still waiting and its start has passed,
     * every slot after the current one is pushed back. The response carries
     * the caller's window as it was before any push-back.
     */
    method RetrieveParticipant(ticket: string, now: int) returns (r: Reply<FetchResponse>)
      requires Valid()
      modifies this
      ensures Valid()
      ensures slotByTicket == old(slotByTicket) && ceremonies == old(ceremonies) && maxRounds == old(maxRounds)
      ensures old(currentSlot) <= currentSlot
      ensures ticket !in old(slotByTicket) || old(slotByTicket)[ticket] < old(currentSlot) ==>
        r == Refused(403) && slots == old(slots) && currentSlot == old(currentSlot)
      ensures ticket in old(slotByTicket) && old(slotByTicket)[ticket] >= old(currentSlot) ==>
        var idx := old(slotByTicket)[ticket];
        var s := old(slots)[idx];
        var k := ReclaimedTo(old(slots), old(currentSlot), idx, now);
        if k == idx && s.deadline < now then
          r == Refused(403) && currentSlot == idx + 1 && slots == old(slots)
        else if k == idx then
          r == Success(FetchResponse(s.start, s.deadline, Some(ceremonies[|ceremonies| - 1])))
          && currentSlot == idx && slots == old(slots)
        else
          r == Success(FetchResponse(s.start, s.deadline, None)) && currentSlot == k
          && slots == if s.start < now then PushedBack(old(slots), k + 1) else old(slots)
      ensures r.Success? && r.body.ceremony.Some? ==> r.body.ceremony.value == ceremonies[0]
    {
      if ticket !in slotByTicket || slotByTicket[ticket] < currentSlot {
        return Refused(403);
      }
      var idx := slotByTicket[ticket];
      var slot := slots[idx];
      var response := FetchResponse(slot.start, slot.deadline, None);

      Reclaim(idx, now);

      if currentSlot == idx {
        if slot.deadline < now {
          AdvanceKeepsConsistent(slotByTicket, slots, currentSlot, currentSlot + 1, ceremonies);
          currentSlot := currentSlot + 1;
          return Refused(403);
        } else {
          var latest := ceremonies[|ceremonies| - 1];
          assert latest == ceremonies[0];
          response := response.(ceremony := Some(latest));
        }
      } else if currentSlot < idx && slot.start < now {
        PushBack();
      }
      return Success(response);
    }

    /** The reclaim loop: the cursor skips expired slots, never past the caller's slot `idx`. */
    method Reclaim(idx: nat, now: int)
      requires Valid() && currentSlot <= idx < |slots|
      modifies this
      ensures Valid()
      ensures currentSlot == ReclaimedTo(old(slots), old(currentSlot), idx, now)
      ensures slots == old(slots) && slotByTicket == old(slotByTicket)
      ensures ceremonies == old(ceremonies) && maxRounds == old(maxRounds)
    {
      var cursor := currentSlot;
      while cursor < idx
        invariant currentSlot <= cursor <= idx
        invariant ReclaimedTo(slots, cursor, idx, now) == ReclaimedTo(slots, currentSlot, idx, now)
        decreases idx - cursor
      {
        if slots[cursor].submitted || slots[cursor].deadline >= now {
          break;
        }
        cursor := cursor + 1;
      }
      AdvanceKeepsConsistent(slotByTicket, slots, currentSlot, cursor, ceremonies);
      currentSlot := cursor;
    }

    /** The push-back loop: every slot after the current one moves PushbackDelay later. */
    method PushBack()
      requires Valid() && currentSlot < |slots|
      modifies this
      ensures Valid()
      ensures slots == PushedBack(old(slots), currentSlot + 1)
      ensures currentSlot == old(currentSlot) && slotByTicket == old(slotByTicket)
      ensures ceremonies == old(ceremonies) && maxRounds == old(maxRounds)
    {
      PushbackKeepsSchedule(slots, currentSlot);
      for k := currentSlot + 1 to |slots|
        invariant |slots| == |old(slots)|
        invariant currentSlot == old(currentSlot) && slotByTicket == old(slotByTicket)
        invariant ceremonies == old(ceremonies) && maxRounds == old(maxRounds)
        invariant forall i :: 0 <= i < |slots| ==>
          slots[i] == if currentSlot + 1 <= i < k then Delayed(old(slots)[i]) else old(slots)[i]
      {
        slots := slots[k := Delayed(slots[k])];
      }
      assert slots == PushedBack(old(slots), currentSlot + 1);
    }

    /**
     * SubmitCeremony: refused with no change unless the ticket's slot is
     * the current one. Otherwise the slot is marked submitted, and the
     * cursor moves on once whether the submission fails to decode (400),
     * fails verification (400) or passes (200, and the previous latest
     * ceremony is appended to the history). A verification that panics
     * leaves the slot submitted and the cursor where it was.
     */
    method SubmitCeremony(curve: Curve, ticket: string, submission: Option<Ceremony>) returns (r: Run<int>)
      requires Valid()
      modifies this
      ensures Valid()
      ensures old(currentSlot) <= currentSlot
      ensures slotByTicket == old(slotByTicket) && maxRounds == old(maxRounds)
      ensures ticket !in old(slotByTicket) || old(slotByTicket)[ticket] != old(currentSlot) ==>
        r == Returned(403) && slots == old(slots) && currentSlot == old(currentSlot) && ceremonies == old(ceremonies)
      ensures ticket in old(slotByTicket) && old(slotByTicket)[ticket] == old(currentSlot) ==>
        var idx := old(currentSlot);
        var latest := old(ceremonies)[|old(ceremonies)| - 1];
        && slots == old(slots)[idx := old(slots)[idx].(submitted := true)]
        && if submission.None? then
             r == Returned(400) && currentSlot == idx + 1 && ceremonies == old(ceremonies)
           else match SubmissionVerdict(curve, latest, submission.value)
             case Panicked =>
               r == Panicked && currentSlot == idx && ceremonies == old(ceremonies)
             case Returned(Some(_)) =>
               r == Returned(400) && currentSlot == idx + 1 && ceremonies == old(ceremonies)
             case Returned(None) =>
               r == Returned(200) && currentSlot == idx + 1 && ceremonies == old(ceremonies) + [latest]
    {
      if ticket !in slotByTicket || slotByTicket[ticket] != currentSlot {
        return Returned(403);
      }
      var idx := slotByTicket[ticket];
      SubmitKeepsConsistent(slotByTicket, slots, currentSlot, ceremonies);
      slots := slots[idx := slots[idx].(submitted := true)];

      if submission.None? {
        currentSlot := currentSlot + 1;
        return Returned(400);
      }

      var oldCeremony := ceremonies[|ceremonies| - 1];
      var verdict := VerifySubmission(curve, oldCeremony, submission.value);
      if verdict.Panicked? {
        return Panicked;
      }
      if verdict.value.Some? {
        currentSlot := currentSlot + 1;
        return Returned(400);
      }
      ceremonies := ceremonies + [oldCeremony];
      currentSlot := currentSlot + 1;
      return Returned(200);
    }
  }
}
