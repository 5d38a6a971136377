// The signaling server's table of connection requests that still wait for an answer.

module IceMessagesHandler {
  import opened Bytes

  type ID = seq<byte>

  // what unordered_map's operator[] makes up for a missing key
  const NO_ID: ID := Repeated(0, 32)

  const NANOSECONDS := 1_000_000_000
  const ID_COUNT := 65536

  datatype Message =
    | ExistsOppositeRequest
    | AuthorizeConnection(candidates: seq<byte>, requestId: nat, from: ID)
    | AuthorizedData(candidates: seq<byte>)
    | UserAlreadyConnected
    | UserFullCapacity

  datatype ResultMessage = ResultMessage(id: ID, msg: Message)

  // ----- the table as a value

  datatype Table = Table(waits: map<nat, (ID, ID)>, times: map<nat, int>, next: nat)

  predicate WellKept(t: Table) {
    t.waits.Keys == t.times.Keys && t.next < ID_COUNT
  }

  predicate SamePair(x: (ID, ID), y: (ID, ID)) {
    x == y || x == (y.1, y.0)
  }

  /** duration_cast to whole seconds drops the fraction. */
  function WholeSeconds(nanoseconds: int): int {
    if nanoseconds >= 0 then nanoseconds / NANOSECONDS else -(-nanoseconds / NANOSECONDS)
  }

  predicate Recent(time: int, now: int) {
    WholeSeconds(now - time) < 10
  }

  predicate Conflicts(t: Table, id: nat, pair: (ID, ID), now: int)
    requires WellKept(t) && id in t.waits
  {
    SamePair(pair, t.waits[id]) && Recent(t.times[id], now)
  }

  predicate Refused(t: Table, pair: (ID, ID), now: int)
    requires WellKept(t)
  {
    exists id :: id in t.waits && Conflicts(t, id, pair, now)
  }

  function AfterRequest(t: Table, pair: (ID, ID), now: int): (r: Table)
    requires WellKept(t)
    ensures WellKept(r)
  {
    if Refused(t, pair, now) then t
    else Table(t.waits[t.next := pair], t.times[t.next := now], (t.next + 1) % ID_COUNT)
  }

  function RequestReply(t: Table, from: ID, requested: ID, candidates: seq<byte>, now: int): ResultMessage
    requires WellKept(t)
  {
    if Refused(t, (from, requested), now) then ResultMessage(from, ExistsOppositeRequest)
    else ResultMessage(requested, AuthorizeConnection(candidates, t.next, from))
  }

  function AfterResponse(t: Table, id: nat): (r: Table)
    requires WellKept(t)
    ensures WellKept(r)
  {
    Table(t.waits - {id}, t.times - {id}, t.next)
  }

  /** Where the answer to a request number is sent. */
  function Requester(t: Table, id: nat): ID {
    if id in t.waits then t.waits[id].0 else NO_ID
  }

  // ----- the handler

  class IceMessagesHandler {
    var waitsForResponse: map<nat, (ID, ID)>
    var requestsTime: map<nat, int>
    var waitIds: nat

    ghost function Contents(): Table
      reads this
    {
      Table(waitsForResponse, requestsTime, waitIds)
    }

    ghost predicate Valid()
      reads this
    {
      WellKept(Contents())
    }

    constructor ()
      ensures Valid() && Contents() == Table(map[], map[], 0)
    {
      waitsForResponse, requestsTime, waitIds := map[], map[], 0;
    }

    method HandleRequest(from: ID, requested: ID, candidates: seq<byte>, now: int) returns (res: ResultMessage)
      requires Valid()
      modifies this
      ensures Valid() && Contents() == AfterRequest(old(Contents()), (from, requested), now)
      ensures res == RequestReply(old(Contents()), from, requested, candidates, now)
      ensures res.msg.ExistsOppositeRequest? ==> res.id == from && Contents() == old(Contents())
      ensures !res.msg.ExistsOppositeRequest? ==>
        && res.id == requested && res.msg.AuthorizeConnection? && res.msg.candidates == candidates
        && res.msg.from == from && res.msg.requestId in waitsForResponse
        && waitsForResponse[res.msg.requestId] == (from, requested)
    {
      var oppositeRequest := (requested, from);
      var sameRequest := (from, requested);
      var left := waitsForResponse.Keys;
      while left != {}
        invariant left <= waitsForResponse.Keys
        invariant forall id :: id in waitsForResponse.Keys - left ==> !Conflicts(Contents(), id, sameRequest, now)
        decreases |left|
      {
        var reqId :| reqId in left;
        left := left - {reqId};
        var requestIds := waitsForResponse[reqId];
        if (oppositeRequest == requestIds || sameRequest == requestIds)
           && WholeSeconds(now - requestsTime[reqId]) < 10
        {
          assert Conflicts(Contents(), reqId, sameRequest, now);
          return ResultMessage(from, ExistsOppositeRequest);
        }
      }
      res := ResultMessage(requested, AuthorizeConnection(candidates, waitIds, from));
      requestsTime := requestsTime[waitIds := now];
      waitsForResponse := waitsForResponse[waitIds := (from, requested)];
      waitIds := (waitIds + 1) % ID_COUNT;
    }

    /** Reads the requester through operator[], then erases the entry, made up or not. */
    method TakeRequester(requestId: nat) returns (id: ID)
      requires Valid()
      modifies this
      ensures Valid() && Contents() == AfterResponse(old(Contents()), requestId)
      ensures id == Requester(old(Contents()), requestId)
    {
      if requestId !in waitsForResponse {
        waitsForResponse := waitsForResponse[requestId := (NO_ID, NO_ID)];
      }
      id := waitsForResponse[requestId].0;
      waitsForResponse := waitsForResponse - {requestId};
      requestsTime := requestsTime - {requestId};
    }

    method HandleAuthorized(requestId: nat, candidates: seq<byte>) returns (res: ResultMessage)
      requires Valid()
      modifies this
      ensures Valid() && Contents() == AfterResponse(old(Contents()), requestId)
      ensures res == ResultMessage(Requester(old(Contents()), requestId), AuthorizedData(candidates))
    {
      var id := TakeRequester(requestId);
      res := ResultMessage(id, AuthorizedData(candidates));
    }

    method HandleAlreadyConnected(requestId: nat) returns (res: ResultMessage)
      requires Valid()
      modifies this
      ensures Valid() && Contents() == AfterResponse(old(Contents()), requestId)
      ensures res == ResultMessage(Requester(old(Contents()), requestId), UserAlreadyConnected)
    {
      var id := TakeRequester(requestId);
      res := ResultMessage(id, UserAlreadyConnected);
    }

    method HandleFullCapacity(requestId: nat) returns (res: ResultMessage)
      requires Valid()
      modifies this
      ensures Valid() && Contents() == AfterResponse(old(Contents()), requestId)
      ensures res == ResultMessage(Requester(old(Contents()), requestId), UserFullCapacity)
    {
      var id := TakeRequester(requestId);
      res := ResultMessage(id, UserFullCapacity);
    }
  }

  // ----- runs

  datatype Event = Request(from: ID, requested: ID, now: int) | Response(id: nat)

  function Step(t: Table, e: Event): (r: Table)
    requires WellKept(t)
    ensures WellKept(r)
  {
    match e
    case Request(from, requested, now) => AfterRequest(t, (from, requested), now)
    case Response(id) => AfterResponse(t, id)
  }

  function Run(t: Table, events: seq<Event>): (r: Table)
    requires WellKept(t)
    ensures WellKept(r)
  {
    if events == [] then t else Step(Run(t, events[..|events| - 1]), events[|events| - 1])
  }

  /** The clock never goes back, from `start` on. */
  predicate ClockRuns(events: seq<Event>, start: int) {
    && (forall i :: 0 <= i < |events| && events[i].Request? ==> start <= events[i].now)
    && (forall i, j :: 0 <= i < j < |events| && events[i].Request? && events[j].Request? ==> events[i].now <= events[j].now)
  }

  predicate TenSecondsApart(s: int, t: int) {
    s + 10 * NANOSECONDS <= t || t + 10 * NANOSECONDS <= s
  }

  /** No entry is younger than `now`, and entries of one pair are ten seconds apart. */
  predicate Spaced(t: Table, now: int)
    requires WellKept(t)
  {
    && (forall id :: id in t.waits ==> t.times[id] <= now)
    && (forall x, y :: x in t.waits && y in t.waits && x != y && SamePair(t.waits[x], t.waits[y])
          ==> TenSecondsApart(t.times[x], t.times[y]))
  }

  lemma NotRecent(time: int, now: int)
    ensures Recent(time, now) <==> now < time + 10 * NANOSECONDS
  {
  }

  lemma AcceptedIsSpaced(t: Table, pair: (ID, ID), now: int, id: nat)
    requires WellKept(t) && !Refused(t, pair, now) && id in t.waits && SamePair(pair, t.waits[id])
    ensures t.times[id] + 10 * NANOSECONDS <= now
  {
    hide Recent;
    assert !Conflicts(t, id, pair, now);
    NotRecent(t.times[id], now);
  }

  lemma SpacedAfterRequest(t: Table, pair: (ID, ID), now: int, before: int)
    requires WellKept(t) && Spaced(t, before) && before <= now
    ensures Spaced(AfterRequest(t, pair, now), now)
  {
    if !Refused(t, pair, now) {
      forall id | id in t.waits && SamePair(pair, t.waits[id])
        ensures TenSecondsApart(t.times[id], now)
      {
        AcceptedIsSpaced(t, pair, now, id);
      }
      hide Refused, TenSecondsApart;
      var r := AfterRequest(t, pair, now);
      forall x, y | x in r.waits && y in r.waits && x != y && SamePair(r.waits[x], r.waits[y])
        ensures TenSecondsApart(r.times[x], r.times[y])
      {
        ApartIsSymmetric(r.times[x], r.times[y]);
        if x == t.next {
          assert SamePair(pair, t.waits[y]);
        } else if y == t.next {
          assert SamePair(pair, t.waits[x]);
        } else {
          assert SamePair(t.waits[x], t.waits[y]);
        }
      }
    }
  }

  lemma ApartIsSymmetric(s: int, t: int)
    ensures TenSecondsApart(s, t) == TenSecondsApart(t, s)
  {
  }

  /** The latest time of a request, or `start`. */
  function LastTime(events: seq<Event>, start: int): int {
    if events == [] then start
    else match events[|events| - 1]
         case Request(_, _, now) => now
         case Response(_) => LastTime(events[..|events| - 1], start)
  }

  lemma {:induction false} LastTimeBounds(events: seq<Event>, start: int, now: int)
    requires ClockRuns(events, start) && start <= now
    requires forall i :: 0 <= i < |events| && events[i].Request? ==> events[i].now <= now
    ensures LastTime(events, start) <= now
  {
    if events != [] && events[|events| - 1].Response? {
      LastTimeBounds(events[..|events| - 1], start, now);
    }
  }

  /** In every run with a clock that does not go back, entries of one pair are ten seconds apart. */
  lemma {:induction false} SpacedRun(t: Table, events: seq<Event>, start: int)
    requires WellKept(t) && Spaced(t, start) && ClockRuns(events, start)
    ensures Spaced(Run(t, events), LastTime(events, start))
  {
    if events != [] {
      var front, e := events[..|events| - 1], events[|events| - 1];
      SpacedRun(t, front, start);
      match e {
        case Request(from, requested, now) =>
          LastTimeBounds(front, start, now);
          SpacedAfterRequest(Run(t, front), (from, requested), now, LastTime(front, start));
        case Response(id) =>
      }
    }
  }

  /** The number of requests a run accepts. */
  function Accepted(t: Table, events: seq<Event>): nat
    requires WellKept(t)
  {
    if events == [] then 0
    else
      var front, e := events[..|events| - 1], events[|events| - 1];
      Accepted(t, front) + if e.Request? && !Refused(Run(t, front), (e.from, e.requested), e.now) then 1 else 0
  }

  lemma RunStep(t: Table, events: seq<Event>)
    requires WellKept(t) && events != []
    ensures Run(t, events) == Step(Run(t, events[..|events| - 1]), events[|events| - 1])
  {
  }

  lemma {:induction false} NextIdAfter(t: Table, events: seq<Event>)
    requires WellKept(t)
    ensures Run(t, events).next == (t.next + Accepted(t, events)) % ID_COUNT
  {
    if events != [] {
      NextIdAfter(t, events[..|events| - 1]);
    }
  }

  lemma NextIdWraps(k: nat, accepted: nat)
    requires k < ID_COUNT && accepted < ID_COUNT
    ensures ((k + 1) % ID_COUNT + accepted) % ID_COUNT == k <==> accepted == ID_COUNT - 1
  {
  }

  /** Request number k is pending with its pair, or has been answered. */
  predicate PendingOrAnswered(t: Table, k: nat, pair: (ID, ID), answered: bool) {
    if answered then k !in t.waits else k in t.waits && t.waits[k] == pair
  }

  lemma PendingStep(t: Table, e: Event, k: nat, pair: (ID, ID), answered: bool)
    requires WellKept(t) && PendingOrAnswered(t, k, pair, answered)
    requires e.Request? && !Refused(t, (e.from, e.requested), e.now) ==> t.next != k
    ensures PendingOrAnswered(Step(t, e), k, pair, answered || e == Response(k))
  {
    hide Refused;
  }

  // ----- the reply and the table

  /** A request is refused exactly when one between the two is pending that is less than ten seconds old,
      in whichever direction; the requester is told and the table stays. */
  lemma RefusedExactly(t: Table, from: ID, requested: ID, candidates: seq<byte>, now: int)
    requires WellKept(t)
    ensures RequestReply(t, from, requested, candidates, now) == ResultMessage(from, ExistsOppositeRequest)
      <==> exists id :: id in t.waits && (t.waits[id] == (from, requested) || t.waits[id] == (requested, from))
             && now < t.times[id] + 10_000_000_000
    ensures RequestReply(t, from, requested, candidates, now).msg == ExistsOppositeRequest
      ==> AfterRequest(t, (from, requested), now) == t
  {
    forall id | id in t.waits
      ensures Conflicts(t, id, (from, requested), now)
        <==> (t.waits[id] == (from, requested) || t.waits[id] == (requested, from)) && now < t.times[id] + 10_000_000_000
    {
      NotRecent(t.times[id], now);
    }
  }

  /** Any other reply goes to the requested user and names the requester, his candidates, and the number
      under which the request is pending from then on: an answer to that number reaches the requester. */
  lemma ReplyNamesThePending(t: Table, from: ID, requested: ID, candidates: seq<byte>, now: int)
    requires WellKept(t)
    ensures var reply := RequestReply(t, from, requested, candidates, now);
      var after := AfterRequest(t, (from, requested), now);
      reply.msg != ExistsOppositeRequest ==>
        && reply.id == requested && reply.msg.AuthorizeConnection?
        && reply.msg.from == from && reply.msg.candidates == candidates
        && var id := reply.msg.requestId;
           && id in after.waits && after.waits[id] == (from, requested) && after.times[id] == now
           && Requester(after, id) == from
           && forall k :: k != id ==>
                && (k in after.waits <==> k in t.waits)
                && (k in t.waits ==> after.waits[k] == t.waits[k] && after.times[k] == t.times[k])
  {
    hide Refused;
  }

  /**
   * A request accepted under a number stays pending until its first answer and is gone from then on,
   * whatever else happens, as long as fewer than 65536 requests have been accepted since.
   */
  lemma {:induction false} PendingUntilAnswered(t: Table, pair: (ID, ID), now: int, events: seq<Event>)
    requires WellKept(t) && !Refused(t, pair, now)
    requires Accepted(AfterRequest(t, pair, now), events) < ID_COUNT
    ensures PendingOrAnswered(Run(AfterRequest(t, pair, now), events), t.next, pair, Response(t.next) in events)
  {
    var first := AfterRequest(t, pair, now);
    if events != [] {
      var front, e := events[..|events| - 1], events[|events| - 1];
      PendingUntilAnswered(t, pair, now, front);
      NextIdAfter(first, front);
      NextIdWraps(t.next, Accepted(first, front));
      RunStep(first, events);
      hide Refused, Run, PendingOrAnswered;
      PendingStep(Run(first, front), e, t.next, pair, Response(t.next) in front);
      assert events == front + [e];
    }
  }

  /** An accepted request is pending under the number in the message to the requested user. */
  lemma NumberInMessage(t: Table, from: ID, requested: ID, candidates: seq<byte>, now: int)
    requires WellKept(t) && RequestReply(t, from, requested, candidates, now).msg.AuthorizeConnection?
    ensures !Refused(t, (from, requested), now)
    ensures RequestReply(t, from, requested, candidates, now).msg.requestId == t.next
  {
    hide Refused;
  }

  /** The first answer to the number that the requested user was sent goes to the requester, every later one to nobody. */
  lemma AnsweredOnce(t: Table, from: ID, requested: ID, candidates: seq<byte>, now: int, events: seq<Event>)
    requires WellKept(t) && RequestReply(t, from, requested, candidates, now).msg.AuthorizeConnection?
    requires Accepted(AfterRequest(t, (from, requested), now), events) < ID_COUNT
    ensures var id := RequestReply(t, from, requested, candidates, now).msg.requestId;
      Requester(Run(AfterRequest(t, (from, requested), now), events), id)
        == if Response(id) in events then NO_ID else from
  {
    NumberInMessage(t, from, requested, candidates, now);
    PendingUntilAnswered(t, (from, requested), now, events);
  }

  /** With one more accepted request the same number is sent out again and the first requester is lost. */
  lemma NumberUsedAgain(t: Table, from: ID, requested: ID, candidates: seq<byte>, now: int, events: seq<Event>,
                        otherFrom: ID, otherRequested: ID, otherCandidates: seq<byte>, later: int)
    requires WellKept(t) && RequestReply(t, from, requested, candidates, now).msg.AuthorizeConnection?
    requires Accepted(AfterRequest(t, (from, requested), now), events) == ID_COUNT - 1
    requires RequestReply(Run(AfterRequest(t, (from, requested), now), events), otherFrom, otherRequested,
                          otherCandidates, later).msg.AuthorizeConnection?
    ensures var id := RequestReply(t, from, requested, candidates, now).msg.requestId;
      var s := Run(AfterRequest(t, (from, requested), now), events);
      && RequestReply(s, otherFrom, otherRequested, otherCandidates, later).msg.requestId == id
      && Requester(AfterRequest(s, (otherFrom, otherRequested), later), id) == otherFrom
  {
    hide Refused, Run, Accepted;
    var first := AfterRequest(t, (from, requested), now);
    NumberInMessage(t, from, requested, candidates, now);
    NumberInMessage(Run(first, events), otherFrom, otherRequested, otherCandidates, later);
    NextIdAfter(first, events);
    NextIdWraps(t.next, ID_COUNT - 1);
  }

  /** An answer to a number that is not pending changes nothing. */
  lemma UnknownIdChangesNothing(t: Table, id: nat)
    requires WellKept(t)
    ensures id !in t.waits <==> AfterResponse(t, id) == t
  {
    if id in t.waits {
      assert id !in AfterResponse(t, id).waits;
    } else {
      assert t.waits - {id} == t.waits;
      assert t.times - {id} == t.times;
    }
  }
}
