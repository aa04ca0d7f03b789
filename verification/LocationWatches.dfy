/**
 The native half's location watches (class LocationWatches of mobile/src/bridge.ts). Starting a watch stores a
 promise under the page's watch id and returns; the promise settles later, with a device subscription or with
 null, and whatever stop() chained on it runs after that. Each promise is a numbered ticket here, and settling,
 running a chained removal and a callback from the device are events that come in any order.
 */
module LocationWatches {

  datatype Phase = Pending | Subscribed | Failed

  /** A promise: the id it was started for, how it settled, and how many removals were chained on it and have run. */
  datatype Ticket = Ticket(watchId: int, phase: Phase, scheduled: nat, ran: nat)

  /** A position or an error sent to the page for a watch id. */
  datatype Sent = Sent(watchId: int, ok: bool)

  datatype State = State(subscriptions: map<int, nat>, tickets: seq<Ticket>, sent: seq<Sent>)

  const NONE := State(map[], [], [])

  datatype Event =
    | Start(watchId: int)
    | Stop(watchId: int)
    | StopAll
    | Settle(ticket: nat, granted: bool)
    | RunRemoval(ticket: nat)
    | Callback(ticket: nat, ok: bool)

  /* ---- what each call and callback does ---- */

  predicate Holds(s: State, n: nat)
    requires n < |s.tickets|
  {
    s.tickets[n].watchId in s.subscriptions && s.subscriptions[s.tickets[n].watchId] == n
  }

  function Started(s: State, watchId: int): State {
    if watchId in s.subscriptions then s
    else s.(subscriptions := s.subscriptions[watchId := |s.tickets|],
        tickets := s.tickets + [Ticket(watchId, Pending, 0, 0)])
  }

  function Scheduled(t: Ticket): Ticket {
    t.(scheduled := t.scheduled + 1)
  }

  function Stopped(s: State, watchId: int): State {
    if watchId !in s.subscriptions || s.subscriptions[watchId] >= |s.tickets|
        then s.(subscriptions := s.subscriptions - {watchId})
    else
      var n := s.subscriptions[watchId];
      s.(subscriptions := s.subscriptions - {watchId}, tickets := s.tickets[n := Scheduled(s.tickets[n])])
  }

  function AllStopped(s: State): State {
    State(map[], seq(|s.tickets|, n requires 0 <= n < |s.tickets| => if Holds(s, n) then Scheduled(s.tickets[n])
        else s.tickets[n]), s.sent)
  }

  function Notified(s: State, watchId: int, ok: bool): State {
    if watchId in s.subscriptions then s.(sent := s.sent + [Sent(watchId, ok)]) else s
  }

  predicate Enabled(s: State, e: Event) {
    match e
    case Settle(n, _) => n < |s.tickets| && s.tickets[n].phase == Pending
    case RunRemoval(n) => n < |s.tickets| && s.tickets[n].phase != Pending && s.tickets[n].ran < s.tickets[n].scheduled
    case Callback(n, _) => n < |s.tickets|
    case _ => true
  }

  function Step(s: State, e: Event): State
    requires Enabled(s, e)
  {
    match e
    case Start(id) => Started(s, id)
    case Stop(id) => Stopped(s, id)
    case StopAll => AllStopped(s)
    case Settle(n, true) => s.(tickets := s.tickets[n := s.tickets[n].(phase := Subscribed)])
    case Settle(n, false) => Notified(s.(tickets := s.tickets[n := s.tickets[n].(phase := Failed)]),
        s.tickets[n].watchId, false)
    case RunRemoval(n) => s.(tickets := s.tickets[n := s.tickets[n].(ran := s.tickets[n].ran + 1)])
    case Callback(n, ok) => Notified(s, s.tickets[n].watchId, ok)
  }

  /* ---- what every step keeps ---- */

  /**
   A subscription is held under its id and has no removal, or is not held and has exactly one, run once at the most.
   */
  ghost predicate TicketOk(s: State, n: nat)
    requires n < |s.tickets|
  {
    var t := s.tickets[n];
    && t.scheduled == (if Holds(s, n) then 0 else 1)
    && t.ran <= t.scheduled
    && (t.ran > 0 ==> t.phase != Pending)
  }

  ghost predicate Inv(s: State) {
    && (forall id :: id in s.subscriptions ==>
       s.subscriptions[id] < |s.tickets| && s.tickets[s.subscriptions[id]].watchId == id)
    && (forall n :: 0 <= n < |s.tickets| ==> TicketOk(s, n))
  }

  lemma StepInv(s: State, e: Event)
    requires Inv(s) && Enabled(s, e)
    ensures Inv(Step(s, e))
  {
    var s' := Step(s, e);
    forall n | 0 <= n < |s'.tickets| ensures TicketOk(s', n) {
      if n < |s.tickets| {
        assert TicketOk(s, n);
      }
    }
  }

  /** What is sent is sent for an id the map holds. */
  lemma SentIsHeld(s: State, e: Event)
    requires Enabled(s, e) && Step(s, e).sent != s.sent
    ensures exists m: Sent ::
              Step(s, e).sent == s.sent + [m] && m.watchId in s.subscriptions && m.watchId in Step(s, e).subscriptions
  {
    var m := Step(s, e).sent[|Step(s, e).sent| - 1];
    assert Step(s, e).sent == s.sent + [m];
  }

  /* ---- runs ---- */

  predicate IsRun(s: State, events: seq<Event>)
    decreases |events|
  {
    events == [] || (Enabled(s, events[0]) && IsRun(Step(s, events[0]), events[1..]))
  }

  function Run(s: State, events: seq<Event>): State
    requires IsRun(s, events)
    decreases |events|
  {
    if events == [] then s else Run(Step(s, events[0]), events[1..])
  }

  lemma {:induction false} RunInv(s: State, events: seq<Event>)
    requires Inv(s) && IsRun(s, events)
    ensures Inv(Run(s, events))
    decreases |events|
  {
    if events != [] {
      StepInv(s, events[0]);
      RunInv(Step(s, events[0]), events[1..]);
    }
  }

  /** The device is reporting positions for this ticket. */
  predicate Active(t: Ticket) {
    t.phase == Subscribed && t.ran == 0
  }

  /** Every promise has settled and every chained removal has run. */
  predicate Quiet(s: State) {
    forall n :: 0 <= n < |s.tickets| ==> s.tickets[n].phase != Pending && s.tickets[n].ran == s.tickets[n].scheduled
  }

  /** Once everything has settled, the subscriptions still on are exactly the granted ones the map holds. */
  lemma ActiveAreHeld(s: State, n: nat)
    requires Inv(s) && Quiet(s) && n < |s.tickets|
    ensures Active(s.tickets[n]) <==> Holds(s, n) && s.tickets[n].phase == Subscribed
  {
    assert TicketOk(s, n);
  }

  /**
   In every interleaving, each subscription ever asked for is held and has no removal, or is not held and has exactly
   one, run at most once; when all has settled, the ones still on are exactly the granted ones that are held.
   */
  lemma NoLeak(events: seq<Event>, n: nat)
    requires IsRun(NONE, events) && n < |Run(NONE, events).tickets|
    ensures var s := Run(NONE, events);
            var t := s.tickets[n];
            && t.scheduled == (if Holds(s, n) then 0 else 1) && t.ran <= 1
            && (Quiet(s) ==> (Active(t) <==> Holds(s, n) && t.phase == Subscribed))
  {
    RunInv(NONE, events);
    var s := Run(NONE, events);
    assert TicketOk(s, n);
    if Quiet(s) {
      ActiveAreHeld(s, n);
    }
  }

  /* ---- runs by their events ---- */

  /** A run continued by one event. */
  lemma {:induction false} RunMore(s: State, events: seq<Event>, e: Event)
    ensures IsRun(s, events + [e]) <==> IsRun(s, events) && Enabled(Run(s, events), e)
    ensures IsRun(s, events + [e]) ==> Run(s, events + [e]) == Step(Run(s, events), e)
    decreases |events|
  {
    if events == [] {
      assert [e][1..] == [] && events + [e] == [e];
    } else {
      assert (events + [e])[1..] == events[1..] + [e];
      if Enabled(s, events[0]) {
        RunMore(Step(s, events[0]), events[1..], e);
      }
    }
  }

  lemma RunFront(events: seq<Event>)
    requires events != [] && IsRun(NONE, events)
    ensures var front, e := events[..|events| - 1], events[|events| - 1];
            IsRun(NONE, front) && Enabled(Run(NONE, front), e) && Run(NONE, events) == Step(Run(NONE, front), e)
  {
    var front, e := events[..|events| - 1], events[|events| - 1];
    assert events == front + [e];
    RunMore(NONE, front, e);
  }

  predicate Ends(e: Event, watchId: int) {
    e == Stop(watchId) || e == StopAll
  }

  /** The watch was started and not stopped since. */
  ghost predicate HeldBy(events: seq<Event>, watchId: int) {
    exists i :: 0 <= i < |events| && events[i] == Start(watchId) && forall j :: i < j < |events| ==>
        !Ends(events[j], watchId)
  }

  lemma HeldOneMore(events: seq<Event>, watchId: int)
    requires events != []
    ensures var front, e := events[..|events| - 1], events[|events| - 1];
            HeldBy(events, watchId) <==> e == Start(watchId) || (HeldBy(front, watchId) && !Ends(e, watchId))
  {
    var front, e := events[..|events| - 1], events[|events| - 1];
    if HeldBy(front, watchId) && !Ends(e, watchId) {
      var i :| 0 <= i < |front| && front[i] == Start(watchId)
               && forall j :: i < j < |front| ==> !Ends(front[j], watchId);
      assert events[i] == Start(watchId);
    }
    if HeldBy(events, watchId) && e != Start(watchId) {
      var i :| 0 <= i < |events| && events[i] == Start(watchId)
               && forall j :: i < j < |events| ==> !Ends(events[j], watchId);
      assert front[i] == Start(watchId);
    }
    if e == Start(watchId) {
      assert events[|front|] == Start(watchId);
    }
  }

  /** The map holds a watch exactly when it was started and not stopped since. */
  lemma {:induction false} HeldExactly(events: seq<Event>, watchId: int)
    requires IsRun(NONE, events)
    ensures watchId in Run(NONE, events).subscriptions <==> HeldBy(events, watchId)
    decreases |events|
  {
    if events != [] {
      RunFront(events);
      HeldExactly(events[..|events| - 1], watchId);
      HeldOneMore(events, watchId);
      hide HeldBy;
    }
  }

  /** What an event sends: a device callback or a refusal, passed on for a watch that is held. */
  ghost function Sends(events: seq<Event>, e: Event): seq<Sent>
    requires IsRun(NONE, events) && Enabled(Run(NONE, events), e)
  {
    match e
    case Callback(n, ok) =>
      var id := Run(NONE, events).tickets[n].watchId;
      if HeldBy(events, id) then [Sent(id, ok)] else []
    case Settle(n, granted) =>
      var id := Run(NONE, events).tickets[n].watchId;
      if !granted && HeldBy(events, id) then [Sent(id, false)] else []
    case _ => []
  }

  /** Exactly that is sent, in this order, in every run. */
  lemma SentExactly(events: seq<Event>)
    requires events != [] && IsRun(NONE, events)
    ensures var front, e := events[..|events| - 1], events[|events| - 1];
            && IsRun(NONE, front) && Enabled(Run(NONE, front), e)
            && Run(NONE, events).sent == Run(NONE, front).sent + Sends(front, e)
  {
    var front, e := events[..|events| - 1], events[|events| - 1];
    RunFront(events);
    var s := Run(NONE, front);
    if e.Callback? || e.Settle? {
      HeldExactly(front, s.tickets[e.ticket].watchId);
    }
  }

  /** The tickets one event leaves: a new one for a watch that starts and is not held, and otherwise the same. */
  ghost predicate TicketsFrom(s: State, s': State, e: Event, held: bool) {
    if e.Start? && !held then
      && s'.tickets == s.tickets + [Ticket(e.watchId, Pending, 0, 0)]
      && e.watchId in s'.subscriptions && s'.subscriptions[e.watchId] == |s.tickets|
    else
      && |s'.tickets| == |s.tickets|
      && forall n :: 0 <= n < |s.tickets| ==> s'.tickets[n].watchId == s.tickets[n].watchId
  }

  lemma TicketsMade(events: seq<Event>)
    requires events != [] && IsRun(NONE, events)
    ensures var front, e := events[..|events| - 1], events[|events| - 1];
            && IsRun(NONE, front)
            && TicketsFrom(Run(NONE, front), Run(NONE, events), e, e.Start? && HeldBy(front, e.watchId))
  {
    RunFront(events);
    var front, e := events[..|events| - 1], events[|events| - 1];
    if e.Start? {
      HeldExactly(front, e.watchId);
    }
  }

  /** How a promise settled, and whether its removal has run, by the events. */
  lemma {:induction false} TicketExactly(events: seq<Event>, n: nat)
    requires IsRun(NONE, events) && n < |Run(NONE, events).tickets|
    ensures var t := Run(NONE, events).tickets[n];
            && (t.phase == Subscribed <==> Settle(n, true) in events)
            && (t.phase == Failed <==> Settle(n, false) in events)
            && (t.ran > 0 <==> RunRemoval(n) in events)
    decreases |events|
  {
    if events != [] {
      var front, e := events[..|events| - 1], events[|events| - 1];
      RunFront(events);
      TicketsMade(events);
      assert events == front + [e];
      assert forall x :: x in events <==> x in front || x == e;
      var s := Run(NONE, front);
      if n < |s.tickets| {
        TicketExactly(front, n);
      } else {
        NotYet(front, n);
      }
      hide Run, IsRun, HeldBy;
    }
  }

  lemma {:induction false} NotYet(events: seq<Event>, n: nat)
    requires IsRun(NONE, events) && n >= |Run(NONE, events).tickets|
    ensures forall e :: e in events ==> !(e.Settle? && e.ticket == n) && e != RunRemoval(n)
    decreases |events|
  {
    if events != [] {
      var front, e := events[..|events| - 1], events[|events| - 1];
      RunFront(events);
      TicketsMade(events);
      assert events == front + [e];
      NotYet(front, n);
    }
  }

  /* ---- the class ---- */

  lemma SomeKey(keys: set<int>)
    requires keys != {}
    ensures exists id :: id in keys
  {
    if forall id :: id !in keys {
      assert false;
    }
  }

  class Watches {
    var subscriptions: map<int, nat>
    var tickets: seq<Ticket>
    var sent: seq<Sent>

    ghost function Snapshot(): State
      reads this
    {
      State(subscriptions, tickets, sent)
    }

    constructor ()
      ensures Snapshot() == NONE
    {
      subscriptions, tickets, sent := map[], [], [];
    }

    method StartWatch(watchId: int)
      modifies this
      ensures Snapshot() == Started(old(Snapshot()), watchId)
    {
      if watchId in subscriptions { return; }
      tickets := tickets + [Ticket(watchId, Pending, 0, 0)];
      subscriptions := subscriptions[watchId := |tickets| - 1];
    }

    method StopWatch(watchId: int)
      modifies this
      ensures Snapshot() == Stopped(old(Snapshot()), watchId)
    {
      if watchId in subscriptions && subscriptions[watchId] < |tickets| {
        var n := subscriptions[watchId];
        tickets := tickets[n := Scheduled(tickets[n])];
      }
      subscriptions := subscriptions - {watchId};
    }

    method StopEvery()
      requires Inv(Snapshot())
      modifies this
      ensures Snapshot() == AllStopped(old(Snapshot()))
    {
      ghost var before := Snapshot();
      var keys := subscriptions.Keys;
      while keys != {}
        invariant keys == subscriptions.Keys
        invariant sent == before.sent && |tickets| == |before.tickets|
        invariant forall id :: id in subscriptions ==>
                  id in before.subscriptions && subscriptions[id] == before.subscriptions[id]
        invariant forall n :: 0 <= n < |tickets| ==>
                    tickets[n] == if Holds(before, n) && before.tickets[n].watchId !in keys
                        then Scheduled(before.tickets[n]) else before.tickets[n]
        decreases keys
      {
        SomeKey(keys);
        var watchId :| watchId in keys;
        StopWatch(watchId);
        keys := keys - {watchId};
      }
      assert subscriptions == map[];
      assert tickets == AllStopped(before).tickets;
    }

    method PromiseSettled(n: nat, granted: bool)
      requires n < |tickets| && tickets[n].phase == Pending
      modifies this
      ensures Snapshot() == Step(old(Snapshot()), Settle(n, granted))
    {
      tickets := tickets[n := tickets[n].(phase := if granted then Subscribed else Failed)];
      if !granted && tickets[n].watchId in subscriptions {
        sent := sent + [Sent(tickets[n].watchId, false)];
      }
    }

    method FromDevice(n: nat, ok: bool)
      requires n < |tickets|
      modifies this
      ensures Snapshot() == Step(old(Snapshot()), Callback(n, ok))
    {
      if tickets[n].watchId in subscriptions {
        sent := sent + [Sent(tickets[n].watchId, ok)];
      }
    }
  }
}
