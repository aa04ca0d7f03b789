/**
 The page half of the bridge (mobile/src/bridge-script.ts) over one page's lifetime: requests that wait for a
 reply, watches, and the messages native sends in. Callbacks and promises are known by the ids the page gave them.
 */
module Page {
  import opened Text

  datatype Result = Resolved(value: string) | Rejected(error: string)

  const NO_BRIDGE := Rejected("NotSupportedError")

  /** From the page to native. */
  datatype Message = Hello | Ask(id: nat) | Watch(watchId: nat) | ClearWatch(watchId: nat)

  /** From native to the page: a reply or a position, for any id at all. */
  datatype Inbound = Reply(id: int, result: Result) | Position(watchId: int, ok: bool) | Other

  /** What the page's own code does, and what arrives; channelUp says whether the message channel is there. */
  datatype Event =
    | CallRequest(channelUp: bool)
    | CallWatch(channelUp: bool)
    | CallClear(watchId: int, channelUp: bool)
    | Receive(message: Inbound)

  /**
   The script's variables, then what it has done, in order: messages posted, promises settled and watches called back,
   with a position (true) or with an error, for the watch's failure callback if it has one.
   */
  datatype State = State(
    nextRequestId: nat, nextWatchId: nat, pending: set<nat>, watchers: set<nat>,
    posted: seq<Message>, settlements: seq<(nat, Result)>, called: seq<(nat, bool)>)

  const FRESH := State(1, 1, {}, {}, [], [], [])

  function Posted(s: State, m: Message, channelUp: bool): State {
    if channelUp then s.(posted := s.posted + [m]) else s
  }

  function Requested(s: State, channelUp: bool): State {
    var id := s.nextRequestId;
    var s' := s.(nextRequestId := id + 1);
    if channelUp then s'.(pending := s.pending + {id}, posted := s.posted + [Ask(id)])
    else s'.(settlements := s.settlements + [(id, NO_BRIDGE)])
  }

  function Watched(s: State, channelUp: bool): State {
    Posted(s.(nextWatchId := s.nextWatchId + 1, watchers := s.watchers + {s.nextWatchId}), Watch(s.nextWatchId),
        channelUp)
  }

  function Cleared(s: State, watchId: int, channelUp: bool): State {
    if watchId < 0 || watchId as nat !in s.watchers then s
    else Posted(s.(watchers := s.watchers - {watchId}), ClearWatch(watchId), channelUp)
  }

  function Received(s: State, m: Inbound): State {
    match m
    case Reply(id, result) =>
      if id < 0 || id as nat !in s.pending then s
      else s.(pending := s.pending - {id}, settlements := s.settlements + [(id, result)])
    case Position(id, ok) =>
      if id < 0 || id as nat !in s.watchers then s else s.(called := s.called + [(id, ok)])
    case Other => s
  }

  function Step(s: State, e: Event): State {
    match e
    case CallRequest(up) => Requested(s, up)
    case CallWatch(up) => Watched(s, up)
    case CallClear(id, up) => Cleared(s, id, up)
    case Receive(m) => Received(s, m)
  }

  /** The watch whose callback an event runs, and with what. */
  function CallsBack(s: State, e: Event): Option<(nat, bool)> {
    var called := Step(s, e).called;
    if |called| > |s.called| then Some(called[|s.called|]) else None
  }

  /** The script as it keeps its variables. */
  class Script {
    var nextRequestId: nat
    var nextWatchId: nat
    var pending: set<nat>
    var watchers: set<nat>
    var posted: seq<Message>
    var settlements: seq<(nat, Result)>
    var called: seq<(nat, bool)>

    ghost function Snapshot(): State
      reads this
    {
      State(nextRequestId, nextWatchId, pending, watchers, posted, settlements, called)
    }

    constructor ()
      ensures Snapshot() == FRESH
    {
      nextRequestId, nextWatchId, pending, watchers, posted, settlements, called := 1, 1, {}, {}, [], [], [];
    }

    method Post(m: Message, channelUp: bool) returns (sent: bool)
      modifies this
      ensures sent == channelUp && Snapshot() == Posted(old(Snapshot()), m, channelUp)
    {
      if !channelUp { return false; }
      posted := posted + [m];
      return true;
    }

    method Request(channelUp: bool) returns (id: nat)
      requires nextRequestId !in pending
      modifies this
      ensures id == old(nextRequestId) && Snapshot() == Requested(old(Snapshot()), channelUp)
    {
      id := nextRequestId;
      nextRequestId := nextRequestId + 1;
      pending := pending + {id};
      var sent := Post(Ask(id), channelUp);
      if !sent {
        pending := pending - {id};
        settlements := settlements + [(id, NO_BRIDGE)];
      }
    }

    method WatchPosition(channelUp: bool) returns (watchId: nat)
      modifies this
      ensures watchId == old(nextWatchId) && Snapshot() == Watched(old(Snapshot()), channelUp)
    {
      watchId := nextWatchId;
      nextWatchId := nextWatchId + 1;
      watchers := watchers + {watchId};
      var _ := Post(Watch(watchId), channelUp);
    }

    method ClearPosition(watchId: int, channelUp: bool)
      modifies this
      ensures Snapshot() == Cleared(old(Snapshot()), watchId, channelUp)
    {
      if watchId < 0 || watchId as nat !in watchers { return; }
      watchers := watchers - {watchId};
      var _ := Post(ClearWatch(watchId), channelUp);
    }

    method ReceiveMessage(m: Inbound)
      modifies this
      ensures Snapshot() == Received(old(Snapshot()), m)
    {
      match m {
        case Reply(id, result) =>
          if id < 0 || id as nat !in pending { return; }
          pending := pending - {id};
          settlements := settlements + [(id, result)];
        case Position(watchId, ok) =>
          if watchId < 0 || watchId as nat !in watchers { return; }
          called := called + [(watchId as nat, ok)];
        case Other =>
      }
    }
  }

  /* ---- a page's lifetime ---- */

  function Front(events: seq<Event>): seq<Event>
    requires |events| > 0
  {
    events[..|events| - 1]
  }

  function After(events: seq<Event>): State {
    if events == [] then FRESH else Step(After(Front(events)), events[|events| - 1])
  }

  lemma NoEvents()
    ensures After([]) == FRESH
  {
  }

  lemma AfterMore(events: seq<Event>, e: Event)
    ensures After(events + [e]) == Step(After(events), e)
  {
    assert Front(events + [e]) == events;
    hide Step;
  }

  lemma ReceiveIs(s: State, m: Inbound)
    ensures Step(s, Receive(m)) == Received(s, m)
  {
    hide Received;
  }

  lemma AfterOneMore(events: seq<Event>)
    requires events != []
    ensures After(events) == Step(After(Front(events)), events[|events| - 1])
  {
    hide Step;
  }

  /* ---- requests ---- */

  /** Event k answers a request already made: a reply with its id, or the missing channel at the moment of asking. */
  predicate IsAnswer(events: seq<Event>, k: nat, id: nat)
    requires k < |events|
  {
    match events[k]
    case CallRequest(up) => !up && After(events[..k]).nextRequestId == id
    case Receive(Reply(i, _)) => i == id && 1 <= id < After(events[..k]).nextRequestId
    case _ => false
  }

  ghost predicate FirstAnswer(events: seq<Event>, k: nat, id: nat) {
    k < |events| && IsAnswer(events, k, id) && forall j :: 0 <= j < k ==> !IsAnswer(events, j, id)
  }

  function ResultOf(e: Event): Result {
    if e.Receive? && e.message.Reply? then e.message.result else NO_BRIDGE
  }

  /** The position of the first answer, looked for from the end of the run. */
  function AnswerTo(events: seq<Event>, id: nat): (k: Option<nat>)
    ensures k.Some? ==> k.value < |events|
  {
    if events == [] then None
    else
      var before := AnswerTo(Front(events), id);
      if before.Some? then before
      else if IsAnswer(events, |events| - 1, id) then Some(|events| - 1)
      else None
  }

  lemma {:induction false} AnswerToIsFirst(events: seq<Event>, id: nat)
    ensures AnswerTo(events, id).Some? ==> FirstAnswer(events, AnswerTo(events, id).value, id)
    ensures AnswerTo(events, id).None? ==> forall k :: 0 <= k < |events| ==> !IsAnswer(events, k, id)
  {
    if events != [] {
      AnswerToIsFirst(Front(events), id);
      forall k | 0 <= k < |events| - 1 ensures IsAnswer(events, k, id) == IsAnswer(Front(events), k, id) {
        assert events[..k] == Front(events)[..k];
      }
    }
  }

  /**
   Pending are the requests made and not answered; settled are the answered ones, each once and with its first answer.
   */
  ghost predicate Matched(events: seq<Event>) {
    var s := After(events);
    && s.nextRequestId >= 1
    && (forall id: nat :: id in s.pending <==> 1 <= id < s.nextRequestId && AnswerTo(events, id).None?)
    && (forall id: nat :: AnswerTo(events, id).Some? ==> 1 <= id < s.nextRequestId)
    && (forall id: nat, r: Result :: (id, r) in s.settlements <==>
          AnswerTo(events, id).Some? && r == ResultOf(events[AnswerTo(events, id).value]))
    && (forall i, j :: 0 <= i < j < |s.settlements| ==> s.settlements[i].0 != s.settlements[j].0)
  }

  /** What an event does to the requests. */
  lemma StepSettles(s: State, e: Event)
    ensures Step(s, e).settlements == s.settlements +
              match e
              case CallRequest(up) => if up then [] else [(s.nextRequestId, NO_BRIDGE)]
              case Receive(Reply(id, result)) => if id >= 0 && id as nat in s.pending then [(id as nat, result)] else []
              case _ => []
  {
    assert s.settlements + [] == s.settlements;
  }

  lemma SettledByLast(events: seq<Event>, id: nat, r: Result)
    requires events != [] && Matched(Front(events))
    ensures (id, r) in After(events).settlements <==>
              AnswerTo(events, id).Some? && r == ResultOf(events[AnswerTo(events, id).value])
  {
    var front, e := Front(events), events[|events| - 1];
    assert events[..|front|] == front;
    var s, s' := After(front), After(events);
    StepSettles(s, e);
    hide Step;
    if AnswerTo(front, id).Some? {
      assert front[AnswerTo(front, id).value] == events[AnswerTo(front, id).value];
    }
    if IsAnswer(events, |front|, id) && AnswerTo(front, id).None? {
      assert s'.settlements == s.settlements + [(id, ResultOf(e))];
    } else if s'.settlements != s.settlements {
      var other := s'.settlements[|s.settlements|];
      assert s'.settlements == s.settlements + [other] && other.0 != id;
    }
  }

  /** What an event does to the requests that wait. */
  lemma StepPends(s: State, e: Event)
    ensures Step(s, e).nextRequestId == s.nextRequestId + (if e.CallRequest? then 1 else 0)
    ensures Step(s, e).pending ==
              match e
              case CallRequest(up) => if up then s.pending + {s.nextRequestId} else s.pending
              case Receive(Reply(id, _)) => if id >= 0 then s.pending - {id as nat} else s.pending
              case _ => s.pending
  {
  }

  /** Whether an event answers a request in this state. */
  predicate AnswersNow(s: State, e: Event, id: nat) {
    match e
    case CallRequest(up) => !up && s.nextRequestId == id
    case Receive(Reply(i, _)) => i == id && 1 <= id < s.nextRequestId
    case _ => false
  }

  lemma AnswerMore(events: seq<Event>, id: nat)
    requires events != []
    ensures var front, e := Front(events), events[|events| - 1];
            AnswerTo(events, id) ==
              if AnswerTo(front, id).Some? then AnswerTo(front, id)
              else if AnswersNow(After(front), e, id) then Some(|front|) else None
  {
    assert events[..|events| - 1] == Front(events);
    hide After;
  }

  lemma PendingByLast(events: seq<Event>, id: nat)
    requires events != [] && Matched(Front(events))
    ensures var s := After(events);
            && (id in s.pending <==> 1 <= id < s.nextRequestId && AnswerTo(events, id).None?)
            && (AnswerTo(events, id).Some? ==> 1 <= id < s.nextRequestId)
  {
    hide Step, After, AnswerTo;
    var front, e := Front(events), events[|events| - 1];
    AnswerMore(events, id);
    AfterOneMore(events);
    StepPends(After(front), e);
  }

  lemma SettledOnce(events: seq<Event>)
    requires events != [] && Matched(Front(events))
    ensures var s := After(events).settlements; forall i, j :: 0 <= i < j < |s| ==> s[i].0 != s[j].0
  {
    hide Step, After;
    var front, e := Front(events), events[|events| - 1];
    AfterOneMore(events);
    StepSettles(After(front), e);
    var s, s' := After(front), After(events);
    if s'.settlements != s.settlements {
      var (id, r) := s'.settlements[|s.settlements|];
      assert s'.settlements == s.settlements + [(id, r)];
      assert AnswerTo(front, id).None?;
      forall i | 0 <= i < |s.settlements| ensures s.settlements[i].0 != id {
        assert (s.settlements[i].0, s.settlements[i].1) in s.settlements;
      }
    }
  }

  lemma {:induction false} AlwaysMatched(events: seq<Event>)
    ensures Matched(events)
  {
    if events != [] {
      AlwaysMatched(Front(events));
      SettledOnce(events);
      AfterOneMore(events);
      StepPends(After(Front(events)), events[|events| - 1]);
      forall id: nat
        ensures id in After(events).pending <==>
                  1 <= id < After(events).nextRequestId && AnswerTo(events, id).None?
        ensures AnswerTo(events, id).Some? ==> 1 <= id < After(events).nextRequestId
      {
        PendingByLast(events, id);
      }
      forall id: nat, r: Result
        ensures (id, r) in After(events).settlements <==>
                  AnswerTo(events, id).Some? && r == ResultOf(events[AnswerTo(events, id).value])
      {
        SettledByLast(events, id, r);
      }
      hide Step, After, AnswerTo, ResultOf;
    }
  }

  /**
   Every request settles at most once, with the first reply to its own id, under any replies; until then it is
   pending.
   */
  lemma RequestsMatch(events: seq<Event>, id: nat)
    ensures var s := After(events);
            && (id in s.pending <==> 1 <= id < s.nextRequestId && forall k :: 0 <= k < |events| ==>
               !IsAnswer(events, k, id))
            && (forall r :: (id, r) in s.settlements <==>
               exists k: nat :: FirstAnswer(events, k, id) && r == ResultOf(events[k]))
            && (forall i, j :: 0 <= i < j < |s.settlements| ==> s.settlements[i].0 != s.settlements[j].0)
  {
    AlwaysMatched(events);
    AnswerToIsFirst(events, id);
    if AnswerTo(events, id).Some? {
      var k := AnswerTo(events, id).value;
      assert forall j: nat :: FirstAnswer(events, j, id) ==> j == k;
    }
  }

  /* ---- watches ---- */

  predicate Issues(events: seq<Event>, i: nat, id: nat)
    requires i < |events|
  {
    events[i].CallWatch? && After(events[..i]).nextWatchId == id
  }

  predicate Clears(e: Event, id: nat) {
    e.CallClear? && e.watchId == id
  }

  ghost predicate Live(events: seq<Event>, id: nat) {
    exists i :: 0 <= i < |events| && Issues(events, i, id) && forall j :: i < j < |events| ==> !Clears(events[j], id)
  }

  lemma {:induction false} WatchIdsGrow(events: seq<Event>, n: nat)
    requires n <= |events|
    ensures After(events[..n]).nextWatchId <= After(events).nextWatchId
    ensures forall id :: id in After(events).watchers ==> id < After(events).nextWatchId
  {
    if n == |events| {
      assert events[..n] == events;
    }
    if events != [] {
      if n < |events| {
        assert Front(events)[..n] == events[..n];
        WatchIdsGrow(Front(events), n);
      } else {
        WatchIdsGrow(Front(events), n - 1);
      }
    }
  }

  lemma LiveOneMore(events: seq<Event>, id: nat)
    requires events != []
    ensures var front, e := Front(events), events[|events| - 1];
            Live(events, id) <==> Issues(events, |front|, id) || (Live(front, id) && !Clears(e, id))
  {
    var front, e := Front(events), events[|events| - 1];
    assert events[..|front|] == front;
    hide After, Clears;
    if Live(front, id) && !Clears(e, id) {
      var i :| 0 <= i < |front| && Issues(front, i, id) && forall j :: i < j < |front| ==> !Clears(front[j], id);
      assert front[..i] == events[..i];
      assert Issues(events, i, id);
    }
    if Live(events, id) && !Issues(events, |front|, id) {
      var i :| 0 <= i < |events| && Issues(events, i, id) && forall j :: i < j < |events| ==> !Clears(events[j], id);
      assert front[..i] == events[..i];
      assert Issues(front, i, id);
    }
  }

  /** A watch's callbacks run exactly while it has been started and not cleared since. */
  lemma {:induction false} WatchersAreLive(events: seq<Event>, id: nat)
    ensures id in After(events).watchers <==> Live(events, id)
  {
    if events != [] {
      var front := Front(events);
      WatchersAreLive(front, id);
      LiveOneMore(events, id);
      assert events[..|front|] == front;
      hide Live;
    }
  }

  lemma {:induction false} StaysCleared(events: seq<Event>, i: nat, n: nat, id: nat)
    requires i < n <= |events| && Clears(events[i], id) && id < After(events[..i]).nextWatchId
    ensures id !in After(events[..n]).watchers && id < After(events[..n]).nextWatchId
    decreases n
  {
    assert Front(events[..n]) == events[..n - 1];
    if n > i + 1 {
      StaysCleared(events, i, n - 1, id);
    }
  }

  /** No callback of a watch runs after it was cleared, when the id had been given out by then. */
  lemma NoCallbackAfterClear(events: seq<Event>, i: nat, j: nat, id: nat)
    requires i < j < |events| && Clears(events[i], id) && id < After(events[..i]).nextWatchId
    ensures CallsBack(After(events[..j]), events[j]) !in {Some((id, true)), Some((id, false))}
  {
    StaysCleared(events, i, j, id);
  }

  /** Clearing an id that has not been given out yet does nothing: the watch that gets it later does call back. */
  lemma EarlyClearIsLost()
    ensures var events := [CallClear(1, true), CallWatch(true), Receive(Position(1, true))];
            Clears(events[0], 1) && After(events[..0]).nextWatchId == 1
                && CallsBack(After(events[..2]), events[2]) == Some((1, true))
  {
    var events := [CallClear(1, true), CallWatch(true), Receive(Position(1, true))];
    assert events[..2] == [CallClear(1, true), CallWatch(true)];
    assert Front(events[..2]) == [CallClear(1, true)];
    assert Front([CallClear(1, true)]) == [];
  }

  /* ---- all that a page does ---- */

  function Requests(events: seq<Event>): nat {
    if events == [] then 0 else Requests(Front(events)) + (if events[|events| - 1].CallRequest? then 1 else 0)
  }

  function Watches(events: seq<Event>): nat {
    if events == [] then 0 else Watches(Front(events)) + (if events[|events| - 1].CallWatch? then 1 else 0)
  }

  /** Ids are given out in order, from 1 on. */
  lemma {:induction false} IdsInOrder(events: seq<Event>)
    ensures After(events).nextRequestId == 1 + Requests(events)
    ensures After(events).nextWatchId == 1 + Watches(events)
  {
    if events != [] {
      IdsInOrder(Front(events));
    }
  }

  /** What an event posts, as long as there is a channel. */
  ghost function Posts(events: seq<Event>, e: Event): seq<Message> {
    match e
    case CallRequest(up) => if up then [Ask(1 + Requests(events))] else []
    case CallWatch(up) => if up then [Watch(1 + Watches(events))] else []
    case CallClear(id, up) => if up && id >= 0 && Live(events, id) then [ClearWatch(id)] else []
    case Receive(_) => []
  }

  /** The callback an event runs: a position or an error for a watch that is live. */
  ghost function Calls(events: seq<Event>, e: Event): seq<(nat, bool)> {
    if e.Receive? && e.message.Position? && e.message.watchId >= 0 && Live(events, e.message.watchId)
    then [(e.message.watchId as nat, e.message.ok)] else []
  }

  /** Exactly these messages go out and exactly these callbacks run, in every run. */
  lemma DoneExactly(events: seq<Event>)
    requires events != []
    ensures var front, e := Front(events), events[|events| - 1];
            && After(events).posted == After(front).posted + Posts(front, e)
            && After(events).called == After(front).called + Calls(front, e)
  {
    hide After, Live, Requests, Watches, Step, StepPosts, StepCalls, Posts, Calls;
    var front, e := Front(events), events[|events| - 1];
    AfterOneMore(events);
    StepDoes(After(front), e);
    SamePosts(front, e);
    SameCalls(front, e);
  }

  lemma SamePosts(events: seq<Event>, e: Event)
    ensures StepPosts(After(events), e) == Posts(events, e)
  {
    hide After, Live, Requests, Watches;
    IdsInOrder(events);
    if e.CallClear? && e.watchId >= 0 {
      WatchersAreLive(events, e.watchId);
    }
  }

  lemma SameCalls(events: seq<Event>, e: Event)
    ensures StepCalls(After(events), e) == Calls(events, e)
  {
    hide After, Live;
    if e.Receive? && e.message.Position? && e.message.watchId >= 0 {
      WatchersAreLive(events, e.message.watchId);
    }
  }

  /** What one step posts and calls back, by the script's variables. */
  function StepPosts(s: State, e: Event): seq<Message> {
    match e
    case CallRequest(up) => if up then [Ask(s.nextRequestId)] else []
    case CallWatch(up) => if up then [Watch(s.nextWatchId)] else []
    case CallClear(id, up) => if up && id >= 0 && id as nat in s.watchers then [ClearWatch(id)] else []
    case Receive(_) => []
  }

  function StepCalls(s: State, e: Event): seq<(nat, bool)> {
    if e.Receive? && e.message.Position? && e.message.watchId >= 0 && e.message.watchId as nat in s.watchers
    then [(e.message.watchId as nat, e.message.ok)] else []
  }

  lemma StepDoes(s: State, e: Event)
    ensures Step(s, e).posted == s.posted + StepPosts(s, e)
    ensures Step(s, e).called == s.called + StepCalls(s, e)
  {
    assert s.posted + [] == s.posted && s.called + [] == s.called;
  }
}
