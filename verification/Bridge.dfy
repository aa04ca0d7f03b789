/**
 The two halves of the bridge joined by a first-in first-out channel each way, with page loads that start the page
 half afresh (mobile/src/bridge-script.ts, mobile/src/bridge.ts and the dispatcher in mobile/src/App.tsx).
 The message channel is there when a page installs its half; later calls may find none, and the dispatcher's token and
 origin checks may turn a message away.
 */
module Bridge {
  import P = Page
  import W = LocationWatches

  /** bridged: the page shown is one of the site's own, so the script installed itself on it. */
  datatype State = State(bridged: bool, page: P.State, toNative: seq<P.Message>, native: W.State,
      toPage: seq<P.Inbound>)

  /** The app before its first page. */
  const LAUNCHED := State(false, P.FRESH, [], W.NONE, [])

  datatype Event =
    | Load(ownPage: bool)
    | PageCalls(call: P.Event)
    | NativeReceives(accepted: bool)
    | NativeContinues(event: W.Event)
    | NativeReplies(id: int, result: P.Result)
    | PageReceives

  /* ---- steps ---- */

  /** What the dispatcher does with a message; requests are answered later, or never. */
  function Dispatched(native: W.State, m: P.Message): W.State {
    match m
    case Hello => W.AllStopped(native)
    case Watch(id) => W.Started(native, id)
    case ClearWatch(id) => W.Stopped(native, id)
    case Ask(_) => native
  }

  /** The script installs itself on a page of the site and says hello; on any other page it does nothing. */
  function Loaded(s: State, ownPage: bool): State {
    if ownPage then s.(bridged := true, page := P.FRESH, toNative := s.toNative + [P.Hello]) else s.(bridged := false)
  }

  /** What a log has gained. */
  function Gained<T(==)>(before: seq<T>, after: seq<T>): seq<T> {
    if before <= after then after[|before|..] else []
  }

  function Called(s: State, call: P.Event): State {
    var page := P.Step(s.page, call);
    s.(page := page, toNative := s.toNative + Gained(s.page.posted, page.posted))
  }

  function Positions(sent: seq<W.Sent>): seq<P.Inbound> {
    seq(|sent|, i requires 0 <= i < |sent| => P.Position(sent[i].watchId, sent[i].ok))
  }

  function Continued(s: State, e: W.Event): State
    requires W.Enabled(s.native, e)
  {
    var native := W.Step(s.native, e);
    s.(native := native, toPage := s.toPage + Positions(Gained(s.native.sent, native.sent)))
  }

  predicate Enabled(s: State, e: Event) {
    match e
    case PageCalls(call) => s.bridged && !call.Receive?
    case NativeReceives(_) => s.toNative != []
    case NativeContinues(event) => (event.Settle? || event.RunRemoval? || event.Callback?) && W.Enabled(s.native, event)
    case PageReceives => s.toPage != []
    case _ => true
  }

  function Step(s: State, e: Event): State
    requires Enabled(s, e)
  {
    match e
    case Load(own) => Loaded(s, own)
    case PageCalls(call) => Called(s, call)
    case NativeReceives(accepted) =>
      s.(native := if accepted then Dispatched(s.native, s.toNative[0]) else s.native, toNative := s.toNative[1..])
    case NativeContinues(event) => Continued(s, event)
    case NativeReplies(id, result) => s.(toPage := s.toPage + [P.Reply(id, result)])
    case PageReceives => s.(page := if s.bridged then P.Received(s.page, s.toPage[0])
        else s.page, toPage := s.toPage[1..])
  }

  /** The dispatcher's share of the native half: the app's one set of watches. */
  class Dispatcher {
    const watches: W.Watches

    constructor (watches: W.Watches)
      ensures this.watches == watches
    {
      this.watches := watches;
    }

    /** accepted: the message carries the token and came from a page of the site. */
    method OnMessage(m: P.Message, accepted: bool)
      requires W.Inv(watches.Snapshot())
      modifies watches
      ensures watches.Snapshot() == if accepted then Dispatched(old(watches.Snapshot()), m) else old(watches.Snapshot())
      ensures W.Inv(watches.Snapshot())
    {
      if !accepted { return; }
      DispatchedKeys(watches.Snapshot(), m);
      match m {
        case Hello => watches.StopEvery();
        case Watch(id) => watches.StartWatch(id);
        case ClearWatch(id) => watches.StopWatch(id);
        case Ask(_) =>
      }
    }
  }

  /* ---- agreement on the watches ---- */

  function Replayed(keys: set<int>, m: P.Message): set<int> {
    match m
    case Hello => {}
    case Watch(id) => keys + {id}
    case ClearWatch(id) => keys - {id}
    case Ask(_) => keys
  }

  /** What the map's keys become when the messages under way have arrived. */
  function Replay(keys: set<int>, messages: seq<P.Message>): set<int>
    decreases |messages|
  {
    if messages == [] then keys else Replay(Replayed(keys, messages[0]), messages[1..])
  }

  lemma {:induction false} ReplayAppend(keys: set<int>, messages: seq<P.Message>, m: P.Message)
    ensures Replay(keys, messages + [m]) == Replayed(Replay(keys, messages), m)
    decreases |messages|
  {
    if messages == [] {
      assert messages + [m] == [m];
      assert [m][1..] == [];
    } else {
      ReplayAppend(Replayed(keys, messages[0]), messages[1..], m);
      assert (messages + [m])[1..] == messages[1..] + [m];
    }
  }

  /** For watch w: the map will hold it once the messages under way have arrived exactly when it is live on the page. */
  ghost predicate Agree(s: State, w: int) {
    w in Replay(s.native.subscriptions.Keys, s.toNative) <==> w in s.page.watchers
  }

  /** A message that settles whether the map holds w. */
  predicate About(m: P.Message, w: int) {
    match m
    case Hello => true
    case Watch(id) => id == w
    case ClearWatch(id) => id == w
    case Ask(_) => false
  }

  predicate Silent(messages: seq<P.Message>, w: int) {
    forall m :: m in messages ==> !About(m, w)
  }

  /**
   Whether watch w of the current page is missed, that is, known to one side only. A page of the site starts afresh, and
   so does a message about w. The page changing its mind with no channel to say so turns it over, and so does turning
   away a message that would have changed the map when no later one under way is about w.
   */
  function MissedNow(s: State, e: Event, w: int, missed: bool): bool {
    match e
    case Load(own) => !own && missed
    case PageCalls(call) =>
      var page := P.Step(s.page, call);
      if !Silent(Gained(s.page.posted, page.posted), w) then false
      else missed != ((w in page.watchers) != (w in s.page.watchers))
    case NativeReceives(accepted) =>
      var keys := s.native.subscriptions.Keys;
      missed != (!accepted && s.toNative != [] && Silent(s.toNative[1..], w)
                 && (w in Replayed(keys, s.toNative[0])) != (w in keys))
    case _ => missed
  }

  ghost predicate Inv(s: State, w: int, missed: bool) {
    W.Inv(s.native) && (Agree(s, w) <==> !missed)
  }

  lemma CalledAgrees(s: State, call: P.Event, w: int, missed: bool)
    requires (Agree(s, w) <==> !missed) && !call.Receive?
    ensures Agree(Called(s, call), w) <==> !MissedNow(s, PageCalls(call), w, missed)
  {
    var page := P.Step(s.page, call);
    if page.posted != s.page.posted {
      var m := page.posted[|s.page.posted|];
      assert page.posted == s.page.posted + [m];
      assert page.posted[|s.page.posted|..] == [m];
      assert m in [m];
      ReplayAppend(s.native.subscriptions.Keys, s.toNative, m);
    } else {
      assert page.posted[|s.page.posted|..] == [];
      assert s.toNative + [] == s.toNative;
    }
  }

  lemma DispatchedKeys(native: W.State, m: P.Message)
    requires W.Inv(native)
    ensures W.Inv(Dispatched(native, m))
    ensures Dispatched(native, m).subscriptions.Keys == Replayed(native.subscriptions.Keys, m)
  {
    match m {
      case Hello => W.StepInv(native, W.StopAll);
      case Watch(id) => W.StepInv(native, W.Start(id));
      case ClearWatch(id) => W.StepInv(native, W.Stop(id));
      case Ask(_) =>
    }
  }

  /** Without a message about w the map holds what it held; with one, what it held makes no difference. */
  lemma {:induction false} ReplayedLast(keys: set<int>, keys': set<int>, messages: seq<P.Message>, w: int)
    ensures Silent(messages, w) ==> (w in Replay(keys, messages) <==> w in keys)
    ensures !Silent(messages, w) ==> (w in Replay(keys, messages) <==> w in Replay(keys', messages))
    decreases |messages|
  {
    if messages != [] {
      var m, rest := messages[0], messages[1..];
      assert forall x :: x in messages <==> x == m || x in rest;
      assert Silent(messages, w) <==> !About(m, w) && Silent(rest, w);
      assert if About(m, w) then w in Replayed(keys, m) <==> w in Replayed(keys', m) else
          w in Replayed(keys, m) <==> w in keys;
      ReplayedLast(Replayed(keys, m), Replayed(keys', m), rest, w);
      ReplayedLast(Replayed(keys', m), Replayed(keys, m), rest, w);
    }
  }

  lemma StepInv(s: State, e: Event, w: int, missed: bool)
    requires Inv(s, w, missed) && Enabled(s, e)
    ensures Inv(Step(s, e), w, MissedNow(s, e, w, missed))
  {
    match e {
      case Load(own) => ReplayAppend(s.native.subscriptions.Keys, s.toNative, P.Hello);
      case PageCalls(call) => CalledAgrees(s, call, w, missed);
      case NativeReceives(accepted) =>
        var keys := s.native.subscriptions.Keys;
        DispatchedKeys(s.native, s.toNative[0]);
        ReplayedLast(keys, Replayed(keys, s.toNative[0]), s.toNative[1..], w);
        ReplayedLast(Replayed(keys, s.toNative[0]), keys, s.toNative[1..], w);
      case NativeContinues(event) => W.StepInv(s.native, event);
      case _ =>
    }
  }

  /* ---- runs ---- */

  predicate IsRun(s: State, events: seq<Event>)
    decreases |events|
  {
    events == [] || (Enabled(s, events[0]) && IsRun(Step(s, events[0]), events[1..]))
  }

  function Run(s: State, events: seq<Event>): State
    requires IsRun(s, events)
    decreases |events|
  {
    if events == [] then s else Run(Step(s, events[0]), events[1..])
  }

  function MissedAfter(s: State, events: seq<Event>, w: int, missed: bool): bool
    requires IsRun(s, events)
    decreases |events|
  {
    if events == [] then missed else MissedAfter(Step(s, events[0]), events[1..], w, MissedNow(s, events[0], w, missed))
  }

  /** Whether a run of the app leaves watch w of its last page missed. */
  predicate Missed(events: seq<Event>, w: int)
    requires IsRun(LAUNCHED, events)
  {
    MissedAfter(LAUNCHED, events, w, false)
  }

  lemma {:induction false} RunInv(s: State, events: seq<Event>, w: int, missed: bool)
    requires Inv(s, w, missed) && IsRun(s, events)
    ensures Inv(Run(s, events), w, MissedAfter(s, events, w, missed))
    decreases |events|
  {
    if events != [] {
      StepInv(s, events[0], w, missed);
      RunInv(Step(s, events[0]), events[1..], w, MissedNow(s, events[0], w, missed));
    }
  }

  /**
   In every run, reloads included, the messages under way bring the native map and the page to agree on a watch exactly
   when it is not missed.
   */
  lemma AlwaysAgree(events: seq<Event>, w: int)
    requires IsRun(LAUNCHED, events)
    ensures Agree(Run(LAUNCHED, events), w) <==> !Missed(events, w)
    ensures W.Inv(Run(LAUNCHED, events).native)
  {
    RunInv(LAUNCHED, events, w, false);
  }

  /** The step lets nothing get lost: the page finds its channel, and the dispatcher accepts the message. */
  predicate Lossless(e: Event) {
    match e
    case PageCalls(call) => call.CallRequest? || call.Receive? || call.channelUp
    case NativeReceives(accepted) => accepted
    case _ => true
  }

  lemma {:induction false} NothingLost(s: State, events: seq<Event>, w: int)
    requires IsRun(s, events) && forall e :: e in events ==> Lossless(e)
    ensures !MissedAfter(s, events, w, false)
    decreases |events|
  {
    if events != [] {
      assert Lossless(events[0]) by { assert events[0] in events; }
      NothingLostNow(s, events[0], w);
      NothingLost(Step(s, events[0]), events[1..], w);
    }
  }

  lemma NothingLostNow(s: State, e: Event, w: int)
    requires Enabled(s, e) && Lossless(e)
    ensures !MissedNow(s, e, w, false)
  {
    if e.PageCalls? {
      var page := P.Step(s.page, e.call);
      if page.posted != s.page.posted {
        var m := page.posted[|s.page.posted|];
        assert page.posted == s.page.posted + [m];
        assert page.posted[|s.page.posted|..] == [m];
        assert m in [m];
      }
    }
  }

  /** When nothing ever gets lost, no watch is missed, so both sides always agree on all of them. */
  lemma LosslessAgrees(events: seq<Event>, w: int)
    requires IsRun(LAUNCHED, events) && forall e :: e in events ==> Lossless(e)
    ensures Agree(Run(LAUNCHED, events), w) && !Missed(events, w)
  {
    NothingLost(LAUNCHED, events, w);
    AlwaysAgree(events, w);
  }

  /** The watches of the page shown; another site's page has none. */
  function ShownWatches(s: State): set<int> {
    if s.bridged then s.page.watchers else {}
  }

  /**
   With nothing under way and no watch missed, the map holds exactly the shown page's watches, unless another site's
   page replaced one of the site's own that still had watches: nobody says hello then. On a page of the site the map and
   the page are the same exactly when no watch is missed.
   */
  lemma SyncedWhenIdle(events: seq<Event>)
    requires IsRun(LAUNCHED, events) && Run(LAUNCHED, events).toNative == []
    ensures var s := Run(LAUNCHED, events);
            && (s.bridged ==>
               (s.native.subscriptions.Keys == ShownWatches(s) <==> forall w :: !Missed(events, w)))
            && ((forall w :: !Missed(events, w)) ==>
               (s.native.subscriptions.Keys == ShownWatches(s) <==> s.bridged || s.page.watchers == {}))
  {
    var s := Run(LAUNCHED, events);
    forall w ensures (w in s.native.subscriptions.Keys <==> w in s.page.watchers) <==> !Missed(events, w) {
      AlwaysAgree(events, w);
    }
    hide Missed, Run, IsRun;
    if forall w :: !Missed(events, w) {
      assert s.native.subscriptions.Keys == s.page.watchers;
    }
  }

  /**
   Once everything has settled too, the device reports for each id once, and for a live watch exactly when the watch is
   not missed.
   */
  lemma DeviceMatchesPage(events: seq<Event>, n: nat, m: nat)
    requires IsRun(LAUNCHED, events) && Run(LAUNCHED, events).toNative == [] && W.Quiet(Run(LAUNCHED, events).native)
    requires n < |Run(LAUNCHED, events).native.tickets| && W.Active(Run(LAUNCHED, events).native.tickets[n])
    requires m < |Run(LAUNCHED, events).native.tickets| && W.Active(Run(LAUNCHED, events).native.tickets[m])
    ensures var s := Run(LAUNCHED, events);
            && (s.native.tickets[n].watchId in s.page.watchers <==> !Missed(events, s.native.tickets[n].watchId))
            && (s.native.tickets[n].watchId == s.native.tickets[m].watchId ==> n == m)
  {
    AlwaysAgree(events, Run(LAUNCHED, events).native.tickets[n].watchId);
    W.ActiveAreHeld(Run(LAUNCHED, events).native, n);
    W.ActiveAreHeld(Run(LAUNCHED, events).native, m);
  }

  /** A loss matters: a watch the dispatcher turned away is live on the page only. */
  lemma LostWatchIsMissed()
    ensures var events := [Load(true), NativeReceives(true), PageCalls(P.CallWatch(true)), NativeReceives(false)];
            IsRun(LAUNCHED, events) && Missed(events, 1) && Run(LAUNCHED, events).toNative == []
            && Run(LAUNCHED, events).native.subscriptions.Keys == {} && ShownWatches(Run(LAUNCHED, events)) == {1}
  {
    var events := [Load(true), NativeReceives(true), PageCalls(P.CallWatch(true)), NativeReceives(false)];
    var s1 := Step(LAUNCHED, events[0]);
    var s2 := Step(s1, events[1]);
    var s3 := Step(s2, events[2]);
    assert s3.toNative == [P.Watch(1)];
    var s4 := Step(s3, events[3]);
    assert events[1..][1..][1..][1..] == [];
    assert events[1..][1..][1..] == [NativeReceives(false)];
    assert Run(s3, [NativeReceives(false)]) == s4;
    assert Run(LAUNCHED, events) == s4;
    AlwaysAgree(events, 1);
  }

  /** The exception happens: a watch outlives its page on another site's page. */
  lemma WatchOutlivesItsPage()
    ensures var events := [Load(true), NativeReceives(true), PageCalls(P.CallWatch(true)), NativeReceives(true),
            Load(false)];
            IsRun(LAUNCHED, events) && Run(LAUNCHED, events).toNative == []
            && Run(LAUNCHED, events).native.subscriptions.Keys == {1} && ShownWatches(Run(LAUNCHED, events)) == {}
  {
    var events := [Load(true), NativeReceives(true), PageCalls(P.CallWatch(true)), NativeReceives(true), Load(false)];
    var s1 := Step(LAUNCHED, events[0]);
    var s2 := Step(s1, events[1]);
    var s3 := Step(s2, events[2]);
    assert s3.toNative == [P.Watch(1)];
    var s4 := Step(s3, events[3]);
    var s5 := Step(s4, events[4]);
    assert events[1..][1..][1..][1..][1..] == [];
    assert Run(s4, [Load(false)]) == s5;
    assert events[1..][1..][1..][1..] == [Load(false)];
    assert Run(LAUNCHED, events) == s5;
  }

  /* ---- what native sends arrives ---- */

  /** What a native event sends, for a watch the map holds: a device callback, or a refusal of the watch. */
  function Sends(native: W.State, e: W.Event): seq<P.Inbound>
    requires W.Enabled(native, e)
  {
    match e
    case Callback(n, ok) =>
      var id := native.tickets[n].watchId;
      if id in native.subscriptions then [P.Position(id, ok)] else []
    case Settle(n, granted) =>
      var id := native.tickets[n].watchId;
      if !granted && id in native.subscriptions then [P.Position(id, false)] else []
    case _ => []
  }

  /** What one event puts on its way to the page. */
  function Emits(s: State, e: Event): seq<P.Inbound>
    requires Enabled(s, e)
  {
    match e
    case NativeContinues(event) => Sends(s.native, event)
    case NativeReplies(id, result) => [P.Reply(id, result)]
    case _ => []
  }

  function AllEmitted(s: State, events: seq<Event>): seq<P.Inbound>
    requires IsRun(s, events)
    decreases |events|
  {
    if events == [] then [] else Emits(s, events[0]) + AllEmitted(Step(s, events[0]), events[1..])
  }

  function Arrivals(events: seq<Event>): nat {
    if events == [] then 0 else (if events[0] == PageReceives then 1 else 0) + Arrivals(events[1..])
  }

  lemma NativeSends(s: State, e: W.Event)
    requires W.Enabled(s.native, e) && (e.Settle? || e.RunRemoval? || e.Callback?)
    ensures Continued(s, e).toPage == s.toPage + Sends(s.native, e)
    ensures Continued(s, e) == s.(native := W.Step(s.native, e), toPage := Continued(s, e).toPage)
  {
    var sent, sent' := s.native.sent, W.Step(s.native, e).sent;
    if sent' != sent {
      var m := sent'[|sent|];
      assert sent' == sent + [m] && sent'[|sent|..] == [m];
      assert Positions([m]) == [P.Position(m.watchId, m.ok)];
    } else {
      assert sent'[|sent|..] == [];
      assert Positions([]) == [];
    }
  }

  /** An event adds to the channel to the page what it emits, and takes from it what the page receives. */
  lemma ChannelStep(s: State, e: Event)
    requires Enabled(s, e)
    ensures Step(s, e).toPage == (s.toPage + Emits(s, e))[if e == PageReceives then 1 else 0..]
  {
    if e.NativeContinues? {
      NativeSends(s, e.event);
    }
    hide W.Step, P.Step, Positions, Sends;
    assert s.toPage + [] == s.toPage;
  }

  /** A queue that is added to, taken from and added to again. */
  lemma Queued<T>(queue: seq<T>, sent: seq<T>, rest: seq<T>, taken: nat, more: nat)
    requires taken <= |queue| && more <= |(queue + sent)[taken..] + rest|
    ensures taken + more <= |queue + (sent + rest)|
    ensures ((queue + sent)[taken..] + rest)[more..] == (queue + (sent + rest))[taken + more..]
  {
    assert (queue + sent)[taken..] + rest == (queue + (sent + rest))[taken..];
  }

  /** The messages on their way are those emitted and not received yet, in order. */
  lemma {:induction false} InOrder(s: State, events: seq<Event>)
    requires IsRun(s, events)
    ensures Arrivals(events) <= |s.toPage + AllEmitted(s, events)|
    ensures Run(s, events).toPage == (s.toPage + AllEmitted(s, events))[Arrivals(events)..]
    decreases |events|
  {
    if events == [] {
      assert s.toPage + [] == s.toPage;
    } else {
      var e := events[0];
      ChannelStep(s, e);
      InOrder(Step(s, e), events[1..]);
      assert e == PageReceives ==> s.toPage != [];
      hide Step, Emits, Enabled;
      Queued(s.toPage, Emits(s, e), AllEmitted(Step(s, e), events[1..]), if e == PageReceives then 1 else 0,
          Arrivals(events[1..]));
    }
  }

  /** What a page of the site does with a message, and with nothing else changed; another site's page ignores it. */
  ghost predicate Handled(s: State, m: P.Inbound, s': State) {
    var page, page' := s.page, s'.page;
    && s'.bridged == s.bridged && s'.native == s.native && s'.toNative == s.toNative
    && page'.watchers == page.watchers && page'.posted == page.posted
    && page'.nextRequestId == page.nextRequestId && page'.nextWatchId == page.nextWatchId
    && page'.called == page.called +
      (if s.bridged && m.Position? && m.watchId >= 0 && m.watchId as nat in page.watchers
       then [(m.watchId as nat, m.ok)] else [])
    && page'.settlements == page.settlements +
      (if s.bridged && m.Reply? && m.id >= 0 && m.id as nat in page.pending then [(m.id as nat, m.result)] else [])
    && page'.pending == page.pending - (if s.bridged && m.Reply? && m.id >= 0 then {m.id as nat} else {})
  }

  /**
   In every run, the page receives what native emitted, one message after the other in the order they were emitted: a
   position or error for a live watch of the page shown runs its callback, and a reply settles the request it is for.
   */
  lemma ArrivesInOrder(events: seq<Event>)
    requires IsRun(LAUNCHED, events) && Enabled(Run(LAUNCHED, events), PageReceives)
    ensures Arrivals(events) < |AllEmitted(LAUNCHED, events)|
    ensures var s := Run(LAUNCHED, events);
            Handled(s, AllEmitted(LAUNCHED, events)[Arrivals(events)], Step(s, PageReceives))
  {
    InOrder(LAUNCHED, events);
    var s := Run(LAUNCHED, events);
    var all := AllEmitted(LAUNCHED, events);
    assert LAUNCHED.toPage + all == all;
    assert s.toPage[0] == all[Arrivals(events)];
    hide Run, AllEmitted, Arrivals, IsRun;
    PageHandles(s);
  }

  lemma PageHandles(s: State)
    requires s.toPage != []
    ensures Handled(s, s.toPage[0], Step(s, PageReceives))
  {
    assert s.page.called + [] == s.page.called && s.page.settlements + [] == s.page.settlements;
    assert s.page.pending - {} == s.page.pending;
  }

  /* ---- the two halves, each on its own ---- */

  /** What an event is to the native half alone. */
  function NativeEvent(s: State, e: Event): seq<W.Event>
    requires Enabled(s, e)
  {
    match e
    case NativeContinues(event) => [event]
    case NativeReceives(accepted) =>
      if !accepted then []
      else match s.toNative[0] {
        case Hello => [W.StopAll]
        case Watch(id) => [W.Start(id)]
        case ClearWatch(id) => [W.Stop(id)]
        case Ask(_) => []
      }
    case _ => []
  }

  function NativeEvents(s: State, events: seq<Event>): seq<W.Event>
    requires IsRun(s, events)
    decreases |events|
  {
    if events == [] then [] else NativeEvent(s, events[0]) + NativeEvents(Step(s, events[0]), events[1..])
  }

  lemma NativeStep(s: State, e: Event, rest: seq<W.Event>)
    requires Enabled(s, e)
    ensures W.IsRun(s.native, NativeEvent(s, e) + rest) <==> W.IsRun(Step(s, e).native, rest)
    ensures W.IsRun(Step(s, e).native, rest) ==>
              W.Run(s.native, NativeEvent(s, e) + rest) == W.Run(Step(s, e).native, rest)
  {
    var first := NativeEvent(s, e);
    if first == [] {
      assert first + rest == rest;
    } else {
      assert (first + rest)[0] == first[0] && (first + rest)[1..] == rest;
    }
  }

  /** The native half of a run of the app is a run of the watches alone, so all that holds of those holds here. */
  lemma {:induction false} NativeIsItsOwnRun(s: State, events: seq<Event>)
    requires IsRun(s, events)
    ensures W.IsRun(s.native, NativeEvents(s, events))
    ensures W.Run(s.native, NativeEvents(s, events)) == Run(s, events).native
    decreases |events|
  {
    if events != [] {
      hide Step, Enabled, W.Step;
      NativeIsItsOwnRun(Step(s, events[0]), events[1..]);
      NativeStep(s, events[0], NativeEvents(Step(s, events[0]), events[1..]));
    }
  }

  /** What an event adds to the history of the page, which a new page of the site starts afresh. */
  function PageHistoryNow(s: State, e: Event, past: seq<P.Event>): seq<P.Event>
    requires Enabled(s, e)
  {
    match e
    case Load(own) => if own then [] else past
    case PageCalls(call) => past + [call]
    case PageReceives => if s.bridged then past + [P.Receive(s.toPage[0])] else past
    case _ => past
  }

  function PageHistory(s: State, events: seq<Event>, past: seq<P.Event>): seq<P.Event>
    requires IsRun(s, events)
    decreases |events|
  {
    if events == [] then past else PageHistory(Step(s, events[0]), events[1..], PageHistoryNow(s, events[0], past))
  }

  lemma PageStep(s: State, e: Event, past: seq<P.Event>)
    requires Enabled(s, e) && s.page == P.After(past)
    ensures Step(s, e).page == P.After(PageHistoryNow(s, e, past))
  {
    hide P.Step, P.After, W.Step, Dispatched, Positions, Gained;
    if e == Load(true) {
      P.NoEvents();
    } else if e.PageCalls? {
      P.AfterMore(past, e.call);
    } else if e.PageReceives? && s.bridged {
      P.AfterMore(past, P.Receive(s.toPage[0]));
      P.ReceiveIs(s.page, s.toPage[0]);
    }
  }

  /** The page half of a run is a run of the last page alone, with the messages that arrived while it was shown. */
  lemma {:induction false} PageIsItsOwnRun(s: State, events: seq<Event>, past: seq<P.Event>)
    requires IsRun(s, events) && s.page == P.After(past)
    ensures Run(s, events).page == P.After(PageHistory(s, events, past))
    decreases |events|
  {
    hide Step, Enabled, PageHistoryNow, P.After;
    if events != [] {
      PageStep(s, events[0], past);
      PageIsItsOwnRun(Step(s, events[0]), events[1..], PageHistoryNow(s, events[0], past));
    }
  }

  /** What an event puts on its way to native: a hello, or what a call posts while the page finds its channel. */
  function Posts(s: State, e: Event): seq<P.Message>
    requires Enabled(s, e)
  {
    match e
    case Load(own) => if own then [P.Hello] else []
    case PageCalls(CallRequest(up)) => if up then [P.Ask(s.page.nextRequestId)] else []
    case PageCalls(CallWatch(up)) => if up then [P.Watch(s.page.nextWatchId)] else []
    case PageCalls(CallClear(id, up)) =>
      if up && id >= 0 && id as nat in s.page.watchers then [P.ClearWatch(id)] else []
    case _ => []
  }

  function AllPosted(s: State, events: seq<Event>): seq<P.Message>
    requires IsRun(s, events)
    decreases |events|
  {
    if events == [] then [] else Posts(s, events[0]) + AllPosted(Step(s, events[0]), events[1..])
  }

  predicate Receives(e: Event) {
    e.NativeReceives?
  }

  function Receipts(events: seq<Event>): nat {
    if events == [] then 0 else (if Receives(events[0]) then 1 else 0) + Receipts(events[1..])
  }

  lemma ToNativeStep(s: State, e: Event)
    requires Enabled(s, e)
    ensures Step(s, e).toNative == (s.toNative + Posts(s, e))[if Receives(e) then 1 else 0..]
  {
    assert s.toNative + [] == s.toNative;
    if e.PageCalls? {
      var page := P.Step(s.page, e.call);
      P.StepDoes(s.page, e.call);
      assert page.posted[|s.page.posted|..] == Posts(s, e);
      hide P.Step;
    }
  }

  /** What the dispatcher gets is what the pages posted, in order; what is on its way was posted and not received. */
  lemma {:induction false} PostedInOrder(s: State, events: seq<Event>)
    requires IsRun(s, events)
    ensures Receipts(events) <= |s.toNative + AllPosted(s, events)|
    ensures Run(s, events).toNative == (s.toNative + AllPosted(s, events))[Receipts(events)..]
    decreases |events|
  {
    if events == [] {
      assert s.toNative + [] == s.toNative;
    } else {
      var e := events[0];
      ToNativeStep(s, e);
      PostedInOrder(Step(s, e), events[1..]);
      assert Receives(e) ==> s.toNative != [];
      hide Step, Posts, Enabled, Receives;
      Queued(s.toNative, Posts(s, e), AllPosted(Step(s, e), events[1..]), if Receives(e) then 1 else 0,
          Receipts(events[1..]));
    }
  }
}
