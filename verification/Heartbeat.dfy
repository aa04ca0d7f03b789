/**
 The rider's location heartbeat (useLocationHeartbeat in src/components/delivery-partner-dashboard.tsx): one
 life of its effect, from arming to disposal, as a machine driven by position callbacks, the timer and the network. It
 starts with whatever alerts the life before it left.

 Every handler runs without interruption, so one reading of the two clocks stands for the readings it makes:
 the monotonic clock (performance.now) and the wall clock (Date.now), which may jump.
 */
module Heartbeat {
  import opened Text

  const MAX_FIX_AGE_MS := 120_000.0

  datatype Place = Place(latitude: real, longitude: real)

  datatype Fix = Fix(place: Place, receivedAt: real, receivedWallAt: real)

  /** A request sent to the server; requests are numbered in the order they are sent. */
  datatype Post = Post(fix: Fix, at: real, wallAt: real)

  /** The clocks when a handler runs, and whether the browser would throw if asked for a position in it. */
  datatype Stamp = Stamp(now: real, wall: real, geoThrows: bool)

  datatype Happening =
    | WatchFix(place: Place)
    | WatchError(denial: bool)
    | RefreshFix(place: Place)
    | RefreshError(denial: bool)
    | Tick
    | Settled(post: nat)
    | Disposal

  datatype Event = Event(stamp: Stamp, what: Happening)

  /**
   The closure's variables, then what the outside has seen: requests sent and settled, positions asked for and not yet
   answered.
   */
  datatype State = State(
    latest: Option<Fix>, lastSentAt: Option<real>, inFlight: Option<nat>, refreshing: bool, denied: bool,
    disposed: bool,
    failingSince: Option<real>, blocked: bool, unavailable: bool,
    posts: seq<Post>, settled: set<nat>, asked: nat)

  /** What the rider is shown: it outlives a life of the effect. */
  datatype Alerts = Alerts(blocked: bool, unavailable: bool)

  /** A new life of the effect, under the alerts that the last one left. */
  function Armed(alerts: Alerts): State {
    State(None, None, None, false, false, false, None, alerts.blocked, alerts.unavailable, [], {}, 0)
  }

  /* ---- the closure's functions ---- */

  predicate IsStale(fix: Fix, t: Stamp) {
    t.now - fix.receivedAt > MAX_FIX_AGE_MS || t.wall - fix.receivedWallAt > MAX_FIX_AGE_MS
  }

  function Remembered(s: State, place: Place, t: Stamp): State {
    s.(latest := Some(Fix(place, t.now, t.wall)), failingSince := None, blocked := false, unavailable := false)
  }

  function Failed(s: State, denial: bool, t: Stamp): State {
    if denial then s.(denied := true, blocked := true)
    else
      var since := if s.failingSince.None? then t.now else s.failingSince.value;
      s.(failingSince := Some(since), unavailable := s.unavailable || t.now - since >= MAX_FIX_AGE_MS)
  }

  function Refreshed(s: State, t: Stamp): State {
    if s.refreshing || s.denied then s
    else if t.geoThrows then s.(denied := true, blocked := s.blocked || !s.disposed)
    else s.(refreshing := true, asked := s.asked + 1)
  }

  predicate NotDue(s: State, interval: real, t: Stamp) {
    s.disposed || s.inFlight.Some? || (s.lastSentAt.Some? && t.now - s.lastSentAt.value < interval)
  }

  function Sent(s: State, interval: real, t: Stamp): State {
    if NotDue(s, interval, t) then s
    else if s.latest.None? || IsStale(s.latest.value, t) then Refreshed(s, t)
    else s.(inFlight := Some(|s.posts|), lastSentAt := Some(t.now),
        posts := s.posts + [Post(s.latest.value, t.now, t.wall)])
  }

  /** A position request answers once, and so does a network request. */
  predicate Enabled(s: State, e: Event) {
    match e.what
    case RefreshFix(_) => s.asked > 0
    case RefreshError(_) => s.asked > 0
    case Settled(k) => k < |s.posts| && k !in s.settled
    case _ => true
  }

  function Step(s: State, interval: real, e: Event): State
    requires Enabled(s, e)
  {
    match e.what
    case WatchFix(place) => Sent(Remembered(s, place, e.stamp), interval, e.stamp)
    case WatchError(denial) => Failed(s, denial, e.stamp)
    case RefreshFix(place) =>
      var s' := s.(refreshing := false, asked := s.asked - 1);
      if s.disposed then s' else Sent(Remembered(s', place, e.stamp), interval, e.stamp)
    case RefreshError(denial) =>
      var s' := s.(refreshing := false, asked := s.asked - 1);
      if s.disposed then s' else Failed(s', denial, e.stamp)
    case Tick => Sent(s, interval, e.stamp)
    case Settled(k) => s.(settled := s.settled + {k}, inFlight := if s.inFlight == Some(k) then None else s.inFlight)
    case Disposal => s.(disposed := true)
  }

  /** The effect as the hook keeps it: variables its callbacks update in place. */
  class Effect {
    const interval: real
    var latest: Option<Fix>
    var lastSentAt: Option<real>
    var inFlight: Option<nat>
    var refreshing: bool
    var denied: bool
    var disposed: bool
    var failingSince: Option<real>
    var blocked: bool
    var unavailable: bool
    var posts: seq<Post>
    ghost var settled: set<nat>
    ghost var asked: nat

    ghost function Snapshot(): State
      reads this
    {
      State(latest, lastSentAt, inFlight, refreshing, denied, disposed, failingSince, blocked, unavailable, posts,
          settled, asked)
    }

    constructor (intervalMs: real, alerts: Alerts)
      ensures interval == intervalMs && Snapshot() == Armed(alerts)
    {
      interval := intervalMs;
      latest, lastSentAt, inFlight, failingSince := None, None, None, None;
      refreshing, denied, disposed := false, false, false;
      blocked, unavailable := alerts.blocked, alerts.unavailable;
      posts, settled, asked := [], {}, 0;
    }

    method Remember(place: Place, t: Stamp)
      modifies this
      ensures Snapshot() == Remembered(old(Snapshot()), place, t)
    {
      latest := Some(Fix(place, t.now, t.wall));
      failingSince := None;
      blocked := false;
      unavailable := false;
    }

    method Fail(denial: bool, t: Stamp)
      modifies this
      ensures Snapshot() == Failed(old(Snapshot()), denial, t)
    {
      if denial {
        denied := true;
        blocked := true;
        return;
      }
      if failingSince.None? { failingSince := Some(t.now); }
      if t.now - failingSince.value >= MAX_FIX_AGE_MS { unavailable := true; }
    }

    method Refresh(t: Stamp)
      modifies this
      ensures Snapshot() == Refreshed(old(Snapshot()), t)
    {
      if refreshing || denied { return; }
      refreshing := true;
      if t.geoThrows {
        refreshing := false;
        denied := true;
        if !disposed { blocked := true; }
      } else {
        asked := asked + 1;
      }
    }

    method SendIfDue(t: Stamp)
      modifies this
      ensures Snapshot() == Sent(old(Snapshot()), interval, t)
    {
      if disposed || inFlight.Some? || (lastSentAt.Some? && t.now - lastSentAt.value < interval) { return; }
      if latest.None? || IsStale(latest.value, t) {
        Refresh(t);
        return;
      }
      inFlight := Some(|posts|);
      lastSentAt := Some(t.now);
      posts := posts + [Post(latest.value, t.now, t.wall)];
    }

    method Handle(e: Event)
      requires Enabled(Snapshot(), e)
      modifies this
      ensures Snapshot() == Step(old(Snapshot()), interval, e)
    {
      hide Remembered, Failed, Sent;
      match e.what {
        case WatchFix(place) =>
          Remember(place, e.stamp);
          SendIfDue(e.stamp);
        case WatchError(denial) =>
          Fail(denial, e.stamp);
        case RefreshFix(place) =>
          refreshing := false;
          asked := asked - 1;
          if disposed { return; }
          Remember(place, e.stamp);
          SendIfDue(e.stamp);
        case RefreshError(denial) =>
          refreshing := false;
          asked := asked - 1;
          if !disposed { Fail(denial, e.stamp); }
        case Tick =>
          SendIfDue(e.stamp);
        case Settled(k) =>
          settled := settled + {k};
          if inFlight == Some(k) { inFlight := None; }
        case Disposal =>
          disposed := true;
      }
    }
  }

  /* ---- runs ---- */

  predicate IsRun(alerts: Alerts, interval: real, events: seq<Event>)
    decreases |events|, 0
  {
    events == [] ||
    var front, e := events[..|events| - 1], events[|events| - 1];
    IsRun(alerts, interval, front) && Enabled(After(alerts, interval, front), e)
  }

  function After(alerts: Alerts, interval: real, events: seq<Event>): State
    requires IsRun(alerts, interval, events)
    decreases |events|, 1
  {
    if events == [] then Armed(alerts)
    else
      var front, e := events[..|events| - 1], events[|events| - 1];
      Step(After(alerts, interval, front), interval, e)
  }

  /* ---- what every step keeps ---- */

  predicate FreshWhenSent(p: Post) {
    p.at - p.fix.receivedAt <= MAX_FIX_AGE_MS && p.wallAt - p.fix.receivedWallAt <= MAX_FIX_AGE_MS
  }

  ghost predicate Spaced(posts: seq<Post>, interval: real) {
    forall i :: 0 < i < |posts| ==> posts[i].at - posts[i - 1].at >= interval
  }

  ghost predicate Inv(s: State, interval: real) {
    && (s.lastSentAt == if s.posts == [] then None else Some(s.posts[|s.posts| - 1].at))
    && (forall k :: 0 <= k < |s.posts| && k !in s.settled ==> s.inFlight == Some(k))
    && (s.inFlight.Some? ==> s.inFlight.value < |s.posts| && s.inFlight.value !in s.settled)
    && (forall k :: k in s.settled ==> k < |s.posts|)
    && s.asked == (if s.refreshing then 1 else 0)
    && Spaced(s.posts, interval)
    && (forall p :: p in s.posts ==> FreshWhenSent(p))
  }

  lemma PostedInv(s: State, interval: real, t: Stamp)
    requires Inv(s, interval) && !NotDue(s, interval, t)
    requires s.latest.Some? && !IsStale(s.latest.value, t)
    ensures var p := Post(s.latest.value, t.now, t.wall);
            Inv(s.(inFlight := Some(|s.posts|), lastSentAt := Some(t.now), posts := s.posts + [p]), interval)
  {
    var p := Post(s.latest.value, t.now, t.wall);
    assert FreshWhenSent(p);
    var posts := s.posts + [p];
    hide FreshWhenSent, IsStale;
    forall q | q in posts ensures FreshWhenSent(q) {
      assert q in s.posts || q == p;
    }
    assert Spaced(posts, interval) by {
      forall i | 0 < i < |posts| ensures posts[i].at - posts[i - 1].at >= interval {
        if i < |s.posts| {
          assert posts[i] == s.posts[i] && posts[i - 1] == s.posts[i - 1];
        }
      }
    }
    hide Spaced;
  }

  lemma SentInv(s: State, interval: real, t: Stamp)
    requires Inv(s, interval)
    ensures Inv(Sent(s, interval, t), interval)
    ensures s.posts <= Sent(s, interval, t).posts
    ensures s.disposed ==> Sent(s, interval, t).disposed && Sent(s, interval, t).posts == s.posts
  {
    assert s.disposed ==> NotDue(s, interval, t);
    if !NotDue(s, interval, t) && s.latest.Some? && !IsStale(s.latest.value, t) {
      PostedInv(s, interval, t);
      hide Inv, NotDue, IsStale;
    } else {
      hide NotDue, IsStale, Spaced, FreshWhenSent;
    }
  }

  lemma SettledInv(s: State, interval: real, e: Event)
    requires Inv(s, interval) && Enabled(s, e) && e.what.Settled?
    ensures Inv(Step(s, interval, e), interval)
  {
    hide Spaced, FreshWhenSent, Sent, Failed;
  }

  lemma ErrorInv(s: State, interval: real, e: Event)
    requires Inv(s, interval) && Enabled(s, e) && (e.what.WatchError? || e.what.RefreshError? || e.what.Disposal?)
    ensures Inv(Step(s, interval, e), interval)
  {
    hide Spaced, FreshWhenSent, Sent, Failed;
    match e.what {
      case WatchError(denial) => FailingSendsNothing(s, denial, e.stamp);
      case RefreshError(denial) =>
        FailingSendsNothing(s.(refreshing := false, asked := s.asked - 1), denial, e.stamp);
      case Disposal =>
    }
  }

  lemma FailingSendsNothing(s: State, denial: bool, t: Stamp)
    ensures var s' := Failed(s, denial, t);
            && s' == s.(denied := s'.denied, failingSince := s'.failingSince, blocked := s'.blocked,
                        unavailable := s'.unavailable)
  {
  }

  lemma FixInv(s: State, interval: real, e: Event)
    requires Inv(s, interval) && Enabled(s, e) && (IsFix(e) || e.what.Tick?)
    ensures Inv(Step(s, interval, e), interval)
    ensures s.posts <= Step(s, interval, e).posts
    ensures s.disposed ==> Step(s, interval, e).disposed && Step(s, interval, e).posts == s.posts
  {
    hide Spaced, FreshWhenSent, Sent;
    match e.what {
      case WatchFix(place) => SentInv(Remembered(s, place, e.stamp), interval, e.stamp);
      case RefreshFix(place) =>
        if !s.disposed {
          SentInv(Remembered(s.(refreshing := false, asked := s.asked - 1), place, e.stamp), interval, e.stamp);
        }
      case Tick => SentInv(s, interval, e.stamp);
    }
  }

  lemma StepInv(s: State, interval: real, e: Event)
    requires Inv(s, interval) && Enabled(s, e)
    ensures Inv(Step(s, interval, e), interval)
    ensures s.posts <= Step(s, interval, e).posts
    ensures s.disposed ==> Step(s, interval, e).disposed && Step(s, interval, e).posts == s.posts
  {
    hide Inv, Sent;
    if IsFix(e) || e.what.Tick? {
      FixInv(s, interval, e);
    } else if e.what.Settled? {
      SettledInv(s, interval, e);
    } else {
      ErrorInv(s, interval, e);
    }
  }

  /**
   At every moment of every run: at most one request is unanswered, at most one position request is open,
   consecutive requests are at least the interval apart, and no fix was over two minutes old on either clock when sent.
   */
  lemma {:induction false} Safe(alerts: Alerts, interval: real, events: seq<Event>)
    requires IsRun(alerts, interval, events)
    ensures Inv(After(alerts, interval, events), interval)
  {
    if events != [] {
      Safe(alerts, interval, events[..|events| - 1]);
      StepInv(After(alerts, interval, events[..|events| - 1]), interval, events[|events| - 1]);
    }
  }

  lemma AtMostOneInFlight(alerts: Alerts, interval: real, events: seq<Event>, j: nat, k: nat)
    requires IsRun(alerts, interval, events)
    requires j < |After(alerts, interval, events).posts| && j !in After(alerts, interval, events).settled
    requires k < |After(alerts, interval, events).posts| && k !in After(alerts, interval, events).settled
    ensures j == k && After(alerts, interval, events).asked <= 1
  {
    Safe(alerts, interval, events);
  }

  lemma {:induction false} SpacedOver(posts: seq<Post>, interval: real, i: nat, j: nat)
    requires Spaced(posts, interval) && i <= j < |posts|
    ensures posts[j].at - posts[i].at >= (j - i) as real * interval
  {
    if i < j {
      SpacedOver(posts, interval, i, j - 1);
      assert (j - i) as real * interval == (j - 1 - i) as real * interval + interval;
    }
  }

  /**
   Between two requests at most a span apart there are at most span / interval others: n + 1 requests need n
   intervals.
   */
  lemma RequestRate(alerts: Alerts, interval: real, events: seq<Event>, i: nat, j: nat, span: real)
    requires IsRun(alerts, interval, events)
    requires i <= j < |After(alerts, interval, events).posts|
    requires After(alerts, interval, events).posts[j].at - After(alerts, interval, events).posts[i].at <= span
    ensures (j - i) as real * interval <= span
  {
    Safe(alerts, interval, events);
    SpacedOver(After(alerts, interval, events).posts, interval, i, j);
  }

  /** Nothing is sent once the effect is disposed of, whatever still arrives. */
  lemma {:induction false} NothingAfterDisposal(alerts: Alerts, interval: real, events: seq<Event>, n: nat)
    requires IsRun(alerts, interval, events) && n <= |events|
    requires IsRun(alerts, interval, events[..n]) && After(alerts, interval, events[..n]).disposed
    ensures After(alerts, interval, events).posts == After(alerts, interval, events[..n]).posts
    ensures After(alerts, interval, events).disposed
    decreases |events|
  {
    if n == |events| {
      assert events[..n] == events;
    } else {
      var front := events[..|events| - 1];
      assert front[..n] == events[..n];
      NothingAfterDisposal(alerts, interval, front, n);
      Safe(alerts, interval, front);
      StepInv(After(alerts, interval, front), interval, events[|events| - 1]);
    }
  }

  /* ---- the "unavailable" alert ---- */

  predicate IsFix(e: Event) {
    e.what.WatchFix? || e.what.RefreshFix?
  }

  predicate IsError(e: Event) {
    (e.what.WatchError? || e.what.RefreshError?) && !e.what.denial
  }

  predicate DisposedBefore(events: seq<Event>, n: nat)
    requires n <= |events|
  {
    exists j :: 0 <= j < n && events[j].what.Disposal?
  }

  /** The answer to a position request is not heard once the effect is disposed of; the watch's callbacks always are. */
  predicate Heard(events: seq<Event>, i: nat)
    requires i < |events|
  {
    events[i].what.RefreshFix? || events[i].what.RefreshError? ==> !DisposedBefore(events, i)
  }

  predicate HeardFix(events: seq<Event>, i: nat) {
    i < |events| && IsFix(events[i]) && Heard(events, i)
  }

  predicate HeardError(events: seq<Event>, i: nat) {
    i < |events| && IsError(events[i]) && Heard(events, i)
  }

  ghost predicate NoFixSince(events: seq<Event>, k: nat) {
    forall i: nat :: k <= i ==> !HeardFix(events, i)
  }

  /**
   The errors that last until now began with event k: no fix was heard since, and every error before it had one after.
   */
  ghost predicate FailingFrom(events: seq<Event>, k: nat) {
    && HeardError(events, k) && NoFixSince(events, k)
    && forall i: nat :: i < k && HeardError(events, i) ==> !NoFixSince(events, i)
  }

  /** The errors that last until now began with event k, and two minutes on event j was still one. */
  ghost predicate TwoMinutesOn(events: seq<Event>, k: nat, j: nat) {
    FailingFrom(events, k) && HeardError(events, j) && k <= j
        && events[j].stamp.now - events[k].stamp.now >= 120_000.0
  }

  lemma {:induction false} DisposedExactly(alerts: Alerts, interval: real, events: seq<Event>)
    requires IsRun(alerts, interval, events)
    ensures After(alerts, interval, events).disposed <==> DisposedBefore(events, |events|)
  {
    if events != [] {
      var front, e := events[..|events| - 1], events[|events| - 1];
      DisposedExactly(alerts, interval, front);
      assert forall j :: 0 <= j < |front| ==> events[j] == front[j];
      assert e.what.Disposal? ==> events[|front|].what.Disposal?;
      hide Sent;
      AlertSteps(After(alerts, interval, front), interval, e);
    }
  }

  /** What event e does to the alert and to the disposal. */
  predicate AlertStep(s: State, e: Event, s': State) {
    && s'.disposed == (s.disposed || e.what.Disposal?)
    && var heard := (e.what.RefreshFix? || e.what.RefreshError?) ==> !s.disposed;
       if heard && IsFix(e) then s'.failingSince == None && !s'.unavailable
       else if heard && IsError(e) then
         var since := if s.failingSince.None? then e.stamp.now else s.failingSince.value;
         s'.failingSince == Some(since)
             && s'.unavailable == (s.unavailable || e.stamp.now - since >= MAX_FIX_AGE_MS)
       else s'.failingSince == s.failingSince && s'.unavailable == s.unavailable
  }

  lemma SentKeeps(s: State, interval: real, e: Event)
    requires Enabled(s, e) && (IsFix(e) || e.what.Tick?)
    ensures AlertStep(s, e, Step(s, interval, e))
  {
    hide Sent;
    match e.what {
      case WatchFix(place) => SendingKeepsAlert(Remembered(s, place, e.stamp), interval, e.stamp);
      case RefreshFix(place) =>
        var s' := s.(refreshing := false, asked := s.asked - 1);
        SendingKeepsAlert(Remembered(s', place, e.stamp), interval, e.stamp);
      case Tick => SendingKeepsAlert(s, interval, e.stamp);
    }
  }

  lemma AlertSteps(s: State, interval: real, e: Event)
    requires Enabled(s, e)
    ensures AlertStep(s, e, Step(s, interval, e))
  {
    if IsFix(e) || e.what.Tick? {
      hide Step, AlertStep;
      SentKeeps(s, interval, e);
    } else {
      hide Sent, Remembered, Refreshed;
    }
  }

  lemma SendingKeepsAlert(s: State, interval: real, t: Stamp)
    ensures var s' := Sent(s, interval, t);
            s'.failingSince == s.failingSince && s'.unavailable == s.unavailable && s'.disposed == s.disposed
  {
    hide NotDue, IsStale;
  }

  /** One event more: what was heard before is as it was, and errors go on unless the event is a fix that is heard. */
  lemma HeardOneMore(events: seq<Event>, n: nat)
    requires n + 1 == |events|
    ensures var front := events[..n];
            && (forall i: nat :: i < n ==>
               HeardFix(events, i) == HeardFix(front, i) && HeardError(events, i) == HeardError(front, i))
            && (forall k: nat :: k <= n ==> (NoFixSince(events, k) <==> NoFixSince(front, k) && !HeardFix(events, n)))
            && (forall k: nat :: k < n ==> (FailingFrom(events, k) <==> FailingFrom(front, k) && !HeardFix(events, n)))
  {
    var front := events[..n];
    forall i: nat | i < n ensures HeardFix(events, i) == HeardFix(front, i)
        && HeardError(events, i) == HeardError(front, i) {
      assert forall j :: 0 <= j < i ==> front[j] == events[j];
      assert DisposedBefore(events, i) == DisposedBefore(front, i);
    }
    hide HeardError, Heard;
    forall k: nat | k <= n ensures NoFixSince(events, k) <==> NoFixSince(front, k) && !HeardFix(events, n) {
      assert forall i: nat :: i >= n ==> !HeardFix(front, i);
      assert forall i: nat :: i > n ==> !HeardFix(events, i);
    }
    hide HeardFix, NoFixSince;
    forall k: nat | k < n ensures FailingFrom(events, k) <==> FailingFrom(front, k) && !HeardFix(events, n) {
    }
  }

  /** failingSince is set exactly while errors last, to the time of the first of them. */
  ghost predicate Recorded(events: seq<Event>, since: Option<real>) {
    && (forall k: nat :: FailingFrom(events, k) ==> since == Some(events[k].stamp.now))
    && (since.Some? ==> exists k: nat :: FailingFrom(events, k))
    && (forall i: nat :: HeardError(events, i) && NoFixSince(events, i) ==> since.Some?)
  }

  lemma RecordedMore(events: seq<Event>, n: nat, since: Option<real>, since': Option<real>)
    requires n + 1 == |events| && Recorded(events[..n], since)
    requires since' == if HeardFix(events, n) then None
                       else if HeardError(events, n) && since.None? then Some(events[n].stamp.now) else since
    ensures Recorded(events, since')
  {
    HeardOneMore(events, n);
    var front := events[..n];
    assert HeardFix(events, n) ==> forall k: nat :: k <= n ==> !NoFixSince(events, k);
    assert !HeardFix(events, n) ==> NoFixSince(front, n) && NoFixSince(events, n);
    assert HeardFix(events, n) ==> !HeardError(events, n);
    if since'.Some? {
      if since.Some? {
        var k: nat :| FailingFrom(front, k);
        assert FailingFrom(events, k);
      } else {
        hide Heard, IsFix, IsError;
        assert forall i: nat :: i < n && HeardError(front, i) ==> !NoFixSince(front, i);
        assert FailingFrom(events, n);
      }
    }
  }

  lemma {:induction false} FailingIsRecorded(alerts: Alerts, interval: real, events: seq<Event>)
    requires IsRun(alerts, interval, events)
    ensures Recorded(events, After(alerts, interval, events).failingSince)
  {
    if events != [] {
      var front, e := events[..|events| - 1], events[|events| - 1];
      FailingIsRecorded(alerts, interval, front);
      HeardNow(alerts, interval, events);
      AlertSteps(After(alerts, interval, front), interval, e);
      hide Step, FailingFrom, NoFixSince, Recorded;
      RecordedMore(events, |front|, After(alerts, interval, front).failingSince,
          After(alerts, interval, events).failingSince);
    }
  }

  lemma HeardNow(alerts: Alerts, interval: real, events: seq<Event>)
    requires IsRun(alerts, interval, events) && events != []
    ensures var n := |events| - 1;
            var s, e := After(alerts, interval, events[..n]), events[n];
            && (HeardFix(events, n) <==> IsFix(e) && (e.what.RefreshFix? ==> !s.disposed))
            && (HeardError(events, n) <==> IsError(e) && (e.what.RefreshError? ==> !s.disposed))
  {
    var n := |events| - 1;
    DisposedExactly(alerts, interval, events[..n]);
    assert forall j :: 0 <= j < n ==> events[..n][j] == events[j];
    assert DisposedBefore(events, n) == DisposedBefore(events[..n], n);
  }

  /** An alert raised before event n still stands after it unless the event is a fix that is heard. */
  lemma AlertKept(events: seq<Event>, n: nat, k: nat, j: nat)
    requires n + 1 == |events| && j < n
    ensures TwoMinutesOn(events, k, j) <==> TwoMinutesOn(events[..n], k, j) && !HeardFix(events, n)
  {
    HeardOneMore(events, n);
    hide FailingFrom, HeardFix, HeardError;
  }

  /** Event n itself raises the alert when it is an error two minutes into the failing. */
  lemma AlertRaised(events: seq<Event>, n: nat, since: Option<real>)
    requires n + 1 == |events| && Recorded(events, since)
    ensures (exists k: nat :: TwoMinutesOn(events, k, n))
        <==> HeardError(events, n) && since.Some? && events[n].stamp.now - since.value >= MAX_FIX_AGE_MS
  {
    assert forall k: nat :: FailingFrom(events, k) ==> k <= n;
    hide FailingFrom, HeardError;
    if HeardError(events, n) && since.Some? && events[n].stamp.now - since.value >= MAX_FIX_AGE_MS {
      var k: nat :| FailingFrom(events, k);
      assert TwoMinutesOn(events, k, n);
    }
  }

  /** Errors have lasted two minutes since the last fix that was heard. */
  ghost predicate Lasted(events: seq<Event>) {
    exists k: nat, j: nat :: TwoMinutesOn(events, k, j)
  }

  lemma LastedMore(events: seq<Event>, n: nat, since: Option<real>)
    requires n + 1 == |events| && Recorded(events, since)
    ensures Lasted(events) <==>
              || (Lasted(events[..n]) && !HeardFix(events, n))
              || (HeardError(events, n) && since.Some? && events[n].stamp.now - since.value >= MAX_FIX_AGE_MS)
  {
    AlertRaised(events, n, since);
    LatestIn(events);
    LatestIn(events[..n]);
    hide TwoMinutesOn, HeardFix, HeardError, Recorded;
    if Lasted(events[..n]) && !HeardFix(events, n) {
      var k: nat, j: nat :| TwoMinutesOn(events[..n], k, j);
      AlertKept(events, n, k, j);
      assert TwoMinutesOn(events, k, j);
    }
    if Lasted(events) {
      var k: nat, j: nat :| TwoMinutesOn(events, k, j);
      if j < n {
        AlertKept(events, n, k, j);
      }
    }
  }

  lemma LatestIn(events: seq<Event>)
    ensures forall k: nat, j: nat :: TwoMinutesOn(events, k, j) ==> j < |events|
  {
  }

  lemma AlertMore(carried: bool, events: seq<Event>, n: nat, before: bool, after: State)
    requires n + 1 == |events| && Recorded(events, after.failingSince)
    requires before <==> (carried && NoFixSince(events[..n], 0)) || Lasted(events[..n])
    requires HeardError(events, n) ==> after.failingSince.Some?
    requires HeardFix(events, n) ==> !HeardError(events, n)
    requires after.unavailable == ((before && !HeardFix(events, n))
        || (HeardError(events, n) && events[n].stamp.now - after.failingSince.value >= MAX_FIX_AGE_MS))
    ensures after.unavailable <==> (carried && NoFixSince(events, 0)) || Lasted(events)
  {
    CarriedOn(events, n);
    LastedMore(events, n, after.failingSince);
    hide Lasted, HeardFix, HeardError, Recorded, NoFixSince;
  }

  lemma CarriedOn(events: seq<Event>, n: nat)
    requires n + 1 == |events|
    ensures NoFixSince(events, 0) <==> NoFixSince(events[..n], 0) && !HeardFix(events, n)
  {
    HeardOneMore(events, n);
  }

  /**
   The rider is told that location is unavailable exactly when errors have lasted two minutes: the first error since
   the last fix that was heard, and an error two minutes later; or when the last life of the effect left the alert and
   no fix has been heard in this one.
   */
  lemma {:induction false} UnavailableIsEarned(alerts: Alerts, interval: real, events: seq<Event>)
    requires IsRun(alerts, interval, events)
    ensures After(alerts, interval, events).unavailable <==>
              (alerts.unavailable && NoFixSince(events, 0)) || Lasted(events)
  {
    if events != [] {
      var front, e := events[..|events| - 1], events[|events| - 1];
      UnavailableIsEarned(alerts, interval, front);
      FailingIsRecorded(alerts, interval, events);
      HeardNow(alerts, interval, events);
      AlertSteps(After(alerts, interval, front), interval, e);
      var before, after := After(alerts, interval, front), After(alerts, interval, events);
      hide Step, After, IsRun, TwoMinutesOn, Recorded, HeardFix, HeardError;
      AlertMore(alerts.unavailable, events, |front|, before.unavailable, after);
    }
  }

  /**
   What is heard matters: here a fix arrives between the two errors, but as the answer to a request that the disposal
   overtook, and the alert is raised over it.
   */
  lemma UnheardFixDoesNotCount(interval: real, place: Place, blocked: bool)
    ensures var events := [
              Event(Stamp(0.0, 0.0, false), WatchError(false)), Event(Stamp(1.0, 1.0, false), Tick),
              Event(Stamp(2.0, 2.0, false), Disposal), Event(Stamp(3.0, 3.0, false), RefreshFix(place)),
              Event(Stamp(120_000.0, 120_000.0, false), WatchError(false))];
            var alerts := Alerts(blocked, false);
            && IsRun(alerts, interval, events) && After(alerts, interval, events).unavailable
            && IsFix(events[3]) && !Heard(events, 3)
  {
    var e0 := Event(Stamp(0.0, 0.0, false), WatchError(false));
    var e1 := Event(Stamp(1.0, 1.0, false), Tick);
    var e2 := Event(Stamp(2.0, 2.0, false), Disposal);
    var e3 := Event(Stamp(3.0, 3.0, false), RefreshFix(place));
    var e4 := Event(Stamp(120_000.0, 120_000.0, false), WatchError(false));
    var alerts := Alerts(blocked, false);
    var s1 := Armed(alerts).(failingSince := Some(0.0));
    var s2 := s1.(refreshing := true, asked := 1);
    RunOneMore(alerts, interval, [], e0);
    assert [] + [e0] == [e0] && After(alerts, interval, [e0]) == s1;
    RunOneMore(alerts, interval, [e0], e1);
    assert [e0] + [e1] == [e0, e1] && After(alerts, interval, [e0, e1]) == s2;
    RunOneMore(alerts, interval, [e0, e1], e2);
    assert [e0, e1] + [e2] == [e0, e1, e2] && After(alerts, interval, [e0, e1, e2]) == s2.(disposed := true);
    RunOneMore(alerts, interval, [e0, e1, e2], e3);
    assert [e0, e1, e2] + [e3] == [e0, e1, e2, e3];
    assert After(alerts, interval, [e0, e1, e2, e3]) == s1.(disposed := true);
    RunOneMore(alerts, interval, [e0, e1, e2, e3], e4);
    assert [e0, e1, e2, e3] + [e4] == [e0, e1, e2, e3, e4];
    assert [e0, e1, e2, e3, e4][2].what.Disposal?;
  }

  lemma RunOneMore(alerts: Alerts, interval: real, front: seq<Event>, e: Event)
    requires IsRun(alerts, interval, front) && Enabled(After(alerts, interval, front), e)
    ensures IsRun(alerts, interval, front + [e])
    ensures After(alerts, interval, front + [e]) == Step(After(alerts, interval, front), interval, e)
  {
    assert (front + [e])[..|front + [e]| - 1] == front;
  }

  /* ---- what is sent, and when ---- */

  function FixOf(e: Event): Fix
    requires IsFix(e)
  {
    Fix(e.what.place, e.stamp.now, e.stamp.wall)
  }

  ghost predicate LastHeard(events: seq<Event>, i: nat) {
    HeardFix(events, i) && NoFixSince(events, i + 1)
  }

  /** The fix kept is the last one heard. */
  ghost predicate Remembers(events: seq<Event>, latest: Option<Fix>) {
    && (forall i: nat :: LastHeard(events, i) ==> latest == Some(FixOf(events[i])))
    && (latest.Some? ==> exists i: nat :: LastHeard(events, i))
  }

  lemma LastHeardMore(events: seq<Event>, n: nat)
    requires n + 1 == |events|
    ensures forall i: nat :: i < n ==> (LastHeard(events, i) <==> LastHeard(events[..n], i) && !HeardFix(events, n))
    ensures forall i: nat :: i >= n ==> (LastHeard(events, i) <==> i == n && HeardFix(events, n))
    ensures forall i: nat :: LastHeard(events[..n], i) ==> i < n
  {
    HeardOneMore(events, n);
    assert forall i: nat :: i > n ==> !HeardFix(events, i);
    hide Heard, IsFix;
  }

  lemma RemembersMore(events: seq<Event>, n: nat, was: Option<Fix>, now: Option<Fix>)
    requires n + 1 == |events| && Remembers(events[..n], was)
    requires HeardFix(events, n) ==> IsFix(events[n])
    requires now == if HeardFix(events, n) then Some(FixOf(events[n])) else was
    ensures Remembers(events, now)
  {
    LastHeardMore(events, n);
    hide HeardFix, NoFixSince;
    if HeardFix(events, n) {
      assert LastHeard(events, n);
    } else if was.Some? {
      var i: nat :| LastHeard(events[..n], i);
      assert LastHeard(events, i);
    }
  }

  /** An answer to a position request is not heard after the disposal; everything else is. */
  predicate HeardIn(s: State, e: Event) {
    e.what.RefreshFix? || e.what.RefreshError? ==> !s.disposed
  }

  lemma SendingKeepsLatest(s: State, interval: real, t: Stamp)
    ensures Sent(s, interval, t).latest == s.latest
  {
  }

  lemma LatestStep(s: State, interval: real, e: Event)
    requires Enabled(s, e)
    ensures Step(s, interval, e).latest == if IsFix(e) && HeardIn(s, e) then Some(FixOf(e)) else s.latest
  {
    hide Sent;
    match e.what {
      case WatchFix(place) => SendingKeepsLatest(Remembered(s, place, e.stamp), interval, e.stamp);
      case RefreshFix(place) =>
        var s' := s.(refreshing := false, asked := s.asked - 1);
        SendingKeepsLatest(Remembered(s', place, e.stamp), interval, e.stamp);
      case Tick => SendingKeepsLatest(s, interval, e.stamp);
      case _ =>
    }
  }

  lemma {:induction false} LatestIsLastHeard(alerts: Alerts, interval: real, events: seq<Event>)
    requires IsRun(alerts, interval, events)
    ensures Remembers(events, After(alerts, interval, events).latest)
  {
    if events != [] {
      var front, e := events[..|events| - 1], events[|events| - 1];
      LatestIsLastHeard(alerts, interval, front);
      HeardNow(alerts, interval, events);
      LatestStep(After(alerts, interval, front), interval, e);
      hide Step, LastHeard, Remembers, HeardFix;
      RemembersMore(events, |front|, After(alerts, interval, front).latest, After(alerts, interval, events).latest);
    }
  }

  /** Every request sent has been answered. */
  ghost predicate AllAnswered(s: State) {
    forall k :: 0 <= k < |s.posts| ==> k in s.settled
  }

  /** A handler that may send: a fix that is heard or the timer, before disposal, with nothing unanswered and the
   interval over since the last request. */
  ghost predicate MaySend(s: State, interval: real, e: Event) {
    && ((IsFix(e) && HeardIn(s, e)) || e.what.Tick?) && !s.disposed && AllAnswered(s)
    && (s.posts == [] || e.stamp.now - s.posts[|s.posts| - 1].at >= interval)
  }

  /** No older than two minutes, by either clock. */
  predicate Fresh(fix: Fix, t: Stamp) {
    t.now - fix.receivedAt <= 120_000.0 && t.wall - fix.receivedWallAt <= 120_000.0
  }

  /** What a handler sends: the last fix, when it may send and that is fresh. */
  function SentNow(latest: Option<Fix>, t: Stamp, may: bool): seq<Post> {
    if may && latest.Some? && Fresh(latest.value, t) then [Post(latest.value, t.now, t.wall)] else []
  }

  /** It asks for a position instead when the last fix is missing or old, none is on its way and none was denied. */
  ghost predicate Asks(s: State, interval: real, e: Event, latest: Option<Fix>) {
    && MaySend(s, interval, e) && (latest.None? || !Fresh(latest.value, e.stamp)) && s.asked == 0 && !s.denied
  }

  predicate Denies(s: State, e: Event) {
    (e.what.WatchError? || e.what.RefreshError?) && e.what.denial && HeardIn(s, e)
  }

  /** All that a handler does to what is seen of the effect: requests, positions asked for, denial and alert. */
  ghost predicate Seen(s: State, interval: real, e: Event, s': State) {
    var asks := Asks(s, interval, e, s'.latest);
    && s'.posts == s.posts + SentNow(s'.latest, e.stamp, MaySend(s, interval, e))
    && s'.settled == s.settled + (if e.what.Settled? then {e.what.post} else {})
    && s'.asked == s.asked - (if e.what.RefreshFix? || e.what.RefreshError? then 1 else 0)
                   + (if asks && !e.stamp.geoThrows then 1 else 0)
    && s'.denied == (s.denied || Denies(s, e) || (asks && e.stamp.geoThrows))
    && s'.blocked == (Denies(s, e) || (asks && e.stamp.geoThrows) || (s.blocked && !(IsFix(e) && HeardIn(s, e))))
  }

  lemma MaySendExactly(s: State, interval: real, e: Event)
    requires Inv(s, interval)
    ensures MaySend(s, interval, e) <==>
              ((IsFix(e) && HeardIn(s, e)) || e.what.Tick?) && !NotDue(s, interval, e.stamp)
    ensures s.refreshing <==> s.asked > 0
  {
    hide Spaced, FreshWhenSent;
    if s.inFlight.Some? {
      assert s.inFlight.value !in s.settled;
    }
  }

  lemma TickSeen(s: State, interval: real, e: Event)
    requires Inv(s, interval) && e.what.Tick?
    ensures Seen(s, interval, e, Step(s, interval, e))
  {
    MaySendExactly(s, interval, e);
    hide Inv, MaySend, NotDue;
    assert s.settled + {} == s.settled && s.posts + [] == s.posts;
  }

  lemma FixSeen(s: State, interval: real, e: Event)
    requires Inv(s, interval) && Enabled(s, e) && IsFix(e)
    ensures Seen(s, interval, e, Step(s, interval, e))
  {
    MaySendExactly(s, interval, e);
    hide Inv, MaySend;
    assert s.settled + {} == s.settled && s.posts + [] == s.posts;
  }

  lemma ErrorSeen(s: State, interval: real, e: Event)
    requires Inv(s, interval) && Enabled(s, e) && !IsFix(e) && !e.what.Tick?
    ensures Seen(s, interval, e, Step(s, interval, e))
  {
    hide Inv, Sent, AllAnswered;
    assert !MaySend(s, interval, e);
    hide MaySend;
    assert s.settled + {} == s.settled && s.posts + [] == s.posts;
  }

  lemma StepSeen(s: State, interval: real, e: Event)
    requires Inv(s, interval) && Enabled(s, e)
    ensures Seen(s, interval, e, Step(s, interval, e))
  {
    hide Inv, Step, Seen;
    if e.what.Tick? {
      TickSeen(s, interval, e);
    } else if IsFix(e) {
      FixSeen(s, interval, e);
    } else {
      ErrorSeen(s, interval, e);
    }
  }

  /**
   One event more, in every run: exactly then a request goes out, with the place and the clocks of the last fix that was
   heard; exactly then a position is asked for; and the rider is told that location is blocked by a denial or a
   throwing browser until a fix is heard.
   */
  lemma SentExactly(alerts: Alerts, interval: real, events: seq<Event>)
    requires IsRun(alerts, interval, events) && events != []
    ensures var n := |events| - 1;
            && IsRun(alerts, interval, events[..n])
            && var s, s' := After(alerts, interval, events[..n]), After(alerts, interval, events);
            && Seen(s, interval, events[n], s') && Remembers(events, s'.latest)
            && (s.disposed <==> DisposedBefore(events, n))
  {
    var front := events[..|events| - 1];
    Safe(alerts, interval, front);
    StepSeen(After(alerts, interval, front), interval, events[|events| - 1]);
    LatestIsLastHeard(alerts, interval, events);
    DisposedExactly(alerts, interval, front);
    assert forall j :: 0 <= j < |front| ==> front[j] == events[j];
    hide Seen, Remembers, Inv;
  }
}
