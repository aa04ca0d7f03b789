/**
 The bulk-promotion pool of scripts/pmd/promote.ts: workers share one candidate index and one set of counters,
 and each promotion is retried while two workers race for the same unique key.

 JavaScript runs a worker from one `await` to the next without interruption, so a step is either taking the
 next candidate or handling the outcome of one attempt. A run is any sequence of such steps by any workers.
 */
module WorkerPool {
  import opened Text

  const MAX_ATTEMPTS := 5

  /** How one attempt ends; a clash is the database's unique-key error 23505. */
  datatype Outcome = Adopted | Promoted | Clash | Refused(code: string)

  datatype Worker = Ready | Trying(candidate: nat, attempt: nat) | Finished

  /** Which worker took which candidate. */
  datatype Take = Take(worker: nat, candidate: nat)

  /** The shared variables, the workers, and two records of the past: every take, and the attempts per candidate. */
  datatype State = State(
    total: nat, next: nat, workers: seq<Worker>,
    promoted: nat, adopted: nat, failed: multiset<string>, done: nat,
    takes: seq<Take>, tries: map<nat, nat>)

  datatype Event = Event(worker: nat, outcome: Outcome)

  /* ---- the number of workers ---- */

  /** `Math.min(32, Math.max(1, Math.floor(Number(arg))))` workers; None is not a number, and gives no worker at all. */
  function Concurrency(arg: Option<real>): nat {
    match arg
    case None => 0
    case Some(x) => if x.Floor < 1 then 1 else if x.Floor > 32 then 32 else x.Floor
  }

  function Start(total: nat, workers: nat): State {
    State(total, 0, seq(workers, i => Ready), 0, 0, multiset{}, 0, [], map[])
  }

  /* ---- steps ---- */

  predicate Enabled(s: State, e: Event) {
    e.worker < |s.workers| && s.workers[e.worker] != Finished
  }

  function TryCount(s: State, candidate: nat): nat {
    if candidate in s.tries then s.tries[candidate] else 0
  }

  /** `candidates[next++]`: a candidate to try, or the end of the worker. */
  function Taken(s: State, w: nat): State
    requires w < |s.workers|
  {
    var s' := s.(next := s.next + 1);
    if s.next < s.total then
      s'.(workers := s.workers[w := Trying(s.next, 1)], takes := s.takes + [Take(w, s.next)])
    else
      s'.(workers := s.workers[w := Finished])
  }

  function Attempted(s: State, w: nat, outcome: Outcome): State
    requires w < |s.workers| && s.workers[w].Trying?
  {
    var Trying(c, attempt) := s.workers[w];
    var tried := s.(tries := s.tries[c := TryCount(s, c) + 1]);
    if outcome == Clash && attempt < MAX_ATTEMPTS then
      tried.(workers := s.workers[w := Trying(c, attempt + 1)])
    else
      Counted(tried, outcome).(workers := s.workers[w := Ready], done := s.done + 1)
  }

  /** How a candidate that is done with is counted. */
  function Counted(s: State, outcome: Outcome): State {
    match outcome
    case Adopted => s.(adopted := s.adopted + 1)
    case Promoted => s.(promoted := s.promoted + 1)
    case Clash => s.(failed := s.failed + multiset{"ERROR"})
    case Refused(code) => s.(failed := s.failed + multiset{code})
  }

  function Step(s: State, e: Event): State
    requires Enabled(s, e)
  {
    if s.workers[e.worker] == Ready then Taken(s, e.worker) else Attempted(s, e.worker, e.outcome)
  }

  predicate IsRun(s: State, events: seq<Event>)
    decreases |events|
  {
    events == [] || (Enabled(s, events[0]) && IsRun(Step(s, events[0]), events[1..]))
  }

  function Run(s: State, events: seq<Event>): State
    requires IsRun(s, events)
    decreases |events|
  {
    if events == [] then s else Run(Step(s, events[0]), events[1..])
  }

  predicate AllFinished(s: State) {
    forall w :: 0 <= w < |s.workers| ==> s.workers[w] == Finished
  }

  /** The pool as the script keeps it: variables every worker updates in place. */
  class Pool {
    const total: nat
    var next: nat
    var workers: seq<Worker>
    var promoted: nat
    var adopted: nat
    var failed: multiset<string>
    var done: nat
    ghost var takes: seq<Take>
    ghost var tries: map<nat, nat>

    ghost function Snapshot(): State
      reads this
    {
      State(total, next, workers, promoted, adopted, failed, done, takes, tries)
    }

    constructor (candidates: nat, concurrency: Option<real>)
      ensures Snapshot() == Start(candidates, Concurrency(concurrency))
    {
      total, next, promoted, adopted, done := candidates, 0, 0, 0, 0;
      workers := seq(Concurrency(concurrency), i => Ready);
      failed := multiset{};
      takes, tries := [], map[];
    }

    method TakeNext(w: nat)
      requires w < |workers| && workers[w] == Ready
      modifies this
      ensures Snapshot() == Taken(old(Snapshot()), w)
    {
      var c := next;
      next := next + 1;
      if c < total {
        workers := workers[w := Trying(c, 1)];
        takes := takes + [Take(w, c)];
      } else {
        workers := workers[w := Finished];
      }
    }

    method HandleAttempt(w: nat, outcome: Outcome)
      requires w < |workers| && workers[w].Trying?
      modifies this
      ensures Snapshot() == Attempted(old(Snapshot()), w, outcome)
    {
      hide TryCount, Counted;
      var c, attempt := workers[w].candidate, workers[w].attempt;
      tries := tries[c := TryCount(Snapshot(), c) + 1];
      if outcome == Clash && attempt < MAX_ATTEMPTS {
        workers := workers[w := Trying(c, attempt + 1)];
        return;
      }
      CountOutcome(outcome);
      workers := workers[w := Ready];
      done := done + 1;
    }

    method CountOutcome(outcome: Outcome)
      modifies this`promoted, this`adopted, this`failed
      ensures Snapshot() == Counted(old(Snapshot()), outcome)
    {
      match outcome {
        case Adopted => adopted := adopted + 1;
        case Promoted => promoted := promoted + 1;
        case Clash => failed := failed + multiset{"ERROR"};
        case Refused(code) => failed := failed + multiset{code};
      }
    }
  }

  /* ---- sums over the workers ---- */

  function Sum(f: Worker -> nat, workers: seq<Worker>): nat {
    if workers == [] then 0 else f(workers[0]) + Sum(f, workers[1..])
  }

  lemma {:induction false} SumUpdate(f: Worker -> nat, workers: seq<Worker>, w: nat, x: Worker)
    requires w < |workers|
    ensures Sum(f, workers[w := x]) + f(workers[w]) == Sum(f, workers) + f(x)
  {
    if w == 0 {
      assert workers[0 := x][1..] == workers[1..];
    } else {
      SumUpdate(f, workers[1..], w - 1, x);
      assert workers[w := x][1..] == workers[1..][w - 1 := x];
    }
  }

  lemma {:induction false} SumConstant(f: Worker -> nat, workers: seq<Worker>, v: nat)
    requires forall w :: 0 <= w < |workers| ==> f(workers[w]) == v
    ensures Sum(f, workers) == v * |workers|
  {
    if workers != [] {
      SumConstant(f, workers[1..], v);
    }
  }

  function IsTrying(w: Worker): nat {
    if w.Trying? then 1 else 0
  }

  /** How many more steps a worker can make without taking another candidate, and one to find the list empty. */
  function StepsLeft(w: Worker): nat {
    match w
    case Ready => 1
    case Trying(_, attempt) => if attempt <= MAX_ATTEMPTS then 7 - attempt else 1
    case Finished => 0
  }

  function Budget(s: State): int {
    6 * (s.total - |s.takes|) + Sum(StepsLeft, s.workers)
  }

  /* ---- what every step keeps ---- */

  /** Candidates are taken in order, each by the worker that is trying it, and no attempt is a sixth one. */
  ghost predicate Assigned(s: State) {
    && |s.takes| == (if s.next < s.total then s.next else s.total)
    && (forall i :: 0 <= i < |s.takes| ==> s.takes[i].candidate == i)
    && (forall w :: 0 <= w < |s.workers| && s.workers[w].Trying? ==>
          var Trying(c, attempt) := s.workers[w];
          && c < |s.takes| && s.takes[c].worker == w
          && 1 <= attempt <= MAX_ATTEMPTS && TryCount(s, c) == attempt - 1)
    && (forall c :: c in s.tries ==> c < |s.takes| && 1 <= s.tries[c] <= MAX_ATTEMPTS)
    && (forall w :: 0 <= w < |s.workers| && s.workers[w] == Finished ==> s.total <= s.next)
  }

  /** Every candidate taken is settled and counted once, or is still being tried. */
  ghost predicate Balanced(s: State) {
    && s.promoted + s.adopted + |s.failed| == s.done
    && s.done + Sum(IsTrying, s.workers) == |s.takes|
  }

  ghost predicate Inv(s: State) {
    Assigned(s) && Balanced(s)
  }

  lemma StartInv(total: nat, workers: nat)
    ensures Inv(Start(total, workers)) && Budget(Start(total, workers)) == 6 * total + workers
  {
    SumConstant(IsTrying, Start(total, workers).workers, 0);
    SumConstant(StepsLeft, Start(total, workers).workers, 1);
  }

  lemma TakenInv(s: State, w: nat)
    requires Inv(s) && w < |s.workers| && s.workers[w] == Ready
    ensures Inv(Taken(s, w)) && Budget(Taken(s, w)) < Budget(s)
  {
    var s' := Taken(s, w);
    SumUpdate(IsTrying, s.workers, w, s'.workers[w]);
    SumUpdate(StepsLeft, s.workers, w, s'.workers[w]);
  }

  lemma AttemptedAssigned(s: State, w: nat, outcome: Outcome)
    requires Assigned(s) && w < |s.workers| && s.workers[w].Trying?
    ensures Assigned(Attempted(s, w, outcome))
  {
    var s' := Attempted(s, w, outcome);
    var c := s.workers[w].candidate;
    forall v | 0 <= v < |s'.workers| && s'.workers[v].Trying? && v != w
      ensures s'.workers[v] == s.workers[v] && s.workers[v].candidate != c
    {
    }
  }

  lemma AttemptedInv(s: State, w: nat, outcome: Outcome)
    requires Inv(s) && w < |s.workers| && s.workers[w].Trying?
    ensures Inv(Attempted(s, w, outcome)) && Budget(Attempted(s, w, outcome)) < Budget(s)
  {
    AttemptedAssigned(s, w, outcome);
    assert 1 <= s.workers[w].attempt <= MAX_ATTEMPTS;
    hide Assigned;
    var s' := Attempted(s, w, outcome);
    SumUpdate(IsTrying, s.workers, w, s'.workers[w]);
    SumUpdate(StepsLeft, s.workers, w, s'.workers[w]);
  }

  lemma StepInv(s: State, e: Event)
    requires Inv(s) && Enabled(s, e)
    ensures Inv(Step(s, e)) && Budget(Step(s, e)) < Budget(s)
    ensures Step(s, e).total == s.total && |Step(s, e).workers| == |s.workers|
  {
    hide Inv, Budget;
    if s.workers[e.worker] == Ready {
      TakenInv(s, e.worker);
    } else {
      AttemptedInv(s, e.worker, e.outcome);
    }
  }

  lemma {:induction false} RunInv(s: State, events: seq<Event>)
    requires Inv(s) && IsRun(s, events)
    ensures Inv(Run(s, events))
    ensures |events| <= Budget(s)
    ensures Run(s, events).total == s.total && |Run(s, events).workers| == |s.workers|
    decreases |events|
  {
    BudgetIsLeft(s);
    hide Inv, Budget, Step;
    if events != [] {
      StepInv(s, events[0]);
      RunInv(Step(s, events[0]), events[1..]);
    }
  }

  lemma BudgetIsLeft(s: State)
    requires Inv(s)
    ensures Budget(s) >= 0
  {
  }

  /* ---- the guarantees ---- */

  /**
   After any interleaving: no candidate is taken twice, none is tried more than five times, and what has been
   counted is exactly what has been settled.
   */
  lemma Conservation(total: nat, workers: nat, events: seq<Event>)
    requires IsRun(Start(total, workers), events)
    ensures var s := Run(Start(total, workers), events);
            && (forall i, j :: 0 <= i < j < |s.takes| ==> s.takes[i].candidate != s.takes[j].candidate)
            && (forall i :: 0 <= i < |s.takes| ==>
               s.takes[i].candidate < total && TryCount(s, s.takes[i].candidate) <= MAX_ATTEMPTS)
            && s.promoted + s.adopted + |s.failed| == s.done <= |s.takes|
  {
    StartInv(total, workers);
    RunInv(Start(total, workers), events);
  }

  /**
   No run is longer than six steps a candidate and one a worker, and a worker that is not finished can always step.
   */
  lemma Terminates(total: nat, workers: nat, events: seq<Event>)
    requires IsRun(Start(total, workers), events)
    ensures |events| <= 6 * total + workers
    ensures var s := Run(Start(total, workers), events);
            AllFinished(s) <==> forall e :: !Enabled(s, e)
  {
    StartInv(total, workers);
    RunInv(Start(total, workers), events);
    var s := Run(Start(total, workers), events);
    if !AllFinished(s) {
      var w :| 0 <= w < |s.workers| && s.workers[w] != Finished;
      assert Enabled(s, Event(w, Clash));
    }
  }

  /**
   When all workers have finished, every candidate was settled exactly when there was a worker at all or nothing
   to do: a concurrency that is not a number starts no worker, and the script reports nothing done.
   */
  lemma AllDone(total: nat, concurrency: Option<real>, events: seq<Event>)
    requires IsRun(Start(total, Concurrency(concurrency)), events)
    requires AllFinished(Run(Start(total, Concurrency(concurrency)), events))
    ensures var s := Run(Start(total, Concurrency(concurrency)), events);
            && s.promoted + s.adopted + |s.failed| == s.done
            && (s.done == total <==> concurrency.Some? || total == 0)
            && (s.done == total ==> |s.takes| == total && forall c :: 0 <= c < total ==> s.takes[c].candidate == c)
  {
    var start := Start(total, Concurrency(concurrency));
    StartInv(total, Concurrency(concurrency));
    RunInv(start, events);
    var s := Run(start, events);
    SumConstant(IsTrying, s.workers, 0);
    if concurrency.Some? {
      assert s.workers[0] == Finished;
    }
  }

  /* ---- every attempt and what came of it ---- */

  /** One attempt: which candidate was tried, and how it ended. */
  type Entry = (nat, Outcome)

  /** The attempts of a run, in order; a step that only takes a candidate is none. */
  function Log(s: State, events: seq<Event>): seq<Entry>
    requires IsRun(s, events)
    decreases |events|
  {
    if events == [] then [] else EntryOf(s, events[0]) + Log(Step(s, events[0]), events[1..])
  }

  function EntryOf(s: State, e: Event): seq<Entry>
    requires Enabled(s, e)
  {
    if s.workers[e.worker].Trying? then [(s.workers[e.worker].candidate, e.outcome)] else []
  }

  /** The attempts of one candidate. */
  function Of(log: seq<Entry>, c: nat): seq<Outcome> {
    if log == [] then []
    else
      var n := |log| - 1;
      Of(log[..n], c) + (if log[n].0 == c then [log[n].1] else [])
  }

  function Counting(log: seq<Entry>, outcome: Outcome): nat {
    if log == [] then 0
    else
      var n := |log| - 1;
      Counting(log[..n], outcome) + (if log[n].1 == outcome then 1 else 0)
  }

  /** What the candidates failed with: the code of a refusal, and "ERROR" for a fifth clash. */
  function Failures(log: seq<Entry>): multiset<string> {
    if log == [] then multiset{}
    else
      var n := |log| - 1;
      Failures(log[..n]) + FailureOf(log[n].1, Of(log[..n], log[n].0))
  }

  function FailureOf(outcome: Outcome, before: seq<Outcome>): multiset<string> {
    match outcome
    case Refused(code) => multiset{code}
    case Clash => if |before| == 4 then multiset{"ERROR"} else multiset{}
    case _ => multiset{}
  }

  predicate OnlyClashes(outcomes: seq<Outcome>) {
    forall o :: o in outcomes ==> o == Clash
  }

  /** Clashes, and then something else or a fifth clash. */
  predicate Over(outcomes: seq<Outcome>) {
    && outcomes != [] && OnlyClashes(outcomes[..|outcomes| - 1])
    && (outcomes[|outcomes| - 1] != Clash || |outcomes| == 5)
  }

  predicate BeingTried(s: State, c: nat) {
    exists w :: 0 <= w < |s.workers| && s.workers[w].Trying? && s.workers[w].candidate == c
  }

  /** The counters are those of the attempts; a candidate is tried until one attempt is no clash, or five times. */
  ghost predicate Logged(s: State, log: seq<Entry>) {
    && s.promoted == Counting(log, Promoted) && s.adopted == Counting(log, Adopted) && s.failed == Failures(log)
    && (forall w :: 0 <= w < |s.workers| && s.workers[w].Trying? ==> Ongoing(log, s.workers[w]))
    && (forall c: nat :: c < |s.takes| && !BeingTried(s, c) ==> Over(Of(log, c)))
    && (forall c: nat :: c >= |s.takes| ==> Of(log, c) == [])
  }

  /** So far only clashes, one fewer than the number of the attempt. */
  predicate Ongoing(log: seq<Entry>, w: Worker)
    requires w.Trying?
  {
    OnlyClashes(Of(log, w.candidate)) && |Of(log, w.candidate)| == w.attempt - 1
  }

  lemma OfMore(log: seq<Entry>, e: Entry, c: nat)
    ensures Of(log + [e], c) == if e.0 == c then Of(log, c) + [e.1] else Of(log, c)
  {
    assert (log + [e])[..|log|] == log;
  }

  lemma CountsMore(log: seq<Entry>, e: Entry)
    ensures forall o :: Counting(log + [e], o) == Counting(log, o) + (if e.1 == o then 1 else 0)
    ensures Failures(log + [e]) == Failures(log) + FailureOf(e.1, Of(log, e.0))
  {
    assert (log + [e])[..|log|] == log;
  }

  /** Who is being tried stays so while another worker takes a candidate, which is tried then. */
  lemma TakenTries(s: State, w: nat, c: nat)
    requires w < |s.workers| && s.workers[w] == Ready && (BeingTried(s, c) || (c == s.next && s.next < s.total))
    ensures BeingTried(Taken(s, w), c)
  {
    if BeingTried(s, c) {
      var v :| 0 <= v < |s.workers| && s.workers[v].Trying? && s.workers[v].candidate == c;
      assert Taken(s, w).workers[v] == s.workers[v];
    } else {
      assert Taken(s, w).workers[w].Trying? && Taken(s, w).workers[w].candidate == c;
    }
  }

  lemma TakenLogged(s: State, w: nat, log: seq<Entry>)
    requires Assigned(s) && Logged(s, log) && w < |s.workers| && s.workers[w] == Ready
    ensures Logged(Taken(s, w), log)
  {
    var s' := Taken(s, w);
    forall c: nat | c < |s'.takes| && !BeingTried(s', c) ensures Over(Of(log, c)) {
      if BeingTried(s, c) || c >= |s.takes| {
        TakenTries(s, w, c);
      }
    }
    hide Over, BeingTried;
  }

  lemma AttemptCounted(s: State, w: nat, outcome: Outcome, log: seq<Entry>)
    requires Assigned(s) && Logged(s, log) && w < |s.workers| && s.workers[w].Trying?
    ensures var s', log' := Attempted(s, w, outcome), log + [(s.workers[w].candidate, outcome)];
            && s'.promoted == Counting(log', Promoted) && s'.adopted == Counting(log', Adopted)
            && s'.failed == Failures(log')
  {
    assert Ongoing(log, s.workers[w]);
    assert 1 <= s.workers[w].attempt <= MAX_ATTEMPTS;
    CountsMore(log, (s.workers[w].candidate, outcome));
    hide Failures, Counting, Of, OnlyClashes, TryCount, Assigned;
  }

  /** Another worker tries another candidate. */
  lemma OthersGoOn(s: State, w: nat, outcome: Outcome, v: nat)
    requires Assigned(s) && w < |s.workers| && s.workers[w].Trying? && v < |s.workers| && v != w
    ensures Attempted(s, w, outcome).workers[v] == s.workers[v]
    ensures s.workers[v].Trying? ==> s.workers[v].candidate != s.workers[w].candidate
  {
    hide Counted, TryCount;
  }

  lemma AttemptTries(s: State, w: nat, outcome: Outcome, c: nat)
    requires Assigned(s) && w < |s.workers| && s.workers[w].Trying?
    requires if c == s.workers[w].candidate then outcome == Clash && s.workers[w].attempt < MAX_ATTEMPTS
             else BeingTried(s, c)
    ensures BeingTried(Attempted(s, w, outcome), c)
  {
    var s' := Attempted(s, w, outcome);
    if c == s.workers[w].candidate {
      assert s'.workers[w].Trying? && s'.workers[w].candidate == c;
    } else {
      var v :| 0 <= v < |s.workers| && s.workers[v].Trying? && s.workers[v].candidate == c;
      OthersGoOn(s, w, outcome, v);
    }
  }

  lemma OverWhen(outcomes: seq<Outcome>, outcome: Outcome)
    requires OnlyClashes(outcomes) && (outcome != Clash || |outcomes| == 4)
    ensures Over(outcomes + [outcome])
  {
    assert (outcomes + [outcome])[..|outcomes|] == outcomes;
  }

  lemma AttemptOver(s: State, w: nat, outcome: Outcome, log: seq<Entry>, c: nat)
    requires Assigned(s) && Logged(s, log) && w < |s.workers| && s.workers[w].Trying?
    requires c < |s.takes| && !BeingTried(Attempted(s, w, outcome), c)
    ensures Over(Of(log + [(s.workers[w].candidate, outcome)], c))
  {
    hide Attempted, Over, Of, OnlyClashes, BeingTried, TryCount;
    OfMore(log, (s.workers[w].candidate, outcome), c);
    assert Ongoing(log, s.workers[w]) && 1 <= s.workers[w].attempt <= MAX_ATTEMPTS;
    hide Assigned;
    if c == s.workers[w].candidate {
      if outcome == Clash && s.workers[w].attempt < MAX_ATTEMPTS {
        AttemptTries(s, w, outcome, c);
      } else {
        OverWhen(Of(log, c), outcome);
      }
    } else if BeingTried(s, c) {
      AttemptTries(s, w, outcome, c);
    }
  }

  lemma AttemptOngoing(s: State, w: nat, outcome: Outcome, log: seq<Entry>, v: nat)
    requires Assigned(s) && Logged(s, log) && w < |s.workers| && s.workers[w].Trying?
    requires v < |s.workers| && Attempted(s, w, outcome).workers[v].Trying?
    ensures Ongoing(log + [(s.workers[w].candidate, outcome)], Attempted(s, w, outcome).workers[v])
  {
    var s', e := Attempted(s, w, outcome), (s.workers[w].candidate, outcome);
    OfMore(log, e, s'.workers[v].candidate);
    assert Ongoing(log, s.workers[w]);
    if v != w {
      OthersGoOn(s, w, outcome, v);
      assert Ongoing(log, s.workers[v]);
    }
  }

  lemma AttemptLogged(s: State, w: nat, outcome: Outcome, log: seq<Entry>)
    requires Assigned(s) && Logged(s, log) && w < |s.workers| && s.workers[w].Trying?
    ensures Logged(Attempted(s, w, outcome), log + [(s.workers[w].candidate, outcome)])
  {
    var s', e := Attempted(s, w, outcome), (s.workers[w].candidate, outcome);
    AttemptCounted(s, w, outcome, log);
    assert s'.takes == s.takes && |s'.workers| == |s.workers|;
    assert e.0 < |s.takes|;
    hide Attempted, Over, Ongoing, Counting, Failures, Of, BeingTried, Assigned;
    forall v | 0 <= v < |s'.workers| && s'.workers[v].Trying? ensures Ongoing(log + [e], s'.workers[v]) {
      AttemptOngoing(s, w, outcome, log, v);
    }
    forall c: nat | c < |s'.takes| && !BeingTried(s', c) ensures Over(Of(log + [e], c)) {
      AttemptOver(s, w, outcome, log, c);
    }
    forall c: nat | c >= |s'.takes| ensures Of(log + [e], c) == [] {
      OfMore(log, e, c);
    }
  }

  lemma StepLogged(s: State, e: Event, log: seq<Entry>)
    requires Inv(s) && Logged(s, log) && Enabled(s, e)
    ensures Logged(Step(s, e), log + EntryOf(s, e))
  {
    hide Logged, Assigned, Balanced;
    if s.workers[e.worker].Trying? {
      AttemptLogged(s, e.worker, e.outcome, log);
    } else {
      TakenLogged(s, e.worker, log);
      assert log + [] == log;
    }
  }

  lemma {:induction false} RunLogged(s: State, events: seq<Event>, log: seq<Entry>)
    requires Inv(s) && Logged(s, log) && IsRun(s, events)
    ensures Logged(Run(s, events), log + Log(s, events))
    decreases |events|
  {
    hide Inv, Logged, Step, EntryOf;
    if events == [] {
      assert log + [] == log;
    } else {
      var e := events[0];
      StepInv(s, e);
      StepLogged(s, e, log);
      RunLogged(Step(s, e), events[1..], log + EntryOf(s, e));
      assert log + EntryOf(s, e) + Log(Step(s, e), events[1..]) == log + Log(s, events);
    }
  }

  /**
   After any interleaving the counters are what the attempts came to, and each candidate taken has been tried until
   one attempt was no clash, or five times, or still has a worker at it.
   */
  lemma TriedExactly(total: nat, workers: nat, events: seq<Event>)
    requires IsRun(Start(total, workers), events)
    ensures Logged(Run(Start(total, workers), events), Log(Start(total, workers), events))
  {
    var start := Start(total, workers);
    StartInv(total, workers);
    RunLogged(start, events, []);
    assert [] + Log(start, events) == Log(start, events);
  }

  /** As many workers as asked for, but at least one and at most 32. */
  lemma WorkersAsked(n: int, part: real)
    requires 0.0 <= part < 1.0
    ensures 1 <= Concurrency(Some(n as real + part)) <= 32
    ensures 1 <= n <= 32 ==> Concurrency(Some(n as real + part)) == n
    ensures n < 1 ==> Concurrency(Some(n as real + part)) == 1
    ensures n > 32 ==> Concurrency(Some(n as real + part)) == 32
  {
    assert (n as real + part).Floor == n;
  }
}
