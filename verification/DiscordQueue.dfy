/** The webhook queue with one send at a time (src/cowrie/output/discord.py). */
module DiscordQueue {
  import opened Common

  // Events are told apart by the number of their `write`.
  type Event = nat

  datatype Entry = Entry(event: Event, attempts: nat)

  datatype Config = Config(maxRetries: int, defaultDelay: real, retryDelay: real)

  // What comes of a request: a status, for 429 perhaps with a delay, or a failure.
  datatype Outcome = Answer(status: int, retryAfter: Option<real>) | Failed

  // The plugin's fields with its surroundings: requests under way, pending timers
  // (by delay), and the events that have left the plugin.
  datatype State = State(
    queue: seq<Entry>, sending: bool, stopped: bool,
    inFlight: seq<Entry>, timers: seq<real>, finished: seq<Event>)

  const IDLE := State([], false, false, [], [], [])

  // ----- the operations

  // `_process_queue`
  function Process(s: State): State {
    if s.stopped || s.sending || s.queue == [] then s
    else s.(sending := true, queue := s.queue[1..], inFlight := s.inFlight + [s.queue[0]])
  }

  function Written(s: State, event: Event): State {
    if s.stopped then s else Process(s.(queue := s.queue + [Entry(event, 0)]))
  }

  predicate RateLimited(o: Outcome) { o.Answer? && o.status == 429 }

  predicate Transient(o: Outcome) { o.Failed? || o.status >= 500 }

  predicate Retries(e: Entry, o: Outcome, c: Config) {
    Transient(o) && e.attempts < c.maxRetries
  }

  function Delay(e: Entry, o: Outcome, c: Config): real {
    if RateLimited(o) then (if o.retryAfter.Some? then o.retryAfter.value else c.retryDelay)
    else if Retries(e, o, c) then c.retryDelay
    else c.defaultDelay
  }

  // `_after_result` and `_after_error` for the request under way.
  function Concluded(s: State, o: Outcome, c: Config): State
    requires s.inFlight != []
  {
    var e := s.inFlight[0];
    var t := s.(inFlight := s.inFlight[1..], sending := false, timers := s.timers + [Delay(e, o, c)]);
    if RateLimited(o) then t.(queue := [e] + s.queue)
    else if Retries(e, o, c) then t.(queue := s.queue + [Entry(e.event, e.attempts + 1)])
    else t.(finished := s.finished + [e.event])
  }

  function Fired(s: State, i: nat): State
    requires i < |s.timers|
  {
    Process(s.(timers := s.timers[..i] + s.timers[i + 1..]))
  }

  function Stopped(s: State): State {
    s.(stopped := true, sending := false, queue := [])
  }

  // ----- what every run keeps

  function Events(es: seq<Entry>): (vs: seq<Event>)
    ensures |vs| == |es|
  {
    if es == [] then [] else [es[0].event] + Events(es[1..])
  }

  // The attempts that are left.
  function Weight(es: seq<Entry>, c: Config): int {
    if es == [] then 0 else Max(c.maxRetries, 0) + 1 - es[0].attempts + Weight(es[1..], c)
  }

  ghost predicate SingleFlight(s: State) {
    && |s.inFlight| <= 1
    && (!s.stopped ==> (s.sending <==> |s.inFlight| == 1))
    && (s.stopped ==> !s.sending)
  }

  // Nothing waits without something that will look at the queue again.
  ghost predicate Awake(s: State) {
    s.queue != [] && !s.stopped ==> s.sending || s.timers != []
  }

  ghost function Pending(s: State): seq<Entry> {
    s.inFlight + s.queue
  }

  // The requests that `n` events may conclude.
  function Allowance(n: nat, c: Config): int {
    (Max(c.maxRetries, 0) + 1) * n
  }

  lemma AllowanceGrows(n: nat, c: Config)
    ensures Allowance(n + 1, c) == Allowance(n, c) + Max(c.maxRetries, 0) + 1
  {
  }

  // What a run has done: the events written, for each event the requests concluded with
  // anything but 429, and whether one of them led to a retry.
  datatype History = History(written: seq<Event>, concluded: multiset<Event>, retried: bool)

  // No event is written twice, and none concludes more requests than it may.
  ghost predicate Counted(pending: seq<Entry>, h: History, c: Config) {
    && (forall v :: multiset(h.written)[v] <= 1)
    && (forall v :: v in h.concluded ==> v in multiset(h.written))
    && (forall v :: h.concluded[v] <= Max(c.maxRetries, 0) + 1)
    && (forall e :: e in pending ==> h.concluded[e.event] == e.attempts <= Max(c.maxRetries, 0))
  }

  // No event is lost or doubled; without a retry they keep their order.
  ghost predicate Conserved(finished: seq<Event>, pending: seq<Event>, h: History) {
    && multiset(h.written) == multiset(finished) + multiset(pending)
    && (!h.retried ==> h.written == finished + pending)
  }

  ghost predicate Allowed(weight: int, h: History, c: Config) {
    |h.concluded| + weight <= Allowance(|h.written|, c)
  }

  // The books: `pending` entries against all events written.
  ghost predicate Balanced(finished: seq<Event>, pending: seq<Entry>, h: History, c: Config) {
    Counted(pending, h, c) && Conserved(finished, Events(pending), h) && Allowed(Weight(pending, c), h, c)
  }

  ghost predicate Sound(s: State, h: History, c: Config) {
    && SingleFlight(s) && Awake(s)
    && (!s.stopped ==> Balanced(s.finished, Pending(s), h, c))
  }

  lemma IdleSound(c: Config)
    ensures Sound(IDLE, History([], multiset{}, false), c)
  {
  }

  function Noted(h: History, event: Event): History { h.(written := h.written + [event]) }

  // After a request for `event` that concluded with anything but 429.
  function Tallied(h: History, event: Event, retries: bool): History {
    h.(concluded := h.concluded + multiset{event}, retried := h.retried || retries)
  }

  lemma {:induction false} EventOfMember(es: seq<Entry>, e: Entry)
    requires e in es
    ensures multiset(Events(es))[e.event] > 0
  {
    if e != es[0] {
      EventOfMember(es[1..], e);
    }
  }

  // Entries beside the first are for other events.
  lemma OthersDiffer(finished: seq<Event>, e: Entry, rest: seq<Entry>, h: History, c: Config)
    requires Balanced(finished, [e] + rest, h, c)
    ensures forall o :: o in rest ==> o.event != e.event
  {
    PendingConcat([e], rest, c);
    One(e, c);
    forall o | o in rest
      ensures o.event != e.event
    {
      EventOfMember(rest, o);
      assert multiset(h.written)[o.event] <= 1;
    }
  }

  lemma {:induction false} PendingConcat(a: seq<Entry>, b: seq<Entry>, c: Config)
    ensures Events(a + b) == Events(a) + Events(b)
    ensures Weight(a + b, c) == Weight(a, c) + Weight(b, c)
  {
    if a == [] {
      assert a + b == b;
    } else {
      assert (a + b)[1..] == a[1..] + b;
      PendingConcat(a[1..], b, c);
    }
  }

  lemma One(e: Entry, c: Config)
    ensures Events([e]) == [e.event] && Weight([e], c) == Max(c.maxRetries, 0) + 1 - e.attempts
  {
    assert [e][1..] == [];
  }

  lemma {:induction false} WeightNotNegative(es: seq<Entry>, c: Config)
    requires forall e :: e in es ==> e.attempts <= Max(c.maxRetries, 0)
    ensures Weight(es, c) >= |es|
  {
    if es != [] {
      WeightNotNegative(es[1..], c);
    }
  }

  // Sending the head of the queue changes nothing in the books.
  lemma ProcessKeeps(s: State, h: History, c: Config)
    requires SingleFlight(s) && (!s.stopped ==> Balanced(s.finished, Pending(s), h, c))
    ensures SingleFlight(Process(s))
    ensures Process(s).stopped == s.stopped && Process(s).finished == s.finished
    ensures !s.stopped ==> Process(s).sending || s.queue == []
    ensures !s.stopped ==> Balanced(s.finished, Pending(Process(s)), h, c)
  {
    hide Balanced;
    if !s.stopped && !s.sending && s.queue != [] {
      assert s.queue == [s.queue[0]] + s.queue[1..];
      assert Pending(Process(s)) == Pending(s);
    }
  }

  lemma CountedWrite(pending: seq<Entry>, event: Event, h: History, c: Config)
    requires Counted(pending, h, c) && event !in h.written
    ensures Counted(pending + [Entry(event, 0)], Noted(h, event), c)
  {
    assert multiset(h.written + [event]) == multiset(h.written) + multiset{event};
  }

  lemma AllowedWrite(weight: int, event: Event, h: History, c: Config)
    requires Allowed(weight, h, c)
    ensures Allowed(weight + Max(c.maxRetries, 0) + 1, Noted(h, event), c)
  {
    AllowanceGrows(|h.written|, c);
  }

  lemma ConservedWrite(finished: seq<Event>, pending: seq<Event>, event: Event, h: History)
    requires Conserved(finished, pending, h)
    ensures Conserved(finished, pending + [event], Noted(h, event))
  {
    ConcatAssociates(finished, pending, [event]);
  }

  lemma BalancedWrite(finished: seq<Event>, pending: seq<Entry>, event: Event, h: History, c: Config)
    requires Balanced(finished, pending, h, c) && event !in h.written
    ensures Balanced(finished, pending + [Entry(event, 0)], Noted(h, event), c)
  {
    var e := Entry(event, 0);
    hide Events, Weight, Allowed, Counted, Conserved;
    PendingConcat(pending, [e], c);
    One(e, c);
    CountedWrite(pending, event, h, c);
    ConservedWrite(finished, Events(pending), event, h);
    AllowedWrite(Weight(pending, c), event, h, c);
  }

  lemma CountedRetry(e: Entry, rest: seq<Entry>, h: History, c: Config)
    requires Counted([e] + rest, h, c) && e.attempts < c.maxRetries && forall o :: o in rest ==> o.event != e.event
    requires e.event in h.written
    ensures Counted(rest + [Entry(e.event, e.attempts + 1)], Tallied(h, e.event, true), c)
  {
    assert e in [e] + rest;
  }

  lemma ConservedRetry(finished: seq<Event>, v: Event, rest: seq<Event>, h: History)
    requires Conserved(finished, [v] + rest, h)
    ensures v in h.written && Conserved(finished, rest + [v], Tallied(h, v, true))
  {
    assert v in multiset(h.written);
  }

  lemma AllowedTally(weight: int, less: int, v: Event, retries: bool, h: History, c: Config)
    requires Allowed(weight, h, c) && less < weight
    ensures Allowed(less, Tallied(h, v, retries), c)
  {
  }

  lemma BalancedRetry(finished: seq<Event>, e: Entry, rest: seq<Entry>, h: History, c: Config)
    requires Balanced(finished, [e] + rest, h, c) && e.attempts < c.maxRetries
    ensures Balanced(finished, rest + [Entry(e.event, e.attempts + 1)], Tallied(h, e.event, true), c)
    ensures Weight(rest + [Entry(e.event, e.attempts + 1)], c) == Weight([e] + rest, c) - 1
  {
    var again := Entry(e.event, e.attempts + 1);
    hide Events, Weight, Allowed, Counted, Conserved;
    OthersDiffer(finished, e, rest, h, c);
    PendingConcat([e], rest, c);
    PendingConcat(rest, [again], c);
    One(e, c);
    One(again, c);
    ConservedRetry(finished, e.event, Events(rest), h);
    CountedRetry(e, rest, h, c);
    AllowedTally(Weight([e] + rest, c), Weight(rest + [again], c), e.event, true, h, c);
  }

  lemma CountedFinish(e: Entry, rest: seq<Entry>, h: History, c: Config)
    requires Counted([e] + rest, h, c) && forall o :: o in rest ==> o.event != e.event
    requires e.event in h.written
    ensures Counted(rest, Tallied(h, e.event, false), c)
  {
    assert e in [e] + rest;
  }

  lemma ConservedFinish(finished: seq<Event>, v: Event, rest: seq<Event>, h: History)
    requires Conserved(finished, [v] + rest, h)
    ensures v in h.written && Conserved(finished + [v], rest, Tallied(h, v, false))
  {
    assert v in multiset(h.written);
    ConcatAssociates(finished, [v], rest);
  }

  lemma BalancedFinish(finished: seq<Event>, e: Entry, rest: seq<Entry>, h: History, c: Config)
    requires Balanced(finished, [e] + rest, h, c)
    ensures Balanced(finished + [e.event], rest, Tallied(h, e.event, false), c)
    ensures Weight(rest, c) < Weight([e] + rest, c)
  {
    assert e in [e] + rest && e.attempts <= Max(c.maxRetries, 0);
    hide Events, Weight, Allowed, Counted, Conserved;
    OthersDiffer(finished, e, rest, h, c);
    PendingConcat([e], rest, c);
    One(e, c);
    ConservedFinish(finished, e.event, Events(rest), h);
    CountedFinish(e, rest, h, c);
    AllowedTally(Weight([e] + rest, c), Weight(rest, c), e.event, false, h, c);
  }

  lemma WrittenKeeps(s: State, event: Event, h: History, c: Config)
    requires Sound(s, h, c) && event !in h.written
    ensures Sound(Written(s, event), if s.stopped then h else Noted(h, event), c)
  {
    if !s.stopped {
      var e := Entry(event, 0);
      var t := s.(queue := s.queue + [e]);
      assert Pending(t) == Pending(s) + [e] by {
        ConcatAssociates(s.inFlight, s.queue, [e]);
      }
      assert SingleFlight(t) && t.queue != [] && Written(s, event) == Process(t) && !Process(t).stopped;
      hide Balanced, Pending, SingleFlight, Process, Written, Noted;
      BalancedWrite(s.finished, Pending(s), event, h, c);
      ProcessKeeps(t, Noted(h, event), c);
    }
  }

  lemma FiredKeeps(s: State, i: nat, h: History, c: Config)
    requires i < |s.timers| && Sound(s, h, c)
    ensures Sound(Fired(s, i), h, c)
  {
    hide Balanced;
    ProcessKeeps(s.(timers := s.timers[..i] + s.timers[i + 1..]), h, c);
  }

  // The history after the request under way concluded.
  function Concludes(h: History, s: State, o: Outcome, c: Config): History
    requires s.inFlight != []
  {
    if RateLimited(o) then h else Tallied(h, s.inFlight[0].event, Retries(s.inFlight[0], o, c))
  }

  lemma ConcludedRateLimited(s: State, o: Outcome, h: History, c: Config)
    requires s.inFlight != [] && Sound(s, h, c) && !s.stopped && RateLimited(o)
    ensures Pending(Concluded(s, o, c)) == Pending(s)
    ensures Sound(Concluded(s, o, c), h, c)
  {
    var e := s.inFlight[0];
    assert s.inFlight == [e] && s.inFlight[1..] == [];
    hide Balanced, Weight, Delay;
    assert Pending(Concluded(s, o, c)) == Pending(s);
  }

  lemma RetriedShape(s: State, o: Outcome, h: History, c: Config)
    requires s.inFlight != [] && Sound(s, h, c) && !s.stopped && !RateLimited(o) && Retries(s.inFlight[0], o, c)
    ensures
      var e, t := s.inFlight[0], Concluded(s, o, c);
      && Pending(s) == [e] + s.queue && Pending(t) == s.queue + [Entry(e.event, e.attempts + 1)]
      && t.finished == s.finished && SingleFlight(t) && Awake(t) && e.attempts < c.maxRetries
      && Balanced(s.finished, Pending(s), h, c) && Concludes(h, s, o, c) == Tallied(h, e.event, true)
  {
    assert s.inFlight == [s.inFlight[0]] && s.inFlight[1..] == [];
    hide Delay, RateLimited, Balanced, Tallied;
  }

  lemma ConcludedRetries(s: State, o: Outcome, h: History, c: Config)
    requires s.inFlight != [] && Sound(s, h, c) && !s.stopped && !RateLimited(o) && Retries(s.inFlight[0], o, c)
    ensures Sound(Concluded(s, o, c), Concludes(h, s, o, c), c)
    ensures Weight(Pending(Concluded(s, o, c)), c) < Weight(Pending(s), c)
  {
    hide Balanced, Weight, Pending, Concluded, SingleFlight, Awake, RateLimited, Retries, Concludes, Tallied;
    RetriedShape(s, o, h, c);
    BalancedRetry(s.finished, s.inFlight[0], s.queue, h, c);
  }

  lemma ConcludedFinishes(s: State, o: Outcome, h: History, c: Config)
    requires s.inFlight != [] && Sound(s, h, c) && !s.stopped && !RateLimited(o) && !Retries(s.inFlight[0], o, c)
    ensures Sound(Concluded(s, o, c), Concludes(h, s, o, c), c)
    ensures Weight(Pending(Concluded(s, o, c)), c) < Weight(Pending(s), c)
  {
    var e, t := s.inFlight[0], Concluded(s, o, c);
    assert s.inFlight == [e] && Pending(s) == [e] + s.queue && t.inFlight == [];
    assert Pending(t) == s.queue && SingleFlight(t) && Awake(t);
    hide Balanced, Weight, Delay, SingleFlight, Awake, Pending;
    BalancedFinish(s.finished, e, s.queue, h, c);
  }

  lemma ConcludedStopped(s: State, o: Outcome, h: History, h': History, c: Config)
    requires s.inFlight != [] && Sound(s, h, c) && s.stopped
    ensures Sound(Concluded(s, o, c), h', c)
  {
    hide Balanced;
  }

  /** Concluding the request under way: the books still balance, and the attempts left
      over all entries fall by one for a retry, by all the entry had left when it is
      done, and not at all for a 429. */
  lemma ConcludedKeeps(s: State, o: Outcome, h: History, c: Config)
    requires s.inFlight != [] && Sound(s, h, c)
    ensures Sound(Concluded(s, o, c), Concludes(h, s, o, c), c)
    ensures !s.stopped && RateLimited(o) ==> Weight(Pending(Concluded(s, o, c)), c) == Weight(Pending(s), c)
    ensures !s.stopped && !RateLimited(o) ==> Weight(Pending(Concluded(s, o, c)), c) < Weight(Pending(s), c)
  {
    hide Sound, Concluded, Weight, Pending;
    if s.stopped {
      ConcludedStopped(s, o, h, Concludes(h, s, o, c), c);
    } else if RateLimited(o) {
      ConcludedRateLimited(s, o, h, c);
    } else if Retries(s.inFlight[0], o, c) {
      ConcludedRetries(s, o, h, c);
    } else {
      ConcludedFinishes(s, o, h, c);
    }
  }

  lemma StoppedKeeps(s: State, h: History, c: Config)
    requires Sound(s, h, c)
    ensures Sound(Stopped(s), h, c)
  {
  }

  // ----- which outcome finishes an event

  // The outcomes of all requests, in order.
  datatype Conclusion = Conclusion(event: Event, outcome: Outcome)

  // Delivered, or given up at once: an answer below 500 other than 429.
  predicate Settles(o: Outcome) { o.Answer? && o.status < 500 && o.status != 429 }

  predicate Fails(o: Outcome) { o.Failed? || o.status >= 500 }

  function Outcomes(log: seq<Conclusion>, v: Event): seq<Outcome> {
    if log == [] then []
    else Outcomes(log[..|log| - 1], v) + if log[|log| - 1].event == v then [log[|log| - 1].outcome] else []
  }

  function Failures(os: seq<Outcome>): nat {
    if os == [] then 0 else Failures(os[..|os| - 1]) + if Fails(os[|os| - 1]) then 1 else 0
  }

  // The last outcome settles the event, or it has failed once more often than it is retried.
  predicate Ends(os: seq<Outcome>, c: Config) {
    os != [] && (Settles(os[|os| - 1]) || Failures(os) == Max(c.maxRetries, 0) + 1)
  }

  ghost predicate PendingTold(e: Entry, os: seq<Outcome>) {
    Failures(os) == e.attempts && forall o :: o in os ==> !Settles(o)
  }

  // What the outcomes so far have to do with the entries that are pending and the events done.
  ghost predicate Told(s: State, written: seq<Event>, log: seq<Conclusion>, c: Config) {
    !s.stopped ==>
      && (forall v :: v !in written ==> Outcomes(log, v) == [])
      && (forall e :: e in Pending(s) ==> PendingTold(e, Outcomes(log, e.event)))
      && (forall v :: v in s.finished ==> Ends(Outcomes(log, v), c))
  }

  lemma OutcomesAfter(log: seq<Conclusion>, e: Conclusion, v: Event)
    ensures Outcomes(log + [e], v) == if e.event == v then Outcomes(log, v) + [e.outcome] else Outcomes(log, v)
  {
    assert (log + [e])[..|log + [e]| - 1] == log;
    assert Outcomes(log, v) + [] == Outcomes(log, v);
  }

  lemma FailuresAfter(os: seq<Outcome>, o: Outcome)
    ensures Failures(os + [o]) == Failures(os) + if Fails(o) then 1 else 0
  {
    assert (os + [o])[..|os + [o]| - 1] == os;
  }

  // The entry of the request under way, after its outcome.
  lemma OneTold(e: Entry, os: seq<Outcome>, o: Outcome, c: Config)
    requires PendingTold(e, os) && e.attempts <= Max(c.maxRetries, 0)
    ensures RateLimited(o) ==> PendingTold(e, os + [o])
    ensures !RateLimited(o) && Retries(e, o, c) ==> PendingTold(Entry(e.event, e.attempts + 1), os + [o])
    ensures !RateLimited(o) && !Retries(e, o, c) ==> Ends(os + [o], c)
  {
    FailuresAfter(os, o);
  }

  // No other entry and no event done is that of the request under way.
  lemma HeadIsAlone(s: State, h: History, c: Config)
    requires s.inFlight != [] && Sound(s, h, c) && !s.stopped
    ensures s.inFlight == [s.inFlight[0]]
    ensures s.inFlight[0].attempts <= Max(c.maxRetries, 0) && s.inFlight[0].event in h.written
    ensures forall o :: o in s.queue ==> o.event != s.inFlight[0].event
    ensures s.inFlight[0].event !in s.finished
  {
    var e := s.inFlight[0];
    assert s.inFlight == [e] && Pending(s) == [e] + s.queue && e in Pending(s);
    EventOfMember(Pending(s), e);
    OthersDiffer(s.finished, e, s.queue, h, c);
    assert multiset(h.written)[e.event] <= 1 && e.event in multiset(h.written);
  }

  // An entry that is pending after the outcome, and an event that is done.
  ghost predicate StillPending(s: State, o: Outcome, c: Config, d: Entry)
    requires s.inFlight != []
  {
    var e := s.inFlight[0];
    if RateLimited(o) && d == e then true
    else d in s.queue || (!RateLimited(o) && Retries(e, o, c) && d == Entry(e.event, e.attempts + 1))
  }

  ghost predicate Done(s: State, o: Outcome, c: Config, v: Event)
    requires s.inFlight != []
  {
    var e := s.inFlight[0];
    v in s.finished || (!RateLimited(o) && !Retries(e, o, c) && v == e.event)
  }

  lemma ConcludedPending(s: State, o: Outcome, c: Config)
    requires |s.inFlight| == 1
    ensures forall d :: d in Pending(Concluded(s, o, c)) ==> StillPending(s, o, c, d)
    ensures forall v :: v in Concluded(s, o, c).finished ==> Done(s, o, c, v)
  {
    assert s.inFlight == [s.inFlight[0]] && s.inFlight[1..] == [];
    hide RateLimited, Retries, Delay;
  }

  lemma PendingStaysTold(s: State, o: Outcome, h: History, log: seq<Conclusion>, c: Config, d: Entry)
    requires s.inFlight != [] && Sound(s, h, c) && Told(s, h.written, log, c) && !s.stopped
    requires StillPending(s, o, c, d)
    ensures PendingTold(d, Outcomes(log + [Conclusion(s.inFlight[0].event, o)], d.event))
  {
    var e := s.inFlight[0];
    HeadIsAlone(s, h, c);
    assert e in Pending(s) && (d in s.queue ==> d in Pending(s));
    hide Sound, PendingTold, Outcomes, Ends, Retries, RateLimited;
    OneTold(e, Outcomes(log, e.event), o, c);
    OutcomesAfter(log, Conclusion(e.event, o), d.event);
  }

  lemma DoneHasEnded(s: State, o: Outcome, h: History, log: seq<Conclusion>, c: Config, v: Event)
    requires s.inFlight != [] && Sound(s, h, c) && Told(s, h.written, log, c) && !s.stopped
    requires Done(s, o, c, v)
    ensures Ends(Outcomes(log + [Conclusion(s.inFlight[0].event, o)], v), c)
  {
    var e := s.inFlight[0];
    HeadIsAlone(s, h, c);
    assert e in Pending(s);
    hide Sound, PendingTold, Outcomes, Ends, Retries, RateLimited;
    OneTold(e, Outcomes(log, e.event), o, c);
    OutcomesAfter(log, Conclusion(e.event, o), v);
  }

  lemma ConcludedTells(s: State, o: Outcome, h: History, log: seq<Conclusion>, c: Config)
    requires s.inFlight != [] && Sound(s, h, c) && Told(s, h.written, log, c)
    ensures Told(Concluded(s, o, c), h.written, log + [Conclusion(s.inFlight[0].event, o)], c)
  {
    if !s.stopped {
      var e, t := s.inFlight[0], Concluded(s, o, c);
      HeadIsAlone(s, h, c);
      ConcludedPending(s, o, c);
      hide Sound, PendingTold, Ends, Outcomes, Delay, Concluded, Pending, StillPending, Done;
      forall d | d in Pending(t)
        ensures PendingTold(d, Outcomes(log + [Conclusion(e.event, o)], d.event))
      {
        PendingStaysTold(s, o, h, log, c, d);
      }
      forall v | v in t.finished
        ensures Ends(Outcomes(log + [Conclusion(e.event, o)], v), c)
      {
        DoneHasEnded(s, o, h, log, c, v);
      }
      forall v | v !in h.written
        ensures Outcomes(log + [Conclusion(e.event, o)], v) == []
      {
        OutcomesAfter(log, Conclusion(e.event, o), v);
      }
    }
  }

  lemma WrittenTells(s: State, event: Event, h: History, log: seq<Conclusion>, c: Config)
    requires Told(s, h.written, log, c) && event !in h.written
    ensures Told(Written(s, event), (if s.stopped then h else Noted(h, event)).written, log, c)
  {
    if !s.stopped {
      var e := Entry(event, 0);
      var t := s.(queue := s.queue + [e]);
      assert PendingTold(e, Outcomes(log, event));
      assert forall d :: d in Pending(t) ==> d == e || d in Pending(s);
      hide PendingTold, Outcomes, Ends, Pending;
      ProcessTells(t, Noted(h, event), log, c);
    }
  }

  lemma ProcessTells(s: State, h: History, log: seq<Conclusion>, c: Config)
    requires Told(s, h.written, log, c)
    ensures Told(Process(s), h.written, log, c)
  {
    hide PendingTold, Outcomes, Ends;
  }

  lemma FiredTells(s: State, i: nat, h: History, log: seq<Conclusion>, c: Config)
    requires i < |s.timers| && Told(s, h.written, log, c)
    ensures Told(Fired(s, i), h.written, log, c)
  {
    hide Process, PendingTold, Outcomes, Ends;
    ProcessTells(s.(timers := s.timers[..i] + s.timers[i + 1..]), h, log, c);
  }

  /** Before a stop an event written is done exactly when its last request was answered below
      500 and not with 429, or max_retries + 1 of its requests have failed or were answered with
      500 or more. Nothing else finishes an event, and nothing else keeps it. */
  lemma FinishedIff(s: State, h: History, log: seq<Conclusion>, c: Config, v: Event)
    requires Sound(s, h, c) && Told(s, h.written, log, c) && !s.stopped && v in h.written
    ensures v in s.finished <==> Ends(Outcomes(log, v), c)
  {
    if v !in s.finished {
      assert v in multiset(h.written) && v in Events(Pending(s));
      var e := EntryOf(Pending(s), v);
      assert Counted(Pending(s), h, c) && PendingTold(e, Outcomes(log, v));
    }
  }

  lemma {:induction false} EntryOf(es: seq<Entry>, v: Event) returns (e: Entry)
    requires v in Events(es)
    ensures e in es && e.event == v
  {
    if es[0].event == v {
      e := es[0];
    } else {
      e := EntryOf(es[1..], v);
    }
  }

  /** Each conclusion asks for one timer more: after the wait of a 429 that names one, after
      the retry delay for any other 429 and for an entry that is tried again, and after the
      default delay when the event is done. */
  lemma ConcludedSchedules(s: State, o: Outcome, c: Config)
    requires s.inFlight != []
    ensures
      var again := s.inFlight[0].attempts < c.maxRetries && (o.Failed? || o.status >= 500);
      var delay :=
        match o
        case Failed => if again then c.retryDelay else c.defaultDelay
        case Answer(429, Some(wait)) => wait
        case Answer(429, None) => c.retryDelay
        case Answer(_, _) => if again then c.retryDelay else c.defaultDelay;
      Concluded(s, o, c).timers == s.timers + [delay]
  {
  }

  /** Before a stop each event concludes at most max_retries + 1 requests with anything but
      429, fewer while it is pending, and all events together no more than their allowance. */
  lemma RetriesBounded(s: State, h: History, c: Config)
    requires Sound(s, h, c) && !s.stopped
    ensures forall v :: h.concluded[v] <= Max(c.maxRetries, 0) + 1
    ensures forall e :: e in Pending(s) ==> h.concluded[e.event] == e.attempts <= Max(c.maxRetries, 0)
    ensures |h.concluded| + |Pending(s)| <= (Max(c.maxRetries, 0) + 1) * |h.written|
  {
    WeightNotNegative(Pending(s), c);
  }

  /** A write starts a send exactly when the plugin runs and is idle, whatever timers are
      still to fire: a delay is not respected. */
  lemma WriteStartsIff(s: State, event: Event)
    ensures |Written(s, event).inFlight| > |s.inFlight| <==> !s.stopped && !s.sending
  {
  }

  /** So after a 429, whatever wait it asks for, the next write sends the refused event again. */
  lemma WriteResendsRefused(s: State, wait: real, event: Event, c: Config)
    requires SingleFlight(s) && !s.stopped && s.inFlight != []
    ensures
      var t := Concluded(s, Answer(429, Some(wait)), c);
      && t.timers == s.timers + [wait]
      && Written(t, event).inFlight == s.inFlight
  {
  }

  /** A timer starts a send exactly when the plugin runs, is idle and has an entry to send,
      whichever delay it was set for. */
  lemma FiredSendsIff(s: State, i: nat)
    requires i < |s.timers|
    ensures |Fired(s, i).inFlight| > |s.inFlight| <==> !s.stopped && !s.sending && s.queue != []
  {
  }

  /** So after a 429 the timer that fires next sends the refused event again, the one set for
      its wait (the last) or any that was pending before. */
  lemma TimerResendsRefused(s: State, wait: real, i: nat, c: Config)
    requires SingleFlight(s) && !s.stopped && s.inFlight != [] && i <= |s.timers|
    ensures
      var t := Concluded(s, Answer(429, Some(wait)), c);
      && t.timers == s.timers + [wait]
      && Fired(t, i).inFlight == s.inFlight && Fired(t, i).queue == s.queue
  {
    assert s.inFlight == [s.inFlight[0]] && s.inFlight[1..] == [];
  }

  /** After a stop nothing is sent any more, whatever comes: no write, no timer and no outcome
      starts a request. */
  lemma StoppedForGood(s: State, event: Event, i: nat, o: Outcome, c: Config)
    ensures Stopped(s).stopped && !Stopped(s).sending && Stopped(s).queue == [] && Stopped(s).inFlight == s.inFlight
    ensures s.stopped ==> Written(s, event) == s
    ensures s.stopped && i < |s.timers| ==> Fired(s, i).stopped && Fired(s, i).inFlight == s.inFlight
    ensures s.stopped && s.inFlight != [] ==>
      Concluded(s, o, c).stopped && Concluded(s, o, c).inFlight == s.inFlight[1..]
  {
  }

  // ----- every event can finish

  // One step towards an empty queue: the request under way succeeds, or else the first timer fires.
  function Step(s: State, c: Config): State {
    if s.inFlight != [] then Concluded(s, Answer(204, None), c)
    else if s.timers != [] then Fired(s, 0)
    else s
  }

  function Steps(s: State, n: nat, c: Config): State
    decreases n
  {
    if n == 0 then s else Steps(Step(s, c), n - 1, c)
  }

  lemma StepAdvances(s: State, c: Config)
    requires SingleFlight(s) && Awake(s) && !s.stopped && Pending(s) != []
    ensures
      var t := Step(s, c);
      && SingleFlight(t) && Awake(t) && !t.stopped
      && t.finished + Events(Pending(t)) == s.finished + Events(Pending(s))
      && (t.inFlight != [] || |Pending(t)| < |Pending(s)|)
      && (s.inFlight != [] ==> |Pending(t)| < |Pending(s)|)
      && |Pending(t)| <= |Pending(s)|
  {
    if s.inFlight != [] {
      var e := s.inFlight[0];
      assert s.inFlight == [e] && Pending(s) == [e] + s.queue && s.inFlight[1..] == [];
      assert Pending(Step(s, c)) == s.queue;
      PendingConcat([e], s.queue, c);
      One(e, c);
      ConcatAssociates(s.finished, [e.event], Events(s.queue));
    } else {
      assert s.queue == [s.queue[0]] + s.queue[1..];
      assert Pending(Step(s, c)) == Pending(s);
    }
  }

  /** Nothing is stuck or lost: from any sound state, when requests succeed, at most two
      steps an event finish all that is pending, in the order of the queue. */
  lemma {:induction false} EverythingFinishes(s: State, c: Config) returns (n: nat)
    requires SingleFlight(s) && Awake(s) && !s.stopped
    ensures n <= 2 * |Pending(s)| - |s.inFlight|
    ensures Pending(Steps(s, n, c)) == [] && Steps(s, n, c).finished == s.finished + Events(Pending(s))
    decreases |Pending(s)|, s.inFlight == []
  {
    if Pending(s) == [] {
      n := 0;
      assert s.finished + Events([]) == s.finished;
    } else {
      StepAdvances(s, c);
      n := EverythingFinishes(Step(s, c), c);
      n := n + 1;
    }
  }

  /** `Output`. Beside the plugin's own fields it holds what the plugin has handed out:
      the requests under way and the pending timers; the ghost fields remember the run. */
  class Output {
    const config: Config
    var queue: seq<Entry>
    var sending: bool
    var stopped: bool
    var inFlight: seq<Entry>
    var timers: seq<real>
    ghost var finished: seq<Event>
    ghost var history: History
    ghost var outcomes: seq<Conclusion>

    ghost function Current(): State
      reads this
    {
      State(queue, sending, stopped, inFlight, timers, finished)
    }

    ghost predicate Valid()
      reads this
    {
      Sound(Current(), history, config) && Told(Current(), history.written, outcomes, config)
    }

    constructor (config: Config)
      ensures Valid() && Current() == IDLE && history == History([], multiset{}, false) && outcomes == []
      ensures this.config == config
    {
      this.config := config;
      queue, sending, stopped, inFlight, timers := [], false, false, [], [];
      finished, history, outcomes := [], History([], multiset{}, false), [];
      hide Sound;
      IdleSound(config);
    }

    method ProcessQueue()
      modifies this`queue, this`sending, this`inFlight
      ensures Current() == Process(old(Current()))
    {
      if stopped || sending || queue == [] {
        return;
      }
      sending := true;
      var entry := queue[0];
      queue := queue[1..];
      inFlight := inFlight + [entry];
    }

    method Write(event: Event)
      requires Valid() && event !in history.written
      modifies this
      ensures Valid() && Current() == Written(old(Current()), event)
      ensures history == (if stopped then old(history) else Noted(old(history), event)) && outcomes == old(outcomes)
    {
      hide Sound, Told;
      WrittenTells(Current(), event, history, outcomes, config);
      WrittenKeeps(Current(), event, history, config);
      if stopped {
        return;
      }
      queue := queue + [Entry(event, 0)];
      ProcessQueue();
      history := Noted(history, event);
    }

    // The time of a timer set by `_schedule` has come.
    method Fire(i: nat)
      requires Valid() && i < |timers|
      modifies this
      ensures Valid() && Current() == Fired(old(Current()), i) && history == old(history)
      ensures outcomes == old(outcomes)
    {
      hide Sound, Told;
      FiredTells(Current(), i, history, outcomes, config);
      FiredKeeps(Current(), i, history, config);
      timers := timers[..i] + timers[i + 1..];
      ProcessQueue();
    }

    method AfterResult(status: int, retryAfter: Option<real>)
      requires Valid() && inFlight != []
      modifies this
      ensures Valid() && Current() == Concluded(old(Current()), Answer(status, retryAfter), config)
      ensures history == Concludes(old(history), old(Current()), Answer(status, retryAfter), config)
      ensures outcomes == old(outcomes) + [Conclusion(old(inFlight[0].event), Answer(status, retryAfter))]
    {
      hide Sound, Told;
      ConcludedTells(Current(), Answer(status, retryAfter), history, outcomes, config);
      ConcludedKeeps(Current(), Answer(status, retryAfter), history, config);
      outcomes := outcomes + [Conclusion(inFlight[0].event, Answer(status, retryAfter))];
      history := Concludes(history, Current(), Answer(status, retryAfter), config);
      SettleResult(status, retryAfter);
    }

    // `_after_result` on the plugin's own fields.
    method SettleResult(status: int, retryAfter: Option<real>)
      requires inFlight != []
      modifies this`queue, this`sending, this`inFlight, this`timers, this`finished
      ensures Current() == Concluded(old(Current()), Answer(status, retryAfter), config)
    {
      var entry := inFlight[0];
      inFlight := inFlight[1..];
      var delay: real;
      if status == 429 {
        queue := [entry] + queue;
        delay := if retryAfter.Some? then retryAfter.value else config.retryDelay;
      } else if status >= 500 && entry.attempts < config.maxRetries {
        queue := queue + [Entry(entry.event, entry.attempts + 1)];
        delay := config.retryDelay;
      } else {
        delay := config.defaultDelay;
        finished := finished + [entry.event];
      }
      sending := false;
      timers := timers + [delay];
    }

    method AfterError()
      requires Valid() && inFlight != []
      modifies this
      ensures Valid() && Current() == Concluded(old(Current()), Failed, config)
      ensures history == Concludes(old(history), old(Current()), Failed, config)
      ensures outcomes == old(outcomes) + [Conclusion(old(inFlight[0].event), Failed)]
    {
      hide Sound, Told;
      ConcludedTells(Current(), Failed, history, outcomes, config);
      ConcludedKeeps(Current(), Failed, history, config);
      outcomes := outcomes + [Conclusion(inFlight[0].event, Failed)];
      history := Concludes(history, Current(), Failed, config);
      SettleError();
    }

    // `_after_error` on the plugin's own fields.
    method SettleError()
      requires inFlight != []
      modifies this`queue, this`sending, this`inFlight, this`timers, this`finished
      ensures Current() == Concluded(old(Current()), Failed, config)
    {
      var entry := inFlight[0];
      inFlight := inFlight[1..];
      var delay := config.defaultDelay;
      if entry.attempts < config.maxRetries {
        queue := queue + [Entry(entry.event, entry.attempts + 1)];
        delay := config.retryDelay;
      } else {
        finished := finished + [entry.event];
      }
      sending := false;
      timers := timers + [delay];
    }

    method Stop()
      requires Valid()
      modifies this
      ensures Valid() && Current() == Stopped(old(Current())) && history == old(history)
    {
      hide Sound;
      StoppedKeeps(Current(), history, config);
      stopped := true;
      sending := false;
      queue := [];
    }
  }
}
