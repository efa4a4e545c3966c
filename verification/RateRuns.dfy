/** Whole runs of the rate limiter: for how many keys the promised limit on requests holds
    (src/cowrie/core/rate_limiter.py). */
module RateRuns {
  import opened Common
  import opened OrderedDict
  import opened RateLimiter

  // Every grant of a run, in order.
  function Grants(c: Config, start: real, calls: seq<Call>): seq<Call> {
    if calls == [] then []
    else
      var front, call := calls[..|calls| - 1], calls[|calls| - 1];
      Grants(c, start, front) + if Granted(RunAll(c, start, front), c, call.key, call.at) then [call] else []
  }

  function KeysAsked(calls: seq<Call>): set<Key> {
    set call | call in calls :: call.key
  }

  // No window of the configured length holds more grants of one key than allowed.
  ghost predicate RateHolds(c: Config, start: real, calls: seq<Call>) {
    forall key, from :: Within(GrantsOf(Grants(c, start, calls), key), from, c.window) <= Max(c.maxRequests, 0)
  }

  // ----- one check

  lemma {:induction false} YoungIsPart(stamps: seq<real>, now: real, window: real)
    ensures |Young(stamps, now, window)| <= |stamps|
    ensures forall x :: x in Young(stamps, now, window) ==> x in stamps
  {
    if stamps != [] {
      YoungIsPart(stamps[1..], now, window);
    }
  }

  // No key holds more stamps than before, but one more when it is granted; the key that was
  // asked for is the only new one.
  ghost predicate Stepped(t: Tracker, u: Tracker, key: Key, now: real, granted: bool) {
    && Distinct(u)
    && (forall k :: |StampsOf(u, k)| <= |StampsOf(t, k)| + if k == key && granted then 1 else 0)
    && (forall k, x :: x in StampsOf(u, k) ==> x in StampsOf(t, k) || x == now)
    && (forall k :: Find(u, k).Some? ==> k == key || Find(t, k).Some?)
  }

  lemma PreparedSteps(s: State, c: Config, key: Key, now: real)
    requires Distinct(s.tracker)
    ensures Stepped(s.tracker, Prepared(s, c, key, now), key, now, false)
  {
    var t := if now - s.lastCleanup > c.window then CleanAll(s.tracker, now, c.window) else s.tracker;
    PreparedMeans(s, c, key, now);
    CleanAllMeans(s.tracker, now, c.window);
    AssignOne(t, key, Young(StampsOf(t, key), now, c.window));
    forall k
      ensures |Young(StampsOf(s.tracker, k), now, c.window)| <= |StampsOf(s.tracker, k)|
      ensures forall x :: x in Young(StampsOf(s.tracker, k), now, c.window) ==> x in StampsOf(s.tracker, k)
      ensures Find(t, k).Some? ==> Find(s.tracker, k).Some?
    {
      YoungIsPart(StampsOf(s.tracker, k), now, c.window);
    }
    hide CleanAll, Distinct, Find, Assign, Young;
  }

  lemma LimitedSteps(t: Tracker, c: Config, key: Key, now: real)
    requires Distinct(t)
    ensures Stepped(t, Limited(t, c), key, now, false)
  {
    if |t| > c.maxKeys && t != [] {
      EvictMeans(t);
    }
    hide Evict, Distinct, Find;
  }

  lemma SteppedTwice(t: Tracker, u: Tracker, v: Tracker, key: Key, now: real, granted: bool)
    requires Stepped(t, u, key, now, false) && Stepped(u, v, key, now, granted)
    ensures Stepped(t, v, key, now, granted)
  {
    hide StampsOf, Find, Distinct;
  }

  lemma EnsureSteps(t: Tracker, key: Key, now: real)
    requires Distinct(t)
    ensures Stepped(t, Ensure(t, key), key, now, false)
  {
    EnsureMeans(t, key);
    forall k
      ensures Find(Ensure(t, key), k).Some? ==> k == key || Find(t, k).Some?
    {
      FindAfterAppend(t, Item(key, []), k);
    }
    hide Distinct, Find, Ensure;
  }

  lemma AssignSteps(t: Tracker, key: Key, now: real)
    requires Distinct(t)
    ensures Stepped(t, Assign(t, key, StampsOf(t, key) + [now]), key, now, true)
  {
    AssignOne(t, key, StampsOf(t, key) + [now]);
    hide Assign, Distinct, Find;
  }

  // The second half of a check, from the eviction on.
  lemma DecisionSteps(s: State, c: Config, key: Key, now: real)
    requires Distinct(s.tracker) && c.enabled
    ensures
      var u := Limited(Prepared(s, c, key, now), c);
      && Stepped(u, CheckState(s, c, key, now).tracker, key, now, Granted(s, c, key, now))
      && (|StampsOf(u, key)| < c.maxRequests ==> Granted(s, c, key, now))
  {
    var u := Limited(Prepared(s, c, key, now), c);
    var v := Ensure(u, key);
    PreparedSteps(s, c, key, now);
    LimitedSteps(Prepared(s, c, key, now), c, key, now);
    EnsureSteps(u, key, now);
    assert |StampsOf(v, key)| <= |StampsOf(u, key)| && Distinct(v);
    AssignSteps(v, key, now);
    SteppedTwice(u, v, Assign(v, key, StampsOf(v, key) + [now]), key, now, true);
    hide Stepped, Prepared, Limited, Ensure, Assign, StampsOf, Distinct;
  }

  lemma CheckSteps(s: State, c: Config, key: Key, now: real)
    requires Distinct(s.tracker) && c.enabled
    ensures Stepped(s.tracker, CheckState(s, c, key, now).tracker, key, now, Granted(s, c, key, now))
    ensures |StampsOf(s.tracker, key)| < c.maxRequests ==> Granted(s, c, key, now)
  {
    var t := Prepared(s, c, key, now);
    PreparedSteps(s, c, key, now);
    LimitedSteps(t, c, key, now);
    DecisionSteps(s, c, key, now);
    assert |StampsOf(Limited(t, c), key)| <= |StampsOf(s.tracker, key)|;
    hide Prepared, Limited, CheckState, Granted, Stepped, StampsOf;
    SteppedTwice(s.tracker, t, Limited(t, c), key, now, false);
    SteppedTwice(s.tracker, Limited(t, c), CheckState(s, c, key, now).tracker, key, now, Granted(s, c, key, now));
  }

  // ----- runs

  lemma RunOne(c: Config, start: real, calls: seq<Call>, call: Call)
    ensures
      var s, more := RunAll(c, start, calls), calls + [call];
      && RunAll(c, start, more) == CheckState(s, c, call.key, call.at)
      && (Granted(s, c, call.key, call.at) ==> Grants(c, start, more) == Grants(c, start, calls) + [call])
      && (!Granted(s, c, call.key, call.at) ==> Grants(c, start, more) == Grants(c, start, calls))
  {
    var more := calls + [call];
    assert more[..|more| - 1] == calls && more[|more| - 1] == call;
    assert Grants(c, start, calls) + [] == Grants(c, start, calls);
    hide CheckState, Granted;
  }

  lemma AskedOne(calls: seq<Call>, call: Call)
    ensures KeysAsked(calls + [call]) == KeysAsked(calls) + {call.key}
  {
    forall k
      ensures k in KeysAsked(calls + [call]) <==> k in KeysAsked(calls) || k == call.key
    {
      assert call in calls + [call];
    }
  }

  // The tracker holds keys asked for, each with no more stamps than grants.
  ghost predicate Covered(t: Tracker, log: seq<Call>, asked: set<Key>) {
    && Distinct(t)
    && (forall k :: |StampsOf(t, k)| <= |GrantsOf(log, k)|)
    && (forall k :: Find(t, k).Some? ==> k in asked)
  }

  lemma CoveredStep(t: Tracker, u: Tracker, log: seq<Call>, asked: set<Key>, call: Call, granted: bool)
    requires Covered(t, log, asked) && Stepped(t, u, call.key, call.at, granted)
    ensures Covered(u, if granted then log + [call] else log, asked + {call.key})
  {
    hide Find, Distinct, StampsOf;
    forall k
      ensures |StampsOf(u, k)| <= |GrantsOf(if granted then log + [call] else log, k)|
    {
      GrantsAfter(log, call, k);
      assert |StampsOf(t, k)| <= |GrantsOf(log, k)|;
    }
  }

  lemma {:induction false} RunCovered(c: Config, start: real, calls: seq<Call>)
    requires c.enabled
    ensures Covered(RunAll(c, start, calls).tracker, Grants(c, start, calls), KeysAsked(calls))
  {
    if calls != [] {
      var front, call := calls[..|calls| - 1], calls[|calls| - 1];
      assert front + [call] == calls;
      hide Grants, RunAll, Covered, KeysAsked, CheckState, Granted, Stepped;
      RunCovered(c, start, front);
      assert Distinct(RunAll(c, start, front).tracker) by {
        RunBoundsKeys(c, start, front);
      }
      RunOne(c, start, front, call);
      AskedOne(front, call);
      var s := RunAll(c, start, front);
      CheckSteps(s, c, call.key, call.at);
      CoveredStep(s.tracker, CheckState(s, c, call.key, call.at).tracker, Grants(c, start, front), KeysAsked(front),
        call, Granted(s, c, call.key, call.at));
    }
  }

  // ----- calls that all come at one time

  ghost predicate AtOne(calls: seq<Call>) {
    forall call :: call in calls ==> call.at == 1.0
  }

  lemma {:induction false} GrantsArePart(c: Config, start: real, calls: seq<Call>)
    ensures forall call :: call in Grants(c, start, calls) ==> call in calls
  {
    if calls != [] {
      GrantsArePart(c, start, calls[..|calls| - 1]);
    }
  }

  lemma {:induction false} WithinAll(log: seq<Call>, key: Key, window: real)
    requires AtOne(log) && window > 0.0
    ensures Within(GrantsOf(log, key), 1.0, window) == |GrantsOf(log, key)|
  {
    if log != [] {
      var front, call := log[..|log| - 1], log[|log| - 1];
      assert call in log;
      WithinAll(front, key, window);
      WithinConcat(GrantsOf(front, key), if call.key == key then [call.at] else [], 1.0, window);
      assert [1.0][..0] == [];
    }
  }

  // The grants of a key of which the tracker has lost one.
  ghost predicate Deficit(c: Config, calls: seq<Call>, key: Key) {
    |StampsOf(RunAll(c, 1.0, calls).tracker, key)| < |GrantsOf(Grants(c, 1.0, calls), key)|
  }

  // Such a key is granted again and again until the limit is overrun.
  lemma Overrun(c: Config, calls: seq<Call>, key: Key) returns (more: seq<Call>)
    requires AtOne(calls) && key in KeysAsked(calls) && (c.enabled ==> Deficit(c, calls, key))
    ensures AtOne(more) && KeysAsked(more) == KeysAsked(calls)
    ensures |GrantsOf(Grants(c, 1.0, more), key)| > Max(c.maxRequests, 0)
    decreases Max(c.maxRequests, 0) - |GrantsOf(Grants(c, 1.0, calls), key)|
  {
    more := calls;
    if |GrantsOf(Grants(c, 1.0, calls), key)| <= Max(c.maxRequests, 0) {
      var call := Call(key, 1.0);
      RunOne(c, 1.0, calls, call);
      AskedOne(calls, call);
      assert KeysAsked(calls + [call]) == KeysAsked(calls);
      GrantsAfter(Grants(c, 1.0, calls), call, key);
      if c.enabled {
        RunBoundsKeys(c, 1.0, calls);
        CheckSteps(RunAll(c, 1.0, calls), c, key, 1.0);
      }
      hide RunAll, Grants, GrantsOf, KeysAsked, CheckState, Distinct, StampsOf, Find;
      more := Overrun(c, calls + [call], key);
    }
  }

  // ----- one key too many

  lemma NewKeyGranted(c: Config, calls: seq<Call>, key: Key)
    requires c.enabled && c.maxRequests > 0 && key !in KeysAsked(calls)
    ensures Granted(RunAll(c, 1.0, calls), c, key, 1.0)
  {
    RunCovered(c, 1.0, calls);
    assert StampsOf(RunAll(c, 1.0, calls).tracker, key) == [];
    hide RunAll, Granted, KeysAsked;
    CheckSteps(RunAll(c, 1.0, calls), c, key, 1.0);
  }

  ghost function Names(n: nat): (r: set<Key>)
    ensures |r| <= n && forall k :: k in r ==> 1 <= |k| <= n
  {
    if n == 0 then {} else Names(n - 1) + {Name(n)}
  }

  lemma {:induction false} NamesNamed(n: nat, i: nat)
    requires 1 <= i <= n
    ensures Name(i) in Names(n)
  {
    if i < n {
      NamesNamed(n - 1, i);
    }
  }

  // The supply asks for n different keys.
  lemma {:induction false} SupplyAsks(n: nat)
    ensures AtOne(Supply(n)) && KeysAsked(Supply(n)) == Names(n)
  {
    if n > 0 {
      SupplyAsks(n - 1);
      AskedOne(Supply(n - 1), Call(Name(n), 1.0));
      hide KeysAsked, Name;
    }
  }

  ghost predicate EachGranted(c: Config, calls: seq<Call>) {
    forall k :: k in KeysAsked(calls) ==> GrantsOf(Grants(c, 1.0, calls), k) != []
  }

  lemma GrantedToo(c: Config, calls: seq<Call>, call: Call)
    requires EachGranted(c, calls) && Granted(RunAll(c, 1.0, calls), c, call.key, call.at)
    ensures EachGranted(c, calls + [call])
  {
    RunOne(c, 1.0, calls, call);
    AskedOne(calls, call);
    hide Grants, RunAll, Granted, KeysAsked, CheckState;
    forall k | k in KeysAsked(calls + [call])
      ensures GrantsOf(Grants(c, 1.0, calls + [call]), k) != []
    {
      GrantsAfter(Grants(c, 1.0, calls), call, k);
    }
  }

  lemma {:induction false} SupplyGranted(c: Config, n: nat)
    requires c.enabled && c.maxRequests > 0
    ensures EachGranted(c, Supply(n))
  {
    if n > 0 {
      SupplyGranted(c, n - 1);
      SupplyAsks(n - 1);
      assert |Name(n)| == n && Supply(n) == Supply(n - 1) + [Call(Name(n), 1.0)];
      hide KeysAsked, EachGranted, Granted, RunAll, Name, Supply;
      NewKeyGranted(c, Supply(n - 1), Name(n));
      GrantedToo(c, Supply(n - 1), Call(Name(n), 1.0));
    }
  }

  lemma ManyKeys(t: Tracker, ks: seq<Key>)
    requires Distinct(t) && NoRepeats(ks) && forall k :: k in ks ==> Find(t, k).Some?
    ensures |ks| <= |t|
  {
    RemoveMany(t, ks);
  }

  lemma NamesMany(t: Tracker, n: nat)
    requires Distinct(t) && forall i :: 1 <= i <= n ==> Find(t, Name(i)).Some?
    ensures n <= |t|
  {
    var ks := seq(n, i requires 0 <= i < n => Name(i + 1));
    forall i, j | 0 <= i < j < n
      ensures ks[i] != ks[j]
    {
      assert |ks[i]| == i + 1 && |ks[j]| == j + 1;
    }
    forall k | k in ks
      ensures Find(t, k).Some?
    {
      var i :| 0 <= i < n && ks[i] == k;
      assert ks[i] == Name(i + 1);
    }
    hide Find, Name, Distinct;
    ManyKeys(t, ks);
  }

  // A check with too many keys takes one out of the tracker.
  lemma SomeEvicted(t: Tracker, c: Config) returns (key: Key)
    requires Distinct(t) && t != [] && |t| > c.maxKeys
    ensures Find(t, key).Some? && StampsOf(Limited(t, c), key) == []
  {
    OldestKeysMean(t);
    EvictMeans(t);
    key := OldestKeys(t)[0];
    assert key in OldestKeys(t);
    hide Evict, OldestKeys;
  }

  // All stamps are of the one time, and so none is too old.
  lemma {:induction false} StampsAtOne(c: Config, calls: seq<Call>, k: Key)
    requires c.enabled && c.window > 0.0 && AtOne(calls)
    ensures NoneOld(StampsOf(RunAll(c, 1.0, calls).tracker, k), 1.0, c.window)
  {
    if calls != [] {
      var front, call := calls[..|calls| - 1], calls[|calls| - 1];
      assert call in calls && front + [call] == calls;
      StampsAtOne(c, front, k);
      RunBoundsKeys(c, 1.0, front);
      CheckSteps(RunAll(c, 1.0, front), c, call.key, call.at);
      RunOne(c, 1.0, front, call);
      hide RunAll, Grants, CheckState, Granted, Distinct, Find, StampsOf;
      forall i | 0 <= i < |StampsOf(RunAll(c, 1.0, calls).tracker, k)|
        ensures 1.0 - StampsOf(RunAll(c, 1.0, calls).tracker, k)[i] < c.window
      {
        var x := StampsOf(RunAll(c, 1.0, calls).tracker, k)[i];
        assert x in StampsOf(RunAll(c, 1.0, calls).tracker, k);
        if x in StampsOf(RunAll(c, 1.0, front).tracker, k) {
          var j :| 0 <= j < |StampsOf(RunAll(c, 1.0, front).tracker, k)| &&
                   StampsOf(RunAll(c, 1.0, front).tracker, k)[j] == x;
        }
      }
    }
  }

  // When each key has a stamp, the next check has all of them before the eviction.
  lemma AllPrepared(c: Config, calls: seq<Call>, n: nat)
    requires c.enabled && c.window > 0.0 && AtOne(calls)
    requires forall i :: 1 <= i <= n ==> StampsOf(RunAll(c, 1.0, calls).tracker, Name(i)) != []
    ensures
      var t := Prepared(RunAll(c, 1.0, calls), c, Name(n), 1.0);
      Distinct(t) && n <= |t|
  {
    var s := RunAll(c, 1.0, calls);
    var t := Prepared(s, c, Name(n), 1.0);
    RunBoundsKeys(c, 1.0, calls);
    PreparedMeans(s, c, Name(n), 1.0);
    hide RunAll, Prepared, Distinct, Name;
    forall i | 1 <= i <= n
      ensures Find(t, Name(i)).Some?
    {
      StampsAtOne(c, calls, Name(i));
      YoungOfYoung(StampsOf(s.tracker, Name(i)), 1.0, c.window);
      assert StampsOf(t, Name(i)) != [];
    }
    NamesMany(t, n);
  }

  // With more keys than the limit some key loses a stamp it was granted.
  lemma SomeDeficit(c: Config, n: nat) returns (calls: seq<Call>, key: Key)
    requires c.enabled && c.maxRequests > 0 && c.window > 0.0 && n >= 1 && n > c.maxKeys
    ensures AtOne(calls) && |KeysAsked(calls)| <= n && key in KeysAsked(calls) && Deficit(c, calls, key)
  {
    calls := Supply(n);
    SupplyAsks(n);
    SupplyGranted(c, n);
    forall i | 1 <= i <= n
      ensures Name(i) in KeysAsked(calls)
    {
      NamesNamed(n, i);
    }
    if i :| 1 <= i <= n && StampsOf(RunAll(c, 1.0, calls).tracker, Name(i)) == [] {
      key := Name(i);
    } else {
      AllPrepared(c, calls, n);
      hide StampsOf, RunAll, KeysAsked, Supply, Name;
      calls, key := EvictedDeficit(c, calls, Name(n));
    }
  }

  lemma EvictedDeficit(c: Config, calls: seq<Call>, last: Key) returns (more: seq<Call>, key: Key)
    requires c.enabled && AtOne(calls) && EachGranted(c, calls) && last in KeysAsked(calls)
    requires
      var t := Prepared(RunAll(c, 1.0, calls), c, last, 1.0);
      Distinct(t) && t != [] && |t| > c.maxKeys
    ensures AtOne(more) && KeysAsked(more) == KeysAsked(calls) && key in KeysAsked(more) && Deficit(c, more, key)
  {
    var s, call := RunAll(c, 1.0, calls), Call(last, 1.0);
    more := calls + [call];
    key := SomeEvicted(Prepared(s, c, last, 1.0), c);
    PreparedAsked(c, calls, last, key);
    AskedOne(calls, call);
    assert KeysAsked(more) == KeysAsked(calls) && GrantsOf(Grants(c, 1.0, calls), key) != [];
    hide RunAll, Grants, GrantsOf, KeysAsked, CheckState, Granted, Prepared, Limited, Distinct, StampsOf, Find,
      EachGranted, Stepped;
    RunOne(c, 1.0, calls, call);
    RunBoundsKeys(c, 1.0, calls);
    DecisionSteps(s, c, last, 1.0);
    LostStamp(Limited(Prepared(s, c, last, 1.0), c), CheckState(s, c, last, 1.0).tracker, Grants(c, 1.0, calls), call,
      key, Granted(s, c, last, 1.0));
  }

  // An evicted key has fewer stamps than grants, also when it is the one that is asked for.
  lemma LostStamp(t: Tracker, u: Tracker, log: seq<Call>, call: Call, key: Key, granted: bool)
    requires StampsOf(t, key) == [] && GrantsOf(log, key) != [] && Stepped(t, u, call.key, call.at, granted)
    ensures |StampsOf(u, key)| < |GrantsOf(if granted then log + [call] else log, key)|
  {
    GrantsAfter(log, call, key);
    hide GrantsOf, StampsOf, Find, Distinct;
  }

  lemma PreparedAsked(c: Config, calls: seq<Call>, last: Key, key: Key)
    requires c.enabled && last in KeysAsked(calls)
    requires Find(Prepared(RunAll(c, 1.0, calls), c, last, 1.0), key).Some?
    ensures key in KeysAsked(calls)
  {
    RunCovered(c, 1.0, calls);
    PreparedSteps(RunAll(c, 1.0, calls), c, last, 1.0);
    hide RunAll, KeysAsked, Prepared, Distinct, Find;
  }

  // ----- no more keys than the limit

  lemma {:induction false} KeysFit(t: Tracker, asked: set<Key>)
    requires Distinct(t) && forall k :: Find(t, k).Some? ==> k in asked
    ensures |t| <= |asked|
  {
    if t != [] {
      var key := t[0].key;
      assert Find(t, key).Some?;
      forall k | Find(t[1..], k).Some?
        ensures k in asked - {key}
      {
        assert Find(t, k).Some?;
      }
      KeysFit(t[1..], asked - {key});
    }
  }

  lemma AskedGrows(calls: seq<Call>, call: Call)
    ensures |KeysAsked(calls)| <= |KeysAsked(calls + [call])|
  {
    AskedOne(calls, call);
    SubsetSize(KeysAsked(calls), KeysAsked(calls + [call]));
  }

  lemma RoomyCheck(c: Config, start: real, calls: seq<Call>, call: Call)
    requires c.enabled && |KeysAsked(calls + [call])| <= c.maxKeys
    ensures LostByCheck(RunAll(c, start, calls), c, call.key, call.at) == {}
  {
    var s := RunAll(c, start, calls);
    RunCovered(c, start, calls);
    PreparedSteps(s, c, call.key, call.at);
    AskedOne(calls, call);
    var t := Prepared(s, c, call.key, call.at);
    assert forall k :: Find(t, k).Some? ==> k in KeysAsked(calls + [call]);
    hide RunAll, Prepared, KeysAsked, Distinct, Find, LostByCheck;
    KeysFit(t, KeysAsked(calls + [call]));
    RoomyLosesNothing(s, c, call.key, call.at);
  }

  lemma StartAgrees(c: Config, start: real)
    ensures Agrees([], [], start, c, map[])
  {
    forall k
      ensures KeyAgrees([], [], start, c, k, LostOf(map[], k))
    {
      assert [] == [] + StampsOf([], k);
    }
  }

  function Clock(start: real, calls: seq<Call>): real {
    if calls == [] then start else calls[|calls| - 1].at
  }

  lemma {:induction false} RoomyRun(c: Config, start: real, calls: seq<Call>)
    requires c.enabled && Clocked(start, calls) && |KeysAsked(calls)| <= c.maxKeys
    ensures Agrees(RunAll(c, start, calls).tracker, Grants(c, start, calls), Clock(start, calls), c, map[])
  {
    if calls == [] {
      StartAgrees(c, start);
    } else {
      var front, call := calls[..|calls| - 1], calls[|calls| - 1];
      assert front + [call] == calls && Clocked(start, front) && Clock(start, front) <= call.at;
      hide RunAll, Grants, KeysAsked, Agrees, Clocked, LostByCheck, CheckState, Granted;
      AskedGrows(front, call);
      RoomyRun(c, start, front);
      RunOne(c, start, front, call);
      RoomyCheck(c, start, front, call);
      CheckAgrees(RunAll(c, start, front), Grants(c, start, front), Clock(start, front), c, map[], call.key, call.at);
      assert Forgotten(map[], {}, call.at) == map[];
    }
  }

  lemma {:induction false} NothingWithin(s: seq<real>, from: real, window: real)
    requires window <= 0.0
    ensures Within(s, from, window) == 0
  {
    if s != [] {
      NothingWithin(s[..|s| - 1], from, window);
    }
  }

  lemma {:induction false} NothingGranted(c: Config, start: real, calls: seq<Call>)
    requires c.enabled && c.maxRequests <= 0
    ensures Grants(c, start, calls) == []
  {
    if calls != [] {
      NothingGranted(c, start, calls[..|calls| - 1]);
    }
  }

  // ----- the exact bound

  // For how many different keys the rate is kept.
  predicate RateSafe(c: Config, n: nat) {
    n == 0 || c.window <= 0.0 || (c.enabled && (c.maxRequests <= 0 || n <= c.maxKeys))
  }

  lemma SafeHolds(c: Config, n: nat, start: real, calls: seq<Call>)
    requires RateSafe(c, n) && Clocked(start, calls) && |KeysAsked(calls)| <= n
    ensures RateHolds(c, start, calls)
  {
    var log := Grants(c, start, calls);
    if c.window <= 0.0 {
      forall key, from
        ensures Within(GrantsOf(log, key), from, c.window) == 0
      {
        NothingWithin(GrantsOf(log, key), from, c.window);
      }
    } else if n == 0 {
      assert calls != [] ==> calls[0].key in KeysAsked(calls);
    } else if c.maxRequests <= 0 {
      NothingGranted(c, start, calls);
    } else {
      RoomyRun(c, start, calls);
      forall key
        ensures Bounded(GrantsOf(log, key), c, None)
      {
        assert KeyAgrees(RunAll(c, start, calls).tracker, log, Clock(start, calls), c, key, LostOf(map[], key));
      }
    }
  }

  lemma UnsafeBreaks(c: Config, n: nat) returns (calls: seq<Call>)
    requires !RateSafe(c, n)
    ensures Clocked(1.0, calls) && |KeysAsked(calls)| <= n && !RateHolds(c, 1.0, calls)
  {
    var key := "";
    calls := [Call("", 1.0)];
    AskedOne([], Call("", 1.0));
    assert [] + [Call("", 1.0)] == calls && KeysAsked([]) == {};
    if c.enabled {
      calls, key := SomeDeficit(c, n);
    }
    hide KeysAsked, Grants, GrantsOf, RunAll, Within;
    calls := Overrun(c, calls, key);
    GrantsArePart(c, 1.0, calls);
    WithinAll(Grants(c, 1.0, calls), key, c.window);
  }

  /** The promised rate is kept on every run with at most n different keys exactly when no
      more keys are asked for than the tracker may hold, as far as the limiter is on and grants
      anything at all in a window that is not empty. One key more is enough to break it. */
  lemma RateHoldsIff(c: Config, n: nat)
    ensures (forall start, calls :: Clocked(start, calls) && |KeysAsked(calls)| <= n ==> RateHolds(c, start, calls))
       <==> RateSafe(c, n)
  {
    if RateSafe(c, n) {
      forall start, calls | Clocked(start, calls) && |KeysAsked(calls)| <= n
        ensures RateHolds(c, start, calls)
      {
        SafeHolds(c, n, start, calls);
      }
    } else {
      var _ := UnsafeBreaks(c, n);
    }
  }
}
