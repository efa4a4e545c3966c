/** The sliding-window rate limiter (src/cowrie/core/rate_limiter.py). */
module RateLimiter {
  import opened Common
  import opened OrderedDict

  type Tracker = seq<Item<seq<real>>>

  datatype Config = Config(enabled: bool, maxRequests: int, window: real, maxKeys: int)

  datatype State = State(tracker: Tracker, lastCleanup: real)

  // ----- the operations

  // The time stamps that still lie within the window.
  function Young(stamps: seq<real>, now: real, window: real): seq<real> {
    if stamps == [] then []
    else (if now - stamps[0] < window then [stamps[0]] else []) + Young(stamps[1..], now, window)
  }

  // Of each time stamp as many are young as there are, or none.
  lemma {:induction false} YoungMeans(stamps: seq<real>, now: real, window: real, x: real)
    ensures multiset(Young(stamps, now, window))[x] == if now - x < window then multiset(stamps)[x] else 0
  {
    if stamps != [] {
      YoungMeans(stamps[1..], now, window, x);
      assert stamps == [stamps[0]] + stamps[1..];
    }
  }

  // A key the dictionary does not hold reads as an empty list.
  function StampsOf(t: Tracker, key: Key): seq<real> {
    match Find(t, key) case None => [] case Some(item) => item.value
  }

  function AllYoung(t: Tracker, now: real, window: real): (u: Tracker)
    ensures |u| == |t|
    ensures forall i :: 0 <= i < |t| ==> u[i] == Item(t[i].key, Young(t[i].value, now, window))
  {
    if t == [] then []
    else [Item(t[0].key, Young(t[0].value, now, window))] + AllYoung(t[1..], now, window)
  }

  function EmptyKeys(t: Tracker): seq<Key> {
    if t == [] then [] else (if t[0].value == [] then [t[0].key] else []) + EmptyKeys(t[1..])
  }

  // `_cleanup_all`
  function CleanAll(t: Tracker, now: real, window: real): Tracker {
    RemoveAll(AllYoung(t, now, window), EmptyKeys(AllYoung(t, now, window)))
  }

  function LatestStamp(stamps: seq<real>): real {
    if stamps == [] then 0.0
    else if |stamps| == 1 then stamps[0]
    else
      var m := LatestStamp(stamps[1..]);
      if stamps[0] > m then stamps[0] else m
  }

  // The latest of the time stamps, and zero for none.
  lemma {:induction false} LatestStampMeans(stamps: seq<real>)
    ensures stamps == [] ==> LatestStamp(stamps) == 0.0
    ensures stamps != [] ==> LatestStamp(stamps) in stamps && forall x :: x in stamps ==> x <= LatestStamp(stamps)
  {
    if |stamps| > 1 {
      LatestStampMeans(stamps[1..]);
      assert stamps == [stamps[0]] + stamps[1..];
    }
  }

  function Activity(item: Item<seq<real>>): real {
    LatestStamp(item.value)
  }

  function InsertByActivity(x: Item<seq<real>>, s: Tracker): Tracker {
    if s == [] || Activity(x) <= Activity(s[0]) then [x] + s else [s[0]] + InsertByActivity(x, s[1..])
  }

  // The stable sort by latest activity.
  function ByActivity(t: Tracker): (s: Tracker)
    ensures t == [] ==> s == []
  {
    if t == [] then [] else InsertByActivity(t[0], ByActivity(t[1..]))
  }

  function EvictionCount(n: nat): nat {
    Max(1, n / 10)
  }

  function OldestKeys(t: Tracker): seq<Key> {
    Keys(ByActivity(t)[..Min(EvictionCount(|t|), |ByActivity(t)|)])
  }

  // `_remove_oldest_keys`
  function Evict(t: Tracker): Tracker {
    if t == [] then t else RemoveAll(t, OldestKeys(t))
  }

  // The defaultdict adds a missing key at the end when it is read.
  function Ensure(t: Tracker, key: Key): Tracker {
    if Find(t, key).Some? then t else t + [Item(key, [])]
  }

  // The clean-ups of one check: all keys when the window has passed, then this key.
  function Prepared(s: State, c: Config, key: Key, now: real): Tracker {
    var t := if now - s.lastCleanup > c.window then CleanAll(s.tracker, now, c.window) else s.tracker;
    Assign(t, key, Young(StampsOf(t, key), now, c.window))
  }

  function Limited(t: Tracker, c: Config): Tracker {
    if |t| > c.maxKeys then Evict(t) else t
  }

  // What the check finds: the tracker just before it decides.
  function Examined(s: State, c: Config, key: Key, now: real): Tracker {
    Ensure(Limited(Prepared(s, c, key, now), c), key)
  }

  function Granted(s: State, c: Config, key: Key, now: real): bool {
    !c.enabled || |StampsOf(Examined(s, c, key, now), key)| < c.maxRequests
  }

  function CheckState(s: State, c: Config, key: Key, now: real): State {
    if !c.enabled then s
    else
      var t := Examined(s, c, key, now);
      var stamps := StampsOf(t, key);
      State(if |stamps| >= c.maxRequests then t else Assign(t, key, stamps + [now]),
        if now - s.lastCleanup > c.window then now else s.lastCleanup)
  }

  // ----- the tracker as a dictionary

  lemma {:induction false} AllYoungFind(t: Tracker, now: real, window: real, key: Key)
    ensures Find(AllYoung(t, now, window), key) ==
      match Find(t, key) case None => None case Some(i) => Some(Item(i.key, Young(i.value, now, window)))
  {
    if t != [] {
      AllYoungFind(t[1..], now, window, key);
    }
  }

  lemma {:induction false} AllYoungDistinct(t: Tracker, now: real, window: real)
    requires Distinct(t)
    ensures Distinct(AllYoung(t, now, window))
  {
    if t != [] {
      AllYoungDistinct(t[1..], now, window);
      AllYoungFind(t[1..], now, window, t[0].key);
      assert AllYoung(t, now, window)[1..] == AllYoung(t[1..], now, window);
    }
  }

  lemma {:induction false} EmptyKeysMean(t: Tracker, key: Key)
    requires Distinct(t)
    ensures NoRepeats(EmptyKeys(t))
    ensures key in EmptyKeys(t) <==> Find(t, key).Some? && Find(t, key).value.value == []
    decreases t
  {
    hide Keys;
    if t != [] {
      EmptyKeysMean(t[1..], key);
      EmptyKeysMean(t[1..], t[0].key);
    }
  }

  lemma EmptyKeysAppend(t: Tracker, i: nat)
    requires i < |t|
    ensures EmptyKeys(t[..i + 1]) == EmptyKeys(t[..i]) + if t[i].value == [] then [t[i].key] else []
  {
    EmptyKeysConcat(t[..i], t[i]);
    assert t[..i + 1] == t[..i] + [t[i]];
  }

  lemma {:induction false} EmptyKeysConcat(t: Tracker, item: Item<seq<real>>)
    ensures EmptyKeys(t + [item]) == EmptyKeys(t) + if item.value == [] then [item.key] else []
  {
    if t == [] {
      assert [] + [item] == [item] && [item][1..] == [];
    } else {
      assert (t + [item])[1..] == t[1..] + [item];
      EmptyKeysConcat(t[1..], item);
    }
  }

  // Cleaning keeps the young stamps of each key and drops a key that has none.
  lemma CleanAllMeans(t: Tracker, now: real, window: real)
    requires Distinct(t)
    ensures
      var u := CleanAll(t, now, window);
      && Distinct(u) && |u| <= |t|
      && (forall k :: StampsOf(u, k) == Young(StampsOf(t, k), now, window))
      && (forall k :: Find(u, k).Some? ==> StampsOf(u, k) != [])
  {
    var y := AllYoung(t, now, window);
    AllYoungDistinct(t, now, window);
    forall k
      ensures k in EmptyKeys(y) <==> Find(y, k).Some? && Find(y, k).value.value == []
      ensures StampsOf(y, k) == Young(StampsOf(t, k), now, window)
      ensures NoRepeats(EmptyKeys(y))
    {
      EmptyKeysMean(y, k);
      AllYoungFind(t, now, window, k);
    }
    EmptyKeysMean(y, "");
    RemoveMany(y, EmptyKeys(y));
    hide Distinct, Find, RemoveAll, AllYoung, EmptyKeys, Young, NoRepeats;
  }

  lemma {:induction false} InsertFind(x: Item<seq<real>>, s: Tracker, key: Key)
    requires Find(s, x.key).None?
    ensures Find(InsertByActivity(x, s), key) == if key == x.key then Some(x) else Find(s, key)
    ensures |InsertByActivity(x, s)| == |s| + 1
  {
    if s != [] && Activity(x) > Activity(s[0]) {
      InsertFind(x, s[1..], key);
    }
  }

  lemma {:induction false} InsertKeepsOrder(x: Item<seq<real>>, s: Tracker)
    requires Find(s, x.key).None? && Distinct(s) && Ordered(s)
    ensures Distinct(InsertByActivity(x, s)) && Ordered(InsertByActivity(x, s))
  {
    if s != [] && Activity(x) > Activity(s[0]) {
      InsertKeepsOrder(x, s[1..]);
      InsertFind(x, s[1..], s[0].key);
      InsertFirst(x, s[1..]);
    }
  }

  lemma InsertFirst(x: Item<seq<real>>, s: Tracker)
    ensures InsertByActivity(x, s) != []
    ensures InsertByActivity(x, s)[0] == x || (s != [] && InsertByActivity(x, s)[0] == s[0])
  {
  }

  ghost predicate Ordered(s: Tracker) {
    s == [] || ((|s| > 1 ==> Activity(s[0]) <= Activity(s[1])) && Ordered(s[1..]))
  }

  // Sorting keeps the dictionary and puts the least recently active keys first.
  lemma {:induction false} ByActivityMeans(t: Tracker)
    requires Distinct(t)
    ensures
      var s := ByActivity(t);
      && Distinct(s) && Ordered(s) && |s| == |t|
      && forall k :: Find(s, k) == Find(t, k)
  {
    if t != [] {
      var rest := ByActivity(t[1..]);
      ByActivityMeans(t[1..]);
      InsertKeepsOrder(t[0], rest);
      forall k
        ensures Find(ByActivity(t), k) == Find(t, k)
      {
        InsertFind(t[0], rest, k);
      }
      InsertFind(t[0], rest, t[0].key);
    }
  }

  lemma FindInPrefix(s: Tracker, n: nat, i: nat)
    requires Distinct(s) && i < |s| && n <= |s|
    ensures Find(s, s[i].key) == Some(s[i])
    ensures s[i].key in Keys(s[..n]) <==> i < n
  {
    DistinctKeys(s);
    FindAt(s, i);
    var ks := Keys(s[..n]);
    if i < n {
      assert ks[i] == s[i].key;
    } else {
      assert forall j :: 0 <= j < n ==> ks[j] == Keys(s)[j] != Keys(s)[i];
    }
  }

  lemma {:induction false} FindAt(s: Tracker, i: nat)
    requires Distinct(s) && i < |s|
    ensures Find(s, s[i].key) == Some(s[i])
  {
    if i > 0 {
      FindAt(s[1..], i - 1);
      FindGivesKey(s[1..], s[0].key);
    }
  }

  lemma OldestKeysMean(t: Tracker)
    requires Distinct(t) && t != []
    ensures NoRepeats(OldestKeys(t)) && |OldestKeys(t)| == Min(EvictionCount(|t|), |t|)
    ensures forall k :: k in OldestKeys(t) ==> Find(t, k).Some?
  {
    var s := ByActivity(t);
    ByActivityMeans(t);
    DistinctKeys(s);
    var n := Min(EvictionCount(|t|), |s|);
    var ks := Keys(s[..n]);
    forall i | 0 <= i < n
      ensures ks[i] == Keys(s)[i] && Find(t, ks[i]).Some?
    {
      FindAt(s, i);
    }
  }

  // Eviction takes out max(1, n // 10) keys and leaves the others alone.
  lemma EvictMeans(t: Tracker)
    requires Distinct(t) && t != []
    ensures
      var u := Evict(t);
      && Distinct(u) && |u| == |t| - EvictionCount(|t|)
      && |u| == |t| - (if |t| < 20 then 1 else |t| / 10)
      && forall k :: Find(u, k) == if k in OldestKeys(t) then None else Find(t, k)
  {
    OldestKeysMean(t);
    RemoveMany(t, OldestKeys(t));
  }

  lemma {:induction false} OrderedPair(s: Tracker, i: nat, j: nat)
    requires Ordered(s) && i <= j < |s|
    ensures Activity(s[i]) <= Activity(s[j])
  {
    if i > 0 {
      OrderedPair(s[1..], i - 1, j - 1);
    } else if j > 0 {
      OrderedPair(s[1..], 0, j - 1);
    }
  }

  // Every key taken out was last active no later than every key left in.
  lemma EvictsOldest(t: Tracker, gone: Key, kept: Key)
    requires Distinct(t) && t != []
    requires Find(t, gone).Some? && Find(Evict(t), gone).None?
    requires Find(t, kept).Some? && Find(Evict(t), kept).Some?
    ensures Activity(Find(t, gone).value) <= Activity(Find(t, kept).value)
  {
    var s := ByActivity(t);
    EvictMeans(t);
    ByActivityMeans(t);
    var i := IndexOf(s, gone);
    var j := IndexOf(s, kept);
    var n := Min(EvictionCount(|t|), |s|);
    FindInPrefix(s, n, i);
    FindInPrefix(s, n, j);
    OrderedPair(s, i, j);
  }

  lemma {:induction false} IndexOf(s: Tracker, key: Key) returns (i: nat)
    requires Find(s, key).Some?
    ensures i < |s| && s[i].key == key && Find(s, key) == Some(s[i])
  {
    if s[0].key == key {
      i := 0;
    } else {
      i := IndexOf(s[1..], key);
      i := i + 1;
    }
  }

  // ----- how many keys are held

  const SLACK := 19

  lemma {:induction false} YoungTwice(stamps: seq<real>, now: real, window: real)
    ensures Young(Young(stamps, now, window), now, window) == Young(stamps, now, window)
  {
    if stamps != [] {
      var rest := Young(stamps[1..], now, window);
      YoungTwice(stamps[1..], now, window);
      assert [] + rest == rest && ([stamps[0]] + rest)[1..] == rest;
    }
  }

  // The key asked for is cleaned at every check, the others when the window has passed.
  lemma PreparedMeans(s: State, c: Config, key: Key, now: real)
    requires Distinct(s.tracker)
    ensures
      var t := Prepared(s, c, key, now);
      && Distinct(t) && |t| <= |s.tracker| + 1 && Find(t, key).Some?
      && forall k :: StampsOf(t, k) ==
           if k == key || now - s.lastCleanup > c.window then Young(StampsOf(s.tracker, k), now, c.window)
           else StampsOf(s.tracker, k)
  {
    CleanAllMeans(s.tracker, now, c.window);
    YoungTwice(StampsOf(s.tracker, key), now, c.window);
    var t := if now - s.lastCleanup > c.window then CleanAll(s.tracker, now, c.window) else s.tracker;
    AssignOne(t, key, Young(StampsOf(t, key), now, c.window));
    hide Distinct, Find, CleanAll, Young, Assign;
  }

  lemma EnsureMeans(t: Tracker, key: Key)
    requires Distinct(t)
    ensures
      var u := Ensure(t, key);
      && Distinct(u) && |u| == |t| + (if Find(t, key).Some? then 0 else 1) && Find(u, key).Some?
      && forall k :: StampsOf(u, k) == StampsOf(t, k)
  {
    if Find(t, key).None? {
      AppendNew(t, Item(key, []));
      forall k
        ensures StampsOf(t + [Item(key, [])], k) == StampsOf(t, k)
      {
        FindAfterAppend(t, Item(key, []), k);
      }
      FindAfterAppend(t, Item(key, []), key);
    }
  }

  /** A check never leaves more than max(max_keys, 19) keys. */
  lemma CheckBoundsKeys(s: State, c: Config, key: Key, now: real)
    requires Distinct(s.tracker) && |s.tracker| <= Max(c.maxKeys, SLACK)
    ensures
      var t := CheckState(s, c, key, now).tracker;
      Distinct(t) && |t| <= Max(c.maxKeys, SLACK)
  {
    var t := Prepared(s, c, key, now);
    var u := Limited(t, c);
    PreparedMeans(s, c, key, now);
    if |t| > c.maxKeys {
      EvictMeans(t);
    }
    EnsureMeans(u, key);
    var v := Ensure(u, key);
    AssignOne(v, key, StampsOf(v, key) + [now]);
    hide Distinct, Find, Prepared, Ensure, Evict, Assign, Young, StampsOf;
  }

  // A run from a fresh limiter.
  datatype Call = Call(key: Key, at: real)

  function RunAll(c: Config, start: real, calls: seq<Call>): State {
    if calls == [] then State([], start)
    else
      var last := calls[|calls| - 1];
      CheckState(RunAll(c, start, calls[..|calls| - 1]), c, last.key, last.at)
  }

  lemma {:induction false} RunBoundsKeys(c: Config, start: real, calls: seq<Call>)
    ensures
      var t := RunAll(c, start, calls).tracker;
      Distinct(t) && |t| <= Max(c.maxKeys, SLACK)
  {
    if calls != [] {
      var before, last := calls[..|calls| - 1], calls[|calls| - 1];
      RunBoundsKeys(c, start, before);
      CheckBoundsKeys(RunAll(c, start, before), c, last.key, last.at);
    }
  }

  // ----- when the limit does and does not hold

  function Name(n: nat): Key {
    seq(n, _ => 'a')
  }

  // The first n of a supply of different keys, all asked at time 1.
  function Supply(n: nat): (calls: seq<Call>)
    ensures |calls| == n
  {
    if n == 0 then [] else Supply(n - 1) + [Call(Name(n), 1.0)]
  }

  // Each of those keys with its one stamp, in order.
  function Filled(n: nat): (t: Tracker)
    ensures |t| == n
  {
    if n == 0 then [] else Filled(n - 1) + [Item(Name(n), [1.0])]
  }

  lemma {:induction false} FilledMeans(n: nat, key: Key)
    ensures Distinct(Filled(n))
    ensures Find(Filled(n), key).Some? ==> 1 <= |key| <= n && Find(Filled(n), key).value.value == [1.0]
  {
    if n > 0 {
      FilledMeans(n - 1, key);
      FilledMeans(n - 1, Name(n));
      AppendNew(Filled(n - 1), Item(Name(n), [1.0]));
      FindAfterAppend(Filled(n - 1), Item(Name(n), [1.0]), key);
    }
  }

  // The key just added has no stamp yet, so it is the one that is evicted.
  lemma NewestIsOldest(n: nat)
    requires n < SLACK
    ensures
      var t := Filled(n) + [Item(Name(n + 1), [])];
      Distinct(t) && OldestKeys(t) == [Name(n + 1)]
  {
    var key := Name(n + 1);
    var added: Item<seq<real>> := Item(key, []);
    var t := Filled(n) + [added];
    FilledMeans(n, key);
    AppendNew(Filled(n), added);
    LastItem(Filled(n), key, [], []);
    ByActivityMeans(t);
    var s := ByActivity(t);
    var j := IndexOf(s, key);
    var first := s[0];
    FindAt(s, 0);
    if first.key != key {
      FindAfterAppend(Filled(n), added, first.key);
      FilledMeans(n, first.key);
      assert Activity(added) == 0.0 && Activity(first) == 1.0;
      OrderedPair(s, 0, j);
    }
    assert s[..1] == [s[0]];
    assert EvictionCount(|t|) == 1;
    assert Keys(s[..1]) == [key];
  }

  // The clock may go back before the last clean-up, so that none falls due.
  lemma ExaminedNew(s: State, c: Config, n: nat)
    requires s.tracker == Filled(n) && 1.0 - s.lastCleanup <= c.window && n < SLACK
    ensures Examined(s, c, Name(n + 1), 1.0) == Filled(n) + [Item(Name(n + 1), [])]
  {
    var key := Name(n + 1);
    var t := Filled(n) + [Item(key, [])];
    FilledMeans(n, key);
    assert Find(Filled(n), key).None?;
    AssignNew(Filled(n), key, []);
    assert Prepared(s, c, key, 1.0) == t;
    LastItem(Filled(n), key, [], []);
    if |t| > c.maxKeys {
      NewestIsOldest(n);
      assert [key][1..] == [];
      assert RemoveAll(t, [key]) == Remove(t, key);
    }
    hide Prepared, OldestKeys, Remove, Find, Assign, Filled, Name;
  }

  lemma FillOne(c: Config, start: real, n: nat)
    requires c.enabled && c.maxRequests > 0 && 1.0 - start <= c.window && n < SLACK
    ensures CheckState(State(Filled(n), start), c, Name(n + 1), 1.0) == State(Filled(n + 1), start)
  {
    var key := Name(n + 1);
    assert Filled(n + 1) == Filled(n) + [Item(key, [1.0])];
    FilledMeans(n, key);
    assert Find(Filled(n), key).None?;
    hide Name, Filled, Examined, Find, Assign;
    ExaminedNew(State(Filled(n), start), c, n);
    LastItem(Filled(n), key, [], [1.0]);
    assert [] + [1.0] == [1.0];
  }

  lemma {:induction false} FillAll(c: Config, start: real, n: nat)
    requires c.enabled && c.maxRequests > 0 && 1.0 - start <= c.window && n <= SLACK
    ensures RunAll(c, start, Supply(n)) == State(Filled(n), start)
  {
    if n > 0 {
      FillAll(c, start, n - 1);
      FillOne(c, start, n - 1);
      assert Supply(n)[..n - 1] == Supply(n - 1);
    }
  }

  // The calls come in the order of their times, from `start` on.
  ghost predicate Clocked(start: real, calls: seq<Call>) {
    && (forall i :: 0 <= i < |calls| ==> start <= calls[i].at)
    && (forall i, j :: 0 <= i < j < |calls| ==> calls[i].at <= calls[j].at)
  }

  lemma {:induction false} SupplyClocked(n: nat)
    ensures Clocked(1.0, Supply(n)) && forall i :: 0 <= i < n ==> Supply(n)[i].at == 1.0
  {
    if n > 0 {
      SupplyClocked(n - 1);
    }
  }

  lemma {:induction false} DisabledHoldsNothing(c: Config, start: real, calls: seq<Call>)
    requires !c.enabled
    ensures RunAll(c, start, calls).tracker == []
  {
    if calls != [] {
      DisabledHoldsNothing(c, start, calls[..|calls| - 1]);
    }
  }

  // An enabled check leaves the key it was asked about.
  lemma CheckLeavesKey(s: State, c: Config, key: Key, now: real)
    requires Distinct(s.tracker) && c.enabled
    ensures CheckState(s, c, key, now).tracker != []
  {
    var t := Prepared(s, c, key, now);
    PreparedMeans(s, c, key, now);
    if |t| > c.maxKeys {
      EvictMeans(t);
    }
    EnsureMeans(Limited(t, c), key);
    var v := Examined(s, c, key, now);
    AssignOne(v, key, StampsOf(v, key) + [now]);
    hide Distinct, Prepared, Ensure, Evict, Assign, Young, StampsOf;
  }

  // ----- without grants

  ghost predicate NoStamps(t: Tracker) {
    forall k :: StampsOf(t, k) == []
  }

  // Keys without stamps are evicted in the order of the dictionary.
  lemma {:induction false} SortsNothing(t: Tracker)
    requires forall i :: 0 <= i < |t| ==> t[i].value == []
    ensures ByActivity(t) == t
  {
    if t != [] {
      SortsNothing(t[1..]);
      assert t == [t[0]] + t[1..];
    }
  }

  lemma LastIsKept(t: Tracker, key: Key)
    requires Distinct(t + [Item(key, [])]) && NoStamps(t + [Item(key, [])]) && t != []
    ensures Find(Evict(t + [Item(key, [])]), key).Some?
  {
    var u := t + [Item(key, [])];
    var n := EvictionCount(|u|);
    forall i | 0 <= i < |u|
      ensures u[i].value == []
    {
      FindAt(u, i);
      assert StampsOf(u, u[i].key) == [];
    }
    SortsNothing(u);
    EvictMeans(u);
    FindInPrefix(u, n, |u| - 1);
    hide Evict, Find, Distinct, ByActivity;
  }

  // Whether the key is new when the dictionary with it is too large.
  lemma PreparedGrows(s: State, c: Config, key: Key, now: real)
    requires Distinct(s.tracker) && NoStamps(s.tracker) && |Prepared(s, c, key, now)| > |s.tracker|
    ensures exists t: Tracker :: Prepared(s, c, key, now) == t + [Item(key, [])]
  {
    var t := if now - s.lastCleanup > c.window then CleanAll(s.tracker, now, c.window) else s.tracker;
    CleanAllMeans(s.tracker, now, c.window);
    assert StampsOf(s.tracker, key) == [];
    AssignOne(t, key, []);
    hide CleanAll, Distinct, Find;
    assert Prepared(s, c, key, now) == Assign(t, key, []);
    AssignNew(t, key, []);
  }

  lemma GrantlessCheck(s: State, c: Config, key: Key, now: real)
    requires c.enabled && c.maxRequests <= 0
    requires Distinct(s.tracker) && NoStamps(s.tracker) && |s.tracker| <= Max(c.maxKeys, 1)
    ensures
      var t := CheckState(s, c, key, now).tracker;
      Distinct(t) && NoStamps(t) && |t| <= Max(c.maxKeys, 1)
  {
    var t := Prepared(s, c, key, now);
    PreparedMeans(s, c, key, now);
    assert NoStamps(t) by {
      forall k
        ensures StampsOf(t, k) == []
      {
        assert StampsOf(s.tracker, k) == [];
      }
    }
    if |t| > c.maxKeys {
      EvictMeans(t);
      assert NoStamps(Evict(t)) by {
        forall k
          ensures StampsOf(Evict(t), k) == []
        {
          assert StampsOf(t, k) == [];
        }
      }
      if |t| > Max(c.maxKeys, 1) {
        PreparedGrows(s, c, key, now);
        var rest: Tracker :| t == rest + [Item(key, [])];
        LastIsKept(rest, key);
      }
    }
    EnsureMeans(Limited(t, c), key);
    hide Distinct, Find, Prepared, Ensure, Evict, Young, StampsOf;
  }

  lemma {:induction false} GrantlessRun(c: Config, start: real, calls: seq<Call>)
    requires c.enabled && c.maxRequests <= 0
    ensures
      var t := RunAll(c, start, calls).tracker;
      Distinct(t) && NoStamps(t) && |t| <= Max(c.maxKeys, 1)
  {
    if calls != [] {
      var before, last := calls[..|calls| - 1], calls[|calls| - 1];
      GrantlessRun(c, start, before);
      GrantlessCheck(RunAll(c, start, before), c, last.key, last.at);
      hide Distinct, NoStamps, CheckState;
    }
  }

  // ----- with a negative window

  ghost predicate StampsBy(t: Tracker, clock: real) {
    forall k, i :: 0 <= i < |StampsOf(t, k)| ==> StampsOf(t, k)[i] <= clock
  }

  // Every check clears all keys.
  lemma ShutClean(t: Tracker, now: real, window: real)
    requires window < 0.0 && Distinct(t) && StampsBy(t, now)
    ensures CleanAll(t, now, window) == []
  {
    var u := CleanAll(t, now, window);
    CleanAllMeans(t, now, window);
    forall k
      ensures StampsOf(u, k) == []
    {
      assert AllOld(StampsOf(t, k), now, window);
      YoungOfOld(StampsOf(t, k), now, window);
    }
    if u != [] {
      FindAt(u, 0);
    }
  }

  lemma ShutExamined(s: State, c: Config, key: Key, now: real)
    requires c.window < 0.0 && s.lastCleanup <= now && Distinct(s.tracker) && StampsBy(s.tracker, now)
    ensures Examined(s, c, key, now) == [Item(key, [])]
  {
    var t: Tracker := [Item(key, [])];
    ShutClean(s.tracker, now, c.window);
    assert StampsOf([], key) == [] && Prepared(s, c, key, now) == t;
    hide CleanAll, Prepared, Young;
    if |t| > c.maxKeys {
      EvictMeans(t);
      assert Evict(t) == [];
    }
  }

  lemma ShutState(s: State, c: Config, key: Key, now: real)
    requires c.enabled && c.window < 0.0 && s.lastCleanup <= now
    requires Distinct(s.tracker) && StampsBy(s.tracker, now)
    ensures CheckState(s, c, key, now) == State([Item(key, if c.maxRequests <= 0 then [] else [now])], now)
  {
    var t: Tracker := [Item(key, [])];
    ShutExamined(s, c, key, now);
    assert StampsOf(t, key) == [] && [] + [now] == [now] && t[1..] == [];
    assert Assign(t, key, [now]) == [Item(key, [now])];
    hide Examined, StampsOf, Distinct, StampsBy;
  }

  lemma OneKey(key: Key, stamps: seq<real>, now: real)
    requires stamps == [] || stamps == [now]
    ensures Distinct([Item(key, stamps)]) && StampsBy([Item(key, stamps)], now)
  {
    var t: Tracker := [Item(key, stamps)];
    assert t[1..] == [] && [] + t == t;
    forall k
      ensures StampsOf(t, k) == if k == key then stamps else []
    {
      FindAfterAppend([], t[0], k);
    }
  }

  lemma {:induction false} ShutRun(c: Config, start: real, calls: seq<Call>)
    requires c.enabled && c.window < 0.0 && Clocked(start, calls)
    ensures
      var s := RunAll(c, start, calls);
      && Distinct(s.tracker) && |s.tracker| <= 1
      && StampsBy(s.tracker, if calls == [] then start else calls[|calls| - 1].at)
      && s.lastCleanup == if calls == [] then start else calls[|calls| - 1].at
  {
    if calls != [] {
      var before, last := calls[..|calls| - 1], calls[|calls| - 1];
      ShutRun(c, start, before);
      var s := RunAll(c, start, before);
      assert StampsBy(s.tracker, last.at);
      hide Distinct, StampsBy, CheckState;
      ShutState(s, c, last.key, last.at);
      OneKey(last.key, if c.maxRequests <= 0 then [] else [last.at], last.at);
    }
  }

  // ----- the exact bound

  // The number of keys that some run reaches whatever the limit: `rising` when its clock
  // never goes back.
  function KeysReached(c: Config, rising: bool): nat {
    if !c.enabled then 0
    else if c.maxRequests <= 0 || (rising && c.window < 0.0) then 1
    else SLACK
  }

  lemma NeverMore(c: Config, rising: bool, start: real, calls: seq<Call>)
    requires rising ==> Clocked(start, calls)
    ensures |RunAll(c, start, calls).tracker| <= Max(c.maxKeys, KeysReached(c, rising))
  {
    hide RunAll, Distinct, Clocked;
    if !c.enabled {
      DisabledHoldsNothing(c, start, calls);
    } else if c.maxRequests <= 0 {
      GrantlessRun(c, start, calls);
    } else if rising && c.window < 0.0 {
      ShutRun(c, start, calls);
    } else {
      RunBoundsKeys(c, start, calls);
    }
  }

  lemma Reached(c: Config, rising: bool) returns (start: real, calls: seq<Call>)
    ensures rising ==> Clocked(start, calls)
    ensures |RunAll(c, start, calls).tracker| >= KeysReached(c, rising)
  {
    start, calls := 1.0, [];
    if KeysReached(c, rising) == 1 {
      calls := [Call("", 1.0)];
      assert calls[..0] == [] && RunAll(c, start, calls) == CheckState(State([], 1.0), c, "", 1.0);
      CheckLeavesKey(State([], 1.0), c, "", 1.0);
    } else if KeysReached(c, rising) == SLACK {
      start, calls := if c.window < 0.0 then 1.0 - c.window else 1.0, Supply(SLACK);
      FillAll(c, start, SLACK);
      SupplyClocked(SLACK);
    }
  }

  /** The configured limit holds on every run, or on every run whose clock never goes back,
      exactly when it is at least 19; when nothing is granted, or a negative window meets a
      rising clock, at least one; and when the limiter is off, not negative. */
  lemma LimitHoldsIff(c: Config, rising: bool)
    ensures (forall start, calls ::
               (rising ==> Clocked(start, calls)) ==> |RunAll(c, start, calls).tracker| <= c.maxKeys)
       <==> c.maxKeys >= KeysReached(c, rising)
  {
    var start, calls := Reached(c, rising);
    forall start, calls | rising ==> Clocked(start, calls)
      ensures |RunAll(c, start, calls).tracker| <= Max(c.maxKeys, KeysReached(c, rising))
    {
      NeverMore(c, rising, start, calls);
    }
    hide RunAll, KeysReached, Clocked;
  }

  // ----- one key against its full history

  ghost predicate Rising(grants: seq<real>, clock: real) {
    && (forall i, j :: 0 <= i < j < |grants| ==> grants[i] <= grants[j])
    && (forall i :: 0 <= i < |grants| ==> grants[i] <= clock)
  }

  // The stamps kept are the latest grants. Those gone are too old to matter, or were made no
  // later than `lost`, when an eviction last threw young ones away.
  ghost predicate Holds(stamps: seq<real>, grants: seq<real>, clock: real, window: real, lost: Option<real>) {
    exists gone :: grants == gone + stamps && AllGone(gone, clock, window, lost)
  }

  ghost predicate AllGone(gone: seq<real>, clock: real, window: real, lost: Option<real>) {
    forall i :: 0 <= i < |gone| ==> clock - gone[i] >= window || (lost.Some? && gone[i] <= lost.value)
  }

  // What was lost is too old to matter.
  predicate Exact(lost: Option<real>, now: real, window: real) {
    lost.Some? ==> now - lost.value >= window
  }

  ghost predicate AllOld(s: seq<real>, now: real, window: real) {
    forall i :: 0 <= i < |s| ==> now - s[i] >= window
  }

  ghost predicate NoneOld(s: seq<real>, now: real, window: real) {
    forall i :: 0 <= i < |s| ==> now - s[i] < window
  }

  lemma {:induction false} YoungOfOld(s: seq<real>, now: real, window: real)
    requires AllOld(s, now, window)
    ensures Young(s, now, window) == []
  {
    if s != [] {
      YoungOfOld(s[1..], now, window);
    }
  }

  lemma {:induction false} YoungOfYoung(s: seq<real>, now: real, window: real)
    requires NoneOld(s, now, window)
    ensures Young(s, now, window) == s
  {
    if s != [] {
      YoungOfYoung(s[1..], now, window);
    }
  }

  lemma {:induction false} YoungConcat(a: seq<real>, b: seq<real>, now: real, window: real)
    ensures Young(a + b, now, window) == Young(a, now, window) + Young(b, now, window)
  {
    if a == [] {
      assert a + b == b;
    } else {
      assert (a + b)[1..] == a[1..] + b;
      YoungConcat(a[1..], b, now, window);
      ConcatAssociates(if now - a[0] < window then [a[0]] else [], Young(a[1..], now, window), Young(b, now, window));
    }
  }

  // Of rising times the young ones are the last ones.
  lemma {:induction false} OldFirst(s: seq<real>, now: real, window: real) returns (gone: seq<real>)
    requires Rising(s, now)
    ensures s == gone + Young(s, now, window)
    ensures AllOld(gone, now, window) && NoneOld(Young(s, now, window), now, window)
  {
    if s == [] {
      gone := [];
    } else if now - s[0] < window {
      gone := [];
      assert NoneOld(s, now, window);
      YoungOfYoung(s, now, window);
    } else {
      gone := OldFirst(s[1..], now, window);
      gone := [s[0]] + gone;
    }
  }

  lemma HoldsBy(gone: seq<real>, stamps: seq<real>, clock: real, window: real, lost: Option<real>)
    requires AllGone(gone, clock, window, lost)
    ensures Holds(stamps, gone + stamps, clock, window, lost)
  {
  }

  lemma HoldsLater(stamps: seq<real>, grants: seq<real>, clock: real, now: real, window: real, lost: Option<real>)
    requires Holds(stamps, grants, clock, window, lost) && clock <= now
    ensures Holds(stamps, grants, now, window, lost)
  {
    var gone :| grants == gone + stamps && AllGone(gone, clock, window, lost);
    HoldsBy(gone, stamps, now, window, lost);
  }

  lemma RisingSuffix(gone: seq<real>, stamps: seq<real>, clock: real)
    requires Rising(gone + stamps, clock)
    ensures Rising(stamps, clock)
  {
    assert forall i :: 0 <= i < |stamps| ==> stamps[i] == (gone + stamps)[|gone| + i];
  }

  lemma HoldsAfterYoung(stamps: seq<real>, grants: seq<real>, clock: real, now: real, window: real, lost: Option<real>)
    requires Rising(grants, clock) && clock <= now && Holds(stamps, grants, clock, window, lost)
    ensures Holds(Young(stamps, now, window), grants, now, window, lost)
    ensures NoneOld(Young(stamps, now, window), now, window)
  {
    var gone :| grants == gone + stamps && AllGone(gone, clock, window, lost);
    RisingSuffix(gone, stamps, clock);
    assert Rising(stamps, now);
    var older := OldFirst(stamps, now, window);
    assert AllGone(gone + older, now, window, lost);
    hide Young, AllGone, Rising, AllOld;
    ConcatAssociates(gone, older, Young(stamps, now, window));
    HoldsBy(gone + older, Young(stamps, now, window), now, window, lost);
  }

  // Counting the stamps kept counts the young grants of the whole history.
  lemma HoldsCounts(stamps: seq<real>, grants: seq<real>, now: real, window: real, lost: Option<real>)
    requires Holds(stamps, grants, now, window, lost) && NoneOld(stamps, now, window)
    ensures |stamps| <= |Young(grants, now, window)|
    ensures Exact(lost, now, window) ==> Young(grants, now, window) == stamps
  {
    var gone :| grants == gone + stamps && AllGone(gone, now, window, lost);
    YoungConcat(gone, stamps, now, window);
    YoungOfYoung(stamps, now, window);
    if Exact(lost, now, window) {
      YoungOfOld(gone, now, window);
    }
  }

  // Throwing all stamps away loses nothing when none of them is young.
  lemma HoldsNothing(stamps: seq<real>, grants: seq<real>, now: real, window: real, lost: Option<real>)
    requires Rising(grants, now) && Holds(stamps, grants, now, window, lost)
    ensures Holds([], grants, now, window, if Young(stamps, now, window) == [] then lost else Some(now))
  {
    assert grants + [] == grants;
    if Young(stamps, now, window) == [] {
      HoldsAfterYoung(stamps, grants, now, now, window, lost);
    } else {
      HoldsBy(grants, [], now, window, Some(now));
    }
  }

  lemma HoldsAfterGrant(stamps: seq<real>, grants: seq<real>, now: real, window: real, lost: Option<real>)
    requires Rising(grants, now) && Holds(stamps, grants, now, window, lost)
    ensures Rising(grants + [now], now) && Holds(stamps + [now], grants + [now], now, window, lost)
  {
    var gone :| grants == gone + stamps && AllGone(gone, now, window, lost);
    ConcatAssociates(gone, stamps, [now]);
    HoldsBy(gone, stamps + [now], now, window, lost);
  }

  // How many of the times lie in the window that starts at `from`.
  function Within(s: seq<real>, from: real, window: real): nat {
    if s == [] then 0
    else Within(s[..|s| - 1], from, window) + if from <= s[|s| - 1] < from + window then 1 else 0
  }

  // No window of the configured length holds more grants than allowed, unless it reaches
  // back to a loss.
  ghost predicate Bounded(grants: seq<real>, c: Config, lost: Option<real>) {
    forall from :: (lost.Some? ==> lost.value < from) ==> Within(grants, from, c.window) <= Max(c.maxRequests, 0)
  }

  lemma {:induction false} WithinConcat(a: seq<real>, b: seq<real>, from: real, window: real)
    ensures Within(a + b, from, window) == Within(a, from, window) + Within(b, from, window)
  {
    if b == [] {
      assert a + b == a;
    } else {
      assert (a + b)[..|a + b| - 1] == a + b[..|b| - 1];
      WithinConcat(a, b[..|b| - 1], from, window);
    }
  }

  lemma {:induction false} WithinAtMost(s: seq<real>, from: real, window: real)
    ensures Within(s, from, window) <= |s|
    ensures (forall i :: 0 <= i < |s| ==> s[i] < from) ==> Within(s, from, window) == 0
  {
    if s != [] {
      WithinAtMost(s[..|s| - 1], from, window);
    }
  }

  // A grant made while fewer stamps than allowed are kept overfills no window.
  lemma BoundedAfterGrant(stamps: seq<real>, grants: seq<real>, now: real, c: Config, lost: Option<real>)
    requires Bounded(grants, c, lost) && Holds(stamps, grants, now, c.window, lost) && |stamps| < c.maxRequests
    ensures Bounded(grants + [now], c, lost)
  {
    var gone :| grants == gone + stamps && AllGone(gone, now, c.window, lost);
    forall from | lost.Some? ==> lost.value < from
      ensures Within(grants + [now], from, c.window) <= Max(c.maxRequests, 0)
    {
      assert (grants + [now])[..|grants + [now]| - 1] == grants;
      if now < from + c.window {
        WithinConcat(gone, stamps, from, c.window);
        WithinAtMost(gone, from, c.window);
        WithinAtMost(stamps, from, c.window);
      }
    }
  }

  // ----- all keys against the history

  function GrantsOf(log: seq<Call>, key: Key): seq<real> {
    if log == [] then []
    else GrantsOf(log[..|log| - 1], key) + if log[|log| - 1].key == key then [log[|log| - 1].at] else []
  }

  lemma GrantsAfter(log: seq<Call>, call: Call, key: Key)
    ensures GrantsOf(log + [call], key) == GrantsOf(log, key) + if call.key == key then [call.at] else []
  {
    assert (log + [call])[..|log + [call]| - 1] == log;
  }

  function LostOf(forgotten: map<Key, real>, key: Key): Option<real> {
    if key in forgotten then Some(forgotten[key]) else None
  }

  ghost predicate KeyAgrees(t: Tracker, log: seq<Call>, clock: real, c: Config, key: Key, lost: Option<real>) {
    && Rising(GrantsOf(log, key), clock)
    && Holds(StampsOf(t, key), GrantsOf(log, key), clock, c.window, lost)
    && Bounded(GrantsOf(log, key), c, lost)
  }

  // The tracker against the history of all grants. `forgotten` are the keys whose eviction
  // has thrown a young stamp away, with the time of the latest such loss.
  ghost predicate Agrees(t: Tracker, log: seq<Call>, clock: real, c: Config, forgotten: map<Key, real>) {
    Distinct(t) && forall k :: KeyAgrees(t, log, clock, c, k, LostOf(forgotten, k))
  }

  ghost function Lost(t: Tracker, u: Tracker, now: real, window: real): set<Key> {
    set k | k in Keys(t) && StampsOf(u, k) == [] && Young(StampsOf(t, k), now, window) != []
  }

  ghost function Forgotten(forgotten: map<Key, real>, lost: set<Key>, now: real): map<Key, real> {
    forgotten + map k | k in lost :: now
  }

  lemma PreparedAgrees(
    s: State, log: seq<Call>, clock: real, c: Config, forgotten: map<Key, real>, key: Key, now: real)
    requires Agrees(s.tracker, log, clock, c, forgotten) && clock <= now
    ensures
      var t := Prepared(s, c, key, now);
      Agrees(t, log, now, c, forgotten) && NoneOld(StampsOf(t, key), now, c.window)
  {
    PreparedMeans(s, c, key, now);
    hide Prepared, StampsOf, Young, Distinct, GrantsOf, Bounded, Holds, NoneOld, LostOf;
    forall k
      ensures KeyAgrees(Prepared(s, c, key, now), log, now, c, k, LostOf(forgotten, k))
    {
      assert KeyAgrees(s.tracker, log, clock, c, k, LostOf(forgotten, k));
      HoldsLater(StampsOf(s.tracker, k), GrantsOf(log, k), clock, now, c.window, LostOf(forgotten, k));
      HoldsAfterYoung(StampsOf(s.tracker, k), GrantsOf(log, k), clock, now, c.window, LostOf(forgotten, k));
    }
    assert KeyAgrees(s.tracker, log, clock, c, key, LostOf(forgotten, key));
    HoldsAfterYoung(StampsOf(s.tracker, key), GrantsOf(log, key), clock, now, c.window, LostOf(forgotten, key));
  }

  // One key whose stamps an eviction keeps or throws away.
  lemma EvictedAgrees(
    t: Tracker, u: Tracker, log: seq<Call>, now: real, c: Config, forgotten: map<Key, real>, k: Key)
    requires KeyAgrees(t, log, now, c, k, LostOf(forgotten, k))
    requires StampsOf(u, k) == StampsOf(t, k) || StampsOf(u, k) == []
    ensures KeyAgrees(u, log, now, c, k, LostOf(Forgotten(forgotten, Lost(t, u, now, c.window), now), k))
  {
    var lost := Lost(t, u, now, c.window);
    FindGivesKey(t, k);
    HoldsNothing(StampsOf(t, k), GrantsOf(log, k), now, c.window, LostOf(forgotten, k));
    BoundedLess(GrantsOf(log, k), c, LostOf(forgotten, k), now);
    hide Holds, GrantsOf, Bounded, Rising, Find;
  }

  // A later loss excuses more windows.
  lemma BoundedLess(grants: seq<real>, c: Config, lost: Option<real>, now: real)
    requires Bounded(grants, c, lost) && Rising(grants, now)
    ensures Bounded(grants, c, Some(now))
  {
    forall from | now < from
      ensures Within(grants, from, c.window) <= Max(c.maxRequests, 0)
    {
      WithinAtMost(grants, from, c.window);
    }
  }

  lemma LimitedAgrees(t: Tracker, log: seq<Call>, now: real, c: Config, forgotten: map<Key, real>)
    requires Agrees(t, log, now, c, forgotten)
    ensures
      var u := Limited(t, c);
      && Agrees(u, log, now, c, Forgotten(forgotten, Lost(t, u, now, c.window), now))
      && forall k :: StampsOf(u, k) == StampsOf(t, k) || StampsOf(u, k) == []
  {
    var u := Limited(t, c);
    if t != [] {
      EvictMeans(t);
    }
    forall k
      ensures StampsOf(u, k) == StampsOf(t, k) || StampsOf(u, k) == []
    {
      hide Evict;
    }
    hide Evict, KeyAgrees, StampsOf, Forgotten, LostOf, Lost;
    forall k
      ensures KeyAgrees(u, log, now, c, k, LostOf(Forgotten(forgotten, Lost(t, u, now, c.window), now), k))
    {
      assert KeyAgrees(t, log, now, c, k, LostOf(forgotten, k));
      EvictedAgrees(t, u, log, now, c, forgotten, k);
    }
  }

  lemma GrantKeyAgrees(
    t: Tracker, u: Tracker, log: seq<Call>, now: real, c: Config, key: Key, k: Key, lost: Option<real>)
    requires KeyAgrees(t, log, now, c, k, lost)
    requires k == key ==> StampsOf(u, k) == StampsOf(t, k) + [now] && |StampsOf(t, k)| < c.maxRequests
    requires k != key ==> StampsOf(u, k) == StampsOf(t, k)
    ensures KeyAgrees(u, log + [Call(key, now)], now, c, k, lost)
  {
    GrantsAfter(log, Call(key, now), k);
    var stamps, grants := StampsOf(t, k), GrantsOf(log, k);
    hide Rising, Holds, Bounded, StampsOf, GrantsOf;
    if k == key {
      HoldsAfterGrant(stamps, grants, now, c.window, lost);
      BoundedAfterGrant(stamps, grants, now, c, lost);
    } else {
      assert grants + [] == grants;
    }
  }

  lemma GrantAgrees(t: Tracker, log: seq<Call>, now: real, c: Config, forgotten: map<Key, real>, key: Key)
    requires Agrees(t, log, now, c, forgotten) && |StampsOf(t, key)| < c.maxRequests
    ensures Agrees(Assign(t, key, StampsOf(t, key) + [now]), log + [Call(key, now)], now, c, forgotten)
  {
    var u := Assign(t, key, StampsOf(t, key) + [now]);
    AssignOne(t, key, StampsOf(t, key) + [now]);
    hide Distinct, KeyAgrees, Assign, LostOf;
    forall k
      ensures KeyAgrees(u, log + [Call(key, now)], now, c, k, LostOf(forgotten, k))
    {
      assert KeyAgrees(t, log, now, c, k, LostOf(forgotten, k));
      GrantKeyAgrees(t, u, log, now, c, key, k, LostOf(forgotten, k));
    }
  }

  // The keys whose young stamps this check throws away.
  ghost function LostByCheck(s: State, c: Config, key: Key, now: real): set<Key> {
    var t := Prepared(s, c, key, now);
    Lost(t, Limited(t, c), now, c.window)
  }

  /** A check loses no young stamp as long as the keys it has after its clean-up are not too
      many; with fewer keys than the limit before it, that is so. */
  lemma RoomyLosesNothing(s: State, c: Config, key: Key, now: real)
    requires Distinct(s.tracker)
    ensures |Prepared(s, c, key, now)| <= c.maxKeys ==> LostByCheck(s, c, key, now) == {}
    ensures |s.tracker| < c.maxKeys ==> LostByCheck(s, c, key, now) == {}
  {
    PreparedMeans(s, c, key, now);
    hide Prepared, StampsOf;
  }

  /** One check against the full history. The limiter never refuses wrongly; and for a
      key that lost no young stamp, or lost its last one a window ago, it grants exactly when
      fewer than `maxRequests` of all its grants are younger than the window. */
  lemma CheckAgrees(s: State, log: seq<Call>, clock: real, c: Config, forgotten: map<Key, real>, key: Key, now: real)
    requires c.enabled && Agrees(s.tracker, log, clock, c, forgotten) && clock <= now
    ensures
      var granted := Granted(s, c, key, now);
      var lost := Forgotten(forgotten, LostByCheck(s, c, key, now), now);
      var young := |Young(GrantsOf(log, key), now, c.window)|;
      && Agrees(CheckState(s, c, key, now).tracker, if granted then log + [Call(key, now)] else log, now, c, lost)
      && (!granted ==> young >= c.maxRequests)
      && (Exact(LostOf(lost, key), now, c.window) ==> (granted <==> young < c.maxRequests))
  {
    var t := Prepared(s, c, key, now);
    var u := Limited(t, c);
    var v := Ensure(u, key);
    var lost := Forgotten(forgotten, LostByCheck(s, c, key, now), now);
    PreparedAgrees(s, log, clock, c, forgotten, key, now);
    LimitedAgrees(t, log, now, c, forgotten);
    EnsureMeans(u, key);
    assert Agrees(v, log, now, c, lost) by {
      hide Distinct, GrantsOf, Rising, Holds, Bounded, Prepared, Limited, Ensure, Forgotten, LostOf;
      forall k
        ensures KeyAgrees(v, log, now, c, k, LostOf(lost, k))
      {
        assert KeyAgrees(u, log, now, c, k, LostOf(lost, k));
      }
    }
    var stamps := StampsOf(v, key);
    assert NoneOld(stamps, now, c.window);
    assert KeyAgrees(v, log, now, c, key, LostOf(lost, key));
    HoldsCounts(stamps, GrantsOf(log, key), now, c.window, LostOf(lost, key));
    hide Agrees, KeyAgrees, Holds, Rising, Bounded, Prepared, Limited, Ensure, Young, GrantsOf, Assign,
      Forgotten, LostOf;
    if |stamps| < c.maxRequests {
      GrantAgrees(v, log, now, c, lost, key);
    }
  }

  lemma DisabledDoesNothing(s: State, c: Config, key: Key, now: real)
    requires !c.enabled
    ensures CheckState(s, c, key, now) == s && Granted(s, c, key, now)
  {
  }

  lemma AgreesIsDistinct(t: Tracker, log: seq<Call>, clock: real, c: Config, forgotten: map<Key, real>)
    requires Agrees(t, log, clock, c, forgotten)
    ensures Distinct(t)
  {
  }

  /** `RateLimiter`. The ghost fields hold every grant ever made, the clock of the last
      check, and the keys whose young stamps an eviction has thrown away, with the time. */
  class Limiter {
    const config: Config
    var tracker: Tracker
    var lastCleanup: real
    ghost var log: seq<Call>
    ghost var clock: real
    ghost var forgotten: map<Key, real>

    function Current(): State
      reads this
    {
      State(tracker, lastCleanup)
    }

    ghost predicate Valid()
      reads this
    {
      && Agrees(tracker, log, clock, config, forgotten)
      && |tracker| <= Max(config.maxKeys, SLACK)
    }

    constructor (config: Config, now: real)
      ensures Valid() && Current() == State([], now) && log == [] && clock == now && forgotten == map[]
      ensures this.config == config
    {
      this.config := config;
      tracker, lastCleanup := [], now;
      log, clock, forgotten := [], now, map[];
      new;
      forall k
        ensures KeyAgrees([], [], now, config, k, LostOf(map[], k))
      {
        assert [] == [] + StampsOf([], k);
      }
    }

    // Two passes, as a dictionary must not lose keys while it is walked over.
    method CleanupAll(now: real)
      requires Distinct(tracker)
      modifies this`tracker
      ensures tracker == CleanAll(old(tracker), now, config.window)
    {
      ghost var young := AllYoung(tracker, now, config.window);
      var emptyKeys: seq<Key> := [];
      var i := 0;
      while i < |tracker|
        invariant 0 <= i <= |tracker| == |old(tracker)|
        invariant forall j :: 0 <= j < i ==> tracker[j] == young[j]
        invariant forall j :: i <= j < |tracker| ==> tracker[j] == old(tracker)[j]
        invariant emptyKeys == EmptyKeys(young[..i])
      {
        var item := tracker[i];
        var kept := Young(item.value, now, config.window);
        tracker := tracker[i := Item(item.key, kept)];
        EmptyKeysAppend(young, i);
        if kept == [] {
          emptyKeys := emptyKeys + [item.key];
        }
        i := i + 1;
      }
      assert tracker == young == young[..|young|];
      DeleteKeys(emptyKeys);
    }

    method DeleteKeys(ks: seq<Key>)
      modifies this`tracker
      ensures tracker == RemoveAll(old(tracker), ks)
    {
      for i := 0 to |ks|
        invariant tracker == RemoveAll(old(tracker), ks[..i])
      {
        RemoveAllAppend(old(tracker), ks[..i], ks[i]);
        assert ks[..i + 1] == ks[..i] + [ks[i]];
        tracker := Remove(tracker, ks[i]);
      }
      assert ks[..|ks|] == ks;
    }

    method RemoveOldestKeys()
      requires Distinct(tracker)
      modifies this`tracker
      ensures tracker == Evict(old(tracker))
    {
      if tracker == [] {
        return;
      }
      ByActivityMeans(tracker);
      var sortedKeys := ByActivity(tracker);
      var keysToRemove := Max(1, |sortedKeys| / 10);
      DeleteKeys(Keys(sortedKeys[..Min(keysToRemove, |sortedKeys|)]));
    }

    // The clean-ups of a check, and the eviction.
    method Prepare(key: Key, now: real)
      requires Distinct(tracker)
      modifies this`tracker, this`lastCleanup
      ensures tracker == Examined(old(Current()), config, key, now)
      ensures lastCleanup == if now - old(lastCleanup) > config.window then now else old(lastCleanup)
    {
      PreparedMeans(Current(), config, key, now);
      hide Distinct, Find, Young, Assign, CleanAll, Evict, StampsOf;
      ghost var start := Current();
      if now - lastCleanup > config.window {
        CleanupAll(now);
        lastCleanup := now;
      }
      tracker := Assign(tracker, key, Young(StampsOf(tracker, key), now, config.window));
      assert tracker == Prepared(start, config, key, now);
      hide Prepared;
      if |tracker| > config.maxKeys {
        RemoveOldestKeys();
      }
      tracker := Ensure(tracker, key);
    }

    // `check` of an enabled limiter on its own fields.
    method Decide(key: Key, now: real) returns (granted: bool)
      requires config.enabled && Distinct(tracker)
      modifies this`tracker, this`lastCleanup
      ensures granted == Granted(old(Current()), config, key, now)
      ensures Current() == CheckState(old(Current()), config, key, now)
    {
      hide Distinct, Assign, Examined, StampsOf;
      Prepare(key, now);
      var stamps := StampsOf(tracker, key);
      if |stamps| >= config.maxRequests {
        return false;
      }
      tracker := Assign(tracker, key, stamps + [now]);
      return true;
    }

    method Check(key: Key, now: real) returns (granted: bool)
      requires Valid() && clock <= now
      modifies this
      ensures Valid()
      ensures granted == Granted(old(Current()), config, key, now)
      ensures Current() == CheckState(old(Current()), config, key, now)
      ensures log == if config.enabled && granted then old(log) + [Call(key, now)] else old(log)
      ensures config.enabled ==>
        forgotten == Forgotten(old(forgotten), LostByCheck(old(Current()), config, key, now), now)
      ensures !granted ==> |Young(GrantsOf(old(log), key), now, config.window)| >= config.maxRequests
      ensures config.enabled && Exact(LostOf(forgotten, key), now, config.window) ==>
                (granted <==> |Young(GrantsOf(old(log), key), now, config.window)| < config.maxRequests)
    {
      hide Agrees, Distinct, GrantsOf, CheckState, Granted, LostByCheck, Forgotten, LostOf, Exact, Young;
      if !config.enabled {
        DisabledDoesNothing(Current(), config, key, now);
        return true;
      }
      AgreesIsDistinct(tracker, log, clock, config, forgotten);
      CheckAgrees(Current(), log, clock, config, forgotten, key, now);
      CheckBoundsKeys(Current(), config, key, now);
      forgotten := Forgotten(forgotten, LostByCheck(Current(), config, key, now), now);
      clock := now;
      granted := Decide(key, now);
      log := if granted then log + [Call(key, now)] else log;
    }
  }
}
