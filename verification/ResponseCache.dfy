/** The TTL and LRU cache of the Bedrock client (src/cowrie/llm/bedrock.py). */
module ResponseCache {
  import opened Common
  import opened OrderedDict

  datatype CacheEntry = CacheEntry(value: string, insertedAt: real)

  type Entry = Item<CacheEntry>

  // The ordered dictionary, least recently used entry first, and the counters.
  datatype State = State(store: seq<Entry>, hits: nat, misses: nat, evictions: nat)

  const EMPTY := State([], 0, 0, 0)

  predicate Stale(e: Entry, now: real, ttl: real) {
    now - e.value.insertedAt > ttl
  }

  function GetState(s: State, ttl: real, key: Key, now: real): State {
    match Find(s.store, key)
    case None => s.(misses := s.misses + 1)
    case Some(e) =>
      if Stale(e, now, ttl)
      then s.(store := Remove(s.store, key), misses := s.misses + 1, evictions := s.evictions + 1)
      else s.(store := Remove(s.store, key) + [e], hits := s.hits + 1)
  }

  function GetValue(s: State, ttl: real, key: Key, now: real): Option<string> {
    match Find(s.store, key)
    case None => None
    case Some(e) => if Stale(e, now, ttl) then None else Some(e.value.value)
  }

  function PutState(s: State, maxEntries: int, key: Key, value: string, now: real): State {
    var e := Item(key, CacheEntry(value, now));
    if Find(s.store, key).Some? then s.(store := Remove(s.store, key) + [e])
    else if |s.store| + 1 > maxEntries
    then s.(store := (s.store + [e])[1..], evictions := s.evictions + 1)
    else s.(store := s.store + [e])
  }

  // ----- one request

  // A request of the loop: the look-up, and the reply the model gives on a miss.
  datatype Request = Request(key: Key, getAt: real, reply: string, putAt: real)

  // `_get_response_sync`: get, and put what the model replies after a miss.
  function Serve(s: State, maxEntries: int, ttl: real, r: Request): State {
    var looked := GetState(s, ttl, r.key, r.getAt);
    if GetValue(s, ttl, r.key, r.getAt).Some? then looked
    else PutState(looked, maxEntries, r.key, r.reply, r.putAt)
  }

  function ServeAll(maxEntries: int, ttl: real, rs: seq<Request>): State {
    if rs == [] then EMPTY
    else Serve(ServeAll(maxEntries, ttl, rs[..|rs| - 1]), maxEntries, ttl, rs[|rs| - 1])
  }

  // The keys requested so far in the order of their last request.
  function Recency(rs: seq<Request>): seq<Key> {
    if rs == [] then []
    else
      var key := rs[|rs| - 1].key;
      Without(Recency(rs[..|rs| - 1]), key) + [key]
  }

  // What one request leaves: its key last, every other entry as it was or evicted.
  ghost predicate Served(s: State, t: State, maxEntries: nat, ttl: real, r: Request) {
    && Distinct(t.store)
    && (var hit := GetValue(s, ttl, r.key, r.getAt).Some?;
        && t.hits == s.hits + (if hit then 1 else 0)
        && (hit ==> Find(t.store, r.key) == Find(s.store, r.key))
        && (!hit ==> Find(t.store, r.key) == Some(Item(r.key, CacheEntry(r.reply, r.putAt)))))
    && (forall k :: k != r.key && Find(t.store, k).Some? ==> Find(t.store, k) == Find(s.store, k))
    && (var ks := Without(Keys(s.store), r.key) + [r.key];
        Keys(t.store) == if |ks| > maxEntries then ks[1..] else ks)
  }

  lemma {:induction false} WithoutAbsent(ks: seq<Key>, key: Key)
    requires key !in ks
    ensures Without(ks, key) == ks
  {
    if ks != [] {
      WithoutAbsent(ks[1..], key);
      assert ks == [ks[0]] + ks[1..];
    }
  }

  lemma ServeIsServed(s: State, maxEntries: nat, ttl: real, r: Request)
    requires Distinct(s.store) && |s.store| <= maxEntries && maxEntries > 0
    ensures Served(s, Serve(s, maxEntries, ttl, r), maxEntries, ttl, r)
    ensures |Serve(s, maxEntries, ttl, r).store| <= maxEntries
  {
    var found := Find(s.store, r.key);
    var added := Item(r.key, CacheEntry(r.reply, r.putAt));
    FindGivesKey(s.store, r.key);
    if found.None? {
      WithoutAbsent(Keys(s.store), r.key);
      AppendNew(s.store, added);
      forall k
        ensures Find(s.store + [added], k) == if k == r.key then Some(added) else Find(s.store, k)
      {
        FindAfterAppend(s.store, added, k);
      }
      PopFirst(s.store + [added]);
    } else if Stale(found.value, r.getAt, ttl) {
      MoveToEnd(s.store, added);
      RemoveOne(s.store, r.key);
      FindAfterRemove(s.store, r.key, r.key);
    } else {
      MoveToEnd(s.store, found.value);
    }
  }

  /** A look-up hits exactly when the key is held for at most `ttl`; it then puts the key last,
      and an entry that is older is taken out. */
  lemma GetOrders(s: State, ttl: real, key: Key, now: real)
    requires Distinct(s.store)
    ensures
      var t, found := GetState(s, ttl, key, now), Find(s.store, key);
      var hit := found.Some? && now - found.value.value.insertedAt <= ttl;
      && (GetValue(s, ttl, key, now) == if hit then Some(found.value.value.value) else None)
      && t.hits == s.hits + (if hit then 1 else 0) && t.misses == s.misses + (if hit then 0 else 1)
      && t.evictions == s.evictions + (if found.Some? && !hit then 1 else 0)
      && Keys(t.store) == Without(Keys(s.store), key) + (if hit then [key] else [])
      && (forall k :: k != key || hit ==> Find(t.store, k) == Find(s.store, k))
  {
    var found := Find(s.store, key);
    FindGivesKey(s.store, key);
    RemoveOne(s.store, key);
    assert Without(Keys(s.store), key) + [] == Without(Keys(s.store), key);
    if found.None? {
      WithoutAbsent(Keys(s.store), key);
    } else {
      MoveToEnd(s.store, found.value);
      forall k
        ensures Find(Remove(s.store, key), k) == if k == key then None else Find(s.store, k)
      {
        FindAfterRemove(s.store, key, k);
      }
    }
    hide Distinct, Find, Remove, Keys, Without;
  }

  /** A store puts its key last, known or not, with the new value and time; a known key evicts
      nothing, and a new one the first of all when there are too many. */
  lemma PutOrders(s: State, maxEntries: int, key: Key, value: string, now: real)
    requires Distinct(s.store)
    ensures
      var t := PutState(s, maxEntries, key, value, now);
      var ks := Without(Keys(s.store), key) + [key];
      && Keys(t.store) == (if key !in Keys(s.store) && |ks| > maxEntries then ks[1..] else ks)
      && (forall e :: e in t.store && e.key == key ==> e.value == CacheEntry(value, now))
      && (forall k :: k != key && Find(t.store, k).Some? ==> Find(t.store, k) == Find(s.store, k))
      && t.evictions == s.evictions + (if key !in Keys(s.store) && |ks| > maxEntries then 1 else 0)
      && t.hits == s.hits && t.misses == s.misses
  {
    var e := Item(key, CacheEntry(value, now));
    var moved := Remove(s.store, key) + [e];
    FindGivesKey(s.store, key);
    MoveToEnd(s.store, e);
    if Find(s.store, key).None? {
      WithoutAbsent(Keys(s.store), key);
      RemoveAbsent(s.store, key);
      PopFirst(moved);
    }
    forall x | x in moved && x.key == key
      ensures x == e
    {
      RemovedKeys(s.store, key);
    }
    hide Distinct, Find, Remove, Keys, Without;
  }

  lemma {:induction false} RemoveAbsent(d: seq<Entry>, key: Key)
    requires Find(d, key).None?
    ensures Remove(d, key) == d
  {
    if d != [] {
      RemoveAbsent(d[1..], key);
    }
  }

  lemma {:induction false} RemovedKeys(d: seq<Entry>, key: Key)
    ensures forall x :: x in Remove(d, key) ==> x.key != key
  {
    if d != [] {
      RemovedKeys(d[1..], key);
    }
  }

  // ----- whole runs of the loop

  lemma {:induction false} WithoutMeans(ks: seq<Key>, key: Key)
    requires NoRepeats(ks)
    ensures NoRepeats(Without(ks, key)) && key !in Without(ks, key)
    ensures forall k :: k in Without(ks, key) ==> k in ks
    ensures |Without(ks, key)| == |ks| - (if key in ks then 1 else 0)
  {
    if ks != [] {
      WithoutMeans(ks[1..], key);
      assert ks == [ks[0]] + ks[1..] && ks[0] !in ks[1..];
      var rest := Without(ks[1..], key);
      if ks[0] != key {
        assert NoRepeats([ks[0]] + rest) by {
          assert ks[0] !in rest;
        }
      }
    }
  }

  lemma {:induction false} WithoutConcat(a: seq<Key>, b: seq<Key>, key: Key)
    ensures Without(a + b, key) == Without(a, key) + Without(b, key)
  {
    if a == [] {
      assert a + b == b;
    } else {
      WithoutConcat(a[1..], b, key);
      assert (a + b)[1..] == a[1..] + b;
      if a[0] != key {
        ConcatAssociates([a[0]], Without(a[1..], key), Without(b, key));
      }
    }
  }

  lemma LastNOfConcat(a: seq<Key>, b: seq<Key>, n: nat)
    requires |b| <= n + 1 && (a == [] || n <= |b|)
    ensures LastN(a + b, n) == if |b| > n then b[1..] else b
  {
  }

  // Serving a key keeps "the last n of the recency order".
  lemma LastNAfterServe(order: seq<Key>, n: nat, key: Key)
    requires NoRepeats(order) && n > 0
    ensures
      var ks := Without(LastN(order, n), key) + [key];
      (if |ks| > n then ks[1..] else ks) == LastN(Without(order, key) + [key], n)
  {
    if |order| <= n {
      WithoutMeans(order, key);
      LastNOfAll(order, n);
      LastNOfConcat([], Without(order, key) + [key], n);
      hide *;
    } else {
      LastNSplits(order, n);
      var gone, kept := order[..|order| - n], LastN(order, n);
      assert NoRepeats(kept);
      hide *;
      LastNAfterFullServe(gone, kept, key);
    }
  }

  lemma LastNOfAll(s: seq<Key>, n: nat)
    requires |s| <= n
    ensures LastN(s, n) == s
  {
  }

  lemma LastNSplits(s: seq<Key>, n: nat)
    requires |s| > n
    ensures |LastN(s, n)| == n && s == s[..|s| - n] + LastN(s, n)
  {
  }

  lemma LastNAfterFullServe(gone: seq<Key>, kept: seq<Key>, key: Key)
    requires NoRepeats(kept) && kept != []
    ensures
      var ks := Without(kept, key) + [key];
      (if |ks| > |kept| then ks[1..] else ks) == LastN(Without(gone + kept, key) + [key], |kept|)
  {
    WithoutConcat(gone, kept, key);
    WithoutMeans(kept, key);
    ConcatAssociates(Without(gone, key), Without(kept, key), [key]);
    LastNOfConcat(Without(gone, key), Without(kept, key) + [key], |kept|);
    hide Without, NoRepeats, LastN;
  }

  lemma {:induction false} RecencyHasNoRepeats(rs: seq<Request>)
    ensures NoRepeats(Recency(rs))
  {
    if rs != [] {
      RecencyHasNoRepeats(rs[..|rs| - 1]);
      WithoutMeans(Recency(rs[..|rs| - 1]), rs[|rs| - 1].key);
    }
  }

  // A cache without room keeps nothing, and has no hits.
  lemma {:induction false} NoRoomNoHits(maxEntries: int, ttl: real, rs: seq<Request>)
    requires maxEntries <= 0
    ensures ServeAll(maxEntries, ttl, rs).store == [] && ServeAll(maxEntries, ttl, rs).hits == 0
  {
    if rs != [] {
      NoRoomNoHits(maxEntries, ttl, rs[..|rs| - 1]);
    }
  }

  /** After any requests the keys held are the last `maxEntries` of the recency
      order, expiry or not. */
  lemma {:induction false} StoreIsRecency(maxEntries: int, ttl: real, rs: seq<Request>)
    ensures
      var s := ServeAll(maxEntries, ttl, rs);
      && Distinct(s.store) && |s.store| <= Max(maxEntries, 0)
      && Keys(s.store) == LastN(Recency(rs), Max(maxEntries, 0))
  {
    if maxEntries <= 0 {
      NoRoomNoHits(maxEntries, ttl, rs);
    } else if rs != [] {
      var before, r := rs[..|rs| - 1], rs[|rs| - 1];
      StoreIsRecency(maxEntries, ttl, before);
      ServeIsServed(ServeAll(maxEntries, ttl, before), maxEntries, ttl, r);
      RecencyHasNoRepeats(before);
      LastNAfterServe(Recency(before), maxEntries, r.key);
      assert Served(ServeAll(maxEntries, ttl, before), ServeAll(maxEntries, ttl, rs), maxEntries, ttl, r);
      assert Recency(rs) == Without(Recency(before), r.key) + [r.key];
      hide Serve, Find, Without, Recency, ServeAll;
    }
  }

  /** Inclusion: the smaller cache's key order is a suffix of the larger's. */
  lemma SmallerIsSuffix(n: int, m: int, ttl: real, rs: seq<Request>)
    requires n <= m
    ensures
      var small, large := Keys(ServeAll(n, ttl, rs).store), Keys(ServeAll(m, ttl, rs).store);
      |small| <= |large| && small == large[|large| - |small|..]
  {
    StoreIsRecency(n, ttl, rs);
    StoreIsRecency(m, ttl, rs);
    LastNOfLastM(Recency(rs), Max(n, 0), Max(m, 0));
    hide LastN, Recency, ServeAll, Keys, Distinct;
  }

  lemma LastNOfLastM(order: seq<Key>, n: nat, m: nat)
    requires n <= m
    ensures |LastN(order, n)| <= |LastN(order, m)|
    ensures LastN(order, n) == LastN(order, m)[|LastN(order, m)| - |LastN(order, n)|..]
  {
  }

  // The clock never goes back, and a reply takes its time.
  ghost predicate Clocked(rs: seq<Request>) {
    && (forall i :: 0 <= i < |rs| ==> rs[i].getAt <= rs[i].putAt)
    && (forall i, j :: 0 <= i < j < |rs| ==> rs[i].putAt <= rs[j].getAt)
  }

  ghost predicate StampedBy(s: State, now: real) {
    forall k :: Find(s.store, k).Some? ==> Find(s.store, k).value.value.insertedAt <= now
  }

  // The keys whose entry is younger in the small cache than in the large one.
  ghost function Younger(small: State, large: State): set<Key> {
    set k | k in Keys(small.store) && Find(small.store, k).Some? && Find(large.store, k).Some?
      && Find(small.store, k).value.value.insertedAt > Find(large.store, k).value.value.insertedAt
  }

  ghost predicate KeysWithin(small: State, large: State) {
    forall k :: Find(small.store, k).Some? ==> Find(large.store, k).Some?
  }

  // One request moves the lead in hits and the number of younger entries together.
  lemma LeadKept(small: State, small': State, large: State, large': State, n: nat, m: nat, ttl: real, r: Request)
    requires Served(small, small', n, ttl, r) && Served(large, large', m, ttl, r)
    requires StampedBy(small, r.getAt) && r.getAt <= r.putAt && KeysWithin(small, large)
    requires small.hits + |Younger(small, large)| <= large.hits
    ensures small'.hits + |Younger(small', large')| <= large'.hits
  {
    var before, after := Younger(small, large), Younger(small', large');
    var key := r.key;
    var smallHit, largeHit := GetValue(small, ttl, key, r.getAt).Some?, GetValue(large, ttl, key, r.getAt).Some?;
    forall k | k in after && k != key
      ensures k in before
    {
      FindGivesKey(small.store, k);
    }
    if smallHit {
      FindGivesKey(small.store, key);
      if largeHit {
        SubsetSize(after, before);
      } else {
        assert key in before && key !in after;
        SubsetSize(after, before - {key});
      }
    } else if largeHit {
      SubsetSize(after, before + {key});
    } else {
      assert key !in after;
      SubsetSize(after, before);
    }
  }

  lemma StampsKept(s: State, t: State, maxEntries: nat, ttl: real, r: Request, now: real)
    requires Served(s, t, maxEntries, ttl, r) && StampedBy(s, r.getAt) && r.getAt <= r.putAt <= now
    ensures StampedBy(t, now)
  {
  }

  lemma {:induction false} StampsInPast(maxEntries: nat, ttl: real, rs: seq<Request>, now: real)
    requires maxEntries > 0 && Clocked(rs)
    requires forall i :: 0 <= i < |rs| ==> rs[i].putAt <= now
    ensures StampedBy(ServeAll(maxEntries, ttl, rs), now)
  {
    if rs != [] {
      var before, r := rs[..|rs| - 1], rs[|rs| - 1];
      StampsInPast(maxEntries, ttl, before, r.getAt);
      StoreIsRecency(maxEntries, ttl, before);
      ServeIsServed(ServeAll(maxEntries, ttl, before), maxEntries, ttl, r);
      StampsKept(ServeAll(maxEntries, ttl, before), ServeAll(maxEntries, ttl, rs), maxEntries, ttl, r, now);
    }
  }

  lemma SuffixGivesKeysWithin(n: nat, m: nat, ttl: real, rs: seq<Request>)
    requires 0 < n <= m
    ensures KeysWithin(ServeAll(n, ttl, rs), ServeAll(m, ttl, rs))
  {
    var small, large := ServeAll(n, ttl, rs), ServeAll(m, ttl, rs);
    SmallerIsSuffix(n, m, ttl, rs);
    forall k | Find(small.store, k).Some?
      ensures Find(large.store, k).Some?
    {
      FindGivesKey(small.store, k);
      FindGivesKey(large.store, k);
    }
  }

  lemma {:induction false} LeadOverRun(n: nat, m: nat, ttl: real, rs: seq<Request>)
    requires 0 < n <= m && Clocked(rs)
    ensures
      var small, large := ServeAll(n, ttl, rs), ServeAll(m, ttl, rs);
      small.hits + |Younger(small, large)| <= large.hits
  {
    if rs == [] {
      assert Younger(EMPTY, EMPTY) == {};
    } else {
      var before, r := rs[..|rs| - 1], rs[|rs| - 1];
      var small, large := ServeAll(n, ttl, before), ServeAll(m, ttl, before);
      LeadOverRun(n, m, ttl, before);
      StampsInPast(n, ttl, before, r.getAt);
      SuffixGivesKeysWithin(n, m, ttl, before);
      StoreIsRecency(n, ttl, before);
      StoreIsRecency(m, ttl, before);
      ServeIsServed(small, n, ttl, r);
      ServeIsServed(large, m, ttl, r);
      LeadKept(small, ServeAll(n, ttl, rs), large, ServeAll(m, ttl, rs), n, m, ttl, r);
    }
  }

  /** A larger cache never has fewer hits, on any request sequence and although
      entries expire: its entries may be older, but it had a hit for each of those. */
  lemma HitsGrowWithCapacity(n: int, m: int, ttl: real, rs: seq<Request>)
    requires n <= m && Clocked(rs)
    ensures ServeAll(n, ttl, rs).hits <= ServeAll(m, ttl, rs).hits
  {
    if n <= 0 {
      NoRoomNoHits(n, ttl, rs);
    } else {
      LeadOverRun(n, m, ttl, rs);
    }
  }

  // ----- the cache against the history of its changes

  datatype Change = Stored(entry: Entry) | Invalidated(key: Key) | Cleared

  // The latest entry stored under the key, unless taken back since.
  function Latest(log: seq<Change>, key: Key): Option<Entry> {
    if log == [] then None
    else
      match log[|log| - 1]
      case Stored(e) => if e.key == key then Some(e) else Latest(log[..|log| - 1], key)
      case Invalidated(k) => if k == key then None else Latest(log[..|log| - 1], key)
      case Cleared => None
  }

  lemma LatestAfter(log: seq<Change>, c: Change, key: Key)
    ensures Latest(log + [c], key) ==
      match c
      case Stored(e) => if e.key == key then Some(e) else Latest(log, key)
      case Invalidated(k) => if k == key then None else Latest(log, key)
      case Cleared => None
  {
    assert (log + [c])[..|log + [c]| - 1] == log;
  }

  // The store against the history. `roomy`: every entry has fitted so far, so
  // that whatever the store has lost was stale or taken back.
  ghost predicate Agrees(store: seq<Entry>, log: seq<Change>, clock: real, ttl: real, roomy: bool) {
    && Distinct(store)
    && (forall k :: Find(store, k).Some? ==>
          Latest(log, k) == Find(store, k) && Find(store, k).value.value.insertedAt <= clock)
    && (roomy ==> forall k :: Find(store, k).None? && Latest(log, k).Some? ==> Stale(Latest(log, k).value, clock, ttl))
  }

  lemma AgreesAfterGet(s: State, log: seq<Change>, clock: real, ttl: real, roomy: bool, key: Key, now: real)
    requires Agrees(s.store, log, clock, ttl, roomy) && clock <= now
    ensures
      var t := GetState(s, ttl, key, now);
      && Agrees(t.store, log, now, ttl, roomy)
      && t.hits + t.misses == s.hits + s.misses + 1
      && |t.store| + t.evictions == |s.store| + s.evictions
      && |t.store| <= |s.store|
  {
    hide Distinct, Find, Remove, Latest, Keys, Without;
    var found := Find(s.store, key);
    if found.Some? {
      FindGivesKey(s.store, key);
      if Stale(found.value, now, ttl) {
        RemoveOne(s.store, key);
        forall k
          ensures Find(Remove(s.store, key), k) == if k == key then None else Find(s.store, k)
        {
          FindAfterRemove(s.store, key, k);
        }
      } else {
        MoveToEnd(s.store, found.value);
      }
    }
  }

  lemma AgreesAfterPut(
    s: State, log: seq<Change>, clock: real, ttl: real, roomy: bool, maxEntries: int, key: Key, value: string,
    now: real)
    requires Agrees(s.store, log, clock, ttl, roomy) && clock <= now
    requires |s.store| <= Max(maxEntries, 0)
    ensures
      var t := PutState(s, maxEntries, key, value, now);
      var known := Find(s.store, key).Some?;
      && Agrees(t.store, log + [Stored(Item(key, CacheEntry(value, now)))], now, ttl,
           roomy && (known || |s.store| < maxEntries))
      && t.hits == s.hits && t.misses == s.misses
      && |t.store| + t.evictions == |s.store| + s.evictions + (if known then 0 else 1)
      && |t.store| <= Max(maxEntries, 0)
  {
    hide Distinct, Find, Remove, Latest, Keys, Without;
    var e := Item(key, CacheEntry(value, now));
    forall k
      ensures Latest(log + [Stored(e)], k) == if k == key then Some(e) else Latest(log, k)
    {
      LatestAfter(log, Stored(e), k);
    }
    if Find(s.store, key).Some? {
      MoveToEnd(s.store, e);
    } else {
      AppendNew(s.store, e);
      forall k
        ensures Find(s.store + [e], k) == if k == key then Some(e) else Find(s.store, k)
      {
        FindAfterAppend(s.store, e, k);
      }
      PopFirst(s.store + [e]);
    }
  }

  lemma AgreesAfterInvalidate(store: seq<Entry>, log: seq<Change>, clock: real, ttl: real, roomy: bool, key: Key)
    requires Agrees(store, log, clock, ttl, roomy)
    ensures Agrees(Remove(store, key), log + [Invalidated(key)], clock, ttl, roomy)
    ensures |Remove(store, key)| + (if Find(store, key).Some? then 1 else 0) == |store|
  {
    hide Distinct, Find, Remove, Latest, Keys, Without;
    RemoveOne(store, key);
    forall k
      ensures Latest(log + [Invalidated(key)], k) == if k == key then None else Latest(log, k)
      ensures Find(Remove(store, key), k) == if k == key then None else Find(store, k)
    {
      LatestAfter(log, Invalidated(key), k);
      FindAfterRemove(store, key, k);
    }
  }

  /** `ResponseCache`. The ghost fields remember the history: the changes made, the
      clock of the last call, how many calls there were of each kind, and whether
      every entry has fitted so far. */
  class Cache {
    const maxEntries: int
    const ttl: real
    var store: seq<Entry>
    var hits: nat
    var misses: nat
    var evictions: nat
    ghost var log: seq<Change>
    ghost var clock: real
    ghost var gets: nat
    ghost var created: nat
    ghost var removed: nat
    ghost var roomy: bool

    function Current(): State
      reads this
    {
      State(store, hits, misses, evictions)
    }

    ghost predicate Valid()
      reads this
    {
      && |store| <= Max(maxEntries, 0)
      && hits + misses == gets
      && created == |store| + evictions + removed
      && Agrees(store, log, clock, ttl, roomy)
    }

    constructor (maxEntries: int, ttl: real, ghost now: real)
      ensures Valid() && Current() == EMPTY && log == [] && roomy && clock == now
      ensures this.maxEntries == maxEntries && this.ttl == ttl
    {
      this.maxEntries, this.ttl := maxEntries, ttl;
      store, hits, misses, evictions := [], 0, 0, 0;
      log, clock, gets, created, removed, roomy := [], now, 0, 0, 0, true;
    }

    /** A hit is the latest value stored and not taken back, at most `ttl` old; and
        while every entry has fitted, each such value is a hit. */
    method Get(key: Key, now: real) returns (r: Option<string>)
      requires Valid() && clock <= now
      modifies this
      ensures Valid() && clock == now && log == old(log) && roomy == old(roomy)
      ensures gets == old(gets) + 1 && created == old(created) && removed == old(removed)
      ensures Current() == GetState(old(Current()), ttl, key, now)
      ensures r == GetValue(old(Current()), ttl, key, now)
      ensures r.Some? ==> Latest(log, key).Some? && Latest(log, key).value.value.value == r.value
                          && now - Latest(log, key).value.value.insertedAt <= ttl
      ensures roomy && r.None? && Latest(log, key).Some? ==> now - Latest(log, key).value.value.insertedAt > ttl
    {
      AgreesAfterGet(Current(), log, clock, ttl, roomy, key, now);
      hide Distinct, Find, Remove, Latest, Agrees, GetState, GetValue;
      r := LookUp(key, now);
      gets, clock := gets + 1, now;
    }

    // `get` on the cache's own fields.
    method LookUp(key: Key, now: real) returns (r: Option<string>)
      modifies this`store, this`hits, this`misses, this`evictions
      ensures Current() == GetState(old(Current()), ttl, key, now)
      ensures r == GetValue(old(Current()), ttl, key, now)
    {
      hide Find, Remove;
      var entry := Find(store, key);
      if entry.None? {
        misses := misses + 1;
        return None;
      }
      if now - entry.value.value.insertedAt > ttl {
        store := Remove(store, key);
        evictions := evictions + 1;
        misses := misses + 1;
        return None;
      }
      store := Remove(store, key) + [entry.value];
      hits := hits + 1;
      return Some(entry.value.value.value);
    }

    // `put` on the cache's own fields.
    method Store(key: Key, entry: Entry)
      requires entry.key == key
      modifies this`store, this`evictions
      ensures Current() == PutState(old(Current()), maxEntries, key, entry.value.value, entry.value.insertedAt)
    {
      hide Find, Remove;
      if Find(store, key).Some? {
        store := Remove(store, key) + [entry];
      } else {
        store := store + [entry];
        if |store| > maxEntries {
          store := store[1..];
          evictions := evictions + 1;
        }
      }
    }

    method Put(key: Key, value: string, now: real)
      requires Valid() && clock <= now
      modifies this
      ensures Valid() && clock == now && log == old(log) + [Stored(Item(key, CacheEntry(value, now)))]
      ensures gets == old(gets) && removed == old(removed)
      ensures created == old(created) + if Find(old(store), key).None? then 1 else 0
      ensures roomy == (old(roomy) && (Find(old(store), key).Some? || |old(store)| < maxEntries))
      ensures Current() == PutState(old(Current()), maxEntries, key, value, now)
    {
      AgreesAfterPut(Current(), log, clock, ttl, roomy, maxEntries, key, value, now);
      hide Distinct, Find, Remove, Latest, Agrees, PutState;
      ghost var known, size := Find(store, key).Some?, |store|;
      Store(key, Item(key, CacheEntry(value, now)));
      log, clock := log + [Stored(Item(key, CacheEntry(value, now)))], now;
      created := created + if known then 0 else 1;
      roomy := roomy && (known || size < maxEntries);
    }

    method Invalidate(key: Key)
      requires Valid()
      modifies this
      ensures Valid() && clock == old(clock) && log == old(log) + [Invalidated(key)] && roomy == old(roomy)
      ensures gets == old(gets) && created == old(created)
      ensures removed == old(removed) + if Find(old(store), key).Some? then 1 else 0
      ensures Current() == old(Current()).(store := Remove(old(store), key))
    {
      AgreesAfterInvalidate(store, log, clock, ttl, roomy, key);
      hide Distinct, Find, Remove, Latest, Agrees;
      log := log + [Invalidated(key)];
      removed := removed + if Find(store, key).Some? then 1 else 0;
      store := Remove(store, key);
    }

    method Clear()
      requires Valid()
      modifies this
      ensures Valid() && clock == old(clock) && log == old(log) + [Cleared] && roomy == old(roomy)
      ensures gets == old(gets) && created == old(created) && removed == old(removed) + |old(store)|
      ensures Current() == old(Current()).(store := [])
    {
      forall k
        ensures Latest(log + [Cleared], k) == None
      {
        LatestAfter(log, Cleared, k);
      }
      log := log + [Cleared];
      removed := removed + |store|;
      store := [];
    }

    /** The cached path of `_get_response_sync`; `r.reply` stands for what the model answers. */
    method GetResponse(r: Request) returns (response: string)
      requires Valid() && clock <= r.getAt <= r.putAt
      modifies this
      ensures Valid() && clock <= r.putAt
      ensures Current() == Serve(old(Current()), maxEntries, ttl, r)
      ensures response == r.reply || GetValue(old(Current()), ttl, r.key, r.getAt) == Some(response)
      ensures Latest(log, r.key).Some? && Latest(log, r.key).value.value.value == response
    {
      var cached := Get(r.key, r.getAt);
      if cached.Some? {
        return cached.value;
      }
      ghost var before := log;
      Put(r.key, r.reply, r.putAt);
      LatestAfter(before, Stored(Item(r.key, CacheEntry(r.reply, r.putAt))), r.key);
      return r.reply;
    }
  }
}
