/** CNAME resolution as a graph search (src/cowrie/core/network.py). */
module Cname {
  import opened Common

  // A name as the set of visited names tells them apart: the text of a query, and the name
  // object of a record, are different even when spelled alike.
  datatype Name = Typed(text: string) | OfRecord(text: string)

  // Text of an address; never empty, so Python's truth test on it succeeds.
  type IpText = s: string | s != "" witness "0"

  // Payload of one answer record. `Raising` is one whose conversion to text
  // raises an exception, `Other` any type the search steps over.
  datatype Payload = Target(name: Name) | Address(ip: IpText) | Raising | Other

  // DNS as a finite map. A name outside it is one whose lookup fails or is empty.
  type Dns = map<Name, seq<Payload>>

  // The records the search can get to: an exception ends the scan.
  function Live(records: seq<Payload>): seq<Payload> {
    if records == [] || records[0].Raising? then []
    else [records[0]] + Live(records[1..])
  }

  ghost predicate Edge(dns: Dns, a: Name, b: Name) {
    a in dns && Target(b) in Live(dns[a])
  }

  ghost predicate Path(dns: Dns, p: seq<Name>) {
    p != [] && forall i :: 0 <= i < |p| - 1 ==> Edge(dns, p[i], p[i + 1])
  }

  ghost predicate Reachable(dns: Dns, a: Name, b: Name) {
    exists p :: Path(dns, p) && p[0] == a && p[|p| - 1] == b
  }

  ghost predicate HasAddress(dns: Dns, a: Name, ip: IpText) {
    a in dns && Address(ip) in Live(dns[a])
  }

  // No address at `a`, and every CNAME of it leads into `s`.
  ghost predicate DeadEnd(dns: Dns, a: Name, s: set<Name>) {
    && (forall ip :: !HasAddress(dns, a, ip))
    && (forall b :: Edge(dns, a, b) ==> b in s)
  }

  lemma ReachesItself(dns: Dns, a: Name)
    ensures Reachable(dns, a, a)
  {
    assert Path(dns, [a]);
  }

  lemma ReachableThrough(dns: Dns, a: Name, b: Name, c: Name)
    requires Edge(dns, a, b) && Reachable(dns, b, c)
    ensures Reachable(dns, a, c)
  {
    var p :| Path(dns, p) && p[0] == b && p[|p| - 1] == c;
    var q := [a] + p;
    forall i | 0 <= i < |q| - 1
      ensures Edge(dns, q[i], q[i + 1])
    {
      assert i > 0 ==> q[i] == p[i - 1];
    }
    assert Path(dns, q);
  }

  lemma {:induction false} LiveIndex(records: seq<Payload>, i: nat)
    requires i < |Live(records)|
    ensures |Live(records)| <= |records|
    ensures Live(records)[i] == records[i] && !records[i].Raising?
  {
    LiveLength(records);
    if i > 0 {
      LiveIndex(records[1..], i - 1);
    }
  }

  lemma {:induction false} LiveLength(records: seq<Payload>)
    ensures |Live(records)| <= |records|
    ensures |Live(records)| < |records| ==> records[|Live(records)|].Raising?
  {
    if records != [] && !records[0].Raising? {
      LiveLength(records[1..]);
    }
  }

  /** The names already looked up, shared by all levels of the recursion.
      `lookups` remembers every DNS query made, in order. */
  class Visited {
    var names: set<Name>
    ghost var lookups: seq<Name>

    ghost predicate Valid()
      reads this
    {
      && names == (set n | n in lookups)
      && forall i, j :: 0 <= i < j < |lookups| ==> lookups[i] != lookups[j]
    }

    constructor ()
      ensures Valid() && names == {} && lookups == []
    {
      names := {};
      lookups := [];
    }

    method Add(name: Name)
      requires Valid() && name !in names
      modifies this
      ensures Valid() && names == old(names) + {name} && lookups == old(lookups) + [name]
    {
      names := names + {name};
      lookups := lookups + [name];
    }
  }

  // ----- which address is found

  ghost predicate NoAddress(dns: Dns, a: Name) {
    forall ip :: !HasAddress(dns, a, ip)
  }

  // A path from `a` around the names of `above`.
  ghost predicate Route(dns: Dns, p: seq<Name>, a: Name, above: set<Name>) {
    Path(dns, p) && p[0] == a && forall i :: 0 <= i < |p| ==> p[i] !in above
  }

  ghost predicate Barren(dns: Dns, above: set<Name>, a: Name) {
    forall p :: Route(dns, p, a, above) ==> NoAddress(dns, p[|p| - 1])
  }

  ghost predicate Skipped(dns: Dns, above: set<Name>, r: Payload) {
    !r.Address? && (r.Target? ==> Barren(dns, above, r.name))
  }

  // Nothing before record i of `a` is an address or leads to one.
  ghost predicate FirstFruitful(dns: Dns, above: set<Name>, a: Name, i: nat) {
    && a !in above && a in dns && i < |Live(dns[a])|
    && forall j :: 0 <= j < i ==> Skipped(dns, above + {a}, Live(dns[a])[j])
  }

  // Turning into record turns[0] at `a`, turns[1] at the name it leads to and so on, the
  // search ends at `ip`, and steps over nothing on the way that leads to an address.
  ghost predicate Leftmost(dns: Dns, above: set<Name>, a: Name, turns: seq<nat>, ip: IpText)
    decreases |turns|
  {
    && turns != [] && FirstFruitful(dns, above, a, turns[0])
    && var r := Live(dns[a])[turns[0]];
       if |turns| == 1 then r == Address(ip) else r.Target? && Leftmost(dns, above + {a}, r.name, turns[1..], ip)
  }

  lemma RouteCons(dns: Dns, a: Name, b: Name, p: seq<Name>, above: set<Name>)
    requires Edge(dns, a, b) && Route(dns, p, b, above + {a}) && a !in above
    ensures Route(dns, [a] + p, a, above)
  {
  }

  lemma {:induction false} LeftmostReaches(dns: Dns, above: set<Name>, a: Name, turns: seq<nat>, ip: IpText)
    returns (p: seq<Name>)
    requires Leftmost(dns, above, a, turns, ip)
    ensures Route(dns, p, a, above) && HasAddress(dns, p[|p| - 1], ip)
    decreases |turns|
  {
    var r := Live(dns[a])[turns[0]];
    if |turns| == 1 {
      p := [a];
      assert HasAddress(dns, a, ip);
    } else {
      var rest := LeftmostReaches(dns, above + {a}, r.name, turns[1..], ip);
      assert Edge(dns, a, r.name);
      RouteCons(dns, a, r.name, rest, above);
      p := [a] + rest;
    }
  }

  lemma FruitfulNotSkipped(dns: Dns, above: set<Name>, a: Name, turns: seq<nat>, ip: IpText)
    requires Leftmost(dns, above, a, turns, ip)
    ensures !Skipped(dns, above + {a}, Live(dns[a])[turns[0]])
  {
    var r := Live(dns[a])[turns[0]];
    if |turns| > 1 {
      var p := LeftmostReaches(dns, above + {a}, r.name, turns[1..], ip);
      assert !NoAddress(dns, p[|p| - 1]);
    }
  }

  /** There is at most one leftmost address. */
  lemma {:induction false} LeftmostUnique(
      dns: Dns, above: set<Name>, a: Name, turns: seq<nat>, ip: IpText, others: seq<nat>, other: IpText)
    requires Leftmost(dns, above, a, turns, ip) && Leftmost(dns, above, a, others, other)
    ensures turns == others && ip == other
    decreases |turns|
  {
    FruitfulNotSkipped(dns, above, a, turns, ip);
    FruitfulNotSkipped(dns, above, a, others, other);
    assert turns[0] == others[0];
    hide Skipped, Barren, Live;
    if |turns| > 1 && |others| > 1 {
      LeftmostUnique(dns, above + {a}, Live(dns[a])[turns[0]].name, turns[1..], ip, others[1..], other);
      assert turns == [turns[0]] + turns[1..] && others == [others[0]] + others[1..];
    }
  }

  // What has been looked up and given up on: no address, and nothing left to try.
  ghost predicate Exhausted(dns: Dns, names: set<Name>, above: set<Name>) {
    forall v :: v in names && v !in above ==> DeadEnd(dns, v, names)
  }

  lemma {:induction false} StaysInside(dns: Dns, names: set<Name>, above: set<Name>, p: seq<Name>)
    requires Exhausted(dns, names, above) && p != [] && Route(dns, p, p[0], above) && p[0] in names
    ensures p[|p| - 1] in names && p[|p| - 1] !in above
  {
    if |p| > 1 {
      var front := p[..|p| - 1];
      assert Route(dns, front, p[0], above) by {
        forall i | 0 <= i < |front| - 1
          ensures Edge(dns, front[i], front[i + 1])
        {
          assert front[i] == p[i] && front[i + 1] == p[i + 1];
        }
      }
      StaysInside(dns, names, above, front);
      assert Edge(dns, p[|p| - 2], p[|p| - 1]);
    }
  }

  lemma ExhaustedIsBarren(dns: Dns, names: set<Name>, above: set<Name>, a: Name)
    requires Exhausted(dns, names, above) && a in names
    ensures Barren(dns, above, a)
  {
    forall p | Route(dns, p, a, above)
      ensures NoAddress(dns, p[|p| - 1])
    {
      StaysInside(dns, names, above, p);
      assert DeadEnd(dns, p[|p| - 1], names);
    }
  }

  ghost predicate Answers(dns: Dns, above: set<Name>, a: Name, ip: IpText) {
    exists turns :: Leftmost(dns, above, a, turns, ip)
  }

  ghost predicate AllReachable(dns: Dns, a: Name, names: set<Name>) {
    forall v :: v in names ==> Reachable(dns, a, v)
  }

  // The scan of `a` has come to record i and found nothing yet.
  ghost predicate Scanned(dns: Dns, above: set<Name>, a: Name, names: set<Name>, i: nat) {
    && a !in above && a in dns && i <= |Live(dns[a])|
    && (forall j :: 0 <= j < i ==> Skipped(dns, above + {a}, Live(dns[a])[j]))
    && (forall j :: 0 <= j < i && Live(dns[a])[j].Target? ==> Live(dns[a])[j].name in names)
  }

  lemma ScanStep(dns: Dns, above: set<Name>, a: Name, before: set<Name>, names: set<Name>, i: nat)
    requires Scanned(dns, above, a, before, i) && before <= names && Exhausted(dns, names, above + {a})
    requires i < |Live(dns[a])| && !Live(dns[a])[i].Address?
    requires Live(dns[a])[i].Target? ==> Live(dns[a])[i].name in names
    ensures Scanned(dns, above, a, names, i + 1)
  {
    if Live(dns[a])[i].Target? {
      ExhaustedIsBarren(dns, names, above + {a}, Live(dns[a])[i].name);
    }
    hide Barren, Live, Exhausted;
  }

  lemma AnswerHere(dns: Dns, above: set<Name>, a: Name, names: set<Name>, i: nat, ip: IpText)
    requires Scanned(dns, above, a, names, i) && i < |Live(dns[a])| && Live(dns[a])[i] == Address(ip)
    ensures Answers(dns, above, a, ip)
  {
    assert Leftmost(dns, above, a, [i], ip);
  }

  lemma AnswerBelow(dns: Dns, above: set<Name>, a: Name, names: set<Name>, i: nat, b: Name, ip: IpText)
    requires Scanned(dns, above, a, names, i) && i < |Live(dns[a])| && Live(dns[a])[i] == Target(b)
    requires Answers(dns, above + {a}, b, ip)
    ensures Answers(dns, above, a, ip)
  {
    var turns :| Leftmost(dns, above + {a}, b, turns, ip);
    assert ([i] + turns)[1..] == turns;
    assert Leftmost(dns, above, a, [i] + turns, ip);
  }

  lemma ReachedFrom(dns: Dns, a: Name, b: Name, reached: set<Name>, more: set<Name>)
    requires a in dns && Target(b) in Live(dns[a]) && AllReachable(dns, a, reached) && AllReachable(dns, b, more)
    ensures AllReachable(dns, a, reached + more)
  {
    forall v | v in more
      ensures Reachable(dns, a, v)
    {
      ReachableThrough(dns, a, b, v);
    }
  }

  // The scan of `a` is over and found nothing.
  lemma GiveUp(dns: Dns, a: Name, names: set<Name>, above: set<Name>)
    requires Exhausted(dns, names, above + {a}) && a in dns && Scanned(dns, above, a, names, |Live(dns[a])|)
    ensures Exhausted(dns, names, above)
  {
  }

  // `above` holds the names whose scan is still under way.
  method ResolveCname(dns: Dns, address: Name, visited: Visited, ghost above: set<Name>) returns (ip: Option<IpText>)
    requires visited.Valid() && above <= visited.names && Exhausted(dns, visited.names, above)
    modifies visited
    ensures visited.Valid() && old(visited.names) <= visited.names
    ensures old(visited.lookups) <= visited.lookups
    ensures AllReachable(dns, address, visited.names - old(visited.names))
    ensures ip.Some? ==> Answers(dns, above, address, ip.value)
    ensures ip.None? ==> address in visited.names && Exhausted(dns, visited.names, above)
    decreases dns.Keys - visited.names
  {
    if address in visited.names {
      return None;
    }
    ghost var before, inner := visited.names, above + {address};
    visited.Add(address);
    ReachesItself(dns, address);
    if address !in dns {
      return None;
    }
    var records := dns[address];
    ghost var live := Live(records);
    LiveLength(records);
    assert Scanned(dns, above, address, visited.names, 0);
    assert Exhausted(dns, visited.names, inner) && AllReachable(dns, address, visited.names - before);
    hide Scanned, Answers, AllReachable, Live, Exhausted;
    var i := 0;
    while i < |records|
      invariant 0 <= i <= |live|
      invariant visited.Valid() && before + {address} <= visited.names && old(visited.lookups) <= visited.lookups
      invariant AllReachable(dns, address, visited.names - before)
      invariant Exhausted(dns, visited.names, inner) && Scanned(dns, above, address, visited.names, i)
    {
      if i < |live| {
        LiveIndex(records, i);
      }
      ghost var known := visited.names;
      match records[i] {
        case Target(name) =>
          assert live[i] == Target(name);
          var resolved := ResolveCname(dns, name, visited, inner);
          ReachedFrom(dns, address, name, known - before, visited.names - known);
          assert (known - before) + (visited.names - known) == visited.names - before;
          if resolved.Some? {
            AnswerBelow(dns, above, address, known, i, name, resolved.value);
            return resolved;
          }
        case Address(found) =>
          AnswerHere(dns, above, address, known, i, found);
          return Some(found);
        case Raising =>
          GiveUp(dns, address, known, above);
          return None;
        case Other =>
      }
      ScanStep(dns, above, address, known, visited.names, i);
      i := i + 1;
    }
    GiveUp(dns, address, visited.names, above);
    return None;
  }

  /** The whole search: it ends, asks no name twice, and finds an address
      exactly when a record that holds one is reachable; it is then the leftmost one. When
      it finds none it has looked up every reachable name and no other. */
  method Resolve(dns: Dns, address: Name) returns (ip: Option<IpText>, ghost lookups: seq<Name>)
    ensures ip.Some? <==> exists v, t :: Reachable(dns, address, v) && HasAddress(dns, v, t)
    ensures ip.Some? ==> Answers(dns, {}, address, ip.value)
    ensures forall i, j :: 0 <= i < j < |lookups| ==> lookups[i] != lookups[j]
    ensures forall v :: v in lookups ==> Reachable(dns, address, v)
    ensures ip.None? ==> forall v :: v in lookups <==> Reachable(dns, address, v)
  {
    var visited := new Visited();
    ip := ResolveCname(dns, address, visited, {});
    lookups := visited.lookups;
    if ip.Some? {
      ghost var turns :| Leftmost(dns, {}, address, turns, ip.value);
      ghost var p := LeftmostReaches(dns, {}, address, turns, ip.value);
      assert Reachable(dns, address, p[|p| - 1]);
    } else {
      forall v | Reachable(dns, address, v)
        ensures v in visited.names && forall t :: !HasAddress(dns, v, t)
      {
        var p :| Path(dns, p) && p[0] == address && p[|p| - 1] == v;
        assert Route(dns, p, p[0], {});
        StaysInside(dns, visited.names, {}, p);
        assert DeadEnd(dns, v, visited.names);
      }
    }
  }
}
