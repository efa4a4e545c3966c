/** The pool server as a state machine over whole runs: pool and NAT bindings under
    the messages of clients and the producer loop (src/backend_pool). */
module PoolSystem {
  import opened Common
  import opened GuestPool

  // ----- NAT bindings (nat.py)

  // A listener's port is None when the listener has been closed.
  datatype Binding = Binding(count: int, ssh: Option<u16>, telnet: Option<u16>)

  type Bindings = map<Id, Binding>

  predicate Open(b: Binding) { b.ssh.Some? && b.telnet.Some? }

  // A listener closes on its own, which is what `request_binding` looks out for.
  function CloseListener(bs: Bindings, id: Id, onSsh: bool): Bindings {
    if id !in bs then bs
    else bs[id := if onSsh then bs[id].(ssh := None) else bs[id].(telnet := None)]
  }

  // `request_binding`; `ssh` and `telnet` are the ports of new listeners, should it need them.
  function RequestBinding(bs: Bindings, id: Id, ssh: u16, telnet: u16): Bindings {
    if id in bs && Open(bs[id]) then bs[id := bs[id].(count := bs[id].count + 1)]
    else bs[id := Binding(1, Some(ssh), Some(telnet))]
  }

  // `free_binding`; without the binding it raises a KeyError.
  function FreeBinding(bs: Bindings, id: Id): Bindings
    requires id in bs
  {
    if bs[id].count - 1 <= 0 then bs - {id} else bs[id := bs[id].(count := bs[id].count - 1)]
  }

  // ----- the server

  // `looping` while another producer loop is to come; `outstanding` counts the grants of each
  // id that were not yet freed or reused.
  datatype System = System(
    pool: Pool, config: Config, bindings: Bindings, stopped: bool, looping: bool, outstanding: multiset<Id>)

  datatype Action =
    | Configure(config: Config)
    | Request(src: string, ssh: u16, telnet: u16)
    | Free(id: Id, now: real)
    | Reuse(id: Id)
    | Produce(env: Env)
    | Close(id: Id, onSsh: bool)

  function Requested(s: System, src: string, ssh: u16, telnet: u16, natOn: bool): System {
    var i := Chosen(s.pool.guests, src, s.config.shareGuests);
    if i < |s.pool.guests| then
      var g := s.pool.guests[i];
      s.(pool := s.pool.(guests := s.pool.guests[i := Taken(g, src)]),
         bindings := if natOn then RequestBinding(s.bindings, g.id, ssh, telnet) else s.bindings,
         outstanding := s.outstanding + multiset{g.id})
    else if s.pool.anyVmUp && s.looping
    then s.(stopped := true, looping := false, bindings := if natOn then map[] else s.bindings)
    else s
  }

  // A refusal that stops the pool raises when the call of the next producer loop, which it
  // cancels first, has been made or cancelled before.
  predicate StopRaises(s: System) { s.pool.anyVmUp && !s.looping }

  function Produced(s: System, e: Env): System {
    if s.looping
    then s.(pool := ProducerLoop(s.pool, s.config, e), looping := !LoopFails(s.pool, s.config, e))
    else s
  }

  // The ids that a free or a reuse may name: with NAT an unknown id raises before the pool is reached.
  predicate Known(s: System, id: Id, natOn: bool) {
    natOn ==> id in s.bindings
  }

  function Released(s: System, id: Id, guests: seq<Guest>, natOn: bool): System
    requires Known(s, id, natOn)
  {
    s.(pool := s.pool.(guests := guests),
       bindings := if natOn then FreeBinding(s.bindings, id) else s.bindings,
       outstanding := s.outstanding - multiset{id})
  }

  function Next(s: System, a: Action, natOn: bool): System {
    match a
    case Configure(config) => s.(config := config)
    case Request(src, ssh, telnet) => Requested(s, src, ssh, telnet, natOn)
    case Free(id, now) => if Known(s, id, natOn) then Released(s, id, FreeVm(s.pool.guests, id, now), natOn) else s
    case Reuse(id) => if Known(s, id, natOn) then Released(s, id, ReuseVm(s.pool.guests, id), natOn) else s
    case Produce(env) => Produced(s, env)
    case Close(id, onSsh) => s.(bindings := CloseListener(s.bindings, id, onSsh))
  }

  // ----- what every run keeps, whatever the clients do

  ghost predicate Apart(g: Guest, h: Guest) {
    g.ip != h.ip && g.serial < h.serial
  }

  // Ids are creation numbers modulo 252; guests stand in the order of their creation, and
  // no two have one address.
  ghost predicate Placed(gs: seq<Guest>, created: nat) {
    && (forall g :: g in gs ==> g.id == g.serial % ID_LIMIT && g.serial < created)
    && (forall i, j :: 0 <= i < j < |gs| ==> Apart(gs[i], gs[j]))
  }

  ghost predicate PoolPlaced(p: Pool) {
    Placed(p.guests, p.created) && p.nextId == p.created % ID_LIMIT
  }

  ghost predicate SameIdentity(g: Guest, h: Guest) {
    g.id == h.id && g.ip == h.ip && g.serial == h.serial
  }

  ghost predicate SameIdentities(gs: seq<Guest>, r: seq<Guest>) {
    |r| == |gs| && forall i :: 0 <= i < |gs| ==> SameIdentity(gs[i], r[i])
  }

  // A pass that keeps identities keeps guests placed.
  lemma PassPlaced(gs: seq<Guest>, r: seq<Guest>, created: nat)
    requires Placed(gs, created) && SameIdentities(gs, r)
    ensures Placed(r, created)
  {
    forall h | h in r
      ensures h.id == h.serial % ID_LIMIT && h.serial < created
    {
      var i :| 0 <= i < |r| && r[i] == h;
      assert SameIdentity(gs[i], r[i]) && gs[i] in gs;
    }
    forall i, j | 0 <= i < j < |r|
      ensures Apart(r[i], r[j])
    {
      assert SameIdentity(gs[i], r[i]) && SameIdentity(gs[j], r[j]) && Apart(gs[i], gs[j]);
    }
  }

  lemma PassesKeepIdentities(gs: seq<Guest>, timeout: real, e: Env)
    ensures SameIdentities(gs, MarkTimedOut(gs, timeout, e.now))
    ensures SameIdentities(gs, DestroyTimedOut(gs, e.destroys))
    ensures SameIdentities(gs, CheckHealth(gs, e.healthy))
    ensures SameIdentities(gs, MarkAvailable(gs, e.answers))
  {
  }

  lemma {:induction false} ListedMeans(gs: seq<Guest>)
    ensures forall g :: g in Listed(gs) <==> g in gs && g.state != Some(Destroyed)
  {
    if gs != [] {
      ListedMeans(gs[1..]);
      assert forall g :: g in gs <==> g == gs[0] || g in gs[1..];
    }
  }

  lemma {:induction false} ExistingAreListed(gs: seq<Guest>)
    ensures ExistingSize(gs) == |Listed(gs)|
  {
    if gs != [] {
      ExistingAreListed(gs[1..]);
    }
  }

  lemma TailPlaced(gs: seq<Guest>, created: nat)
    requires Placed(gs, created) && gs != []
    ensures Placed(gs[1..], created)
    ensures forall h :: h in gs[1..] ==> Apart(gs[0], h)
  {
    forall h | h in gs[1..]
      ensures Apart(gs[0], h)
    {
      var i :| 0 <= i < |gs[1..]| && gs[1..][i] == h;
      assert gs[i + 1] == h;
    }
  }

  lemma ConsPlaced(g: Guest, gs: seq<Guest>, created: nat)
    requires Placed(gs, created) && g.id == g.serial % ID_LIMIT && g.serial < created
    requires forall h :: h in gs ==> Apart(g, h)
    ensures Placed([g] + gs, created)
  {
    var r := [g] + gs;
    forall i, j | 0 <= i < j < |r|
      ensures Apart(r[i], r[j])
    {
      assert r[j] == gs[j - 1] && gs[j - 1] in gs;
      assert i > 0 ==> r[i] == gs[i - 1];
    }
  }

  lemma {:induction false} ListedPlaced(gs: seq<Guest>, created: nat)
    requires Placed(gs, created)
    ensures Placed(Listed(gs), created)
  {
    if gs != [] {
      var rest := gs[1..];
      assert gs[0] in gs;
      TailPlaced(gs, created);
      ListedPlaced(rest, created);
      ListedMeans(rest);
      if gs[0].state != Some(Destroyed) {
        assert Listed(gs) == [gs[0]] + Listed(rest);
        ConsPlaced(gs[0], Listed(rest), created);
      } else {
        assert Listed(gs) == Listed(rest);
      }
    }
  }

  lemma AddPlaced(p: Pool, ip: Ip)
    requires PoolPlaced(p) && IpFree(p.guests, ip)
    ensures PoolPlaced(AddGuest(p, ip))
  {
    var q := AddGuest(p, ip).guests;
    forall i, j | 0 <= i < j < |q|
      ensures Apart(q[i], q[j])
    {
      assert q[i] == p.guests[i] && q[i] in p.guests;
      assert j < |p.guests| ==> Apart(p.guests[i], p.guests[j]);
    }
  }

  lemma {:induction false} CreatePlaced(p: Pool, k: nat, n: int, boots: nat -> Boot)
    requires PoolPlaced(p)
    ensures PoolPlaced(CreateGuests(p, k, n, boots)) && CreateGuests(p, k, n, boots).created >= p.created
    decreases n - k
  {
    hide PoolPlaced, IpFree, BootIp;
    if k < n && BootIp(p.guests, boots(k)).Some? {
      var ip := BootIp(p.guests, boots(k)).value;
      AddPlaced(p, ip);
      CreatePlaced(AddGuest(p, ip), k + 1, n, boots);
    }
  }

  lemma SweptPlaced(gs: seq<Guest>, c: Config, e: Env, created: nat)
    requires Placed(gs, created)
    ensures Placed(Swept(gs, c, e), created)
  {
    hide Placed, SameIdentities, Listed, MarkTimedOut, DestroyTimedOut, CheckHealth, MarkAvailable, ExistingSize;
    var timed := MarkTimedOut(gs, c.unusedTimeout, e.now);
    var reclaimed := Reclaimed(gs, c, e);
    PassesKeepIdentities(gs, c.unusedTimeout, e);
    PassPlaced(gs, timed, created);
    PassesKeepIdentities(timed, c.unusedTimeout, e);
    PassPlaced(timed, DestroyTimedOut(timed, e.destroys), created);
    PassesKeepIdentities(reclaimed, c.unusedTimeout, e);
    PassPlaced(reclaimed, CheckHealth(reclaimed, e.healthy), created);
    ListedPlaced(CheckHealth(reclaimed, e.healthy), created);
  }

  lemma ProducerPlaced(p: Pool, c: Config, e: Env)
    requires PoolPlaced(p)
    ensures PoolPlaced(ProducerLoop(p, c, e)) && ProducerLoop(p, c, e).created >= p.created
  {
    hide Placed, Swept, CreateGuests, CreationFails, MarkAvailable, SameIdentities, ExistingSize;
    var swept := p.(guests := Swept(p.guests, c, e));
    var filled := CreateGuests(swept, 0, Demand(swept.guests, c), e.boots);
    SweptPlaced(p.guests, c, e, p.created);
    CreatePlaced(swept, 0, Demand(swept.guests, c), e.boots);
    PassesKeepIdentities(filled.guests, 0.0, e);
    PassPlaced(filled.guests, MarkAvailable(filled.guests, e.answers), filled.created);
  }

  lemma UpdatePlaced(gs: seq<Guest>, i: nat, g: Guest, created: nat)
    requires Placed(gs, created) && i < |gs| && SameIdentity(gs[i], g)
    ensures Placed(gs[i := g], created)
  {
    hide Placed;
    PassPlaced(gs, gs[i := g], created);
  }

  /** No message of any client, and no producer loop, gives one address to two guests or
      takes an id out of its turn. */
  lemma NextPlaced(s: System, a: Action, natOn: bool)
    requires PoolPlaced(s.pool)
    ensures PoolPlaced(Next(s, a, natOn).pool) && Next(s, a, natOn).pool.created >= s.pool.created
  {
    hide Placed, Chosen, IndexOfId, ProducerLoop, LoopFails, RequestBinding, FreeBinding;
    var gs := s.pool.guests;
    match a
    case Configure(_) =>
    case Request(src, _, _) =>
      var i := Chosen(gs, src, s.config.shareGuests);
      if i < |gs| {
        UpdatePlaced(gs, i, Taken(gs[i], src), s.pool.created);
      }
    case Free(id, now) =>
      var i := IndexOfId(gs, id, 0);
      if i < |gs| {
        UpdatePlaced(gs, i, Freed(gs[i], now), s.pool.created);
      }
    case Reuse(id) =>
      var i := IndexOfId(gs, id, 0);
      if i < |gs| {
        UpdatePlaced(gs, i, Reused(gs[i]), s.pool.created);
      }
    case Produce(e) => ProducerPlaced(s.pool, s.config, e);
    case Close(_, _) =>
  }

  // ----- the life of a guest

  predicate Requestable(p: Phase) { p == Available || p == Using || p == Used }

  // The place of a state in the documented life of a guest.
  function Rank(p: Phase): nat {
    match p
    case Created => 0
    case Available => 1
    case Using => 2
    case Used => 3
    case Unavailable => 4
    case Destroyed => 5
  }

  // A guest has a state, and one to go back to while it has a client.
  ghost predicate HasStates(g: Guest) {
    && g.state.Some?
    && (g.prevState.None? ==> g.connected <= 0)
    && (g.prevState.Some? ==> Requestable(g.prevState.value))
  }

  // The guest of that serial is in the state of rank `r` or in a later one.
  ghost predicate From(g: Guest, serial: nat, r: nat) {
    g.serial == serial ==> g.state.Some? && r <= Rank(g.state.value)
  }

  ghost predicate StatesKept(gs: seq<Guest>) {
    forall g :: g in gs ==> HasStates(g)
  }

  ghost predicate Onward(gs: seq<Guest>, serial: nat, r: nat) {
    forall g :: g in gs ==> HasStates(g) && From(g, serial, r)
  }

  // What each pass does to a guest.
  ghost predicate MovesOn(g: Guest, h: Guest) {
    && h.serial == g.serial && h.prevState == g.prevState && h.connected == g.connected
    && (g.state.Some? ==> h.state.Some? && Rank(g.state.value) <= Rank(h.state.value))
  }

  lemma PassOnward(gs: seq<Guest>, r: seq<Guest>, serial: nat, rank: nat)
    requires Onward(gs, serial, rank) && |r| == |gs|
    requires forall i :: 0 <= i < |r| ==> MovesOn(gs[i], r[i])
    ensures Onward(r, serial, rank)
  {
    forall h | h in r
      ensures HasStates(h) && From(h, serial, rank)
    {
      var i :| 0 <= i < |r| && r[i] == h;
      assert gs[i] in gs && MovesOn(gs[i], r[i]);
    }
  }

  lemma PassesOnward(gs: seq<Guest>, timeout: real, e: Env, serial: nat, rank: nat)
    requires Onward(gs, serial, rank)
    ensures Onward(MarkTimedOut(gs, timeout, e.now), serial, rank)
    ensures Onward(DestroyTimedOut(gs, e.destroys), serial, rank)
    ensures Onward(CheckHealth(gs, e.healthy), serial, rank)
    ensures Onward(MarkAvailable(gs, e.answers), serial, rank)
  {
    hide Onward;
    PassOnward(gs, MarkTimedOut(gs, timeout, e.now), serial, rank);
    PassOnward(gs, DestroyTimedOut(gs, e.destroys), serial, rank);
    PassOnward(gs, CheckHealth(gs, e.healthy), serial, rank);
    PassOnward(gs, MarkAvailable(gs, e.answers), serial, rank);
  }

  lemma {:induction false} CreateOnward(p: Pool, k: nat, n: int, boots: nat -> Boot, serial: nat, rank: nat)
    requires Onward(p.guests, serial, rank) && (rank > 0 ==> serial < p.created)
    ensures Onward(CreateGuests(p, k, n, boots).guests, serial, rank)
    decreases n - k
  {
    hide BootIp;
    if k < n && BootIp(p.guests, boots(k)).Some? {
      CreateOnward(AddGuest(p, BootIp(p.guests, boots(k)).value), k + 1, n, boots, serial, rank);
    }
  }

  // A producer loop moves no guest back.
  lemma ProducerOnward(p: Pool, c: Config, e: Env, serial: nat, rank: nat)
    requires Onward(p.guests, serial, rank) && (rank > 0 ==> serial < p.created)
    ensures Onward(ProducerLoop(p, c, e).guests, serial, rank)
  {
    var timed := MarkTimedOut(p.guests, c.unusedTimeout, e.now);
    var checked := CheckHealth(Reclaimed(p.guests, c, e), e.healthy);
    var swept := p.(guests := Swept(p.guests, c, e));
    var filled := CreateGuests(swept, 0, Demand(swept.guests, c), e.boots);
    ListedMeans(checked);
    assert Onward(checked, serial, rank) ==> Onward(Listed(checked), serial, rank);
    hide Onward, Listed, MarkTimedOut, DestroyTimedOut, CheckHealth, MarkAvailable, CreateGuests, CreationFails,
      ExistingSize;
    PassesOnward(p.guests, c.unusedTimeout, e, serial, rank);
    PassesOnward(timed, c.unusedTimeout, e, serial, rank);
    PassesOnward(Reclaimed(p.guests, c, e), c.unusedTimeout, e, serial, rank);
    CreateOnward(swept, 0, Demand(swept.guests, c), e.boots, serial, rank);
    PassesOnward(filled.guests, c.unusedTimeout, e, serial, rank);
  }

  lemma UpdateStates(gs: seq<Guest>, i: nat, g: Guest)
    requires StatesKept(gs) && i < |gs| && HasStates(g)
    ensures StatesKept(gs[i := g])
  {
  }

  lemma ConsumersKeepStates(gs: seq<Guest>, c: Config, src: string, id: Id, now: real)
    requires StatesKept(gs)
    ensures Chosen(gs, src, c.shareGuests) < |gs| ==>
      var i := Chosen(gs, src, c.shareGuests);
      StatesKept(gs[i := Taken(gs[i], src)])
    ensures StatesKept(FreeVm(gs, id, now)) && StatesKept(ReuseVm(gs, id))
  {
    var i, j := Chosen(gs, src, c.shareGuests), IndexOfId(gs, id, 0);
    assert forall k :: 0 <= k < |gs| ==> HasStates(gs[k]) by {
      assert forall k :: 0 <= k < |gs| ==> gs[k] in gs;
    }
    hide StatesKept, Chosen, IndexOfId;
    if i < |gs| {
      UpdateStates(gs, i, Taken(gs[i], src));
    }
    if j < |gs| {
      UpdateStates(gs, j, Freed(gs[j], now));
      UpdateStates(gs, j, Reused(gs[j]));
    }
  }

  /** Whatever the clients do, no guest is ever without a state. */
  lemma NextStatesKept(s: System, a: Action, natOn: bool)
    requires StatesKept(s.pool.guests)
    ensures StatesKept(Next(s, a, natOn).pool.guests)
  {
    assert Onward(s.pool.guests, 0, 0) && forall r :: Onward(r, 0, 0) ==> StatesKept(r);
    hide StatesKept, Onward, ProducerLoop, LoopFails, Chosen, FreeVm, ReuseVm, RequestBinding, FreeBinding,
      CloseListener;
    match a
    case Produce(e) => ProducerOnward(s.pool, s.config, e, 0, 0);
    case Request(src, _, _) => ConsumersKeepStates(s.pool.guests, s.config, src, 0, 0.0);
    case Free(id, now) => ConsumersKeepStates(s.pool.guests, s.config, "", id, now);
    case Reuse(id) => ConsumersKeepStates(s.pool.guests, s.config, "", id, 0.0);
    case _ =>
  }

  // The guest is in an earlier state than it was.
  ghost predicate WentBack(gs: seq<Guest>, g: Guest) {
    exists h :: h in gs && h.serial == g.serial && Earlier(h, g)
  }

  predicate Earlier(h: Guest, g: Guest) {
    g.state.Some? && h.state.Some? && Rank(h.state.value) < Rank(g.state.value)
  }

  // A client gives back the only grant that the guest counts.
  predicate GivesLastBack(s: System, a: Action, natOn: bool, i: nat)
    requires i < |s.pool.guests|
  {
    && (a.Free? || a.Reuse?) && Known(s, a.id, natOn)
    && IndexOfId(s.pool.guests, a.id, 0) == i && s.pool.guests[i].connected == 1
  }

  // The steps backwards: a used guest is requested again, or its last client gives it back by
  // a free after it was given up, or by a reuse while it is in a later state than before.
  predicate GoesBack(s: System, a: Action, natOn: bool, i: nat)
    requires i < |s.pool.guests| && HasStates(s.pool.guests[i])
  {
    var g := s.pool.guests[i];
    match a
    case Request(src, _, _) => Chosen(s.pool.guests, src, s.config.shareGuests) == i && g.state == Some(Used)
    case Free(_, _) => GivesLastBack(s, a, natOn, i) && Rank(g.state.value) > Rank(Used)
    case Reuse(_) => GivesLastBack(s, a, natOn, i) && Rank(g.state.value) > Rank(g.prevState.value)
    case _ => false
  }

  lemma UpdateWentBackIff(gs: seq<Guest>, created: nat, i: nat, j: nat, h: Guest)
    requires Placed(gs, created) && i < |gs| && j < |gs| && SameIdentity(gs[j], h)
    ensures WentBack(gs[j := h], gs[i]) <==> i == j && Earlier(h, gs[i])
  {
    var r := gs[j := h];
    assert r[j] in r;
    if WentBack(r, gs[i]) {
      var k :| 0 <= k < |r| && r[k].serial == gs[i].serial && Earlier(r[k], gs[i]);
      assert k < i ==> Apart(gs[k], gs[i]);
      assert i < k ==> Apart(gs[i], gs[k]);
    }
  }

  lemma NotBackItself(gs: seq<Guest>, created: nat, i: nat)
    requires Placed(gs, created) && i < |gs|
    ensures !WentBack(gs, gs[i])
  {
    UpdateWentBackIff(gs, created, i, i, gs[i]);
    assert gs[i := gs[i]] == gs;
  }

  lemma RequestGoesBackIff(s: System, src: string, ssh: u16, telnet: u16, natOn: bool, i: nat)
    requires PoolPlaced(s.pool) && i < |s.pool.guests| && HasStates(s.pool.guests[i])
    ensures WentBack(Requested(s, src, ssh, telnet, natOn).pool.guests, s.pool.guests[i]) <==>
            GoesBack(s, Request(src, ssh, telnet), natOn, i)
  {
    var gs := s.pool.guests;
    var j := Chosen(gs, src, s.config.shareGuests);
    NotBackItself(gs, s.pool.created, i);
    hide Chosen, WentBack, Placed, RequestBinding;
    if j < |gs| {
      UpdateWentBackIff(gs, s.pool.created, i, j, Taken(gs[j], src));
    }
  }

  lemma ReleaseGoesBackIff(s: System, a: Action, natOn: bool, i: nat)
    requires PoolPlaced(s.pool) && i < |s.pool.guests| && HasStates(s.pool.guests[i])
    requires (a.Free? || a.Reuse?) && Known(s, a.id, natOn)
    ensures
      var guests := if a.Free? then FreeVm(s.pool.guests, a.id, a.now) else ReuseVm(s.pool.guests, a.id);
      WentBack(guests, s.pool.guests[i]) <==> GoesBack(s, a, natOn, i)
  {
    var gs := s.pool.guests;
    var j := IndexOfId(gs, a.id, 0);
    NotBackItself(gs, s.pool.created, i);
    hide IndexOfId, WentBack, Placed, Chosen;
    if j < |gs| {
      UpdateWentBackIff(gs, s.pool.created, i, j, if a.Free? then Freed(gs[j], a.now) else Reused(gs[j]));
    }
  }

  /** The documented life of a guest only moves forward; it goes back exactly in these steps. */
  lemma LifeGoesBackIff(s: System, a: Action, natOn: bool, i: nat)
    requires PoolPlaced(s.pool) && StatesKept(s.pool.guests) && i < |s.pool.guests|
    requires HasStates(s.pool.guests[i])
    ensures WentBack(Next(s, a, natOn).pool.guests, s.pool.guests[i]) <==> GoesBack(s, a, natOn, i)
  {
    NotBackItself(s.pool.guests, s.pool.created, i);
    hide WentBack, PoolPlaced, StatesKept, HasStates, Requested, FreeVm, ReuseVm, ProducerLoop, LoopFails, FreeBinding,
      Chosen, IndexOfId;
    match a
    case Request(src, ssh, telnet) => RequestGoesBackIff(s, src, ssh, telnet, natOn, i);
    case Produce(e) => ProducerNotBack(s.pool, s.config, e, i);
    case Free(id, _) =>
      if Known(s, id, natOn) {
        ReleaseGoesBackIff(s, a, natOn, i);
      }
    case Reuse(id) =>
      if Known(s, id, natOn) {
        ReleaseGoesBackIff(s, a, natOn, i);
      }
    case _ =>
  }

  lemma ProducerNotBack(p: Pool, c: Config, e: Env, i: nat)
    requires PoolPlaced(p) && StatesKept(p.guests) && i < |p.guests|
    ensures !WentBack(ProducerLoop(p, c, e).guests, p.guests[i])
  {
    var g := p.guests[i];
    assert g in p.guests;
    forall h | h in p.guests
      ensures From(h, g.serial, Rank(g.state.value))
    {
      var k :| 0 <= k < |p.guests| && p.guests[k] == h;
      assert k < i ==> Apart(h, g);
      assert i < k ==> Apart(g, h);
    }
    hide ProducerLoop;
    ProducerOnward(p, c, e, g.serial, Rank(g.state.value));
  }

  lemma LastGivenBack(s: System, a: Action, natOn: bool, i: nat)
    requires i < |s.pool.guests| && GivesLastBack(s, a, natOn, i)
    ensures
      var g := s.pool.guests[i];
      Next(s, a, natOn).pool.guests == s.pool.guests[i := if a.Free? then Freed(g, a.now) else Reused(g)]
  {
    hide IndexOfId, FreeBinding, Freed, Reused;
  }

  lemma UnavailableGoesBackIff(s: System, a: Action, natOn: bool, i: nat)
    requires i < |s.pool.guests| && HasStates(s.pool.guests[i]) && s.pool.guests[i].state == Some(Unavailable)
    ensures GoesBack(s, a, natOn, i) <==> GivesLastBack(s, a, natOn, i)
  {
    hide Chosen, IndexOfId, Known;
  }

  /** So a guest that was given up is served again exactly when its last client gives it back:
      a free makes it used, a reuse what it was before that client. */
  lemma GivenUpReturnsIff(s: System, a: Action, natOn: bool, i: nat)
    requires PoolPlaced(s.pool) && StatesKept(s.pool.guests)
    requires i < |s.pool.guests| && s.pool.guests[i].state == Some(Unavailable)
    ensures
      var gs, after := s.pool.guests, Next(s, a, natOn).pool.guests;
      && (WentBack(after, gs[i]) <==> GivesLastBack(s, a, natOn, i))
      && (GivesLastBack(s, a, natOn, i) ==>
            && |after| == |gs| && after[i].serial == gs[i].serial
            && after[i].state == (if a.Free? then Some(Used) else gs[i].prevState)
            && after[i].state.Some? && Requestable(after[i].state.value))
  {
    assert s.pool.guests[i] in s.pool.guests;
    LifeGoesBackIff(s, a, natOn, i);
    UnavailableGoesBackIff(s, a, natOn, i);
    hide WentBack, GoesBack, Chosen, IndexOfId, Placed, StatesKept, Next, Known;
    if GivesLastBack(s, a, natOn, i) {
      LastGivenBack(s, a, natOn, i);
    }
  }

  // ----- what every disciplined run keeps beside

  // One guest against the grants outstanding: the count is right, a guest with a client
  // is in use or given up, and there is a state to go back to.
  ghost predicate GuestSound(g: Guest, outstanding: multiset<Id>) {
    && g.state.Some?
    && g.connected == outstanding[g.id]
    && (g.connected > 0 ==> g.prevState.Some? && g.state.value in {Using, Unavailable, Destroyed})
    && (g.prevState.Some? ==> Requestable(g.prevState.value))
  }

  ghost predicate DistinctIds(gs: seq<Guest>) {
    forall i, j :: 0 <= i < j < |gs| ==> gs[i].id != gs[j].id
  }

  ghost predicate ListSound(gs: seq<Guest>, outstanding: multiset<Id>) {
    (forall g :: g in gs ==> GuestSound(g, outstanding)) && DistinctIds(gs)
  }

  ghost predicate NoneDestroyed(gs: seq<Guest>) {
    forall g :: g in gs ==> g.state != Some(Destroyed)
  }

  ghost predicate GrantedBefore(outstanding: multiset<Id>, created: nat) {
    forall id :: id in outstanding ==> 0 <= id < created
  }

  ghost predicate Sound(s: System) {
    && ListSound(s.pool.guests, s.outstanding)
    && NoneDestroyed(s.pool.guests)
    && GrantedBefore(s.outstanding, s.pool.created)
  }

  // Clients free or reuse each grant once.
  predicate ClientKept(s: System, a: Action) {
    match a
    case Free(id, _) => id in s.outstanding
    case Reuse(id) => id in s.outstanding
    case _ => true
  }

  // An id that no guest listed has and no grant outstanding names.
  ghost predicate Unused(id: Id, gs: seq<Guest>, outstanding: multiset<Id>) {
    (forall g :: g in gs ==> g.id != id) && outstanding[id] == 0
  }

  ghost predicate FreshIds(p: Pool, outstanding: multiset<Id>, k: nat, n: int, boots: nat -> Boot)
    decreases n - k
  {
    k < n && BootIp(p.guests, boots(k)).Some? ==>
      && Unused(p.nextId, p.guests, outstanding)
      && FreshIds(AddGuest(p, BootIp(p.guests, boots(k)).value), outstanding, k + 1, n, boots)
  }

  // A producer loop hands out no id that is still in use.
  ghost predicate IdsKept(s: System, a: Action) {
    match a
    case Produce(e) =>
      var swept := s.pool.(guests := Swept(s.pool.guests, s.config, e));
      s.looping ==> FreshIds(swept, s.outstanding, 0, Demand(swept.guests, s.config), e.boots)
    case _ => true
  }

  // ----- one guest

  lemma TakenSound(g: Guest, src: string, outstanding: multiset<Id>)
    requires GuestSound(g, outstanding) && (Usable(g) || g.state == Some(Available))
    ensures GuestSound(Taken(g, src), outstanding + multiset{g.id})
  {
  }

  lemma FreedSound(g: Guest, now: real, outstanding: multiset<Id>)
    requires GuestSound(g, outstanding) && g.id in outstanding
    ensures GuestSound(Freed(g, now), outstanding - multiset{g.id})
  {
  }

  // Going back to the state before the request never yields "no state".
  lemma ReusedSound(g: Guest, outstanding: multiset<Id>)
    requires GuestSound(g, outstanding) && g.id in outstanding
    ensures GuestSound(Reused(g), outstanding - multiset{g.id})
  {
  }

  /** The timeout pass marks no guest that has a client. */
  lemma TimeoutSparesClients(g: Guest, timeout: real, now: real, outstanding: multiset<Id>)
    requires GuestSound(g, outstanding) && TimedOut(g, timeout, now) != g
    ensures g.connected == 0 && g.id !in outstanding
  {
  }

  // ----- the list

  // A pass that keeps identities and the soundness of each guest keeps the list.
  lemma PassSound(gs: seq<Guest>, r: seq<Guest>, outstanding: multiset<Id>)
    requires ListSound(gs, outstanding) && SameIdentities(gs, r)
    requires forall i :: 0 <= i < |r| ==> GuestSound(r[i], outstanding)
    ensures ListSound(r, outstanding)
  {
    forall i, j | 0 <= i < j < |r|
      ensures r[i].id != r[j].id
    {
      assert SameIdentity(gs[i], r[i]) && SameIdentity(gs[j], r[j]);
    }
    hide GuestSound;
  }

  lemma PassesSound(gs: seq<Guest>, timeout: real, e: Env, outstanding: multiset<Id>)
    requires ListSound(gs, outstanding)
    ensures ListSound(MarkTimedOut(gs, timeout, e.now), outstanding)
    ensures ListSound(DestroyTimedOut(gs, e.destroys), outstanding)
    ensures ListSound(CheckHealth(gs, e.healthy), outstanding)
    ensures ListSound(MarkAvailable(gs, e.answers), outstanding)
  {
    forall i | 0 <= i < |gs|
      ensures GuestSound(gs[i], outstanding)
    {
      assert gs[i] in gs;
    }
    hide ListSound, MarkTimedOut, DestroyTimedOut, CheckHealth, MarkAvailable, SameIdentities;
    PassesKeepIdentities(gs, timeout, e);
    PassSound(gs, MarkTimedOut(gs, timeout, e.now), outstanding);
    PassSound(gs, DestroyTimedOut(gs, e.destroys), outstanding);
    PassSound(gs, CheckHealth(gs, e.healthy), outstanding);
    PassSound(gs, MarkAvailable(gs, e.answers), outstanding);
  }

  lemma {:induction false} ListedDistinct(gs: seq<Guest>)
    requires DistinctIds(gs)
    ensures DistinctIds(Listed(gs))
  {
    if gs != [] {
      var rest := gs[1..];
      ListedDistinct(rest);
      ListedMeans(rest);
      forall h | h in Listed(rest)
        ensures h.id != gs[0].id
      {
        var i :| 0 <= i < |rest| && rest[i] == h;
        assert gs[i + 1] == h;
      }
    }
  }

  lemma ListedSound(gs: seq<Guest>, outstanding: multiset<Id>)
    requires ListSound(gs, outstanding)
    ensures ListSound(Listed(gs), outstanding) && NoneDestroyed(Listed(gs))
  {
    ListedDistinct(gs);
    ListedMeans(gs);
    hide DistinctIds, GuestSound, Listed;
  }

  // One guest is granted, freed or reused; a grant of its id more or less leaves the others alone.
  lemma UpdateSound(gs: seq<Guest>, i: nat, g: Guest, before: multiset<Id>, after: multiset<Id>)
    requires ListSound(gs, before) && NoneDestroyed(gs) && i < |gs| && SameIdentity(gs[i], g)
    requires GuestSound(g, after) && g.state != Some(Destroyed)
    requires forall id :: id != g.id ==> after[id] == before[id]
    ensures ListSound(gs[i := g], after) && NoneDestroyed(gs[i := g])
  {
    var r := gs[i := g];
    forall j | 0 <= j < |r|
      ensures GuestSound(r[j], after) && r[j].state != Some(Destroyed)
    {
      if j != i {
        assert gs[j] in gs && gs[j].id != gs[i].id;
      }
    }
    hide GuestSound;
    assert DistinctIds(r);
  }

  // Every guest that is not the one of that id keeps its soundness.
  lemma AbsentSound(gs: seq<Guest>, id: Id, outstanding: multiset<Id>)
    requires ListSound(gs, outstanding) && forall g :: g in gs ==> g.id != id
    ensures ListSound(gs, outstanding - multiset{id})
  {
  }

  /** Creating a guest keeps the list sound exactly when its id is in no use. */
  lemma AddSoundIff(p: Pool, ip: Ip, outstanding: multiset<Id>)
    requires ListSound(p.guests, outstanding)
    ensures ListSound(AddGuest(p, ip).guests, outstanding) <==> Unused(p.nextId, p.guests, outstanding)
  {
    var q := AddGuest(p, ip).guests;
    var n := |p.guests|;
    assert q[n].id == p.nextId && q[n] in q;
    if ListSound(q, outstanding) {
      assert GuestSound(q[n], outstanding);
      forall g | g in p.guests
        ensures g.id != p.nextId
      {
        var i :| 0 <= i < n && p.guests[i] == g;
        assert q[i] == g && q[i].id != q[n].id;
      }
    }
  }

  // ----- the producer loop

  lemma {:induction false} CreateSound(p: Pool, k: nat, n: int, boots: nat -> Boot, outstanding: multiset<Id>)
    requires ListSound(p.guests, outstanding) && NoneDestroyed(p.guests)
    requires FreshIds(p, outstanding, k, n, boots)
    ensures
      var q := CreateGuests(p, k, n, boots);
      ListSound(q.guests, outstanding) && NoneDestroyed(q.guests)
    decreases n - k
  {
    hide ListSound, Unused, IpFree, BootIp;
    if k < n && BootIp(p.guests, boots(k)).Some? {
      var ip := BootIp(p.guests, boots(k)).value;
      AddSoundIff(p, ip, outstanding);
      assert NoneDestroyed(AddGuest(p, ip).guests);
      hide NoneDestroyed, AddGuest;
      CreateSound(AddGuest(p, ip), k + 1, n, boots, outstanding);
    }
  }

  lemma SweptSound(gs: seq<Guest>, c: Config, e: Env, outstanding: multiset<Id>)
    requires ListSound(gs, outstanding)
    ensures ListSound(Swept(gs, c, e), outstanding) && NoneDestroyed(Swept(gs, c, e))
  {
    hide ListSound, NoneDestroyed, Listed, MarkTimedOut, DestroyTimedOut, CheckHealth, MarkAvailable, ExistingSize;
    PassesSound(gs, c.unusedTimeout, e, outstanding);
    PassesSound(MarkTimedOut(gs, c.unusedTimeout, e.now), c.unusedTimeout, e, outstanding);
    PassesSound(Reclaimed(gs, c, e), c.unusedTimeout, e, outstanding);
    ListedSound(CheckHealth(Reclaimed(gs, c, e), e.healthy), outstanding);
  }

  lemma ProducerSound(p: Pool, c: Config, e: Env, outstanding: multiset<Id>)
    requires ListSound(p.guests, outstanding)
    requires
      var swept := p.(guests := Swept(p.guests, c, e));
      FreshIds(swept, outstanding, 0, Demand(swept.guests, c), e.boots)
    ensures
      var q := ProducerLoop(p, c, e);
      ListSound(q.guests, outstanding) && NoneDestroyed(q.guests)
  {
    hide ListSound, NoneDestroyed, Swept, CreateGuests, CreationFails, FreshIds, MarkAvailable;
    var swept := p.(guests := Swept(p.guests, c, e));
    var filled := CreateGuests(swept, 0, Demand(swept.guests, c), e.boots);
    SweptSound(p.guests, c, e, outstanding);
    CreateSound(swept, 0, Demand(swept.guests, c), e.boots, outstanding);
    PassesSound(filled.guests, 0.0, e, outstanding);
    BootedNotDestroyed(filled.guests, e.answers);
  }

  lemma BootedNotDestroyed(gs: seq<Guest>, answers: Ip -> bool)
    requires NoneDestroyed(gs)
    ensures NoneDestroyed(MarkAvailable(gs, answers))
  {
  }

  // ----- the server

  lemma RequestedSound(s: System, src: string, ssh: u16, telnet: u16, natOn: bool)
    requires Sound(s) && Placed(s.pool.guests, s.pool.created)
    ensures
      var t := Requested(s, src, ssh, telnet, natOn);
      t.stopped || Sound(t)
  {
    var gs := s.pool.guests;
    var i := Chosen(gs, src, s.config.shareGuests);
    hide Chosen, RequestBinding;
    if i < |gs| {
      var g := gs[i];
      assert g in gs && g.id <= g.serial < s.pool.created;
      TakenSound(g, src, s.outstanding);
      UpdateSound(gs, i, Taken(g, src), s.outstanding, s.outstanding + multiset{g.id});
      hide ListSound, NoneDestroyed, GuestSound, Placed;
    }
  }

  // Freeing or reusing a grant: the guest is found by its id, or was removed before.
  lemma FreeVmSound(gs: seq<Guest>, id: Id, now: real, outstanding: multiset<Id>)
    requires ListSound(gs, outstanding) && NoneDestroyed(gs) && id in outstanding
    ensures ListSound(FreeVm(gs, id, now), outstanding - multiset{id}) && NoneDestroyed(FreeVm(gs, id, now))
  {
    var i := IndexOfId(gs, id, 0);
    if i < |gs| {
      assert gs[i] in gs;
      FreedSound(gs[i], now, outstanding);
      UpdateSound(gs, i, Freed(gs[i], now), outstanding, outstanding - multiset{id});
    } else {
      AbsentSound(gs, id, outstanding);
    }
  }

  lemma ReuseVmSound(gs: seq<Guest>, id: Id, outstanding: multiset<Id>)
    requires ListSound(gs, outstanding) && NoneDestroyed(gs) && id in outstanding
    ensures ListSound(ReuseVm(gs, id), outstanding - multiset{id}) && NoneDestroyed(ReuseVm(gs, id))
  {
    var i := IndexOfId(gs, id, 0);
    if i < |gs| {
      assert gs[i] in gs;
      ReusedSound(gs[i], outstanding);
      UpdateSound(gs, i, Reused(gs[i]), outstanding, outstanding - multiset{id});
    } else {
      AbsentSound(gs, id, outstanding);
    }
  }

  lemma ReleasedSound(s: System, id: Id, guests: seq<Guest>, natOn: bool)
    requires Sound(s) && Known(s, id, natOn)
    requires ListSound(guests, s.outstanding - multiset{id}) && NoneDestroyed(guests)
    ensures Sound(Released(s, id, guests, natOn))
  {
    hide ListSound, NoneDestroyed, FreeBinding;
  }

  lemma NextSound(s: System, a: Action, natOn: bool)
    requires Sound(s) && PoolPlaced(s.pool) && !s.stopped && ClientKept(s, a) && IdsKept(s, a)
    ensures Next(s, a, natOn).stopped || Sound(Next(s, a, natOn))
  {
    hide ListSound, NoneDestroyed, GrantedBefore, FreeVm, ReuseVm, Released, Known, Requested,
      ProducerLoop, LoopFails, FreshIds, Swept, Placed;
    match a
    case Request(src, ssh, telnet) => RequestedSound(s, src, ssh, telnet, natOn);
    case Free(id, now) =>
      if Known(s, id, natOn) {
        FreeVmSound(s.pool.guests, id, now, s.outstanding);
        ReleasedSound(s, id, FreeVm(s.pool.guests, id, now), natOn);
      }
    case Reuse(id) =>
      if Known(s, id, natOn) {
        ReuseVmSound(s.pool.guests, id, s.outstanding);
        ReleasedSound(s, id, ReuseVm(s.pool.guests, id), natOn);
      }
    case Produce(e) =>
      if s.looping {
        ProducerSound(s.pool, s.config, e, s.outstanding);
        ProducerPlaced(s.pool, s.config, e);
        GrantsStayBefore(s.outstanding, s.pool.created, ProducerLoop(s.pool, s.config, e).created);
      }
    case _ =>
  }

  lemma GrantsStayBefore(outstanding: multiset<Id>, created: nat, later: nat)
    requires GrantedBefore(outstanding, created) && created <= later
    ensures GrantedBefore(outstanding, later)
  {
  }

  // ----- the NAT bindings

  function CountOf(bs: Bindings, id: Id): int { if id in bs then bs[id].count else 0 }

  // Each binding counts the grants of its id that are outstanding, and the others have none.
  ghost predicate NatSound(bs: Bindings, outstanding: multiset<Id>) {
    NatBounded(bs, outstanding) && forall id :: outstanding[id] == CountOf(bs, id)
  }

  // What holds also when listeners have closed: no binding counts too many grants.
  ghost predicate NatBounded(bs: Bindings, outstanding: multiset<Id>) {
    && (forall id :: id in bs ==> bs[id].count > 0)
    && (forall id :: CountOf(bs, id) <= outstanding[id])
  }

  // A request does not meet a binding of which a listener has closed.
  predicate ListenersKept(s: System, a: Action) {
    a.Request? ==>
      var i := Chosen(s.pool.guests, a.src, s.config.shareGuests);
      i < |s.pool.guests| ==> s.pool.guests[i].id !in s.bindings || Open(s.bindings[s.pool.guests[i].id])
  }

  /** A request keeps counts and grants in agreement exactly when the binding is new or both
      its listeners are open: with a closed listener the count starts again at one. */
  lemma RequestBindingSoundIff(bs: Bindings, outstanding: multiset<Id>, id: Id, ssh: u16, telnet: u16)
    requires NatBounded(bs, outstanding)
    ensures NatBounded(RequestBinding(bs, id, ssh, telnet), outstanding + multiset{id})
    ensures NatSound(RequestBinding(bs, id, ssh, telnet), outstanding + multiset{id}) <==>
            (NatSound(bs, outstanding) && (id !in bs || Open(bs[id])))
  {
    var after := RequestBinding(bs, id, ssh, telnet);
    assert forall k :: k != id ==> CountOf(after, k) == CountOf(bs, k);
    assert CountOf(after, id) == if id in bs && !Open(bs[id]) then 1 else CountOf(bs, id) + 1;
    hide RequestBinding, Open;
    if NatSound(after, outstanding + multiset{id}) {
      forall k
        ensures outstanding[k] == CountOf(bs, k)
      {
        assert (outstanding + multiset{id})[k] == CountOf(after, k);
      }
    }
  }

  /** So after a request that met a closed listener, the first free takes the binding away,
      although other grants of the id are outstanding. */
  lemma ClosedListenerLosesBinding(bs: Bindings, outstanding: multiset<Id>, id: Id, ssh: u16, telnet: u16)
    requires NatSound(bs, outstanding) && id in bs && !Open(bs[id])
    ensures
      var after := RequestBinding(bs, id, ssh, telnet);
      id in after && id !in FreeBinding(after, id) && (outstanding + multiset{id} - multiset{id})[id] >= 1
  {
    assert outstanding[id] == CountOf(bs, id);
  }

  /** Freeing a binding, and a listener that closes, change nothing about the agreement. */
  lemma FreeBindingSoundIff(bs: Bindings, outstanding: multiset<Id>, id: Id)
    requires NatBounded(bs, outstanding) && id in bs
    ensures NatBounded(FreeBinding(bs, id), outstanding - multiset{id})
    ensures NatSound(FreeBinding(bs, id), outstanding - multiset{id}) <==> NatSound(bs, outstanding)
  {
    var after := FreeBinding(bs, id);
    assert forall k :: k != id ==> CountOf(after, k) == CountOf(bs, k);
    assert CountOf(after, id) == CountOf(bs, id) - 1;
    hide FreeBinding;
    if NatSound(after, outstanding - multiset{id}) {
      forall k
        ensures outstanding[k] == CountOf(bs, k)
      {
        assert (outstanding - multiset{id})[k] == CountOf(after, k) && CountOf(bs, id) <= outstanding[id];
      }
    }
  }

  lemma CloseListenerSoundIff(bs: Bindings, outstanding: multiset<Id>, id: Id, onSsh: bool)
    requires NatBounded(bs, outstanding)
    ensures NatBounded(CloseListener(bs, id, onSsh), outstanding)
    ensures NatSound(CloseListener(bs, id, onSsh), outstanding) <==> NatSound(bs, outstanding)
  {
    assert forall k :: CountOf(CloseListener(bs, id, onSsh), k) == CountOf(bs, k);
  }

  /** Whatever the clients do, with NAT on: as long as the pool is not stopped, a step leaves
      counts and grants in agreement exactly when they were so before, and the step is no
      request that meets a closed listener. Counts that are wrong stay wrong. */
  lemma NextBindingsAgreeIff(s: System, a: Action)
    requires NatBounded(s.bindings, s.outstanding) && !Next(s, a, true).stopped
    ensures
      var t := Next(s, a, true);
      && NatBounded(t.bindings, t.outstanding)
      && (NatSound(t.bindings, t.outstanding) <==> NatSound(s.bindings, s.outstanding) && ListenersKept(s, a))
  {
    var bs, outstanding := s.bindings, s.outstanding;
    hide NatSound, NatBounded, FreeVm, ReuseVm, Chosen, ProducerLoop, LoopFails, RequestBinding, FreeBinding,
      CloseListener;
    match a
    case Request(src, ssh, telnet) =>
      var i := Chosen(s.pool.guests, src, s.config.shareGuests);
      if i < |s.pool.guests| {
        RequestBindingSoundIff(bs, outstanding, s.pool.guests[i].id, ssh, telnet);
      }
    case Free(id, _) =>
      if id in bs {
        FreeBindingSoundIff(bs, outstanding, id);
      }
    case Reuse(id) =>
      if id in bs {
        FreeBindingSoundIff(bs, outstanding, id);
      }
    case Close(id, onSsh) => CloseListenerSoundIff(bs, outstanding, id, onSsh);
    case _ =>
  }

  // The request is granted the guest of that id.
  predicate Grants(s: System, a: Action, id: Id) {
    a.Request? &&
    var i := Chosen(s.pool.guests, a.src, s.config.shareGuests);
    i < |s.pool.guests| && s.pool.guests[i].id == id
  }

  predicate SamePorts(b: Binding, c: Binding) { c.ssh == b.ssh && c.telnet == b.telnet }

  lemma RequestPortsIff(bs: Bindings, id: Id, other: Id, ssh: u16, telnet: u16)
    requires id in bs
    ensures
      var after := RequestBinding(bs, other, ssh, telnet);
      id in after && (SamePorts(bs[id], after[id]) <==> !(other == id && !Open(bs[id])))
  {
  }

  lemma FreePortsIff(bs: Bindings, id: Id, other: Id)
    requires id in bs && other in bs
    ensures
      var after := FreeBinding(bs, other);
      && (id !in after <==> other == id && bs[id].count <= 1)
      && (id in after ==> SamePorts(bs[id], after[id]))
  {
  }

  lemma ClosePortsIff(bs: Bindings, id: Id, other: Id, onSsh: bool)
    requires id in bs
    ensures
      var after := CloseListener(bs, other, onSsh);
      && id in after
      && (SamePorts(bs[id], after[id]) <==> !(other == id && (if onSsh then bs[id].ssh else bs[id].telnet).Some?))
  {
  }

  lemma RequestedPortsIff(s: System, src: string, ssh: u16, telnet: u16, id: Id)
    requires id in s.bindings && !Requested(s, src, ssh, telnet, true).stopped
    ensures
      var b, after := s.bindings[id], Requested(s, src, ssh, telnet, true).bindings;
      && id in after
      && (SamePorts(b, after[id]) <==> !(Grants(s, Request(src, ssh, telnet), id) && !Open(b)))
  {
    var i := Chosen(s.pool.guests, src, s.config.shareGuests);
    hide Chosen, RequestBinding, Open;
    if i < |s.pool.guests| {
      RequestPortsIff(s.bindings, id, s.pool.guests[i].id, ssh, telnet);
    }
  }

  /** With NAT on, a binding goes away exactly when the last grant of its id is given back,
      or the pool stops. Until then its two ports stay the same, but when an open listener of
      it closes, or when a request renews both as one is closed. */
  lemma PortsStayIff(s: System, a: Action, id: Id)
    requires NatSound(s.bindings, s.outstanding) && id in s.bindings && !Next(s, a, true).stopped
    ensures
      var b, after := s.bindings[id], Next(s, a, true).bindings;
      && (id !in after <==> s.outstanding[id] == 1 && (a.Free? || a.Reuse?) && a.id == id)
      && (id in after ==>
            (SamePorts(b, after[id]) <==>
               !(a.Close? && a.id == id && (if a.onSsh then b.ssh else b.telnet).Some?) &&
               !(Grants(s, a, id) && !Open(b))))
  {
    assert s.outstanding[id] == CountOf(s.bindings, id) == s.bindings[id].count;
    hide NatSound, CountOf, Requested, FreeVm, ReuseVm, Produced, FreeBinding, CloseListener, Open;
    match a
    case Request(src, ssh, telnet) => RequestedPortsIff(s, src, ssh, telnet, id);
    case Free(other, _) =>
      if other in s.bindings {
        FreePortsIff(s.bindings, id, other);
      }
    case Reuse(other) =>
      if other in s.bindings {
        FreePortsIff(s.bindings, id, other);
      }
    case Close(other, onSsh) => ClosePortsIff(s.bindings, id, other, onSsh);
    case Produce(e) => ProducedBindings(s, e);
    case Configure(_) =>
  }

  lemma ProducedBindings(s: System, e: Env)
    ensures Produced(s, e).bindings == s.bindings
  {
    hide ProducerLoop, LoopFails;
  }

  lemma NoNatNoBindings(s: System, a: Action)
    requires s.bindings == map[]
    ensures Next(s, a, false).bindings == map[]
  {
    hide FreeVm, ReuseVm, Chosen, ProducerLoop, LoopFails, RequestBinding, FreeBinding;
  }
}
