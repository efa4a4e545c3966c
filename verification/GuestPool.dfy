/** The pool of guests as values: what each consumer call and each producer pass does
    to the list (src/backend_pool/pool_service.py). */
module GuestPool {
  import opened Common

  // Host part of an address in 192.168.150.0/24; the network table gives out 2 to 254.
  type Ip = x: int | 2 <= x <= 254 witness 2

  type Id = int

  // Ids are given out in turn, and start again after 251.
  const ID_LIMIT := 252
  type GuestId = x: int | 0 <= x < ID_LIMIT
  const IP_TRIES: nat := 500

  datatype Phase = Created | Available | Using | Used | Unavailable | Destroyed

  // A guest. `state` is an option as `reuse_vm` copies `prev_state`, which may be None,
  // into it. `serial` counts the guests created before this one.
  datatype Guest = Guest(
    id: GuestId, ip: Ip, state: Option<Phase>, prevState: Option<Phase>,
    connected: int, clientIps: seq<string>, freedAt: real, serial: nat)

  datatype Pool = Pool(guests: seq<Guest>, nextId: GuestId, anyVmUp: bool, created: nat)

  datatype Config = Config(maxVm: int, unusedTimeout: real, shareGuests: bool)

  // What libvirt, the network and the clock do during one producer loop: which
  // destructions succeed, which guests answer, and how each creation goes.
  datatype Boot = Boot(picks: nat -> Ip, started: bool)
  datatype Env = Env(now: real, destroys: Ip -> bool, healthy: Ip -> bool, boots: nat -> Boot, answers: Ip -> bool)

  const EMPTY := Pool([], 0, false, 0)

  // ----- consumers

  predicate Usable(g: Guest) { g.state == Some(Used) || g.state == Some(Using) }

  function FirstWithClient(gs: seq<Guest>, src: string, i: nat): (r: nat)
    requires i <= |gs|
    ensures i <= r <= |gs|
    ensures r < |gs| ==> Usable(gs[r]) && src in gs[r].clientIps
    decreases |gs| - i
  {
    if i == |gs| || (Usable(gs[i]) && src in gs[i].clientIps) then i else FirstWithClient(gs, src, i + 1)
  }

  function FirstAvailable(gs: seq<Guest>, i: nat): (r: nat)
    requires i <= |gs|
    ensures i <= r <= |gs|
    ensures r < |gs| ==> gs[r].state == Some(Available)
    decreases |gs| - i
  {
    if i == |gs| || gs[i].state == Some(Available) then i else FirstAvailable(gs, i + 1)
  }

  // Python's min(): the first of the usable guests with the fewest clients.
  function LeastConnected(gs: seq<Guest>, i: nat, best: nat): (r: nat)
    requires i <= |gs| && best <= |gs| && (best < |gs| ==> Usable(gs[best]))
    ensures r <= |gs| && (r < |gs| ==> Usable(gs[r]))
    decreases |gs| - i
  {
    if i == |gs| then best
    else if Usable(gs[i]) && (best == |gs| || gs[i].connected < gs[best].connected)
    then LeastConnected(gs, i + 1, i)
    else LeastConnected(gs, i + 1, best)
  }

  // The guest a request gets; the length of the list when there is none.
  function Chosen(gs: seq<Guest>, src: string, share: bool): (r: nat)
    ensures r <= |gs|
    ensures r < |gs| ==> Usable(gs[r]) || gs[r].state == Some(Available)
  {
    var mine := FirstWithClient(gs, src, 0);
    if mine < |gs| then mine
    else
      var available := FirstAvailable(gs, 0);
      if available < |gs| || !share then available else LeastConnected(gs, 0, |gs|)
  }

  // ----- which guest a request is to get

  ghost predicate ServesFor(g: Guest, src: string) {
    (g.state == Some(Used) || g.state == Some(Using)) && src in g.clientIps
  }

  ghost predicate Shareable(g: Guest) {
    g.state == Some(Used) || g.state == Some(Using)
  }

  // The guest that the client is on the list of, or else an available one, or else, when
  // guests may be shared, one with the fewest clients: each time the first of its kind.
  ghost predicate RightGuest(gs: seq<Guest>, src: string, share: bool, r: nat) {
    if exists g :: g in gs && ServesFor(g, src) then
      r < |gs| && ServesFor(gs[r], src) && forall j :: 0 <= j < r ==> !ServesFor(gs[j], src)
    else if exists g :: g in gs && g.state == Some(Available) then
      r < |gs| && gs[r].state == Some(Available) && forall j :: 0 <= j < r ==> gs[j].state != Some(Available)
    else if share && exists g :: g in gs && Shareable(g) then
      && r < |gs| && Shareable(gs[r])
      && (forall g :: g in gs && Shareable(g) ==> gs[r].connected <= g.connected)
      && (forall j :: 0 <= j < r && Shareable(gs[j]) ==> gs[r].connected < gs[j].connected)
    else r == |gs|
  }

  lemma {:induction false} FirstWithClientMeans(gs: seq<Guest>, src: string, i: nat)
    requires i <= |gs|
    ensures
      var r := FirstWithClient(gs, src, i);
      (r < |gs| ==> ServesFor(gs[r], src)) && forall j :: i <= j < r ==> !ServesFor(gs[j], src)
    decreases |gs| - i
  {
    if i < |gs| && !ServesFor(gs[i], src) {
      FirstWithClientMeans(gs, src, i + 1);
    }
  }

  lemma {:induction false} FirstAvailableMeans(gs: seq<Guest>, i: nat)
    requires i <= |gs|
    ensures forall j :: i <= j < FirstAvailable(gs, i) ==> gs[j].state != Some(Available)
    decreases |gs| - i
  {
    if i < |gs| && gs[i].state != Some(Available) {
      FirstAvailableMeans(gs, i + 1);
    }
  }

  // The best guest among the first i.
  ghost predicate BestBefore(gs: seq<Guest>, i: nat, best: nat) {
    && i <= |gs| && (best < i || best == |gs|)
    && (best < i ==> Shareable(gs[best]))
    && (forall j :: 0 <= j < i && Shareable(gs[j]) ==> best < i && gs[best].connected <= gs[j].connected)
    && (forall j :: 0 <= j < i && j < best && Shareable(gs[j]) ==> best < i && gs[best].connected < gs[j].connected)
  }

  lemma {:induction false} LeastConnectedMeans(gs: seq<Guest>, i: nat, best: nat)
    requires BestBefore(gs, i, best)
    ensures BestBefore(gs, |gs|, LeastConnected(gs, i, best))
    decreases |gs| - i
  {
    if i < |gs| {
      LeastConnectedMeans(gs, i + 1,
        if Shareable(gs[i]) && (best == |gs| || gs[i].connected < gs[best].connected) then i else best);
    }
  }

  /** A request is given the right guest, and none exactly when there is none. */
  lemma ChosenIsRight(gs: seq<Guest>, src: string, share: bool)
    ensures RightGuest(gs, src, share, Chosen(gs, src, share))
  {
    FirstWithClientMeans(gs, src, 0);
    FirstAvailableMeans(gs, 0);
    LeastConnectedMeans(gs, 0, |gs|);
    hide FirstWithClient, FirstAvailable, LeastConnected;
  }

  /** There is only one right guest. */
  lemma RightGuestUnique(gs: seq<Guest>, src: string, share: bool, r: nat, q: nat)
    requires RightGuest(gs, src, share, r) && RightGuest(gs, src, share, q)
    ensures r == q
  {
    hide ServesFor, Shareable;
  }

  /** A client that comes again is given the same guest, as long as that is in use. */
  lemma ClientKeepsGuest(gs: seq<Guest>, src: string, share: bool, again: bool)
    requires Chosen(gs, src, share) < |gs|
    ensures
      var i := Chosen(gs, src, share);
      Chosen(gs[i := Taken(gs[i], src)], src, again) == i
  {
    var i := Chosen(gs, src, share);
    var after := gs[i := Taken(gs[i], src)];
    ChosenIsRight(gs, src, share);
    ChosenIsRight(after, src, again);
    var ips := gs[i].clientIps + [src];
    assert ips[|gs[i].clientIps|] == src;
    assert ServesFor(after[i], src) && after[i] in after;
    forall j | 0 <= j < i
      ensures !ServesFor(after[j], src)
    {
      assert after[j] == gs[j] && gs[j] in gs;
    }
    hide Chosen, ServesFor, Shareable, Taken;
  }

  function Taken(g: Guest, src: string): Guest {
    g.(prevState := g.state, state := Some(Using), connected := g.connected + 1, clientIps := g.clientIps + [src])
  }

  function IndexOfId(gs: seq<Guest>, id: Id, i: nat): (r: nat)
    requires i <= |gs|
    ensures i <= r <= |gs|
    ensures r < |gs| ==> gs[r].id == id
    ensures forall j :: i <= j < r ==> gs[j].id != id
    decreases |gs| - i
  {
    if i == |gs| || gs[i].id == id then i else IndexOfId(gs, id, i + 1)
  }

  function Freed(g: Guest, now: real): Guest {
    g.(freedAt := now, connected := g.connected - 1, state := if g.connected == 1 then Some(Used) else g.state)
  }

  function Reused(g: Guest): Guest {
    var h := g.(connected := g.connected - 1);
    if h.connected == 0 then h.(state := g.prevState, prevState := None) else h
  }

  // `free_vm` and `reuse_vm` change the first guest of that id, if there is one.
  function FreeVm(gs: seq<Guest>, id: Id, now: real): seq<Guest> {
    var i := IndexOfId(gs, id, 0);
    if i < |gs| then gs[i := Freed(gs[i], now)] else gs
  }

  function ReuseVm(gs: seq<Guest>, id: Id): seq<Guest> {
    var i := IndexOfId(gs, id, 0);
    if i < |gs| then gs[i := Reused(gs[i])] else gs
  }

  // ----- producer passes

  function ExistingSize(gs: seq<Guest>): nat {
    if gs == [] then 0 else (if gs[0].state != Some(Destroyed) then 1 else 0) + ExistingSize(gs[1..])
  }

  function TimedOut(g: Guest, timeout: real, now: real): Guest {
    if g.state == Some(Used) && g.freedAt + timeout < now then g.(state := Some(Unavailable)) else g
  }

  function TornDown(g: Guest, destroys: Ip -> bool): Guest {
    if g.state == Some(Unavailable) && destroys(g.ip) then g.(state := Some(Destroyed)) else g
  }

  function Checked(g: Guest, healthy: Ip -> bool): Guest {
    if (g.state == Some(Available) || Usable(g)) && !healthy(g.ip) then g.(state := Some(Unavailable)) else g
  }

  function Booted(g: Guest, answers: Ip -> bool): Guest {
    if g.state == Some(Created) && answers(g.ip) then g.(state := Some(Available)) else g
  }

  // The four passes over the whole list.
  function MarkTimedOut(gs: seq<Guest>, timeout: real, now: real): (r: seq<Guest>)
    ensures |r| == |gs| && forall i :: 0 <= i < |gs| ==> r[i] == TimedOut(gs[i], timeout, now)
  {
    seq(|gs|, i requires 0 <= i < |gs| => TimedOut(gs[i], timeout, now))
  }

  function DestroyTimedOut(gs: seq<Guest>, destroys: Ip -> bool): (r: seq<Guest>)
    ensures |r| == |gs| && forall i :: 0 <= i < |gs| ==> r[i] == TornDown(gs[i], destroys)
  {
    seq(|gs|, i requires 0 <= i < |gs| => TornDown(gs[i], destroys))
  }

  function CheckHealth(gs: seq<Guest>, healthy: Ip -> bool): (r: seq<Guest>)
    ensures |r| == |gs| && forall i :: 0 <= i < |gs| ==> r[i] == Checked(gs[i], healthy)
  {
    seq(|gs|, i requires 0 <= i < |gs| => Checked(gs[i], healthy))
  }

  function MarkAvailable(gs: seq<Guest>, answers: Ip -> bool): (r: seq<Guest>)
    ensures |r| == |gs| && forall i :: 0 <= i < |gs| ==> r[i] == Booted(gs[i], answers)
  {
    seq(|gs|, i requires 0 <= i < |gs| => Booted(gs[i], answers))
  }

  function Listed(gs: seq<Guest>): seq<Guest> {
    if gs == [] then []
    else (if gs[0].state == Some(Destroyed) then [] else [gs[0]]) + Listed(gs[1..])
  }

  predicate IpFree(gs: seq<Guest>, ip: Ip) {
    forall i :: 0 <= i < |gs| ==> gs[i].ip != ip
  }

  // `get_mac_ip`: the first free one of 500 random picks.
  function FreeIp(gs: seq<Guest>, picks: nat -> Ip, tries: nat): (ip: Option<Ip>)
    requires tries <= IP_TRIES
    ensures ip.Some? ==> IpFree(gs, ip.value)
    decreases IP_TRIES - tries
  {
    if tries == IP_TRIES then None
    else if IpFree(gs, picks(tries)) then Some(picks(tries))
    else FreeIp(gs, picks, tries + 1)
  }

  /** The address is the first of the 500 picks that no guest has; there is none exactly when
      each of them is taken. */
  lemma {:induction false} FreeIpMeans(gs: seq<Guest>, picks: nat -> Ip, tries: nat)
    requires tries <= 500
    ensures
      match FreeIp(gs, picks, tries)
      case None => forall k :: tries <= k < 500 ==> !IpFree(gs, picks(k))
      case Some(ip) => exists k :: tries <= k < 500 && ip == picks(k) && FirstFree(gs, picks, tries, k)
    decreases 500 - tries
  {
    if tries < 500 && !IpFree(gs, picks(tries)) {
      FreeIpMeans(gs, picks, tries + 1);
      if FreeIp(gs, picks, tries + 1).Some? {
        var k :| tries < k < 500 && FreeIp(gs, picks, tries + 1).value == picks(k)
                 && FirstFree(gs, picks, tries + 1, k);
        assert FirstFree(gs, picks, tries, k);
      }
    } else if tries < 500 {
      assert FirstFree(gs, picks, tries, tries);
    }
  }

  ghost predicate FirstFree(gs: seq<Guest>, picks: nat -> Ip, tries: nat, k: nat) {
    IpFree(gs, picks(k)) && forall j :: tries <= j < k ==> !IpFree(gs, picks(j))
  }

  function NextId(id: GuestId): GuestId { if id + 1 == ID_LIMIT then 0 else id + 1 }

  function AddGuest(p: Pool, ip: Ip): Pool {
    p.(guests := p.guests + [Guest(p.nextId, ip, Some(Created), None, 0, [], -1.0, p.created)],
       nextId := NextId(p.nextId), created := p.created + 1)
  }

  // The address the k-th creation of a loop gets; None when it raises an exception.
  function BootIp(gs: seq<Guest>, b: Boot): (ip: Option<Ip>)
    ensures ip.Some? ==> IpFree(gs, ip.value)
  {
    if b.started then FreeIp(gs, b.picks, 0) else None
  }

  // Creations k, k+1, ... n-1; an exception ends them all.
  function CreateGuests(p: Pool, k: nat, n: int, boots: nat -> Boot): Pool
    decreases n - k
  {
    if k >= n then p
    else
      match BootIp(p.guests, boots(k))
      case None => p
      case Some(ip) => CreateGuests(AddGuest(p, ip), k + 1, n, boots)
  }

  predicate CreationFails(p: Pool, k: nat, n: int, boots: nat -> Boot)
    decreases n - k
  {
    k < n &&
    match BootIp(p.guests, boots(k))
    case None => true
    case Some(ip) => CreationFails(AddGuest(p, ip), k + 1, n, boots)
  }

  function Reclaimed(gs: seq<Guest>, c: Config, e: Env): seq<Guest> {
    if ExistingSize(gs) > 1
    then DestroyTimedOut(MarkTimedOut(gs, c.unusedTimeout, e.now), e.destroys)
    else gs
  }

  // The list when the creations start.
  function Swept(gs: seq<Guest>, c: Config, e: Env): seq<Guest> {
    Listed(CheckHealth(Reclaimed(gs, c, e), e.healthy))
  }

  function Demand(gs: seq<Guest>, c: Config): int {
    c.maxVm - ExistingSize(gs)
  }

  // A creation that raises also skips the last pass.
  function Refilled(p: Pool, c: Config, e: Env): Pool {
    var n := Demand(p.guests, c);
    var filled := CreateGuests(p, 0, n, e.boots);
    if CreationFails(p, 0, n, e.boots) then filled
    else filled.(guests := MarkAvailable(filled.guests, e.answers),
                 anyVmUp := filled.anyVmUp ||
                            exists g :: g in filled.guests && g.state == Some(Created) && e.answers(g.ip))
  }

  // A creation raises; the producer loop is then not scheduled again.
  predicate LoopFails(p: Pool, c: Config, e: Env) {
    var q := p.(guests := Swept(p.guests, c, e));
    CreationFails(q, 0, Demand(q.guests, c), e.boots)
  }

  // `producer_loop`.
  function ProducerLoop(p: Pool, c: Config, e: Env): Pool {
    Refilled(p.(guests := Swept(p.guests, c, e)), c, e)
  }
}
