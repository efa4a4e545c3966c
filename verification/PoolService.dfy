/** The classes behind the pool server: guests changed in place by producer and
    consumers (src/backend_pool/pool_service.py and backend_service.py). */
module PoolService {
  import opened Common
  import opened GuestPool

  // `Guest` of the pool service.
  class GuestRecord {
    const id: GuestId
    const ip: Ip
    ghost const serial: nat
    var state: Option<Phase>
    var prevState: Option<Phase>
    var connected: int
    var clientIps: seq<string>
    var freedAt: real

    constructor (id: GuestId, ip: Ip, ghost serial: nat)
      ensures View() == Guest(id, ip, Some(Created), None, 0, [], -1.0, serial)
    {
      this.id, this.ip, this.serial := id, ip, serial;
      state, prevState, connected, clientIps, freedAt := Some(Created), None, 0, [], -1.0;
    }

    ghost function View(): Guest
      reads this
    {
      Guest(id, ip, state, prevState, connected, clientIps, freedAt, serial)
    }

    // What a request does to the guest it is given.
    method Take(src: string)
      modifies this
      ensures View() == Taken(old(View()), src)
    {
      prevState := state;
      state := Some(Using);
      connected := connected + 1;
      clientIps := clientIps + [src];
    }

    // One client less, at `now`.
    method Free(now: real)
      modifies this
      ensures View() == Freed(old(View()), now)
    {
      freedAt := now;
      connected := connected - 1;
      if connected == 0 {
        state := Some(Used);
      }
    }

    // One client less that did not use the guest: back to the state before.
    method Reuse()
      modifies this
      ensures View() == Reused(old(View()))
    {
      connected := connected - 1;
      if connected == 0 {
        state := prevState;
        prevState := None;
      }
    }

    // The dataclass compares by value.
    predicate Equals(other: GuestRecord)
      reads this, other
    {
      && id == other.id && ip == other.ip && state == other.state && prevState == other.prevState
      && connected == other.connected && clientIps == other.clientIps && freedAt == other.freedAt
    }
  }

  ghost function ViewsOf(gs: seq<GuestRecord>): (r: seq<Guest>)
    reads gs
    ensures |r| == |gs| && forall i :: 0 <= i < |gs| ==> r[i] == gs[i].View()
  {
    if gs == [] then [] else [gs[0].View()] + ViewsOf(gs[1..])
  }

  // No two guests share an address, and so no two are the same object.
  ghost predicate DistinctIps(gs: seq<GuestRecord>) {
    forall i, j :: 0 <= i < j < |gs| ==> gs[i].ip != gs[j].ip
  }

  // The guests with and without `Destroyed`, in order.
  function DestroyedOf(gs: seq<GuestRecord>): seq<GuestRecord>
    reads gs
  {
    if gs == [] then []
    else (if gs[0].state == Some(Destroyed) then [gs[0]] else []) + DestroyedOf(gs[1..])
  }

  ghost function Minus(gs: seq<GuestRecord>, gone: seq<GuestRecord>): seq<GuestRecord> {
    if gs == [] then []
    else if gs[0] in gone then Minus(gs[1..], gone)
    else [gs[0]] + Minus(gs[1..], gone)
  }

  lemma TailDistinct(gs: seq<GuestRecord>)
    requires DistinctIps(gs) && gs != []
    ensures DistinctIps(gs[1..])
    ensures forall g :: g in gs <==> g == gs[0] || g in gs[1..]
    ensures forall g :: g in gs[1..] ==> g.ip != gs[0].ip
  {
  }

  lemma ConsDistinct(g: GuestRecord, gs: seq<GuestRecord>)
    requires DistinctIps(gs) && forall h :: h in gs ==> h.ip != g.ip
    ensures DistinctIps([g] + gs)
  {
  }

  lemma {:induction false} MinusKeeps(gs: seq<GuestRecord>, gone: seq<GuestRecord>)
    requires DistinctIps(gs)
    ensures DistinctIps(Minus(gs, gone))
    ensures forall g :: g in Minus(gs, gone) ==> g in gs && g !in gone
    ensures forall g :: g in gs && g !in gone ==> g in Minus(gs, gone)
  {
    if gs != [] {
      TailDistinct(gs);
      MinusKeeps(gs[1..], gone);
      if gs[0] !in gone {
        forall h | h in Minus(gs[1..], gone)
          ensures h.ip != gs[0].ip
        {
          assert h in gs[1..];
        }
        ConsDistinct(gs[0], Minus(gs[1..], gone));
      }
    }
  }

  lemma {:induction false} DestroyedOfMeans(gs: seq<GuestRecord>)
    requires DistinctIps(gs)
    ensures DistinctIps(DestroyedOf(gs))
    ensures forall g :: g in DestroyedOf(gs) ==> g in gs && g.state == Some(Destroyed)
    ensures forall g :: g in gs && g.state == Some(Destroyed) ==> g in DestroyedOf(gs)
  {
    if gs != [] {
      TailDistinct(gs);
      DestroyedOfMeans(gs[1..]);
      if gs[0].state == Some(Destroyed) {
        forall h | h in DestroyedOf(gs[1..])
          ensures h.ip != gs[0].ip
        {
          assert h in gs[1..];
        }
        ConsDistinct(gs[0], DestroyedOf(gs[1..]));
      }
    }
  }

  lemma {:induction false} MinusDestroyed(gs: seq<GuestRecord>, gone: seq<GuestRecord>)
    requires forall g :: g in gs ==> (g in gone <==> g.state == Some(Destroyed))
    ensures ViewsOf(Minus(gs, gone)) == Listed(ViewsOf(gs))
  {
    if gs != [] {
      MinusDestroyed(gs[1..], gone);
    }
  }

  lemma {:induction false} MinusNone(gs: seq<GuestRecord>, gone: seq<GuestRecord>)
    requires forall g :: g in gs ==> g !in gone
    ensures Minus(gs, gone) == gs
  {
    if gs != [] {
      MinusNone(gs[1..], gone);
    }
  }

  function Without(gs: seq<GuestRecord>, g: GuestRecord): seq<GuestRecord> {
    if gs == [] then []
    else if gs[0] == g then gs[1..] else [gs[0]] + Without(gs[1..], g)
  }

  lemma {:induction false} WithoutAt(gs: seq<GuestRecord>, g: GuestRecord, i: nat)
    requires i < |gs| && gs[i] == g && forall j :: 0 <= j < i ==> gs[j] != g
    ensures gs[..i] + gs[i + 1..] == Without(gs, g)
  {
    if i > 0 {
      assert gs[0] != g;
      WithoutAt(gs[1..], g, i - 1);
      assert gs[..i] + gs[i + 1..] == [gs[0]] + (gs[1..][..i - 1] + gs[1..][i..]);
    }
  }

  // Removing a guest from what was left by the removals of `gone`.
  lemma {:induction false} MinusWithout(gs: seq<GuestRecord>, gone: seq<GuestRecord>, g: GuestRecord)
    requires DistinctIps(gs)
    ensures Without(Minus(gs, gone), g) == Minus(gs, gone + [g])
  {
    if gs != [] {
      TailDistinct(gs);
      assert gs[0] in gone + [g] <==> gs[0] in gone || gs[0] == g;
      hide DistinctIps;
      if gs[0] !in gone && gs[0] == g {
        MinusSame(gs[1..], gone, g);
      } else {
        MinusWithout(gs[1..], gone, g);
        assert ([gs[0]] + Minus(gs[1..], gone))[1..] == Minus(gs[1..], gone);
      }
    }
  }

  // The next destroyed guest to remove is still listed.
  lemma NextIsLeft(gs: seq<GuestRecord>, destroyed: seq<GuestRecord>, k: nat)
    requires DistinctIps(gs) && DistinctIps(destroyed) && k < |destroyed|
    requires forall g :: g in destroyed ==> g in gs
    ensures DistinctIps(Minus(gs, destroyed[..k])) && destroyed[k] in Minus(gs, destroyed[..k])
  {
    MinusKeeps(gs, destroyed[..k]);
    assert destroyed[k] in destroyed && destroyed[k] !in destroyed[..k];
  }

  lemma {:induction false} MinusSame(gs: seq<GuestRecord>, gone: seq<GuestRecord>, g: GuestRecord)
    requires g !in gs
    ensures Minus(gs, gone + [g]) == Minus(gs, gone)
  {
    if gs != [] {
      MinusSame(gs[1..], gone, g);
    }
  }

  // One of the first n guests was created and answers.
  ghost predicate AnyUp(gs: seq<Guest>, n: nat, answers: Ip -> bool)
    requires n <= |gs|
  {
    exists j :: 0 <= j < n && gs[j].state == Some(Created) && answers(gs[j].ip)
  }

  lemma AnyUpStarts(gs: seq<Guest>, answers: Ip -> bool)
    ensures !AnyUp(gs, 0, answers)
  {
  }

  lemma AnyUpStep(gs: seq<Guest>, n: nat, answers: Ip -> bool)
    requires n < |gs|
    ensures AnyUp(gs, n + 1, answers) <==> AnyUp(gs, n, answers) || (gs[n].state == Some(Created) && answers(gs[n].ip))
  {
  }

  lemma AnyUpMeans(gs: seq<Guest>, answers: Ip -> bool)
    ensures AnyUp(gs, |gs|, answers) <==> exists g :: g in gs && g.state == Some(Created) && answers(g.ip)
  {
  }

  lemma CreationStep(p: Pool, k: nat, n: int, boots: nat -> Boot)
    requires k < n
    ensures
      match BootIp(p.guests, boots(k))
      case None => CreateGuests(p, k, n, boots) == p && CreationFails(p, k, n, boots)
      case Some(ip) =>
        && CreateGuests(p, k, n, boots) == CreateGuests(AddGuest(p, ip), k + 1, n, boots)
        && CreationFails(p, k, n, boots) == CreationFails(AddGuest(p, ip), k + 1, n, boots)
  {
  }

  lemma CreationEnds(p: Pool, k: nat, n: int, boots: nat -> Boot)
    requires k >= n
    ensures CreateGuests(p, k, n, boots) == p && !CreationFails(p, k, n, boots)
  {
  }

  class Service {
    var guests: seq<GuestRecord>
    var guestId: GuestId
    var anyVmUp: bool
    var maxVm: int
    var unusedTimeout: real
    var shareGuests: bool
    ghost var created: nat

    ghost function Views(): seq<Guest>
      reads this, guests
    {
      ViewsOf(guests)
    }

    ghost function Current(): Pool
      reads this, guests
    {
      Pool(Views(), guestId, anyVmUp, created)
    }

    ghost function Settings(): Config
      reads this
    {
      Config(maxVm, unusedTimeout, shareGuests)
    }

    ghost predicate Valid()
      reads this
    {
      DistinctIps(guests)
    }

    constructor ()
      ensures Valid() && Current() == EMPTY && guests == []
      ensures Settings() == Config(2, 600.0, true)
    {
      guests, guestId, anyVmUp, created := [], 0, false, 0;
      maxVm, unusedTimeout, shareGuests := 2, 600.0, true;
    }

    method SetConfigs(maxVm: int, unusedTimeout: real, shareGuests: bool)
      modifies this`maxVm, this`unusedTimeout, this`shareGuests
      ensures Settings() == Config(maxVm, unusedTimeout, shareGuests) && Current() == old(Current())
    {
      this.maxVm, this.unusedTimeout, this.shareGuests := maxVm, unusedTimeout, shareGuests;
    }

    // ----- consumers

    method GetGuestIp(src: string) returns (i: nat)
      ensures i == FirstWithClient(Views(), src, 0)
    {
      hide ViewsOf;
      i := 0;
      while i < |guests|
        invariant i <= |guests| && FirstWithClient(Views(), src, 0) == FirstWithClient(Views(), src, i)
      {
        if (guests[i].state == Some(Used) || guests[i].state == Some(Using)) && src in guests[i].clientIps {
          return;
        }
        i := i + 1;
      }
    }

    method GetAvailableGuest() returns (i: nat)
      ensures i == FirstAvailable(Views(), 0)
    {
      hide ViewsOf;
      i := 0;
      while i < |guests|
        invariant i <= |guests| && FirstAvailable(Views(), 0) == FirstAvailable(Views(), i)
      {
        if guests[i].state == Some(Available) {
          return;
        }
        i := i + 1;
      }
    }

    method GetAnyGuest() returns (best: nat)
      ensures best == LeastConnected(Views(), 0, |guests|)
    {
      hide ViewsOf;
      best := |guests|;
      var i := 0;
      while i < |guests|
        invariant i <= |guests| && best <= |guests| && (best < |guests| ==> Usable(Views()[best]))
        invariant LeastConnected(Views(), 0, |guests|) == LeastConnected(Views(), i, best)
      {
        if guests[i].state == Some(Used) || guests[i].state == Some(Using) {
          if best == |guests| || guests[i].connected < guests[best].connected {
            best := i;
          }
        }
        i := i + 1;
      }
    }

    // The index of the guest to serve, or the number of guests when there is none.
    method FindGuest(src: string) returns (i: nat)
      ensures i == Chosen(Views(), src, shareGuests) && RightGuest(Views(), src, shareGuests, i)
    {
      ChosenIsRight(Views(), src, shareGuests);
      hide FirstWithClient, FirstAvailable, LeastConnected, RightGuest, ViewsOf;
      i := GetGuestIp(src);
      if i == |guests| {
        i := GetAvailableGuest();
        if i == |guests| && shareGuests {
          i := GetAnyGuest();
        }
      }
    }

    method TakeGuest(i: nat, src: string)
      requires Valid() && i < |guests|
      modifies guests
      ensures Valid() && Views() == old(Views())[i := Taken(old(Views())[i], src)]
    {
      hide ViewsOf;
      ghost var before := Views();
      guests[i].Take(src);
      assert forall j :: 0 <= j < |guests| && j != i ==> guests[j].View() == before[j];
    }

    // The guest granted; None stands for NoAvailableVMs.
    method RequestVm(src: string) returns (granted: Option<GuestRecord>)
      requires Valid()
      modifies guests
      ensures Valid()
      ensures granted.None? ==> Chosen(old(Views()), src, shareGuests) == |guests| && Views() == old(Views())
      ensures granted.None? ==> RightGuest(old(Views()), src, shareGuests, |guests|)
      ensures granted.Some? ==>
        var i := Chosen(old(Views()), src, shareGuests);
        && i < |guests| && granted.value == guests[i] && RightGuest(old(Views()), src, shareGuests, i)
        && granted.value.id == old(Views())[i].id && granted.value.ip == old(Views())[i].ip
        && Views() == old(Views())[i := Taken(old(Views())[i], src)]
    {
      hide ViewsOf, RightGuest;
      var i := FindGuest(src);
      if i == |guests| {
        return None;
      }
      TakeGuest(i, src);
      return Some(guests[i]);
    }

    method FindId(id: Id) returns (i: nat)
      ensures i == IndexOfId(Views(), id, 0)
    {
      hide ViewsOf;
      i := 0;
      while i < |guests|
        invariant i <= |guests| && IndexOfId(Views(), id, 0) == IndexOfId(Views(), id, i)
      {
        if guests[i].id == id {
          return;
        }
        i := i + 1;
      }
    }

    method FreeVm(id: Id, now: real)
      requires Valid()
      modifies guests
      ensures Valid()
      ensures Current() == old(Current()).(guests := GuestPool.FreeVm(old(Views()), id, now))
    {
      hide ViewsOf;
      var i := FindId(id);
      if i < |guests| {
        ghost var before := Views();
        guests[i].Free(now);
        assert forall j :: 0 <= j < |guests| && j != i ==> guests[j].View() == before[j];
      }
    }

    method ReuseVm(id: Id)
      requires Valid()
      modifies guests
      ensures Valid()
      ensures Current() == old(Current()).(guests := GuestPool.ReuseVm(old(Views()), id))
    {
      hide ViewsOf;
      var i := FindId(id);
      if i < |guests| {
        ghost var before := Views();
        guests[i].Reuse();
        assert forall j :: 0 <= j < |guests| && j != i ==> guests[j].View() == before[j];
      }
    }

    // ----- producer

    method ExistingPoolSize() returns (n: nat)
      ensures n == ExistingSize(Views())
    {
      hide ViewsOf;
      n := 0;
      var i := |guests|;
      while i > 0
        invariant 0 <= i <= |guests| && n == ExistingSize(Views()[i..])
      {
        i := i - 1;
        assert Views()[i..] == [Views()[i]] + Views()[i + 1..];
        if guests[i].state != Some(Destroyed) {
          n := n + 1;
        }
      }
      assert Views()[0..] == Views();
    }

    method SetState(i: nat, phase: Phase)
      requires Valid() && i < |guests|
      modifies guests
      ensures Valid() && Views() == old(Views())[i := old(Views())[i].(state := Some(phase))]
    {
      hide ViewsOf;
      ghost var before := Views();
      guests[i].state := Some(phase);
      assert forall j :: 0 <= j < |guests| && j != i ==> guests[j].View() == before[j];
    }

    method ProducerMarkTimedOut(now: real)
      requires Valid()
      modifies guests
      ensures Valid() && Views() == MarkTimedOut(old(Views()), unusedTimeout, now)
    {
      hide ViewsOf, DistinctIps, MarkTimedOut;
      ghost var before := Views();
      for i := 0 to |guests|
        invariant Valid() && |Views()| == |before|
        invariant forall j :: 0 <= j < i ==> Views()[j] == TimedOut(before[j], unusedTimeout, now)
        invariant forall j :: i <= j < |guests| ==> Views()[j] == before[j]
      {
        if guests[i].state == Some(Used) && guests[i].freedAt + unusedTimeout < now {
          SetState(i, Unavailable);
        }
      }
    }

    method ProducerDestroyTimedOut(destroys: Ip -> bool)
      requires Valid()
      modifies guests
      ensures Valid() && Views() == DestroyTimedOut(old(Views()), destroys)
    {
      hide ViewsOf, DistinctIps, DestroyTimedOut;
      ghost var before := Views();
      for i := 0 to |guests|
        invariant Valid() && |Views()| == |before|
        invariant forall j :: 0 <= j < i ==> Views()[j] == TornDown(before[j], destroys)
        invariant forall j :: i <= j < |guests| ==> Views()[j] == before[j]
      {
        if guests[i].state == Some(Unavailable) {
          if destroys(guests[i].ip) {
            SetState(i, Destroyed);
          }
        }
      }
    }

    method ProducerCheckHealth(healthy: Ip -> bool)
      requires Valid()
      modifies guests
      ensures Valid() && Views() == CheckHealth(old(Views()), healthy)
    {
      hide ViewsOf, DistinctIps, CheckHealth;
      ghost var before := Views();
      for i := 0 to |guests|
        invariant Valid() && |Views()| == |before|
        invariant forall j :: 0 <= j < i ==> Views()[j] == Checked(before[j], healthy)
        invariant forall j :: i <= j < |guests| ==> Views()[j] == before[j]
      {
        if guests[i].state == Some(Available) || guests[i].state == Some(Used) || guests[i].state == Some(Using) {
          if !healthy(guests[i].ip) {
            SetState(i, Unavailable);
          }
        }
      }
    }

    method NoteUp(i: nat)
      requires Valid() && i < |guests|
      modifies this`anyVmUp, guests
      ensures Valid() && Views() == old(Views())[i := old(Views())[i].(state := Some(Available))]
      ensures anyVmUp
    {
      anyVmUp := true;
      SetState(i, Available);
    }

    method ProducerMarkAvailable(answers: Ip -> bool)
      requires Valid()
      modifies this`anyVmUp, guests
      ensures Valid() && Views() == MarkAvailable(old(Views()), answers)
      ensures anyVmUp == (old(anyVmUp) || exists g :: g in old(Views()) && g.state == Some(Created) && answers(g.ip))
    {
      hide ViewsOf, DistinctIps, MarkAvailable, AnyUp;
      ghost var before, wasUp := Views(), anyVmUp;
      AnyUpStarts(before, answers);
      for i := 0 to |guests|
        invariant Valid() && |Views()| == |before|
        invariant forall j :: 0 <= j < i ==> Views()[j] == Booted(before[j], answers)
        invariant forall j :: i <= j < |guests| ==> Views()[j] == before[j]
        invariant anyVmUp == (wasUp || AnyUp(before, i, answers))
      {
        AnyUpStep(before, i, answers);
        if guests[i].state == Some(Created) {
          if answers(guests[i].ip) {
            NoteUp(i);
          }
        }
      }
      AnyUpMeans(before, answers);
    }

    // `list.remove`: deletes the first guest equal to `g`, which is `g` itself, as no
    // other guest has its address.
    method RemoveGuest(g: GuestRecord)
      requires Valid() && g in guests
      modifies this`guests
      ensures guests == Without(old(guests), g)
    {
      var i := 0;
      while !guests[i].Equals(g)
        invariant 0 <= i < |guests| && g in guests[i..]
        invariant forall j :: 0 <= j < i ==> guests[j] != g
        decreases |guests| - i
      {
        assert guests[i] != g;
        i := i + 1;
      }
      assert guests[i] == g by {
        var j :| 0 <= j < |guests| && guests[j] == g;
        assert guests[i].ip == guests[j].ip;
      }
      WithoutAt(guests, g, i);
      guests := guests[..i] + guests[i + 1..];
    }

    method ProducerRemoveDestroyed()
      requires Valid()
      modifies this`guests
      ensures Valid() && Views() == Listed(old(Views()))
      ensures forall g :: g in guests ==> g in old(guests)
    {
      hide ViewsOf, DistinctIps, Minus, DestroyedOf, Listed;
      var destroyed := DestroyedOf(guests);
      DestroyedOfMeans(guests);
      MinusNone(guests, []);
      for k := 0 to |destroyed|
        invariant guests == Minus(old(guests), destroyed[..k])
      {
        NextIsLeft(old(guests), destroyed, k);
        RemoveGuest(destroyed[k]);
        MinusWithout(old(guests), destroyed[..k], destroyed[k]);
        assert destroyed[..k + 1] == destroyed[..k] + [destroyed[k]];
      }
      assert destroyed[..|destroyed|] == destroyed;
      MinusKeeps(old(guests), destroyed);
      MinusDestroyed(old(guests), destroyed);
    }

    method IsIpFree(ip: Ip) returns (r: bool)
      ensures r == IpFree(Views(), ip)
    {
      hide ViewsOf;
      for i := 0 to |guests|
        invariant forall j :: 0 <= j < i ==> Views()[j].ip != ip
      {
        if guests[i].ip == ip {
          return false;
        }
      }
      return true;
    }

    // `get_mac_ip` of the backend service, with its random picks from the network table.
    method GetMacIp(picks: nat -> Ip) returns (ip: Option<Ip>)
      ensures ip == FreeIp(Views(), picks, 0)
    {
      hide ViewsOf, IpFree;
      var retries := 0;
      while retries < IP_TRIES
        invariant retries <= IP_TRIES && FreeIp(Views(), picks, 0) == FreeIp(Views(), picks, retries)
      {
        var isFree := IsIpFree(picks(retries));
        if isFree {
          return Some(picks(retries));
        }
        retries := retries + 1;
      }
      return None;
    }

    // `create_guest`; None when it raises or has no domain to return.
    method CreateGuest(boot: Boot) returns (ip: Option<Ip>)
      ensures ip == BootIp(Views(), boot)
    {
      hide ViewsOf;
      if !boot.started {
        return None;
      }
      ip := GetMacIp(boot.picks);
    }

    method AppendGuest(ip: Ip)
      requires Valid() && IpFree(Views(), ip)
      modifies this`guests, this`guestId, this`created
      ensures Valid() && Current() == AddGuest(old(Current()), ip)
      ensures |guests| == |old(guests)| + 1 && fresh(guests[|old(guests)|])
      ensures forall i :: 0 <= i < |old(guests)| ==> guests[i] == old(guests)[i]
    {
      hide ViewsOf;
      ghost var before := Views();
      var guest := new GuestRecord(guestId, ip, created);
      guests := guests + [guest];
      guestId := if guestId + 1 == ID_LIMIT then 0 else guestId + 1;
      created := created + 1;
      assert forall j :: 0 <= j < |before| ==> Views()[j] == before[j] && guests[j].ip == before[j].ip;
      assert Views() == before + [guest.View()];
    }

    // `failed` when a creation raised; that ends the producer loop.
    method ProducerCreateGuests(boots: nat -> Boot) returns (failed: bool)
      requires Valid()
      modifies this`guests, this`guestId, this`created
      ensures Valid()
      ensures Current() == CreateGuests(old(Current()), 0, Demand(old(Views()), Settings()), boots)
      ensures failed == CreationFails(old(Current()), 0, Demand(old(Views()), Settings()), boots)
      ensures |guests| >= |old(guests)| && forall i :: 0 <= i < |old(guests)| ==> guests[i] == old(guests)[i]
      ensures forall i :: |old(guests)| <= i < |guests| ==> fresh(guests[i])
    {
      var size := ExistingPoolSize();
      var toCreate := maxVm - size;
      hide ViewsOf, DistinctIps, CreateGuests, CreationFails, ExistingSize;
      failed := CreateUpTo(toCreate, boots);
    }

    method CreateUpTo(toCreate: int, boots: nat -> Boot) returns (failed: bool)
      requires Valid()
      modifies this`guests, this`guestId, this`created
      ensures Valid() && Current() == CreateGuests(old(Current()), 0, toCreate, boots)
      ensures failed == CreationFails(old(Current()), 0, toCreate, boots)
      ensures |guests| >= |old(guests)| && forall i :: 0 <= i < |old(guests)| ==> guests[i] == old(guests)[i]
      ensures forall i :: |old(guests)| <= i < |guests| ==> fresh(guests[i])
    {
      hide ViewsOf, AddGuest, BootIp, DistinctIps, CreateGuests, CreationFails, FreeIp, IpFree;
      ghost var start, first := Current(), guests;
      failed := false;
      var k := 0;
      while k < toCreate && !failed
        invariant 0 <= k && Valid()
        invariant !failed ==> CreateGuests(Current(), k, toCreate, boots) == CreateGuests(start, 0, toCreate, boots)
        invariant !failed ==> CreationFails(Current(), k, toCreate, boots) == CreationFails(start, 0, toCreate, boots)
        invariant failed ==> Current() == CreateGuests(start, 0, toCreate, boots)
        invariant failed ==> CreationFails(start, 0, toCreate, boots)
        invariant |guests| >= |first| && forall i :: 0 <= i < |first| ==> guests[i] == first[i]
        invariant forall i :: |first| <= i < |guests| ==> fresh(guests[i])
        decreases toCreate - k
      {
        CreationStep(Current(), k, toCreate, boots);
        failed := CreateAndAppend(boots(k));
        k := k + 1;
      }
      if !failed {
        CreationEnds(Current(), k, toCreate, boots);
      }
    }

    // One creation, with the guest appended unless it fails.
    method CreateAndAppend(boot: Boot) returns (failed: bool)
      requires Valid()
      modifies this`guests, this`guestId, this`created
      ensures Valid() && failed == BootIp(old(Views()), boot).None?
      ensures Current() == if failed then old(Current()) else AddGuest(old(Current()), BootIp(old(Views()), boot).value)
      ensures |guests| >= |old(guests)| && forall i :: 0 <= i < |old(guests)| ==> guests[i] == old(guests)[i]
      ensures forall i :: |old(guests)| <= i < |guests| ==> fresh(guests[i])
    {
      hide ViewsOf, AddGuest, FreeIp, IpFree, DistinctIps;
      var ip := CreateGuest(boot);
      if ip.None? {
        return true;
      }
      AppendGuest(ip.value);
      failed := false;
    }

    // The passes that take guests out.
    method Sweep(e: Env)
      requires Valid()
      modifies this`guests, guests
      ensures Valid() && Views() == Swept(old(Views()), Settings(), e)
      ensures forall i :: 0 <= i < |guests| ==> guests[i] in old(guests)
    {
      hide ViewsOf, DistinctIps, MarkTimedOut, DestroyTimedOut, CheckHealth, Listed, ExistingSize;
      var size := ExistingPoolSize();
      if size > 1 {
        ProducerMarkTimedOut(e.now);
        ProducerDestroyTimedOut(e.destroys);
      }
      ProducerCheckHealth(e.healthy);
      ProducerRemoveDestroyed();
    }

    // The passes that fill the pool up.
    method Refill(e: Env) returns (failed: bool)
      requires Valid()
      modifies this`guests, this`guestId, this`anyVmUp, this`created, guests
      ensures Valid() && Current() == Refilled(old(Current()), Settings(), e)
      ensures failed == CreationFails(old(Current()), 0, Demand(old(Views()), Settings()), e.boots)
      ensures failed ==> anyVmUp == old(anyVmUp)
      ensures forall i :: 0 <= i < |guests| ==> guests[i] in old(guests) || fresh(guests[i])
    {
      hide ViewsOf, DistinctIps, CreateGuests, CreationFails, ExistingSize, MarkAvailable;
      failed := ProducerCreateGuests(e.boots);
      assert forall i :: 0 <= i < |guests| ==> guests[i] in old(guests) || fresh(guests[i]);
      if !failed {
        ProducerMarkAvailable(e.answers);
      }
    }

    // `failed` when a creation raised; the loop is then not scheduled again.
    method ProducerLoop(e: Env) returns (failed: bool)
      requires Valid()
      modifies this`guests, this`guestId, this`anyVmUp, this`created, guests
      ensures Valid() && Current() == GuestPool.ProducerLoop(old(Current()), Settings(), e)
      ensures failed == LoopFails(old(Current()), Settings(), e)
      ensures failed ==> anyVmUp == old(anyVmUp)
      ensures forall i :: 0 <= i < |guests| ==> guests[i] in old(guests) || fresh(guests[i])
    {
      hide ViewsOf, DistinctIps, Swept, Refilled;
      Sweep(e);
      failed := Refill(e);
    }
  }
}
