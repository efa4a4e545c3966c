/** What one producer loop does to each guest, over its six passes
    (src/backend_pool/pool_service.py:253-398). */
module PoolLoop {
  import opened Common
  import opened GuestPool
  import opened PoolSystem

  // ----- the fate of a guest

  // Guests are given up and destroyed only while there are two or more.
  predicate TimesOut(gs: seq<Guest>, g: Guest, c: Config, e: Env) {
    |gs| > 1 && g.state == Some(Used) && g.freedAt + c.unusedTimeout < e.now
  }

  predicate Goes(gs: seq<Guest>, g: Guest, c: Config, e: Env) {
    |gs| > 1 && (g.state == Some(Unavailable) || TimesOut(gs, g, c, e)) && e.destroys(g.ip)
  }

  predicate FallsSick(g: Guest, e: Env) {
    (g.state == Some(Available) || g.state == Some(Using) || g.state == Some(Used)) && !e.healthy(g.ip)
  }

  // The guest as the loop leaves it, if it stays; `whole` when the last pass is reached.
  function Kept(gs: seq<Guest>, g: Guest, c: Config, e: Env, whole: bool): Guest {
    if TimesOut(gs, g, c, e) || FallsSick(g, e) then g.(state := Some(Unavailable))
    else if whole && g.state == Some(Created) && e.answers(g.ip) then g.(state := Some(Available))
    else g
  }

  // After the passes before the creations.
  function Reviewed(gs: seq<Guest>, g: Guest, c: Config, e: Env): Guest {
    if Goes(gs, g, c, e) then g.(state := Some(Destroyed)) else Kept(gs, g, c, e, false)
  }

  lemma {:induction false} AllExist(gs: seq<Guest>)
    requires NoneDestroyed(gs)
    ensures ExistingSize(gs) == |gs|
  {
    if gs != [] {
      assert gs[0] in gs;
      AllExist(gs[1..]);
    }
  }

  lemma ReviewedOne(gs: seq<Guest>, g: Guest, c: Config, e: Env)
    requires g.state != Some(Destroyed)
    ensures |gs| > 1 ==>
      Checked(TornDown(TimedOut(g, c.unusedTimeout, e.now), e.destroys), e.healthy) == Reviewed(gs, g, c, e)
    ensures |gs| <= 1 ==> Checked(g, e.healthy) == Reviewed(gs, g, c, e)
  {
  }

  lemma ReviewedAll(gs: seq<Guest>, c: Config, e: Env)
    requires NoneDestroyed(gs)
    ensures
      var r := CheckHealth(Reclaimed(gs, c, e), e.healthy);
      |r| == |gs| && forall i :: 0 <= i < |gs| ==> r[i] == Reviewed(gs, gs[i], c, e)
  {
    var r := CheckHealth(Reclaimed(gs, c, e), e.healthy);
    AllExist(gs);
    hide ExistingSize, MarkTimedOut, DestroyTimedOut, CheckHealth, Checked, TornDown, TimedOut, Reviewed;
    forall i | 0 <= i < |gs|
      ensures r[i] == Reviewed(gs, gs[i], c, e)
    {
      assert gs[i] in gs;
      ReviewedOne(gs, gs[i], c, e);
    }
  }

  ghost predicate Stays(gs: seq<Guest>, i: nat, c: Config, e: Env, h: Guest) {
    i < |gs| && !Goes(gs, gs[i], c, e) && h == Kept(gs, gs[i], c, e, false)
  }

  // A guest stays in the list exactly when it is not destroyed.
  lemma SweptMeans(gs: seq<Guest>, c: Config, e: Env, h: Guest)
    requires NoneDestroyed(gs)
    ensures h in Swept(gs, c, e) <==> exists i: nat :: Stays(gs, i, c, e, h)
  {
    var r := CheckHealth(Reclaimed(gs, c, e), e.healthy);
    ReviewedAll(gs, c, e);
    ListedMeans(r);
    hide CheckHealth, Reclaimed, Listed;
    if h in Listed(r) {
      var i :| 0 <= i < |r| && r[i] == h;
      assert Stays(gs, i, c, e, h);
    }
    if i: nat :| Stays(gs, i, c, e, h) {
      assert r[i] == h && gs[i] in gs;
    }
  }

  // A guest that no client has had.
  predicate IsNew(g: Guest) {
    g.state == Some(Created) && g.prevState == None && g.connected == 0 && g.clientIps == [] && g.freedAt == -1.0
  }

  // The guests of `p` and behind them new ones, whose creation numbers are the next ones.
  ghost predicate Appended(p: Pool, q: Pool) {
    && q.created >= p.created && |q.guests| == |p.guests| + (q.created - p.created)
    && q.guests[..|p.guests|] == p.guests && q.anyVmUp == p.anyVmUp
    && forall j :: |p.guests| <= j < |q.guests| ==>
         IsNew(q.guests[j]) && q.guests[j].serial == p.created + (j - |p.guests|)
  }

  lemma AppendedTwice(p: Pool, ip: Ip, q: Pool)
    requires Appended(AddGuest(p, ip), q)
    ensures Appended(p, q) && q.created > p.created
  {
    var one := AddGuest(p, ip);
    assert one.guests[..|p.guests|] == p.guests;
    assert q.guests[..|p.guests|] == q.guests[..|one.guests|][..|p.guests|];
    assert q.guests[|p.guests|] == one.guests[|p.guests|];
  }

  lemma {:induction false} CreatedAppended(p: Pool, k: nat, n: int, boots: nat -> Boot)
    ensures Appended(p, CreateGuests(p, k, n, boots))
    decreases n - k
  {
    if k < n && BootIp(p.guests, boots(k)).Some? {
      var ip := BootIp(p.guests, boots(k)).value;
      hide BootIp, Appended, AddGuest;
      CreatedAppended(AddGuest(p, ip), k + 1, n, boots);
      AppendedTwice(p, ip, CreateGuests(AddGuest(p, ip), k + 1, n, boots));
    }
  }

  // As many as are wanted, unless one fails.
  lemma {:induction false} CreatedMany(p: Pool, k: nat, n: int, boots: nat -> Boot)
    ensures
      var more := CreateGuests(p, k, n, boots).created - p.created;
      if CreationFails(p, k, n, boots) then more < n - k else more == Max(n - k, 0)
    decreases n - k
  {
    if k < n && BootIp(p.guests, boots(k)).Some? {
      hide BootIp;
      CreatedMany(AddGuest(p, BootIp(p.guests, boots(k)).value), k + 1, n, boots);
    }
  }

  ghost predicate NoAddress(gs: seq<Guest>, b: Boot) { BootIp(gs, b) == None }

  /** Creations stop at the first that gets no address, or when there are enough. */
  lemma {:induction false} CreationsStop(p: Pool, k: nat, n: int, boots: nat -> Boot) returns (more: nat)
    ensures CreateGuests(p, k, n, boots).created == p.created + more
    ensures CreationFails(p, k, n, boots) <==> more < n - k
    ensures more < n - k ==> NoAddress(CreateGuests(p, k, n, boots).guests, boots(k + more))
    decreases n - k
  {
    more := 0;
    if k < n && BootIp(p.guests, boots(k)).Some? {
      var one := AddGuest(p, BootIp(p.guests, boots(k)).value);
      assert one.created == p.created + 1;
      hide BootIp, AddGuest, NoAddress;
      var rest := CreationsStop(one, k + 1, n, boots);
      more := rest + 1;
    }
  }

  // The j-th guest behind those of `p` has the address that its creation picked.
  ghost predicate Picked(p: Pool, q: Pool, b: Boot, j: nat) {
    && |q.guests| > |p.guests| + j
    && BootIp(q.guests[..|p.guests| + j], b) == Some(q.guests[|p.guests| + j].ip)
  }

  lemma FirstPicked(p: Pool, ip: Ip, q: Pool, b: Boot)
    requires BootIp(p.guests, b) == Some(ip) && Appended(AddGuest(p, ip), q)
    ensures Picked(p, q, b, 0)
  {
    var one := AddGuest(p, ip);
    hide BootIp;
    assert q.guests[|p.guests|] == q.guests[..|one.guests|][|p.guests|] == one.guests[|p.guests|];
    assert q.guests[..|p.guests|] == q.guests[..|one.guests|][..|p.guests|] == p.guests;
  }

  /** Each new guest has the address that its creation picks, of no guest before it. */
  lemma {:induction false} CreatedAddress(p: Pool, k: nat, n: int, boots: nat -> Boot, j: nat)
    requires j < CreateGuests(p, k, n, boots).created - p.created
    ensures Picked(p, CreateGuests(p, k, n, boots), boots(k + j), j)
    decreases n - k
  {
    hide BootIp, Appended;
    var ip := BootIp(p.guests, boots(k)).value;
    CreatedAppended(AddGuest(p, ip), k + 1, n, boots);
    if j == 0 {
      FirstPicked(p, ip, CreateGuests(p, k, n, boots), boots(k));
    } else {
      CreatedAddress(AddGuest(p, ip), k + 1, n, boots, j - 1);
      assert k + 1 + (j - 1) == k + j;
    }
  }

  /** No address is picked when the domain does not start, or all 500 picks are taken. */
  lemma BootIpMeans(gs: seq<Guest>, b: Boot)
    ensures BootIp(gs, b) == None <==> !b.started || forall k :: 0 <= k < 500 ==> !IpFree(gs, b.picks(k))
    ensures BootIp(gs, b).Some? ==>
      exists k :: 0 <= k < 500 && BootIp(gs, b) == Some(b.picks(k)) && FirstFree(gs, b.picks, 0, k)
  {
    FreeIpMeans(gs, b.picks, 0);
    hide FreeIp, IpFree;
    if b.started && BootIp(gs, b).Some? {
      var k :| 0 <= k < 500 && BootIp(gs, b) == Some(b.picks(k)) && FirstFree(gs, b.picks, 0, k);
      assert IpFree(gs, b.picks(k));
    }
  }

  // ----- the whole loop

  // What becomes of the guest with index i.
  ghost predicate Fate(gs: seq<Guest>, i: nat, after: seq<Guest>, c: Config, e: Env, whole: bool)
    requires i < |gs|
  {
    if Goes(gs, gs[i], c, e) then forall h :: h in after ==> h.serial != gs[i].serial
    else
      && Kept(gs, gs[i], c, e, whole) in after
      && (forall h :: h in after && h.serial == gs[i].serial ==> h == Kept(gs, gs[i], c, e, whole))
  }

  lemma OneStays(gs: seq<Guest>, created: nat, c: Config, e: Env, i: nat, j: nat, h: Guest)
    requires Placed(gs, created) && i < |gs| && h.serial == gs[i].serial && Stays(gs, j, c, e, h)
    ensures i == j
  {
    assert j < i ==> Apart(gs[j], gs[i]);
    assert i < j ==> Apart(gs[i], gs[j]);
  }

  lemma SweptFate(gs: seq<Guest>, created: nat, c: Config, e: Env, i: nat)
    requires NoneDestroyed(gs) && Placed(gs, created) && i < |gs|
    ensures Fate(gs, i, Swept(gs, c, e), c, e, false)
  {
    var g := Kept(gs, gs[i], c, e, false);
    SweptMeans(gs, c, e, g);
    assert !Goes(gs, gs[i], c, e) ==> Stays(gs, i, c, e, g);
    assert g.serial == gs[i].serial;
    hide Swept, NoneDestroyed, Placed, Kept, Goes;
    forall h | h in Swept(gs, c, e) && h.serial == gs[i].serial
      ensures !Goes(gs, gs[i], c, e) && h == g
    {
      SweptMeans(gs, c, e, h);
      var j: nat :| Stays(gs, j, c, e, h);
      OneStays(gs, created, c, e, i, j, h);
    }
  }

  lemma AppendedFate(gs: seq<Guest>, i: nat, p: Pool, q: Pool, c: Config, e: Env)
    requires i < |gs| && gs[i].serial < p.created && Appended(p, q) && Fate(gs, i, p.guests, c, e, false)
    ensures Fate(gs, i, q.guests, c, e, false)
  {
    forall h | h in q.guests && h.serial == gs[i].serial
      ensures h in p.guests
    {
      var j :| 0 <= j < |q.guests| && q.guests[j] == h;
      assert j < |p.guests| ==> q.guests[..|p.guests|][j] == h;
    }
    forall h | h in p.guests
      ensures h in q.guests
    {
      var j :| 0 <= j < |p.guests| && p.guests[j] == h;
      assert q.guests[..|p.guests|][j] == h;
    }
    hide Kept, Goes;
  }

  lemma BootedFate(gs: seq<Guest>, i: nat, before: seq<Guest>, c: Config, e: Env)
    requires i < |gs| && Fate(gs, i, before, c, e, false)
    ensures Fate(gs, i, MarkAvailable(before, e.answers), c, e, true)
  {
    var after := MarkAvailable(before, e.answers);
    var g, h := Kept(gs, gs[i], c, e, false), Kept(gs, gs[i], c, e, true);
    assert Booted(g, e.answers) == h && g.serial == gs[i].serial;
    hide Kept, Goes, MarkAvailable;
    forall x | x in after
      ensures exists y :: y in before && x == Booted(y, e.answers)
    {
      var j :| 0 <= j < |after| && after[j] == x;
      assert before[j] in before;
    }
    if g in before {
      var j :| 0 <= j < |before| && before[j] == g;
      assert after[j] == h;
    }
  }

  /** Over a whole producer loop a guest is given up exactly when its time is over while there
      are other guests, or when it does not answer although it should; it leaves the list
      exactly when it was given up for its time, now or earlier, and could be destroyed; and it
      becomes available exactly when it was created before, answers, and no creation raised. */
  lemma LoopFate(p: Pool, c: Config, e: Env, i: nat)
    requires PoolPlaced(p) && NoneDestroyed(p.guests) && i < |p.guests|
    ensures Fate(p.guests, i, ProducerLoop(p, c, e).guests, c, e, !LoopFails(p, c, e))
  {
    var gs := p.guests;
    var swept := p.(guests := Swept(gs, c, e));
    var n := Demand(swept.guests, c);
    var filled := CreateGuests(swept, 0, n, e.boots);
    assert gs[i] in gs && gs[i].serial < p.created;
    hide Fate, Placed, NoneDestroyed, Swept, CreateGuests, CreationFails, MarkAvailable, Appended;
    SweptFate(gs, p.created, c, e, i);
    CreatedAppended(swept, 0, n, e.boots);
    AppendedFate(gs, i, swept, filled, c, e);
    BootedFate(gs, i, filled.guests, c, e);
  }

  /** The guests with creation numbers from `created` on are new: as many as were missing, or
      fewer when a creation raised; those that answer are available then. */
  lemma LoopCreates(p: Pool, c: Config, e: Env)
    requires PoolPlaced(p) && NoneDestroyed(p.guests)
    ensures
      var q, kept, whole := ProducerLoop(p, c, e), |Swept(p.guests, c, e)|, !LoopFails(p, c, e);
      && |q.guests| == kept + (q.created - p.created) && q.created >= p.created
      && (if whole then |q.guests| == Max(c.maxVm, kept) else |q.guests| < c.maxVm)
      && (forall j :: kept <= j < |q.guests| ==>
            var g := q.guests[j];
            && g.serial == p.created + (j - kept) && g.prevState == None && g.connected == 0 && g.clientIps == []
            && g.state == if whole && e.answers(g.ip) then Some(Available) else Some(Created))
  {
    var swept := p.(guests := Swept(p.guests, c, e));
    var n := Demand(swept.guests, c);
    SweptStays(p.guests, c, e);
    AllExist(swept.guests);
    CreatedAppended(swept, 0, n, e.boots);
    CreatedMany(swept, 0, n, e.boots);
    hide Swept, CreateGuests, CreationFails, ExistingSize, Placed, NoneDestroyed;
  }

  lemma SweptStays(gs: seq<Guest>, c: Config, e: Env)
    ensures NoneDestroyed(Swept(gs, c, e))
  {
    ListedMeans(CheckHealth(Reclaimed(gs, c, e), e.healthy));
  }

  // The guest of that creation number was in that state.
  ghost predicate Was(gs: seq<Guest>, serial: nat, state: Phase) {
    exists i :: 0 <= i < |gs| && gs[i].serial == serial && gs[i].state == Some(state)
  }

  // Before the last pass no guest has become available that was not.
  lemma SweptWas(gs: seq<Guest>, created: nat, c: Config, e: Env, h: Guest)
    requires NoneDestroyed(gs) && Placed(gs, created) && h in Swept(gs, c, e)
    ensures h.state == Some(Available) ==> Was(gs, h.serial, Available)
    ensures h.state == Some(Created) ==> !Was(gs, h.serial, Available)
  {
    SweptMeans(gs, c, e, h);
    var j: nat :| Stays(gs, j, c, e, h);
    hide Swept, Placed, NoneDestroyed;
    if h.state == Some(Created) && Was(gs, h.serial, Available) {
      var i :| 0 <= i < |gs| && gs[i].serial == h.serial && gs[i].state == Some(Available);
      OneStays(gs, created, c, e, i, j, h);
    }
  }

  lemma FilledWas(gs: seq<Guest>, p: Pool, q: Pool, c: Config, e: Env, h: Guest)
    requires NoneDestroyed(gs) && Placed(gs, p.created) && p.guests == Swept(gs, c, e) && Appended(p, q)
    requires h in q.guests
    ensures h.state == Some(Available) ==> Was(gs, h.serial, Available)
    ensures h.state == Some(Created) ==> !Was(gs, h.serial, Available)
  {
    var j :| 0 <= j < |q.guests| && q.guests[j] == h;
    if j < |p.guests| {
      assert q.guests[..|p.guests|][j] == h;
      SweptWas(gs, p.created, c, e, h);
    } else {
      forall i | 0 <= i < |gs|
        ensures gs[i].serial != h.serial
      {
        assert gs[i] in gs;
      }
    }
  }

  lemma BootedOne(gs: seq<Guest>, answers: Ip -> bool, h: Guest) returns (g: Guest)
    requires h in MarkAvailable(gs, answers)
    ensures g in gs && h == Booted(g, answers)
  {
    var j :| 0 <= j < |gs| && MarkAvailable(gs, answers)[j] == h;
    g := gs[j];
  }

  lemma BootedIn(gs: seq<Guest>, answers: Ip -> bool, g: Guest)
    requires g in gs
    ensures Booted(g, answers) in MarkAvailable(gs, answers)
  {
    var j :| 0 <= j < |gs| && gs[j] == g;
    assert MarkAvailable(gs, answers)[j] == Booted(g, answers);
  }

  /** A pool counts as having been up exactly when it did before, or a guest has become
      available in this loop. */
  lemma LoopNotesUp(p: Pool, c: Config, e: Env)
    requires PoolPlaced(p) && NoneDestroyed(p.guests)
    ensures
      var q := ProducerLoop(p, c, e);
      q.anyVmUp <==>
        (p.anyVmUp ||
         exists h :: h in q.guests && h.state == Some(Available) && !Was(p.guests, h.serial, Available))
  {
    var swept := p.(guests := Swept(p.guests, c, e));
    var n := Demand(swept.guests, c);
    var filled := CreateGuests(swept, 0, n, e.boots);
    var q := ProducerLoop(p, c, e);
    CreatedAppended(swept, 0, n, e.boots);
    assert filled.anyVmUp == p.anyVmUp && Placed(p.guests, p.created);
    hide Swept, CreateGuests, CreationFails, MarkAvailable, Placed, NoneDestroyed, Appended, Was;
    forall h | h in q.guests && h.state == Some(Available) && !Was(p.guests, h.serial, Available)
      ensures !LoopFails(p, c, e) && exists g :: g in filled.guests && g.state == Some(Created) && e.answers(g.ip)
    {
      if LoopFails(p, c, e) {
        FilledWas(p.guests, swept, filled, c, e, h);
      } else {
        var g := BootedOne(filled.guests, e.answers, h);
        FilledWas(p.guests, swept, filled, c, e, g);
      }
    }
    forall g | g in filled.guests && g.state == Some(Created) && e.answers(g.ip) && !LoopFails(p, c, e)
      ensures exists h :: h in q.guests && h.state == Some(Available) && !Was(p.guests, h.serial, Available)
    {
      BootedIn(filled.guests, e.answers, g);
      FilledWas(p.guests, swept, filled, c, e, g);
    }
  }

  // No loop leaves a destroyed guest in the list.
  lemma LoopNoneDestroyed(p: Pool, c: Config, e: Env)
    ensures NoneDestroyed(ProducerLoop(p, c, e).guests)
  {
    var swept := p.(guests := Swept(p.guests, c, e));
    var n := Demand(swept.guests, c);
    var filled := CreateGuests(swept, 0, n, e.boots);
    SweptStays(p.guests, c, e);
    CreatedAppended(swept, 0, n, e.boots);
    hide Swept, CreateGuests, CreationFails, MarkAvailable;
    forall g | g in filled.guests
      ensures g.state != Some(Destroyed)
    {
      var j :| 0 <= j < |filled.guests| && filled.guests[j] == g;
      assert j < |swept.guests| ==> filled.guests[..|swept.guests|][j] == g && g in swept.guests;
    }
    forall h | h in MarkAvailable(filled.guests, e.answers)
      ensures h.state != Some(Destroyed)
    {
      var g := BootedOne(filled.guests, e.answers, h);
    }
  }
}
