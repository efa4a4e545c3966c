/** Whole runs of the pool server: what holds whatever the clients do, and what holds when
    each gives its grants back once and no id is handed out twice (src/backend_pool). */
module PoolRuns {
  import opened Common
  import opened GuestPool
  import opened PoolSystem
  import PoolLoop

  function Initial(config: Config): System {
    System(EMPTY, config, map[], false, true, multiset{})
  }

  // The state after a list of actions of any kind.
  function RunOf(config: Config, actions: seq<Action>, natOn: bool): System {
    if actions == [] then Initial(config)
    else Next(RunOf(config, actions[..|actions| - 1], natOn), actions[|actions| - 1], natOn)
  }

  // ----- every run

  /** In every state of every run, also after double frees, with ids handed out again, and
      after a stop: ids are creation numbers modulo 252, and addresses are distinct. */
  lemma {:induction false} EveryRunPlaced(config: Config, actions: seq<Action>, natOn: bool)
    ensures PoolPlaced(RunOf(config, actions, natOn).pool)
  {
    if actions != [] {
      var front := actions[..|actions| - 1];
      EveryRunPlaced(config, front, natOn);
      NextPlaced(RunOf(config, front, natOn), actions[|actions| - 1], natOn);
      hide PoolPlaced, Next;
    }
  }

  /** In every such state every guest has a state, and one to go back to while it has a client. */
  lemma {:induction false} EveryRunHasStates(config: Config, actions: seq<Action>, natOn: bool)
    ensures StatesKept(RunOf(config, actions, natOn).pool.guests)
  {
    if actions != [] {
      var front := actions[..|actions| - 1];
      EveryRunHasStates(config, front, natOn);
      NextStatesKept(RunOf(config, front, natOn), actions[|actions| - 1], natOn);
      hide StatesKept, Next;
    }
  }

  lemma UpdateNotDestroyed(gs: seq<Guest>, i: nat, g: Guest)
    requires NoneDestroyed(gs) && i < |gs| && g.state != Some(Destroyed)
    ensures NoneDestroyed(gs[i := g])
  {
  }

  lemma ConsumersDestroyNone(gs: seq<Guest>, c: Config, src: string, id: Id, now: real)
    requires StatesKept(gs) && NoneDestroyed(gs)
    ensures Chosen(gs, src, c.shareGuests) < |gs| ==>
      var i := Chosen(gs, src, c.shareGuests);
      NoneDestroyed(gs[i := Taken(gs[i], src)])
    ensures NoneDestroyed(FreeVm(gs, id, now)) && NoneDestroyed(ReuseVm(gs, id))
  {
    var i, j := Chosen(gs, src, c.shareGuests), IndexOfId(gs, id, 0);
    assert j < |gs| ==> gs[j] in gs && HasStates(gs[j]) && gs[j].state != Some(Destroyed);
    hide StatesKept, NoneDestroyed, Chosen, IndexOfId;
    if i < |gs| {
      UpdateNotDestroyed(gs, i, Taken(gs[i], src));
    }
    if j < |gs| {
      UpdateNotDestroyed(gs, j, Freed(gs[j], now));
      UpdateNotDestroyed(gs, j, Reused(gs[j]));
    }
  }

  lemma NextNoneDestroyed(s: System, a: Action, natOn: bool)
    requires StatesKept(s.pool.guests) && NoneDestroyed(s.pool.guests)
    ensures NoneDestroyed(Next(s, a, natOn).pool.guests)
  {
    hide StatesKept, NoneDestroyed, ProducerLoop, LoopFails, Chosen, FreeVm, ReuseVm, RequestBinding, FreeBinding,
      CloseListener;
    match a
    case Produce(e) => PoolLoop.LoopNoneDestroyed(s.pool, s.config, e);
    case Request(src, _, _) => ConsumersDestroyNone(s.pool.guests, s.config, src, 0, 0.0);
    case Free(id, now) => ConsumersDestroyNone(s.pool.guests, s.config, "", id, now);
    case Reuse(id) => ConsumersDestroyNone(s.pool.guests, s.config, "", id, 0.0);
    case _ =>
  }

  lemma {:induction false} EveryRunNoneDestroyed(config: Config, actions: seq<Action>, natOn: bool)
    ensures NoneDestroyed(RunOf(config, actions, natOn).pool.guests)
  {
    if actions != [] {
      var front := actions[..|actions| - 1];
      EveryRunNoneDestroyed(config, front, natOn);
      EveryRunHasStates(config, front, natOn);
      NextNoneDestroyed(RunOf(config, front, natOn), actions[|actions| - 1], natOn);
      hide StatesKept, NoneDestroyed, Next;
    }
  }

  /** In every run a producer loop decides the fate of each guest listed as `PoolLoop.Fate`
      says: which are given up, destroyed or made available, and that no other changes. */
  lemma LoopFateInRuns(config: Config, actions: seq<Action>, e: Env, natOn: bool, i: nat)
    requires RunOf(config, actions, natOn).looping && i < |RunOf(config, actions, natOn).pool.guests|
    ensures
      var s, t := RunOf(config, actions, natOn), RunOf(config, actions + [Produce(e)], natOn);
      PoolLoop.Fate(s.pool.guests, i, t.pool.guests, s.config, e, t.looping)
  {
    EveryRunPlaced(config, actions, natOn);
    EveryRunNoneDestroyed(config, actions, natOn);
    RunOne(config, actions, Produce(e), natOn);
    hide RunOf, PoolLoop.Fate, ProducerLoop, LoopFails, PoolPlaced, NoneDestroyed;
    var s := RunOf(config, actions, natOn);
    PoolLoop.LoopFate(s.pool, s.config, e, i);
  }

  /** In every run a guest that was given up is served again exactly when its last client
      gives it back. */
  lemma GivenUpReturnsInRunsIff(config: Config, actions: seq<Action>, a: Action, natOn: bool, i: nat)
    requires i < |RunOf(config, actions, natOn).pool.guests|
    requires RunOf(config, actions, natOn).pool.guests[i].state == Some(Unavailable)
    ensures
      var s := RunOf(config, actions, natOn);
      WentBack(RunOf(config, actions + [a], natOn).pool.guests, s.pool.guests[i]) <==> GivesLastBack(s, a, natOn, i)
  {
    EveryRunPlaced(config, actions, natOn);
    EveryRunHasStates(config, actions, natOn);
    RunOne(config, actions, a, natOn);
    hide RunOf, WentBack, GivesLastBack, PoolPlaced, StatesKept, Next;
    GivenUpReturnsIff(RunOf(config, actions, natOn), a, natOn, i);
  }

  lemma RunOne(config: Config, actions: seq<Action>, a: Action, natOn: bool)
    ensures RunOf(config, actions + [a], natOn) == Next(RunOf(config, actions, natOn), a, natOn)
  {
    assert (actions + [a])[..|actions + [a]| - 1] == actions;
  }

  /** Once a creation has failed, or the pool was stopped, no run creates a guest, takes one out
      of the list or stops the pool (again). */
  lemma {:induction false} EndedForGood(config: Config, actions: seq<Action>, more: seq<Action>, natOn: bool)
    requires !RunOf(config, actions, natOn).looping
    ensures
      var s, t := RunOf(config, actions, natOn), RunOf(config, actions + more, natOn);
      && !t.looping && t.stopped == s.stopped
      && t.pool.created == s.pool.created && SameIdentities(s.pool.guests, t.pool.guests)
  {
    if more == [] {
      assert actions + more == actions;
      hide RunOf;
    } else {
      var front, a := more[..|more| - 1], more[|more| - 1];
      EndedForGood(config, actions, front, natOn);
      assert actions + more == (actions + front) + [a];
      RunOne(config, actions + front, a, natOn);
      hide RunOf;
      NextAfterEnd(RunOf(config, actions + front, natOn), a, natOn);
    }
  }

  lemma NextAfterEnd(s: System, a: Action, natOn: bool)
    requires !s.looping
    ensures
      var t := Next(s, a, natOn);
      && !t.looping && t.stopped == s.stopped
      && t.pool.created == s.pool.created && SameIdentities(s.pool.guests, t.pool.guests)
  {
    var gs := s.pool.guests;
    assert SameIdentities(gs, gs);
    hide Chosen, IndexOfId, RequestBinding, FreeBinding, SameIdentities, ProducerLoop, LoopFails;
    match a
    case Request(src, _, _) =>
      var i := Chosen(gs, src, s.config.shareGuests);
      if i < |gs| {
        OneChanged(gs, i, Taken(gs[i], src));
      }
    case Free(id, now) =>
      var i := IndexOfId(gs, id, 0);
      if i < |gs| {
        OneChanged(gs, i, Freed(gs[i], now));
      }
    case Reuse(id) =>
      var i := IndexOfId(gs, id, 0);
      if i < |gs| {
        OneChanged(gs, i, Reused(gs[i]));
      }
    case _ =>
  }

  lemma OneChanged(gs: seq<Guest>, i: nat, g: Guest)
    requires i < |gs| && SameIdentity(gs[i], g)
    ensures SameIdentities(gs, gs[i := g])
  {
  }

  // ----- a guest given up, and what its client can do

  const SMALL := Config(1, 600.0, true)

  // The guest boots and answers.
  const UP := Produce(Env(0.0, _ => true, _ => true, _ => Boot(_ => 2, true), _ => true))
  // It does not answer any more, and is not destroyed.
  const DOWN := Produce(Env(0.0, _ => false, _ => false, _ => Boot(_ => 2, false), _ => false))

  function Only(state: Phase, prevState: Option<Phase>, clients: seq<string>): Guest {
    Guest(0, 2, Some(state), prevState, |clients|, clients, -1.0, 0)
  }

  lemma UpLoop()
    ensures ProducerLoop(EMPTY, SMALL, UP.env) == Pool([Only(Available, None, [])], 1, true, 1)
    ensures !LoopFails(EMPTY, SMALL, UP.env)
  {
    assert Swept([], SMALL, UP.env) == [];
    var one := AddGuest(EMPTY, 2);
    assert BootIp([], UP.env.boots(0)) == Some(2);
    assert CreateGuests(EMPTY, 0, 1, UP.env.boots) == CreateGuests(one, 1, 1, UP.env.boots) == one;
    assert !CreationFails(EMPTY, 0, 1, UP.env.boots);
    assert one.guests == [Only(Created, None, [])] && one.guests[0] in one.guests;
  }

  lemma DownLoop(src: string)
    ensures ProducerLoop(Pool([Only(Using, Some(Available), [src])], 1, true, 1), SMALL, DOWN.env)
         == Pool([Only(Unavailable, Some(Available), [src])], 1, true, 1)
    ensures !LoopFails(Pool([Only(Using, Some(Available), [src])], 1, true, 1), SMALL, DOWN.env)
  {
    var before, after := [Only(Using, Some(Available), [src])], [Only(Unavailable, Some(Available), [src])];
    assert Reclaimed(before, SMALL, DOWN.env) == before && CheckHealth(before, DOWN.env.healthy) == after;
    assert Listed(after) == after && ExistingSize(after) == 1;
    assert MarkAvailable(after, DOWN.env.answers) == after;
  }

  function Holding(g: Guest, outstanding: multiset<Id>): System {
    System(Pool([g], 1, true, 1), SMALL, map[], false, true, outstanding)
  }

  // The guest is requested, and given back.
  lemma OnlyGuest(g: Guest, src: string, now: real, outstanding: multiset<Id>)
    requires g.id == 0
    ensures g.state == Some(Available) ==>
      Next(Holding(g, outstanding), Request(src, 0, 0), false) == Holding(Taken(g, src), outstanding + multiset{0})
    ensures Next(Holding(g, outstanding), Reuse(0), false) == Holding(Reused(g), outstanding - multiset{0})
    ensures Next(Holding(g, outstanding), Free(0, now), false) == Holding(Freed(g, now), outstanding - multiset{0})
  {
  }

  const GIVEN_UP := multiset{} + multiset{0 as Id}

  lemma Loops(src: string)
    ensures Next(Initial(SMALL), UP, false) == Holding(Only(Available, None, []), multiset{})
    ensures Next(Holding(Only(Using, Some(Available), [src]), GIVEN_UP), DOWN, false)
         == Holding(Only(Unavailable, Some(Available), [src]), GIVEN_UP)
  {
    UpLoop();
    DownLoop(src);
    hide ProducerLoop, LoopFails;
  }

  lemma GivenUp(src: string)
    ensures
      RunOf(SMALL, [UP, Request(src, 0, 0), DOWN], false)
      == Holding(Only(Unavailable, Some(Available), [src]), GIVEN_UP)
  {
    var up, run := [UP], [UP, Request(src, 0, 0)];
    assert [] + [UP] == up && up + [Request(src, 0, 0)] == run && run + [DOWN] == [UP, Request(src, 0, 0), DOWN];
    assert RunOf(SMALL, [], false) == Initial(SMALL);
    assert Taken(Only(Available, None, []), src) == Only(Using, Some(Available), [src]) by {
      assert [] + [src] == [src];
    }
    hide *;
    RunOne(SMALL, [], UP, false);
    RunOne(SMALL, up, Request(src, 0, 0), false);
    RunOne(SMALL, run, DOWN, false);
    Loops(src);
    OnlyAvailable(src);
  }

  lemma OnlyAvailable(src: string)
    ensures
      Next(Holding(Only(Available, None, []), multiset{}), Request(src, 0, 0), false)
      == Holding(Taken(Only(Available, None, []), src), GIVEN_UP)
  {
    OnlyGuest(Only(Available, None, []), src, 0.0, multiset{});
    hide Next;
  }

  /** A guest without an answer is given up under its client: a free makes it used, and a
      reuse available, so that the next request of anybody is given it. */
  lemma GivenUpIsServedAgain(src: string, now: real)
    ensures
      var run, g := [UP, Request(src, 0, 0), DOWN], Only(Unavailable, Some(Available), [src]);
      && RunOf(SMALL, run, false).pool.guests == [g]
      && RunOf(SMALL, run + [Reuse(0)], false).pool.guests == [Only(Available, None, [src]).(connected := 0)]
      && RunOf(SMALL, run + [Free(0, now)], false).pool.guests
      == [g.(state := Some(Used), connected := 0, freedAt := now)]
  {
    var run := [UP, Request(src, 0, 0), DOWN];
    GivenUp(src);
    RunOne(SMALL, run, Reuse(0), false);
    RunOne(SMALL, run, Free(0, now), false);
    hide RunOf, Next;
    OnlyGuest(Only(Unavailable, Some(Available), [src]), src, now, GIVEN_UP);
  }

  // The first n addresses of the network table.
  ghost function TableIps(n: nat): (r: set<int>)
    ensures |r| == n && forall x :: x in r <==> 2 <= x < 2 + n
  {
    if n == 0 then {}
    else
      var rest := TableIps(n - 1);
      assert n + 1 !in rest;
      rest + {n + 1}
  }

  lemma {:induction false} DistinctFit(gs: seq<Guest>, room: set<int>)
    requires forall i, j :: 0 <= i < j < |gs| ==> gs[i].ip != gs[j].ip
    requires forall i :: 0 <= i < |gs| ==> gs[i].ip in room
    ensures |gs| <= |room|
  {
    if gs != [] {
      DistinctFit(gs[1..], room - {gs[0].ip as int});
    }
  }

  /** In every state of every run the guests have pairwise different addresses of the
      network table, so there are at most 253 of them. */
  lemma AtMost253(config: Config, actions: seq<Action>, natOn: bool)
    ensures
      var gs := RunOf(config, actions, natOn).pool.guests;
      && (forall i, j :: 0 <= i < j < |gs| ==> gs[i].ip != gs[j].ip)
      && |gs| <= 253
  {
    EveryRunPlaced(config, actions, natOn);
    var gs := RunOf(config, actions, natOn).pool.guests;
    hide RunOf;
    assert forall i, j :: 0 <= i < j < |gs| ==> Apart(gs[i], gs[j]);
    DistinctFit(gs, TableIps(253));
  }

  /** In every state of every run two guests share an id exactly when their creation
      numbers are congruent modulo 252, so never when fewer than 252 creations lie between. */
  lemma IdsDistinctWithin252(config: Config, actions: seq<Action>, natOn: bool, g: Guest, h: Guest)
    requires g in RunOf(config, actions, natOn).pool.guests && h in RunOf(config, actions, natOn).pool.guests
    ensures g.id == h.id <==> g.serial % ID_LIMIT == h.serial % ID_LIMIT
    ensures g.serial < h.serial < g.serial + ID_LIMIT ==> g.id != h.id
    ensures g != h ==> g.serial != h.serial
  {
    EveryRunPlaced(config, actions, natOn);
    hide RunOf, Apart;
    SerialOfOne(RunOf(config, actions, natOn).pool.guests, RunOf(config, actions, natOn).pool.created, g);
  }

  lemma SerialOfOne(gs: seq<Guest>, created: nat, g: Guest)
    requires Placed(gs, created) && g in gs
    ensures forall h :: h in gs && h != g ==> h.serial != g.serial
  {
    var i :| 0 <= i < |gs| && gs[i] == g;
    forall j | 0 <= j < |gs| && gs[j] != g
      ensures gs[j].serial != g.serial
    {
      if i < j {
        assert Apart(gs[i], gs[j]);
      } else {
        assert Apart(gs[j], gs[i]);
      }
    }
  }

  // ----- disciplined runs

  // Up to a stop, every free and every reuse names a grant that is outstanding.
  predicate ClientsKeep(config: Config, actions: seq<Action>, natOn: bool) {
    actions == [] ||
    (var s := RunOf(config, actions[..|actions| - 1], natOn);
     ClientsKeep(config, actions[..|actions| - 1], natOn) && !s.stopped && ClientKept(s, actions[|actions| - 1]))
  }

  // No producer loop hands out an id that is in use.
  ghost predicate IdsKeep(config: Config, actions: seq<Action>, natOn: bool) {
    actions == [] ||
    (var s := RunOf(config, actions[..|actions| - 1], natOn);
     IdsKeep(config, actions[..|actions| - 1], natOn) && IdsKept(s, actions[|actions| - 1]))
  }

  // No request meets a binding of which a listener has closed.
  predicate ListenersKeep(config: Config, actions: seq<Action>) {
    actions == [] ||
    (var front, a := actions[..|actions| - 1], actions[|actions| - 1];
     ListenersKeep(config, front) && ListenersKept(RunOf(config, front, true), a))
  }

  lemma {:induction false} RunSound(config: Config, actions: seq<Action>, natOn: bool)
    requires ClientsKeep(config, actions, natOn) && IdsKeep(config, actions, natOn)
    ensures RunOf(config, actions, natOn).stopped || Sound(RunOf(config, actions, natOn))
  {
    if actions != [] {
      var front := actions[..|actions| - 1];
      RunSound(config, front, natOn);
      EveryRunPlaced(config, front, natOn);
      NextSound(RunOf(config, front, natOn), actions[|actions| - 1], natOn);
      hide Sound, Next, PoolPlaced, ClientKept, IdsKept;
    }
  }

  /** In every run with NAT on, also after double frees and with ids handed out again: up to a
      stop, bindings count the outstanding grants of their ids exactly when no request has met
      a binding of which a listener had closed. */
  lemma {:induction false} BindingsAgreeIff(config: Config, actions: seq<Action>)
    requires !RunOf(config, actions, true).stopped
    ensures
      var s := RunOf(config, actions, true);
      NatBounded(s.bindings, s.outstanding) &&
      (NatSound(s.bindings, s.outstanding) <==> ListenersKeep(config, actions))
  {
    if actions != [] {
      var front, a := actions[..|actions| - 1], actions[|actions| - 1];
      StopIsLast(RunOf(config, front, true), a, true);
      BindingsAgreeIff(config, front);
      hide Next, NatSound, NatBounded, ListenersKept;
      NextBindingsAgreeIff(RunOf(config, front, true), a);
    }
  }

  lemma StopIsLast(s: System, a: Action, natOn: bool)
    ensures s.stopped ==> Next(s, a, natOn).stopped
  {
    hide Chosen, ProducerLoop, LoopFails, RequestBinding, FreeBinding;
  }

  // Without NAT there are no bindings.
  lemma {:induction false} NoBindings(config: Config, actions: seq<Action>)
    ensures RunOf(config, actions, false).bindings == map[]
  {
    if actions != [] {
      var front := actions[..|actions| - 1];
      NoBindings(config, front);
      NoNatNoBindings(RunOf(config, front, false), actions[|actions| - 1]);
      hide Next;
    }
  }

  /** In every state of a disciplined run before a stop, with NAT on and as long as no request
      has met a closed listener: an id has a binding exactly when it has grants outstanding, the
      binding counts them, and so does every guest listed under that id, even after unhealthy
      guests were removed. */
  lemma CountsAgree(config: Config, actions: seq<Action>, id: Id)
    requires ClientsKeep(config, actions, true) && IdsKeep(config, actions, true)
    requires ListenersKeep(config, actions) && !RunOf(config, actions, true).stopped
    ensures
      var s := RunOf(config, actions, true);
      && (id in s.bindings <==> s.outstanding[id] > 0)
      && (id in s.bindings ==> s.bindings[id].count == s.outstanding[id])
      && (forall g :: g in s.pool.guests && g.id == id ==> g.connected == s.outstanding[id])
  {
    RunSound(config, actions, true);
    BindingsAgreeIff(config, actions);
    hide RunOf, ListenersKeep;
    var s := RunOf(config, actions, true);
    assert s.outstanding[id] == CountOf(s.bindings, id);
  }

  /** In every such state, NAT or not: a guest with a client is in use or given up and can
      go back to an earlier state, no guest is without a state, no two share an id, and the
      timeout pass marks no guest that has a client. */
  lemma ClientsAreKept(config: Config, actions: seq<Action>, natOn: bool, g: Guest, now: real)
    requires ClientsKeep(config, actions, natOn) && IdsKeep(config, actions, natOn)
    requires !RunOf(config, actions, natOn).stopped && g in RunOf(config, actions, natOn).pool.guests
    ensures
      var s := RunOf(config, actions, natOn);
      && g.state.Some? && g.connected == s.outstanding[g.id]
      && (g.connected > 0 ==> g.state.value in {Using, Unavailable} && g.prevState.Some?)
      && (forall h :: h in s.pool.guests && h != g ==> h.id != g.id)
      && (TimedOut(g, s.config.unusedTimeout, now) != g ==> g.connected == 0)
  {
    RunSound(config, actions, natOn);
    hide RunOf;
    IdOfOne(RunOf(config, actions, natOn).pool.guests, g);
    hide DistinctIds;
  }

  lemma IdOfOne(gs: seq<Guest>, g: Guest)
    requires DistinctIds(gs) && g in gs
    ensures forall h :: h in gs && h != g ==> h.id != g.id
  {
    var i :| 0 <= i < |gs| && gs[i] == g;
    forall j | 0 <= j < |gs| && gs[j] != g
      ensures gs[j].id != g.id
    {
      if i < j {
        assert gs[i].id != gs[j].id;
      }
    }
  }

  // ----- when ids are fresh of themselves

  lemma NextUnused(p: Pool, outstanding: multiset<Id>)
    requires PoolPlaced(p) && GrantedBefore(outstanding, p.created) && p.created < ID_LIMIT
    ensures Unused(p.nextId, p.guests, outstanding)
  {
  }

  // While no more than 252 guests have been created in all, no id is handed out twice.
  lemma {:induction false} FreshWithin252(p: Pool, outstanding: multiset<Id>, k: nat, n: int, boots: nat -> Boot)
    requires PoolPlaced(p) && GrantedBefore(outstanding, p.created)
    requires CreateGuests(p, k, n, boots).created <= ID_LIMIT
    ensures FreshIds(p, outstanding, k, n, boots)
    decreases n - k
  {
    hide PoolPlaced, Unused, IpFree, BootIp, GrantedBefore;
    if k < n && BootIp(p.guests, boots(k)).Some? {
      var ip := BootIp(p.guests, boots(k)).value;
      CreatedGrows(AddGuest(p, ip), k + 1, n, boots);
      NextUnused(p, outstanding);
      AddPlaced(p, ip);
      GrantsStayBefore(outstanding, p.created, p.created + 1);
      FreshWithin252(AddGuest(p, ip), outstanding, k + 1, n, boots);
    }
  }

  lemma {:induction false} CreatedGrows(p: Pool, k: nat, n: int, boots: nat -> Boot)
    ensures CreateGuests(p, k, n, boots).created >= p.created
    decreases n - k
  {
    if k < n && BootIp(p.guests, boots(k)).Some? {
      hide BootIp;
      CreatedGrows(AddGuest(p, BootIp(p.guests, boots(k)).value), k + 1, n, boots);
    }
  }

  lemma {:induction false} IdsKeepUpTo252(config: Config, actions: seq<Action>, natOn: bool)
    requires ClientsKeep(config, actions, natOn) && RunOf(config, actions, natOn).pool.created <= ID_LIMIT
    ensures IdsKeep(config, actions, natOn)
  {
    if actions != [] {
      var front, a := actions[..|actions| - 1], actions[|actions| - 1];
      var s := RunOf(config, front, natOn);
      EveryRunPlaced(config, front, natOn);
      NextPlaced(s, a, natOn);
      hide Next, PoolPlaced, IdsKept, ClientKept, Sound;
      IdsKeepUpTo252(config, front, natOn);
      RunSound(config, front, natOn);
      StepKeepsIds(s, a, natOn);
    }
  }

  lemma StepKeepsIds(s: System, a: Action, natOn: bool)
    requires Sound(s) && PoolPlaced(s.pool) && Next(s, a, natOn).pool.created <= ID_LIMIT
    ensures IdsKept(s, a)
  {
    if a.Produce? && s.looping {
      var swept := s.pool.(guests := Swept(s.pool.guests, s.config, a.env));
      SweptPlaced(s.pool.guests, s.config, a.env, s.pool.created);
      hide Swept, Placed, CreateGuests, CreationFails, FreshIds, ListSound, MarkAvailable;
      FreshWithin252(swept, s.outstanding, 0, Demand(swept.guests, s.config), a.env.boots);
    }
  }

  // ----- and when not: 253 guests at once

  // A start-up in which every guest boots, each with the next address of the table.
  function Boots(): nat -> Boot {
    (k: nat) => Boot(_ => (if k < 253 then k + 2 else 254) as Ip, true)
  }

  const STARTUP := Produce(Env(0.0, _ => true, _ => true, Boots(), _ => true))

  const LARGE := Config(253, 600.0, true)

  function Booted(i: nat): Guest
    requires i < 253
  {
    Guest(i % ID_LIMIT, i + 2, Some(Created), None, 0, [], -1.0, i)
  }

  // The pool after k creations.
  function Filled(k: nat): Pool
    requires k <= 253
  {
    Pool(seq(k, i requires 0 <= i < k => Booted(i)), k % ID_LIMIT, false, k)
  }

  lemma FillOne(k: nat)
    requires k < 253
    ensures BootIp(Filled(k).guests, Boots()(k)) == Some(k + 2)
    ensures AddGuest(Filled(k), k + 2) == Filled(k + 1)
  {
    assert IpFree(Filled(k).guests, k + 2);
    assert AddGuest(Filled(k), k + 2).guests == Filled(k + 1).guests;
  }

  lemma {:induction false} FillFrom(k: nat)
    requires k <= 253
    ensures CreateGuests(Filled(k), k, 253, Boots()) == Filled(253)
    ensures k <= 252 ==> !FreshIds(Filled(k), multiset{}, k, 253, Boots())
    decreases 253 - k
  {
    if k < 253 {
      FillOne(k);
      if k == 252 {
        assert Filled(k).guests[0] in Filled(k).guests && Filled(k).guests[0].id == Filled(k).nextId;
      }
      hide BootIp, AddGuest, Filled, Boots;
      FillFrom(k + 1);
    }
  }

  lemma StartUpReusesId()
    ensures ClientsKeep(LARGE, [STARTUP], false) && !IdsKeep(LARGE, [STARTUP], false)
    ensures RunOf(LARGE, [STARTUP], false).pool.created == 253
  {
    assert [STARTUP][..0] == [];
    assert RunOf(LARGE, [], false) == Initial(LARGE) && ClientsKeep(LARGE, [], false);
    assert RunOf(LARGE, [STARTUP], false) == Next(Initial(LARGE), STARTUP, false);
    FirstLoop();
    hide IdsKept, RunOf, ProducerLoop, LoopFails;
  }

  lemma FirstLoop()
    ensures !IdsKept(Initial(LARGE), STARTUP)
    ensures ProducerLoop(EMPTY, LARGE, STARTUP.env).created == 253
  {
    assert Swept([], LARGE, STARTUP.env) == [] && EMPTY.(guests := []) == Filled(0);
    FillFrom(0);
    hide Swept, FreshIds, Filled, CreateGuests, CreationFails, Boots, MarkAvailable;
  }

  /** A bound on the number of creations makes ids fresh of themselves, in every run in which
      clients give each grant back once, exactly when it is at most 252. */
  lemma FreshOfThemselvesIff(bound: nat)
    ensures (forall config, actions, natOn ::
               ClientsKeep(config, actions, natOn) && RunOf(config, actions, natOn).pool.created <= bound
               ==> IdsKeep(config, actions, natOn))
       <==> bound <= ID_LIMIT
  {
    if bound <= ID_LIMIT {
      forall config, actions, natOn |
        ClientsKeep(config, actions, natOn) && RunOf(config, actions, natOn).pool.created <= bound
        ensures IdsKeep(config, actions, natOn)
      {
        IdsKeepUpTo252(config, actions, natOn);
      }
    } else {
      StartUpReusesId();
    }
  }
}
