/** The pool server: what each message and each producer loop does to the pool service
    and the NAT service together (src/backend_pool/pool_server.py). */
module PoolServer {
  import opened Common
  import opened GuestPool
  import opened PoolSystem
  import opened PoolRuns
  import opened PoolWire
  import PoolService
  import NatService

  // What a message meets outside the server: the clock, the ports the system picks for
  // new listeners and the snapshot path of the guest granted.
  datatype Outside = Outside(now: real, ssh: u16, telnet: u16, snapshot: seq<byte>)

  // The server's configuration file, and the UTF-8 codec: None for bytes it does not decode.
  // Without `use_nat` there is no public address, although `pool_only` turns NAT on.
  datatype Setup = Setup(
    natOn: bool, publicIp: Option<seq<byte>>, guestSsh: u16, guestTelnet: u16,
    decode: seq<byte> -> Option<string>)

  function Digits(n: nat): seq<byte>
    requires n < 256
    ensures |Digits(n)| == if n < 10 then 1 else if n < 100 then 2 else 3
  {
    if n < 10 then [48 + n] else Digits(n / 10) + [48 + n % 10]
  }

  // "192.168.150." and the host part.
  function AddressText(ip: Ip): (s: seq<byte>)
    ensures |s| <= 15
  {
    [49, 57, 50, 46, 49, 54, 56, 46, 49, 53, 48, 46] + Digits(ip)
  }

  function DecimalValue(digits: seq<byte>): int {
    if digits == [] then 0 else 10 * DecimalValue(digits[..|digits| - 1]) + (digits[|digits| - 1] as int - 48)
  }

  lemma {:induction false} DigitsRead(n: nat)
    requires n < 256
    ensures DecimalValue(Digits(n)) == n && (n > 0 ==> Digits(n)[0] != 48)
    ensures forall d :: d in Digits(n) ==> 48 <= d <= 57
    decreases n
  {
    if n < 10 {
      assert [48 + n][..0] == [];
    } else {
      DigitsRead(n / 10);
      assert Digits(n)[..|Digits(n)| - 1] == Digits(n / 10);
    }
  }

  // The dotted address of a guest, with the host part in decimal.
  lemma AddressReads(ip: Ip)
    ensures
      var s := AddressText(ip);
      && |s| > 12 && Text(s[..12]) == "192.168.150." && DecimalValue(s[12..]) == ip && s[12] != 48
      && forall d :: d in s[12..] ==> 48 <= d <= 57
  {
    DigitsRead(ip);
    assert AddressText(ip)[12..] == Digits(ip);
  }

  // The action that a message asks for; None for one that is ignored or does not decode.
  function ActionOf(m: Message, o: Outside, setup: Setup): Option<Action> {
    match m
    case Initialise(maxVm, timeout, share) => Some(Configure(Config(maxVm, timeout as real, share)))
    case Ask(src) =>
      (match setup.decode(src)
       case None => None
       case Some(client) => Some(Request(client, o.ssh, o.telnet)))
    case GiveBack(id) => Some(Free(id, o.now))
    case PutBack(id) => Some(Reuse(id))
    case Ignored => None
  }

  function After(s: System, m: Message, o: Outside, setup: Setup): System {
    match ActionOf(m, o, setup)
    case None => s
    case Some(a) => Next(s, a, setup.natOn)
  }

  predicate Grantable(s: System, client: string) {
    Chosen(s.pool.guests, client, s.config.shareGuests) < |s.pool.guests|
  }

  // A request that gets no response: the public address is missing after the guest has been
  // granted, or a refusal cannot stop the pool.
  predicate Fails(s: System, client: string, setup: Setup) {
    if Grantable(s, client) then setup.natOn && setup.publicIp.None? else StopRaises(s)
  }

  // A KeyError of the NAT service, a UnicodeDecodeError, or a request that fails.
  predicate Raises(s: System, m: Message, setup: Setup) {
    || ((m.GiveBack? || m.PutBack?) && !Known(s, m.id, setup.natOn))
    || (m.Ask? && setup.decode(m.src).None?)
    || (m.Ask? && setup.decode(m.src).Some? && Fails(s, setup.decode(m.src).value, setup))
  }

  // ----- what the bytes of a message do, field by field

  // The guest with one client less: by a free at a given time, or by a reuse.
  ghost predicate OneClientLess(g: Guest, h: Guest, freedAt: Option<real>) {
    && h.id == g.id && h.ip == g.ip && h.serial == g.serial && h.clientIps == g.clientIps
    && h.connected == g.connected - 1
    && match freedAt
       case Some(now) =>
         h.freedAt == now && h.prevState == g.prevState && h.state == if g.connected == 1 then Some(Used) else g.state
       case None =>
         && h.freedAt == g.freedAt
         && (if g.connected == 1 then h.state == g.prevState && h.prevState == None
             else h.state == g.state && h.prevState == g.prevState)
  }

  // Only the guests and the bindings have changed, and the count of grants.
  ghost predicate SameRest(s: System, t: System) {
    && t.config == s.config && t.stopped == s.stopped && t.looping == s.looping
    && t.pool.nextId == s.pool.nextId && t.pool.anyVmUp == s.pool.anyVmUp && t.pool.created == s.pool.created
  }

  // The first guest of the id loses a client, and so does its binding; with NAT on an id
  // without a binding changes nothing.
  ghost predicate TakesBack(s: System, t: System, id: Id, freedAt: Option<real>, natOn: bool) {
    var gs, hs := s.pool.guests, t.pool.guests;
    if natOn && id !in s.bindings then t == s
    else
      && SameRest(s, t) && |hs| == |gs|
      && (forall i :: 0 <= i < |gs| && gs[i].id == id && (forall j :: 0 <= j < i ==> gs[j].id != id) ==>
            OneClientLess(gs[i], hs[i], freedAt))
      && (forall i :: 0 <= i < |gs| && (gs[i].id != id || exists j :: 0 <= j < i && gs[j].id == id) ==> hs[i] == gs[i])
      && (!natOn ==> t.bindings == s.bindings)
      && (natOn ==>
            && (forall k :: k != id ==> (k in t.bindings <==> k in s.bindings))
            && (forall k :: k != id && k in s.bindings ==> t.bindings[k] == s.bindings[k])
            && (id in t.bindings <==> s.bindings[id].count > 1)
            && (id in t.bindings ==> t.bindings[id] == s.bindings[id].(count := s.bindings[id].count - 1)))
  }

  // The right guest is taken; without one the pool stops if some guest was ever up, and the
  // next producer loop can be cancelled.
  ghost predicate Takes(s: System, t: System, client: string, natOn: bool) {
    var gs, hs := s.pool.guests, t.pool.guests;
    exists r: nat :: RightGuest(gs, client, s.config.shareGuests, r) &&
      if r < |gs| then
        && SameRest(s, t) && |hs| == |gs| && (forall i :: 0 <= i < |gs| && i != r ==> hs[i] == gs[i])
        && hs[r] == gs[r].(state := Some(Using), prevState := gs[r].state, connected := gs[r].connected + 1,
                           clientIps := gs[r].clientIps + [client])
      else if s.pool.anyVmUp && s.looping then
        t == s.(stopped := true, looping := false, bindings := if natOn then map[] else s.bindings)
      else t == s
  }

  // "i" sets the configuration, "r" takes a guest, "f" frees one and "u" lets it be reused.
  ghost predicate BytesMean(s: System, t: System, data: seq<byte>, o: Outside, setup: Setup) {
    && (|data| == 10 && data[0] == 'i' as int ==>
          t == s.(config := Config(BigEndian(data[1..5]), BigEndian(data[5..9]) as real, data[9] != 0)))
    && (|data| >= 3 && data[0] == 'r' as int && |data| - 3 == BigEndian(data[1..3]) && setup.decode(data[3..]).Some? ==>
          Takes(s, t, setup.decode(data[3..]).value, setup.natOn))
    && (|data| == 5 && data[0] == 'f' as int ==> TakesBack(s, t, BigEndian(data[1..]), Some(o.now), setup.natOn))
    && (|data| == 5 && data[0] == 'u' as int ==> TakesBack(s, t, BigEndian(data[1..]), None, setup.natOn))
  }

  // Whether an exception leaves the server, and the answers that name no guest.
  ghost predicate BytesAnswered(s: System, data: seq<byte>, raised: bool, response: seq<byte>, setup: Setup) {
    && (raised ==> response == [])
    && (data == [] ==> raised)
    && (data != [] && data[0] == 'i' as int ==>
          raised == (|data| != 10) && (!raised ==> response == ['i' as int, 0, 0, 0, 0]))
    && (data != [] && (data[0] == 'f' as int || data[0] == 'u' as int) ==>
          && response == []
          && raised == (|data| != 5 || (setup.natOn && BigEndian(data[1..]) !in s.bindings)))
    && (data != [] && data[0] == 'r' as int ==> RequestAnswered(s, data, raised, response, setup))
    && (data != [] && data[0] !in {'i' as int, 'f' as int, 'u' as int, 'r' as int} ==> !raised && response == [])
  }

  // A request raises when it is malformed or its client does not decode, when a guest is
  // granted that has no public address, and when a refusal cannot stop the pool.
  ghost predicate RequestAnswered(s: System, data: seq<byte>, raised: bool, response: seq<byte>, setup: Setup) {
    if |data| < 3 || |data| - 3 != BigEndian(data[1..3]) || setup.decode(data[3..]) == None then raised
    else
      exists r: nat :: RightGuest(s.pool.guests, setup.decode(data[3..]).value, s.config.shareGuests, r) &&
        if r < |s.pool.guests| then
          raised == (setup.natOn && setup.publicIp == None) && (!raised ==> |response| > 5 && response[..5] == GRANTED)
        else
          raised == (s.pool.anyVmUp && !s.looping) && (!raised ==> response == ['r' as int, 0, 0, 0, 1])
  }

  const GRANTED: seq<byte> := ['r' as int, 0, 0, 0, 0]

  lemma GrantableIff(s: System, client: string)
    ensures RightGuest(s.pool.guests, client, s.config.shareGuests,
      if Grantable(s, client) then Chosen(s.pool.guests, client, s.config.shareGuests) else |s.pool.guests|)
  {
    ChosenIsRight(s.pool.guests, client, s.config.shareGuests);
    hide Chosen, RightGuest;
  }

  lemma GrantBytes(id: u32, ip: seq<byte>, ssh: u16, telnet: u16, snapshot: seq<byte>)
    requires |ip| < 0x1_0000 && |snapshot| < 0x1_0000
    ensures
      var d := SendReply(Granted(id, ip, ssh, telnet, snapshot));
      |d| > 5 && d[..5] == GRANTED
  {
    GrantLayout(id, ip, ssh, telnet, snapshot);
    var d := SendReply(Granted(id, ip, ssh, telnet, snapshot));
    hide SendReply, BigEndian;
    assert d[..5] == [d[0]] + d[1..5];
  }

  lemma RequestIsAnswered(s: System, data: seq<byte>, o: Outside, setup: Setup)
    requires ReadMessage(data).Some? && data[0] == OP_R && Fits(setup, o)
    ensures
      var m := ReadMessage(data).value;
      RequestAnswered(s, data, Raises(s, m, setup), Response(s, m, o, setup), setup)
  {
    var m := ReadMessage(data).value;
    assert |data| >= 3 && m == Ask(data[3..]) && |data| - 3 == U16At(data, 1);
    assert U16At(data[1..3], 0) == U16At(data, 1);
    BigEndianFields(data[1..3]);
    if setup.decode(data[3..]).Some? {
      var client := setup.decode(data[3..]).value;
      GrantableIff(s, client);
      if !Fails(s, client, setup) {
        match GrantOf(s, client, o, setup)
        case Granted(id, ip, ssh, telnet, snapshot) => GrantBytes(id, ip, ssh, telnet, snapshot);
        case _ =>
      }
    }
    hide RightGuest, Chosen, BigEndian, U16At, RequestBinding, AddressText;
  }

  lemma BytesAreAnswered(s: System, data: seq<byte>, o: Outside, setup: Setup)
    requires Fits(setup, o)
    ensures
      match ReadMessage(data)
      case None => BytesAnswered(s, data, true, [], setup)
      case Some(m) => BytesAnswered(s, data, Raises(s, m, setup), Response(s, m, o, setup), setup)
  {
    if |data| == 5 {
      BigEndianFields(data[1..]);
      assert U32At(data[1..], 0) == U32At(data, 1);
    }
    if |data| >= 3 {
      BigEndianFields(data[1..3]);
      assert U16At(data[1..3], 0) == U16At(data, 1);
    }
    hide RequestAnswered, BigEndian, U32At, U16At, GrantOf;
    if data != [] && data[0] == OP_R && ReadMessage(data).Some? {
      RequestIsAnswered(s, data, o, setup);
    } else if data != [] && data[0] == OP_R {
      MalformedRequest(s, data, setup);
    }
  }

  lemma MalformedRequest(s: System, data: seq<byte>, setup: Setup)
    requires data != [] && data[0] == OP_R && ReadMessage(data).None?
    ensures RequestAnswered(s, data, true, [], setup)
  {
    if |data| >= 3 {
      BigEndianFields(data[1..3]);
      assert U16At(data[1..3], 0) == U16At(data, 1);
    }
    hide BigEndian, U16At;
  }

  lemma FreeTakesBack(s: System, id: Id, now: real, natOn: bool)
    ensures TakesBack(s, Next(s, Free(id, now), natOn), id, Some(now), natOn)
  {
    hide Open;
  }

  lemma ReuseTakesBack(s: System, id: Id, natOn: bool)
    ensures TakesBack(s, Next(s, Reuse(id), natOn), id, None, natOn)
  {
    hide Open;
  }

  lemma RequestTakes(s: System, client: string, ssh: u16, telnet: u16, natOn: bool)
    ensures Takes(s, Next(s, Request(client, ssh, telnet), natOn), client, natOn)
  {
    ChosenIsRight(s.pool.guests, client, s.config.shareGuests);
    hide Chosen, RightGuest, RequestBinding;
  }

  lemma ConfigurationBytes(s: System, data: seq<byte>, o: Outside, setup: Setup)
    requires ReadMessage(data).Some? && data[0] == OP_I
    ensures BytesMean(s, After(s, ReadMessage(data).value, o, setup), data, o, setup)
  {
    assert |data| == 10 && data[1..5][0..4] == data[1..5] && data[5..9][0..4] == data[5..9];
    BigEndianFields(data[1..5]);
    BigEndianFields(data[5..9]);
    assert U32At(data[1..5], 0) == U32At(data, 1) && U32At(data[5..9], 0) == U32At(data, 5);
    hide TakesBack, Takes, BigEndian, U32At;
  }

  lemma RequestBytes(s: System, data: seq<byte>, o: Outside, setup: Setup)
    requires ReadMessage(data).Some? && data[0] == OP_R
    ensures BytesMean(s, After(s, ReadMessage(data).value, o, setup), data, o, setup)
  {
    var client := setup.decode(data[3..]);
    assert ReadMessage(data) == Some(Ask(data[3..]));
    hide TakesBack, Takes, BigEndian, ReadMessage, Next;
    if client.Some? {
      RequestTakes(s, client.value, o.ssh, o.telnet, setup.natOn);
    }
  }

  lemma ReleaseBytes(s: System, data: seq<byte>, o: Outside, setup: Setup)
    requires ReadMessage(data).Some? && data[0] in {OP_F, OP_U}
    ensures BytesMean(s, After(s, ReadMessage(data).value, o, setup), data, o, setup)
  {
    var id := U32At(data, 1);
    assert |data| == 5 && ReadMessage(data) == Some(if data[0] == OP_F then GiveBack(id) else PutBack(id));
    BigEndianFields(data[1..]);
    assert U32At(data[1..], 0) == id;
    hide TakesBack, Takes, BigEndian, U32At, ReadMessage, Next;
    FreeTakesBack(s, id, o.now, setup.natOn);
    ReuseTakesBack(s, id, setup.natOn);
  }

  /** Every message does what its bytes say. */
  lemma BytesDoWhatTheySay(s: System, data: seq<byte>, o: Outside, setup: Setup)
    requires ReadMessage(data).Some?
    ensures BytesMean(s, After(s, ReadMessage(data).value, o, setup), data, o, setup)
  {
    assert data != [];
    hide TakesBack, Takes, BigEndian, U32At, ReadMessage, Next, After;
    if data[0] == OP_I {
      ConfigurationBytes(s, data, o, setup);
    } else if data[0] == OP_R {
      RequestBytes(s, data, o, setup);
    } else if data[0] in {OP_F, OP_U} {
      ReleaseBytes(s, data, o, setup);
    }
  }

  // The response to a request, in the state before it.
  function GrantOf(s: System, src: string, o: Outside, setup: Setup): Reply
    requires !Fails(s, src, setup)
  {
    if !Grantable(s, src) then Refused
    else
      var g := s.pool.guests[Chosen(s.pool.guests, src, s.config.shareGuests)];
      if setup.natOn then
        var b := RequestBinding(s.bindings, g.id, o.ssh, o.telnet)[g.id];
        Granted(g.id, setup.publicIp.value, b.ssh.value, b.telnet.value, o.snapshot)
      else Granted(g.id, AddressText(g.ip), setup.guestSsh, setup.guestTelnet, o.snapshot)
  }

  function Answer(s: System, m: Message, o: Outside, setup: Setup): Option<Reply> {
    match m
    case Initialise(_, _, _) => Some(Ready(0))
    case Ask(src) =>
      (match setup.decode(src)
       case None => None
       case Some(client) => if Fails(s, client, setup) then None else Some(GrantOf(s, client, o, setup)))
    case _ => None
  }

  predicate Fits(setup: Setup, o: Outside) {
    (setup.publicIp.Some? ==> |setup.publicIp.value| < 0x1_0000) && |o.snapshot| < 0x1_0000
  }

  function Response(s: System, m: Message, o: Outside, setup: Setup): seq<byte>
    requires Fits(setup, o)
  {
    match Answer(s, m, o, setup)
    case None => []
    case Some(r) => SendReply(r)
  }

  // What the client reads of a request that was granted, in the state `t` after it: a listed
  // guest that serves it, and the ports now forwarded to it. The binding counts the grants
  // exactly when the request has not met a closed listener.
  ghost predicate GrantedIn(s: System, t: System, client: string, o: Outside, setup: Setup, r: Reply)
    requires r.Granted?
  {
    && t.outstanding[r.id] == s.outstanding[r.id] + 1 && r.snapshot == o.snapshot
    && (exists g :: g in t.pool.guests && Serves(g, r.id, client) && (!setup.natOn ==> r.ip == AddressText(g.ip)))
    && (!setup.natOn ==> r.ssh == setup.guestSsh && r.telnet == setup.guestTelnet)
    && (setup.natOn ==>
          && Some(r.ip) == setup.publicIp
          && r.id in t.bindings && t.bindings[r.id].ssh == Some(r.ssh) && t.bindings[r.id].telnet == Some(r.telnet)
          && (t.bindings[r.id].count == t.outstanding[r.id] <==> ListenersKept(s, Request(client, o.ssh, o.telnet))))
  }

  // Guests agree with the grants, and so do bindings with NAT on.
  ghost predicate Agrees(s: System, natOn: bool) {
    Sound(s) && (natOn ==> NatSound(s.bindings, s.outstanding))
  }

  lemma GrantIsTrue(s: System, client: string, o: Outside, setup: Setup)
    requires Agrees(s, setup.natOn) && Grantable(s, client) && !Fails(s, client, setup)
    ensures
      var t := Requested(s, client, o.ssh, o.telnet, setup.natOn);
      GrantOf(s, client, o, setup).Granted? && GrantedIn(s, t, client, o, setup, GrantOf(s, client, o, setup))
  {
    var i := Chosen(s.pool.guests, client, s.config.shareGuests);
    var g := s.pool.guests[i];
    var taken := Taken(g, client);
    TakenServes(g, client, s.outstanding);
    assert s.pool.guests[i := taken][i] == taken && taken in s.pool.guests[i := taken];
    if setup.natOn {
      RequestCounts(s.bindings, s.outstanding, g.id, o.ssh, o.telnet);
    }
    hide Sound, NatSound, Chosen, AddressText, RequestBinding, Serves, Taken, Open;
  }

  lemma RequestCounts(bs: Bindings, outstanding: multiset<Id>, id: Id, ssh: u16, telnet: u16)
    requires NatSound(bs, outstanding)
    ensures
      var after := RequestBinding(bs, id, ssh, telnet);
      && id in after && after[id].ssh.Some? && after[id].telnet.Some?
      && (after[id].count == outstanding[id] + 1 <==> id !in bs || Open(bs[id]))
  {
    assert outstanding[id] == CountOf(bs, id);
  }

  // What becomes of a request that gets no response: a guest is granted that nobody knows of,
  // or nothing has changed, although the pool was to be stopped.
  ghost predicate LostIn(s: System, t: System, client: string) {
    if Grantable(s, client) then
      var id := s.pool.guests[Chosen(s.pool.guests, client, s.config.shareGuests)].id;
      t.outstanding == s.outstanding + multiset{id}
    else t == s
  }

  /** A request as the client sends it, handled by the server, and the response as the
      client reads it: either it names a guest that is listed, in use, has this client on
      its list and one grant more than before, at the ports now forwarded to it; or nothing
      was granted, and a pool of which some guest was ever up is stopped. There is no response
      exactly when the request fails. */
  lemma GrantReachesClient(s: System, src: seq<byte>, client: string, o: Outside, setup: Setup, rest: seq<byte>)
    requires Agrees(s, setup.natOn) && Fits(setup, o) && |src| < 0x1_0000 && setup.decode(src) == Some(client)
    ensures ReadMessage(SendMessage(Ask(src))) == Some(Ask(src))
    ensures Response(s, Ask(src), o, setup) == [] <==> Fails(s, client, setup)
    ensures
      var t := After(s, Ask(src), o, setup);
      if Fails(s, client, setup) then LostIn(s, t, client)
      else
        match ReadReply(Response(s, Ask(src), o, setup) + rest)
        case Some(Granted(id, ip, ssh, telnet, snapshot)) =>
          GrantedIn(s, t, client, o, setup, Granted(id, ip, ssh, telnet, snapshot))
        case Some(Refused) =>
          t.pool == s.pool && t.outstanding == s.outstanding && t.stopped == (s.stopped || s.pool.anyVmUp)
        case _ => false
  {
    MessageRoundTrip(Ask(src));
    if Fails(s, client, setup) {
      assert Answer(s, Ask(src), o, setup) == None;
    } else {
      ReplyRoundTrip(GrantOf(s, client, o, setup), rest);
      ReplyNotEmpty(GrantOf(s, client, o, setup));
      if Grantable(s, client) {
        GrantIsTrue(s, client, o, setup);
      }
    }
    hide SendMessage, ReadMessage, SendReply, ReadReply, Agrees, Chosen, AddressText, RequestBinding, GrantedIn, Taken;
  }

  lemma ReplyNotEmpty(r: Reply)
    requires Packable(r)
    ensures SendReply(r) != []
  {
  }

  lemma TakenServes(g: Guest, client: string, outstanding: multiset<Id>)
    requires GuestSound(g, outstanding)
    ensures Serves(Taken(g, client), g.id, client)
  {
    var ips := g.clientIps + [client];
    assert ips[|g.clientIps|] == client;
  }

  predicate Serves(g: Guest, id: Id, client: string) {
    g.id == id && g.state == Some(Using) && client in g.clientIps && g.connected > 0
  }

  class Server {
    const setup: Setup
    const pool: PoolService.Service
    const natService: NatService.Service
    var initialised: bool
    var looping: bool
    ghost var stopped: bool
    ghost var outstanding: multiset<Id>

    constructor (setup: Setup)
      ensures this.setup == setup && Valid() && State() == Initial(Config(2, 600.0, true))
      ensures fresh(pool) && fresh(natService) && pool.guests == [] && natService.repr == {}
    {
      this.setup := setup;
      pool := new PoolService.Service();
      natService := new NatService.Service();
      initialised, looping, stopped, outstanding := false, true, false, multiset{};
    }

    ghost predicate Valid()
      reads pool, natService
    {
      pool.Valid() && natService.Valid()
    }

    ghost function State(): System
      requires Valid()
      reads this, pool, pool.guests, natService, natService.repr
    {
      System(pool.Current(), pool.Settings(), natService.View(), stopped, looping, outstanding)
    }

    method HandleInit(maxVm: u32, timeout: u32, share: bool) returns (response: seq<byte>)
      requires Valid()
      modifies this, pool
      ensures Valid() && State() == Next(old(State()), Configure(Config(maxVm, timeout as real, share)), setup.natOn)
      ensures initialised && response == SendReply(Ready(0))
      ensures pool.guests == old(pool.guests)
    {
      hide NatService.Service.View, NatService.Service.Valid, NatService.BindingOf;
      pool.SetConfigs(maxVm, timeout as real, share);
      initialised := true;
      assert natService.Valid() && natService.repr == old(natService.repr);
      assert natService.View() == old(natService.View()) && pool.Current() == old(pool.Current());
      response := SendReply(Ready(0));
    }

    // The part of `stop_pool` that concerns the producer loop and the bindings.
    method StopPool() returns (raised: bool)
      requires Valid()
      modifies this`stopped, this`looping, natService, natService.repr
      ensures Valid() && raised == !old(State()).looping
      ensures
        var s := old(State());
        State() == if raised then s
                   else s.(stopped := true, looping := false, bindings := if setup.natOn then map[] else s.bindings)
      ensures !raised && setup.natOn ==>
        forall id :: id in old(natService.entries) ==> natService.Closed(old(natService.entries)[id])
    {
      hide NatService.Service.View, NatService.Service.Valid, NatService.BindingOf;
      raised := !looping;
      if !raised {
        FreeBindings();
        stopped, looping := true, false;
        assert pool.Valid() && pool.Current() == old(pool.Current()) && pool.Settings() == old(pool.Settings());
      }
    }

    method FreeBindings()
      requires Valid()
      modifies natService, natService.repr
      ensures Valid()
      ensures State() == old(State()).(bindings := if setup.natOn then map[] else old(State()).bindings)
      ensures setup.natOn ==>
        forall id :: id in old(natService.entries) ==> natService.Closed(old(natService.entries)[id])
    {
      if setup.natOn {
        natService.FreeAll();
      }
      assert pool.Valid() && pool.Current() == old(pool.Current()) && pool.Settings() == old(pool.Settings());
    }

    // `request_vm`, seen from the server.
    method TakeGuest(src: string) returns (granted: Option<PoolService.GuestRecord>)
      requires Valid()
      modifies pool.guests
      ensures Valid() && natService.repr == old(natService.repr)
      ensures
        var s := old(State());
        var i := Chosen(s.pool.guests, src, s.config.shareGuests);
        if i == |s.pool.guests| then granted.None? && State() == s
        else
          && granted.Some? && granted.value.id == s.pool.guests[i].id && granted.value.ip == s.pool.guests[i].ip
          && State() == s.(pool := s.pool.(guests := s.pool.guests[i := Taken(s.pool.guests[i], src)]))
    {
      hide Chosen, Taken, PoolService.ViewsOf, PoolService.DistinctIps;
      granted := pool.RequestVm(src);
      assert natService.Valid() && natService.repr == old(natService.repr);
      assert natService.View() == old(natService.View()) && pool.Settings() == old(pool.Settings());
    }

    ghost method NoteGranted(id: Id)
      requires Valid()
      modifies this`outstanding
      ensures Valid() && natService.repr == old(natService.repr)
      ensures State() == old(State()).(outstanding := old(State()).outstanding + multiset{id})
    {
      outstanding := outstanding + multiset{id};
    }

    // `request_binding`, seen from the server.
    method Bind(id: Id, o: Outside) returns (ports: (u16, u16))
      requires Valid()
      modifies natService, natService.repr
      ensures Valid()
      ensures State() == old(State()).(bindings := RequestBinding(old(State()).bindings, id, o.ssh, o.telnet))
      ensures
        var bs := State().bindings;
        id in bs && bs[id].ssh == Some(ports.0) && bs[id].telnet == Some(ports.1)
    {
      ports := natService.RequestBinding(id, o.ssh, o.telnet);
      assert pool.Valid() && pool.Current() == old(pool.Current()) && pool.Settings() == old(pool.Settings());
    }

    method HandleRequest(src: string, o: Outside) returns (raised: bool, response: seq<byte>)
      requires Valid() && Fits(setup, o)
      modifies this, pool.guests, natService, natService.repr
      ensures Valid() && State() == Next(old(State()), Request(src, o.ssh, o.telnet), setup.natOn)
      ensures raised == Fails(old(State()), src, setup)
      ensures response == if raised then [] else SendReply(GrantOf(old(State()), src, o, setup))
    {
      hide Valid, State, Chosen, RequestBinding, SendReply, AddressText;
      raised, response := false, [];
      var granted := TakeGuest(src);
      if granted.None? {
        if AnyVmUp() {
          raised := StopPool();
        }
        return raised, if raised then [] else SendReply(Refused);
      }
      var guest := granted.value;
      NoteGranted(guest.id);
      if setup.natOn {
        var ports := Bind(guest.id, o);
        match setup.publicIp {
          case None => raised := true;
          case Some(ip) => response := SendReply(Granted(guest.id, ip, ports.0, ports.1, o.snapshot));
        }
      } else {
        response := SendReply(Granted(guest.id, AddressText(guest.ip), setup.guestSsh, setup.guestTelnet, o.snapshot));
      }
    }

    predicate AnyVmUp()
      requires Valid()
      reads this, pool, pool.guests, natService, natService.repr
      ensures AnyVmUp() == State().pool.anyVmUp
    {
      pool.anyVmUp
    }

    ghost method NoteReleased(id: Id)
      requires Valid()
      modifies this`outstanding
      ensures Valid() && natService.repr == old(natService.repr)
      ensures State() == old(State()).(outstanding := old(State()).outstanding - multiset{id})
    {
      outstanding := outstanding - multiset{id};
    }

    // `free_binding`, seen from the server.
    method ReleaseBinding(id: Id) returns (known: bool)
      requires Valid()
      modifies natService, natService.repr
      ensures Valid() && known == Known(old(State()), id, setup.natOn)
      ensures
        var s := old(State());
        State() == if setup.natOn && known then s.(bindings := FreeBinding(s.bindings, id)) else s
    {
      hide PoolSystem.FreeBinding;
      known := true;
      if setup.natOn {
        known := natService.FreeBinding(id);
        assert pool.Valid() && pool.Current() == old(pool.Current()) && pool.Settings() == old(pool.Settings());
      }
    }

    method FreeGuest(id: Id, now: real)
      requires Valid()
      modifies pool.guests
      ensures Valid() && natService.repr == old(natService.repr)
      ensures State() == old(State()).(pool := old(State()).pool.(guests := FreeVm(old(State()).pool.guests, id, now)))
    {
      hide GuestPool.FreeVm;
      pool.FreeVm(id, now);
      assert natService.Valid() && natService.repr == old(natService.repr);
      assert natService.View() == old(natService.View()) && pool.Settings() == old(pool.Settings());
    }

    method ReuseGuest(id: Id)
      requires Valid()
      modifies pool.guests
      ensures Valid() && natService.repr == old(natService.repr)
      ensures State() == old(State()).(pool := old(State()).pool.(guests := ReuseVm(old(State()).pool.guests, id)))
    {
      hide GuestPool.ReuseVm;
      pool.ReuseVm(id);
      assert natService.Valid() && natService.repr == old(natService.repr);
      assert natService.View() == old(natService.View()) && pool.Settings() == old(pool.Settings());
    }

    method HandleFree(id: u32, now: real) returns (raised: bool)
      requires Valid()
      modifies this`outstanding, pool.guests, natService, natService.repr
      ensures Valid() && State() == Next(old(State()), Free(id, now), setup.natOn)
      ensures raised == !Known(old(State()), id, setup.natOn)
    {
      hide PoolSystem.FreeBinding, GuestPool.FreeVm, Valid, State;
      var known := ReleaseBinding(id);
      if !known {
        return true;
      }
      FreeGuest(id, now);
      NoteReleased(id);
      raised := false;
    }

    method HandleReuse(id: u32) returns (raised: bool)
      requires Valid()
      modifies this`outstanding, pool.guests, natService, natService.repr
      ensures Valid() && State() == Next(old(State()), Reuse(id), setup.natOn)
      ensures raised == !Known(old(State()), id, setup.natOn)
    {
      hide PoolSystem.FreeBinding, GuestPool.ReuseVm, Valid, State;
      var known := ReleaseBinding(id);
      if !known {
        return true;
      }
      ReuseGuest(id);
      NoteReleased(id);
      raised := false;
    }

    // `raised` when an exception leaves the method.
    method DataReceived(data: seq<byte>, o: Outside) returns (raised: bool, response: seq<byte>)
      requires Valid() && Fits(setup, o)
      modifies this, pool, pool.guests, natService, natService.repr
      ensures Valid()
      ensures
        match ReadMessage(data)
        case None => raised && response == [] && State() == old(State())
        case Some(m) =>
          && State() == After(old(State()), m, o, setup)
          && raised == Raises(old(State()), m, setup)
          && response == Response(old(State()), m, o, setup)
          && BytesMean(old(State()), State(), data, o, setup)
      ensures BytesAnswered(old(State()), data, raised, response, setup)
    {
      hide BytesMean, BytesAnswered;
      BytesAreAnswered(State(), data, o, setup);
      if ReadMessage(data).Some? {
        BytesDoWhatTheySay(State(), data, o, setup);
      }
      hide Valid, State, Next, Chosen, RequestBinding, SendReply, AddressText;
      raised, response := false, [];
      match ReadMessage(data)
      case None => raised := true;
      case Some(Initialise(maxVm, timeout, share)) => response := HandleInit(maxVm, timeout, share);
      case Some(Ask(src)) =>
        match setup.decode(src) {
          case None => raised := true;
          case Some(client) => raised, response := HandleRequest(client, o);
        }
      case Some(GiveBack(id)) => raised := HandleFree(id, o.now);
      case Some(PutBack(id)) => raised := HandleReuse(id);
      case Some(Ignored) =>
    }

    // A listener closes on its own.
    method CloseListener(id: Id, onSsh: bool)
      requires Valid()
      modifies natService.repr
      ensures Valid() && State() == Next(old(State()), Close(id, onSsh), setup.natOn)
    {
      hide PoolSystem.CloseListener, NatService.Service.View;
      natService.CloseListener(id, onSsh);
      assert pool.Valid() && pool.Current() == old(pool.Current()) && pool.Settings() == old(pool.Settings());
    }

    // The producer loop, if the loop before it has scheduled one.
    method Produce(e: Env)
      requires Valid()
      modifies this`looping, pool, pool.guests
      ensures Valid() && State() == Next(old(State()), PoolSystem.Produce(e), setup.natOn)
    {
      hide GuestPool.ProducerLoop, LoopFails, Valid, State;
      if Looping() {
        var failed := Loop(e);
        Schedule(!failed);
      }
    }

    predicate Looping()
      requires Valid()
      reads this, pool, pool.guests, natService, natService.repr
      ensures Looping() == State().looping
    {
      looping
    }

    method Schedule(again: bool)
      requires Valid()
      modifies this`looping
      ensures Valid() && State() == old(State()).(looping := again)
    {
      looping := again;
    }

    method Loop(e: Env) returns (failed: bool)
      requires Valid()
      modifies pool, pool.guests
      ensures Valid()
      ensures
        var s := old(State());
        State() == s.(pool := ProducerLoop(s.pool, s.config, e)) && failed == LoopFails(s.pool, s.config, e)
    {
      hide GuestPool.ProducerLoop, LoopFails, NatService.Service.View, NatService.Service.Valid, NatService.BindingOf;
      failed := pool.ProducerLoop(e);
      assert natService.Valid() && natService.repr == old(natService.repr);
      assert natService.View() == old(natService.View()) && pool.Settings() == old(pool.Settings());
    }
  }
}
