/** The TFTP client (src/cowrie/commands/tftp.py) against a lock-step sender of
    RFC 1350 and a network that loses, duplicates and reorders. */
module Tftp {
  import opened Common

  const OPCODE_RRQ: u16 := 1
  const OPCODE_DATA: u16 := 3
  const OPCODE_ACK: u16 := 4
  const OPCODE_ERROR: u16 := 5
  const BLOCK_SIZE: nat := 512
  const MAX_RETRIES: nat := 3

  datatype Address = Address(host: string, port: nat)

  datatype Outcome = Success | ErrorPacket(code: u16) | TimedOut | Cancelled

  datatype Packet = Packet(bytes: seq<byte>, to: Address)

  // The client with its deferred (`outcome`, and `refired` when it was fired again), its
  // UDP port, all packets sent, and the retransmissions since the last datagram came.
  datatype Client = Client(
    server: Address, filename: seq<byte>,
    artifact: seq<byte>, currentBlock: nat, lastPacket: seq<byte>, retryCount: nat,
    timerActive: bool, bytesReceived: nat, serverTid: Option<Address>,
    outcome: Option<Outcome>, refired: bool, portOpen: bool, sent: seq<Packet>, resends: nat)

  // ----- the operations

  function RrqPacket(filename: seq<byte>): seq<byte> {
    PutU16(OPCODE_RRQ) + filename + [0] + [111, 99, 116, 101, 116] + [0]
  }

  function AckPacket(block: u16): seq<byte> {
    PutU16(OPCODE_ACK) + PutU16(block)
  }

  function DataPacket(block: u16, data: seq<byte>): (d: seq<byte>)
    ensures |d| == 4 + |data| && U16At(d, 0) == OPCODE_DATA && U16At(d, 2) == block && d[4..] == data
  {
    PutU16(OPCODE_DATA) + PutU16(block) + data
  }

  function SendRrq(c: Client): Client {
    c.(sent := c.sent + [Packet(RrqPacket(c.filename), c.server)], timerActive := true)
  }

  function SendAck(c: Client, block: u16): Client {
    var to := if c.serverTid.Some? then c.serverTid.value else c.server;
    c.(sent := c.sent + [Packet(AckPacket(block), to)], lastPacket := AckPacket(block), timerActive := true)
  }

  // Firing the deferred runs the clean-up that closes the port.
  function Fire(c: Client, o: Outcome): Client {
    if c.outcome.Some? then c.(refired := true) else c.(outcome := Some(o), portOpen := false)
  }

  function HandleData(c: Client, packet: seq<byte>): Client
    requires |packet| >= 4
  {
    var block, data := U16At(packet, 2), packet[4..];
    if block == c.currentBlock + 1 then
      var acked := SendAck(c.(currentBlock := block, bytesReceived := c.bytesReceived + |data|,
                              artifact := c.artifact + data), block);
      if |data| < BLOCK_SIZE then Fire(acked.(timerActive := false), Success) else acked
    else if block == c.currentBlock then SendAck(c, block)
    else c
  }

  function HandleError(c: Client, packet: seq<byte>): Client
    requires |packet| >= 4
  {
    if |packet| < 5 then c else Fire(c.(timerActive := false), ErrorPacket(U16At(packet, 2)))
  }

  // `datagramReceived`
  function Received(c: Client, datagram: seq<byte>, from: Address): Client {
    var heard := c.(resends := 0);
    if |datagram| < 4 then heard
    else
      var ready := heard.(serverTid := if c.serverTid == None then Some(from) else c.serverTid,
                          timerActive := false, retryCount := 0);
      if U16At(datagram, 0) == OPCODE_DATA then HandleData(ready, datagram)
      else if U16At(datagram, 0) == OPCODE_ERROR then HandleError(ready, datagram)
      else ready
  }

  // `handleTimeout`, when the timer goes off.
  function Expired(c: Client): Client {
    var late := c.(timerActive := false, retryCount := c.retryCount + 1);
    if late.retryCount >= MAX_RETRIES then Fire(late, TimedOut)
    else
      var again := late.(resends := c.resends + 1);
      if c.currentBlock == 0 then SendRrq(again) else SendAck(again, c.currentBlock % 0x1_0000)
  }

  // `handle_CTRL_C`
  function Interrupted(c: Client): Client {
    var quiet := c.(timerActive := false);
    if quiet.outcome.None? then Fire(quiet, Cancelled) else quiet
  }

  function Started(server: Address, filename: seq<byte>): Client {
    SendRrq(Client(server, filename, [], 0, [], 0, false, 0, None, None, false, true, [], 0))
  }

  // ----- the deferred, the timer and the retries, for datagrams of any bytes

  ghost predicate Orderly(c: Client) {
    && (c.outcome.Some? ==> !c.portOpen && !c.timerActive)
    && (c.outcome.None? ==> c.portOpen && c.retryCount < MAX_RETRIES)
    && !c.refired
    && c.resends <= c.retryCount && c.resends < MAX_RETRIES
    && c.currentBlock < 0x1_0000
    && c.bytesReceived == |c.artifact|
  }

  /** Over every interleaving of datagrams (of any bytes, while the port is open),
      timeouts (while a timer is active) and interrupts, the deferred fires at most once,
      afterwards no timer is active, and at most two retransmissions follow a datagram. */
  lemma StaysOrderly(c: Client, datagram: seq<byte>, from: Address)
    requires Orderly(c)
    ensures c.portOpen ==> Orderly(Received(c, datagram, from))
    ensures c.timerActive ==> Orderly(Expired(c))
    ensures Orderly(Interrupted(c)) && Interrupted(c).outcome.Some?
  {
  }

  lemma StartsOrderly(server: Address, filename: seq<byte>)
    ensures Orderly(Started(server, filename)) && Started(server, filename).timerActive
  {
  }

  // ----- sender and network

  function Blocks(file: seq<byte>): nat {
    |file| / BLOCK_SIZE + 1
  }

  // The k-th block of the file, from 1; the last one is short and may be empty.
  function Chunk(file: seq<byte>, k: nat): seq<byte>
    requires 1 <= k <= Blocks(file)
  {
    file[BLOCK_SIZE * (k - 1)..Min(BLOCK_SIZE * k, |file|)]
  }

  // The first k blocks.
  function Prefix(file: seq<byte>, k: nat): seq<byte> {
    file[..Min(BLOCK_SIZE * k, |file|)]
  }

  // The sender with the transfer id `tid` has sent blocks 1..position; all of them may still
  // be on their way.
  datatype System = System(client: Client, position: nat, tid: Address)

  datatype Action =
    | Data(k: nat, from: Address)            // one of the DATA packets sent, new or again
    | OtherDatagram(d: seq<byte>, from: Address)  // anything that is not a DATA packet
    | Timeout
    | CtrlC
    | Advance                                // the sender hears a request or its last block's ACK

  predicate Enabled(s: System, a: Action, file: seq<byte>) {
    match a
    case Data(k, _) => s.client.portOpen && 1 <= k <= s.position && k <= Blocks(file)
    case OtherDatagram(d, _) => s.client.portOpen && (|d| < 4 || U16At(d, 0) != OPCODE_DATA)
    case Timeout => s.client.timerActive
    case CtrlC => true
    case Advance =>
      if s.position == 0 then Packet(RrqPacket(s.client.filename), s.client.server) in s.client.sent
      else s.position < Blocks(file) && Packet(AckPacket(s.position % 0x1_0000), s.tid) in s.client.sent
  }

  function Next(s: System, a: Action, file: seq<byte>): System
    requires Enabled(s, a, file)
  {
    match a
    case Data(k, from) => s.(client := Received(s.client, DataPacket(k % 0x1_0000, Chunk(file, k)), from))
    case OtherDatagram(d, from) => s.(client := Received(s.client, d, from))
    case Timeout => s.(client := Expired(s.client))
    case CtrlC => s.(client := Interrupted(s.client))
    case Advance => s.(position := s.position + 1)
  }

  // The system after a list of actions; None when one of them was not enabled in its turn.
  function Exec(s: System, actions: seq<Action>, file: seq<byte>): Option<System> {
    if actions == [] then Some(s)
    else
      match Exec(s, actions[..|actions| - 1], file)
      case None => None
      case Some(t) =>
        var a := actions[|actions| - 1];
        if Enabled(t, a, file) then Some(Next(t, a, file)) else None
  }

  // ----- what every run keeps

  // Every ACK sent names a block received; block 0 is never acknowledged.
  ghost predicate AcksReceived(c: Client) {
    forall p, n: u16 :: p in c.sent && p.bytes == AckPacket(n) ==> 1 <= n <= c.currentBlock
  }

  ghost predicate InStep(s: System, file: seq<byte>) {
    var c := s.client;
    && Orderly(c) && AcksReceived(c)
    && c.currentBlock <= s.position <= c.currentBlock + 1 && s.position <= Blocks(file)
    && c.artifact == Prefix(file, c.currentBlock)
    && (c.outcome == Some(Success) ==> c.currentBlock == Blocks(file))
  }

  lemma AckInjective(m: u16, n: u16)
    ensures AckPacket(m) == AckPacket(n) ==> m == n
  {
    assert U16At(AckPacket(m), 2) == m && U16At(AckPacket(n), 2) == n;
  }

  lemma ChunkExtends(file: seq<byte>, k: nat)
    requires 1 <= k <= Blocks(file)
    ensures Prefix(file, k - 1) + Chunk(file, k) == Prefix(file, k)
    ensures |Chunk(file, k)| < BLOCK_SIZE <==> k == Blocks(file)
    ensures k == Blocks(file) ==> Prefix(file, k) == file
  {
  }

  lemma AckSent(c: Client, n: u16)
    requires AcksReceived(c) && 1 <= n <= c.currentBlock
    ensures AcksReceived(SendAck(c, n))
  {
    forall p, m: u16 | p in SendAck(c, n).sent && p.bytes == AckPacket(m)
      ensures 1 <= m <= c.currentBlock
    {
      AckInjective(m, n);
    }
  }

  lemma RrqSent(c: Client)
    requires AcksReceived(c)
    ensures AcksReceived(SendRrq(c))
  {
  }

  // A DATA packet of the network that carries the block expected is that block of the file.
  lemma ExpectedBlock(k: nat, current: nat)
    requires 1 <= k <= current + 1 && current < 0x1_0000
    ensures k % 0x1_0000 == current + 1 ==> k == current + 1
    ensures k % 0x1_0000 == current ==> current > 0
  {
  }

  // The client as it looks at a datagram.
  function Ready(c: Client, from: Address): Client {
    c.(resends := 0, serverTid := if c.serverTid == None then Some(from) else c.serverTid,
       timerActive := false, retryCount := 0)
  }

  lemma ReceivedData(c: Client, block: u16, data: seq<byte>, from: Address)
    ensures Received(c, DataPacket(block, data), from) ==
      if block == c.currentBlock + 1 then
        var acked := SendAck(Ready(c, from).(currentBlock := block, bytesReceived := c.bytesReceived + |data|,
                                             artifact := c.artifact + data), block);
        if |data| < BLOCK_SIZE then Fire(acked.(timerActive := false), Success) else acked
      else if block == c.currentBlock then SendAck(Ready(c, from), block)
      else Ready(c, from)
  {
    hide DataPacket, SendAck, Fire;
  }

  // The block expected is stored.
  lemma NewBlockKeeps(s: System, k: nat, from: Address, file: seq<byte>)
    requires InStep(s, file) && Enabled(s, Data(k, from), file) && k == s.client.currentBlock + 1 < 0x1_0000
    ensures InStep(Next(s, Data(k, from), file), file)
  {
    var c, data := s.client, Chunk(file, k);
    var t := Next(s, Data(k, from), file);
    assert t == s.(client := Received(c, DataPacket(k, data), from));
    assert 1 <= k <= s.position == k && k <= Blocks(file) && c.outcome.None? by {
      hide Prefix, AcksReceived, Blocks;
    }
    StaysOrderly(c, DataPacket(k, data), from);
    NewBlockStored(c, k, data, from);
    ChunkExtends(file, k);
    hide Orderly, DataPacket, Chunk, Prefix, Received, Blocks, AcksReceived, Enabled, Next;
  }

  lemma NewBlockStored(c: Client, k: u16, data: seq<byte>, from: Address)
    requires k == c.currentBlock + 1 && AcksReceived(c) && c.outcome.None?
    ensures
      var d := Received(c, DataPacket(k, data), from);
      && d.currentBlock == k && d.artifact == c.artifact + data && AcksReceived(d)
      && d.outcome == if |data| < BLOCK_SIZE then Some(Success) else None
  {
    ReceivedData(c, k, data, from);
    var stored := Ready(c, from).(currentBlock := k, bytesReceived := c.bytesReceived + |data|,
                                  artifact := c.artifact + data);
    hide AckPacket, DataPacket, Received;
    assert AcksReceived(stored);
    AckSent(stored, k);
  }

  // The block before is acknowledged again; any other block changes nothing.
  lemma OldBlockKeeps(s: System, k: nat, from: Address, file: seq<byte>)
    requires InStep(s, file) && Enabled(s, Data(k, from), file) && k % 0x1_0000 != s.client.currentBlock + 1
    ensures InStep(Next(s, Data(k, from), file), file)
  {
    var c, block := s.client, k % 0x1_0000;
    StaysOrderly(c, DataPacket(block, Chunk(file, k)), from);
    ReceivedData(c, block, Chunk(file, k), from);
    ExpectedBlock(k, c.currentBlock);
    hide Orderly, DataPacket, Chunk, Prefix, AckPacket, Received, Blocks;
    assert AcksReceived(Ready(c, from));
    if block == c.currentBlock {
      AckSent(Ready(c, from), block);
    }
    hide AcksReceived;
  }

  lemma DataKeeps(s: System, k: nat, from: Address, file: seq<byte>)
    requires InStep(s, file) && Enabled(s, Data(k, from), file)
    ensures InStep(Next(s, Data(k, from), file), file)
  {
    assert k <= s.client.currentBlock + 1 && s.client.currentBlock < 0x1_0000;
    ExpectedBlock(k, s.client.currentBlock);
    hide InStep, Enabled, Next;
    if k % 0x1_0000 == s.client.currentBlock + 1 {
      NewBlockKeeps(s, k, from, file);
    } else {
      OldBlockKeeps(s, k, from, file);
    }
  }

  lemma OtherKeeps(s: System, d: seq<byte>, from: Address, file: seq<byte>)
    requires InStep(s, file) && Enabled(s, OtherDatagram(d, from), file)
    ensures InStep(Next(s, OtherDatagram(d, from), file), file)
  {
    StaysOrderly(s.client, d, from);
    hide Orderly, U16At, Prefix, Blocks, AckPacket;
  }

  lemma TimeoutKeeps(s: System, file: seq<byte>)
    requires InStep(s, file) && Enabled(s, Timeout, file)
    ensures InStep(Next(s, Timeout, file), file)
  {
    var c := s.client;
    StaysOrderly(c, [], c.server);
    assert c.currentBlock < 0x1_0000 && c.outcome.None?;
    ExpiredSends(c);
    hide Orderly, Prefix, Blocks, Expired, AcksReceived;
  }

  lemma ExpiredSends(c: Client)
    requires AcksReceived(c) && c.currentBlock < 0x1_0000 && c.outcome.None?
    ensures
      var d := Expired(c);
      d.currentBlock == c.currentBlock && d.artifact == c.artifact && d.outcome != Some(Success) && AcksReceived(d)
  {
    var again := c.(timerActive := false, retryCount := c.retryCount + 1, resends := c.resends + 1);
    hide AckPacket, RrqPacket;
    assert AcksReceived(again) && AcksReceived(Fire(again.(resends := c.resends), TimedOut));
    hide AcksReceived;
    if c.retryCount + 1 < MAX_RETRIES {
      if c.currentBlock == 0 {
        RrqSent(again);
      } else {
        AckSent(again, c.currentBlock);
      }
    }
  }

  lemma InterruptKeeps(s: System, file: seq<byte>)
    requires InStep(s, file)
    ensures InStep(Next(s, CtrlC, file), file)
  {
    StaysOrderly(s.client, [], s.client.server);
    hide Orderly, Prefix, Blocks, AckPacket;
  }

  lemma AdvanceKeeps(s: System, file: seq<byte>)
    requires InStep(s, file) && Enabled(s, Advance, file)
    ensures InStep(Next(s, Advance, file), file)
  {
    assert s.client.currentBlock < 0x1_0000;
    hide Orderly, Prefix, AckPacket, RrqPacket, AcksReceived;
    if s.position > 0 {
      AckedPosition(s);
    }
  }

  lemma NextKeeps(s: System, a: Action, file: seq<byte>)
    requires InStep(s, file) && Enabled(s, a, file)
    ensures InStep(Next(s, a, file), file)
  {
    hide *;
    match a
    case Data(k, from) => DataKeeps(s, k, from, file);
    case OtherDatagram(d, from) => OtherKeeps(s, d, from, file);
    case Timeout => TimeoutKeeps(s, file);
    case CtrlC => InterruptKeeps(s, file);
    case Advance => AdvanceKeeps(s, file);
  }

  // The sender goes on only after the client has the block before: also when block
  // numbers wrap, as the client never acknowledges block number 0.
  lemma AckedPosition(s: System)
    requires AcksReceived(s.client) && 0 < s.position <= s.client.currentBlock + 1 && s.client.currentBlock < 0x1_0000
    requires Packet(AckPacket(s.position % 0x1_0000), s.tid) in s.client.sent
    ensures s.position <= s.client.currentBlock
  {
  }

  function Initial(server: Address, filename: seq<byte>, tid: Address): System {
    System(Started(server, filename), 0, tid)
  }

  lemma InitiallyInStep(server: Address, filename: seq<byte>, tid: Address, file: seq<byte>)
    ensures InStep(Initial(server, filename, tid), file)
  {
  }

  lemma {:induction false} RunKeeps(
    server: Address, filename: seq<byte>, tid: Address, file: seq<byte>, actions: seq<Action>)
    requires Exec(Initial(server, filename, tid), actions, file).Some?
    ensures InStep(Exec(Initial(server, filename, tid), actions, file).value, file)
  {
    InitiallyInStep(server, filename, tid, file);
    if actions != [] {
      RunKeeps(server, filename, tid, file, actions[..|actions| - 1]);
      var s := Exec(Initial(server, filename, tid), actions[..|actions| - 1], file).value;
      NextKeeps(s, actions[|actions| - 1], file);
      hide InStep, Next, Enabled, Initial;
    }
  }

  /** At every step of every run the artifact is exactly the blocks 1..current_block of
      the file, and success is reported only when that is the whole file. */
  lemma ArtifactIsPrefix(server: Address, filename: seq<byte>, tid: Address, file: seq<byte>, actions: seq<Action>)
    requires Exec(Initial(server, filename, tid), actions, file).Some?
    ensures
      var c := Exec(Initial(server, filename, tid), actions, file).value.client;
      && c.artifact == Prefix(file, c.currentBlock) && c.bytesReceived == |c.artifact|
      && (c.outcome == Some(Success) ==> c.artifact == file)
  {
    RunKeeps(server, filename, tid, file, actions);
    ChunkExtends(file, Blocks(file));
    hide Exec, Initial, Prefix, Chunk, Blocks;
  }

  // ----- which files can be fetched

  // The state after k blocks that came in order.
  ghost predicate Fetched(s: System, k: nat, file: seq<byte>) {
    && InStep(s, file) && s.client.currentBlock == k && s.position == k
    && s.client.outcome == (if k == Blocks(file) then Some(Success) else None)
    && (if k == 0 then
          s.client.serverTid == None && Packet(RrqPacket(s.client.filename), s.client.server) in s.client.sent
        else s.client.serverTid == Some(s.tid) && Packet(AckPacket(k % 0x1_0000), s.tid) in s.client.sent)
  }

  lemma ExecAppend(s: System, actions: seq<Action>, a: Action, file: seq<byte>)
    requires Exec(s, actions, file).Some? && Enabled(Exec(s, actions, file).value, a, file)
    ensures Exec(s, actions + [a], file) == Some(Next(Exec(s, actions, file).value, a, file))
  {
  }

  lemma ExpectedReceived(c: Client, data: seq<byte>, from: Address)
    requires c.outcome == None && c.currentBlock + 1 < 0x1_0000 && c.serverTid in {None, Some(from)}
    ensures
      var d := Received(c, DataPacket(c.currentBlock + 1, data), from);
      && d.currentBlock == c.currentBlock + 1 && d.serverTid == Some(from)
      && d.outcome == (if |data| < BLOCK_SIZE then Some(Success) else None)
      && Packet(AckPacket(c.currentBlock + 1), from) in d.sent
  {
  }

  lemma AdvanceEnabled(s: System, k: nat, file: seq<byte>)
    requires Fetched(s, k, file) && k < Blocks(file) && k + 1 < 0x1_0000
    ensures Enabled(s, Advance, file)
    ensures InStep(Next(s, Advance, file), file)
    ensures Enabled(Next(s, Advance, file), Data(k + 1, s.tid), file)
  {
  }

  lemma FetchOne(s: System, k: nat, file: seq<byte>)
    requires Fetched(s, k, file) && k < Blocks(file) && k + 1 < 0x1_0000
    ensures Enabled(s, Advance, file)
    ensures
      var t := Next(s, Advance, file);
      && Enabled(t, Data(k + 1, s.tid), file)
      && Fetched(Next(t, Data(k + 1, s.tid), file), k + 1, file)
  {
    hide InStep, Enabled, Received, Chunk, Blocks, DataPacket, AckPacket, RrqPacket;
    AdvanceEnabled(s, k, file);
    var t := Next(s, Advance, file);
    assert t == s.(position := k + 1) && s.client.outcome == None && s.client.currentBlock == k;
    var d := DataPacket(k + 1, Chunk(file, k + 1));
    assert Next(t, Data(k + 1, s.tid), file) == t.(client := Received(s.client, d, s.tid));
    hide *;
    DataKeeps(t, k + 1, s.tid, file);
    ChunkExtends(file, k + 1);
    ExpectedReceived(s.client, Chunk(file, k + 1), s.tid);
    FetchedNext(Next(t, Data(k + 1, s.tid), file), k + 1, file);
  }

  lemma FetchedNext(s: System, k: nat, file: seq<byte>)
    requires InStep(s, file) && s.client.currentBlock == s.position == k && 0 < k < 0x1_0000
    requires s.client.outcome == (if k == Blocks(file) then Some(Success) else None)
    requires s.client.serverTid == Some(s.tid) && Packet(AckPacket(k), s.tid) in s.client.sent
    ensures Fetched(s, k, file)
  {
  }

  lemma FetchedInitially(server: Address, filename: seq<byte>, tid: Address, file: seq<byte>)
    ensures Fetched(Initial(server, filename, tid), 0, file)
  {
  }

  lemma {:induction false} FetchInOrder(server: Address, filename: seq<byte>, tid: Address, file: seq<byte>, k: nat)
    returns (actions: seq<Action>)
    requires k <= Blocks(file) && k < 0x1_0000
    ensures Exec(Initial(server, filename, tid), actions, file).Some?
    ensures Fetched(Exec(Initial(server, filename, tid), actions, file).value, k, file)
    decreases k
  {
    if k == 0 {
      actions := [];
      FetchedInitially(server, filename, tid, file);
      hide Fetched, Initial;
    } else {
      hide *;
      actions := FetchInOrder(server, filename, tid, file, k - 1);
      var s := Exec(Initial(server, filename, tid), actions, file).value;
      FetchOne(s, k - 1, file);
      ExecAppend(Initial(server, filename, tid), actions, Advance, file);
      ExecAppend(Initial(server, filename, tid), actions + [Advance], Data(k, s.tid), file);
      actions := actions + [Advance] + [Data(k, s.tid)];
    }
  }

  /** A transfer can succeed exactly for files of at most 65535 blocks: block numbers do
      not wrap in the client, and a longer transfer never reports success. */
  lemma WhichFilesSucceed(server: Address, filename: seq<byte>, tid: Address, file: seq<byte>)
    ensures (exists actions ::
               && Exec(Initial(server, filename, tid), actions, file).Some?
               && Exec(Initial(server, filename, tid), actions, file).value.client.outcome == Some(Success))
       <==> Blocks(file) <= 65535
  {
    forall actions | Exec(Initial(server, filename, tid), actions, file).Some?
      ensures
        var c := Exec(Initial(server, filename, tid), actions, file).value.client;
        c.outcome == Some(Success) ==> Blocks(file) <= 65535
    {
      RunKeeps(server, filename, tid, file, actions);
    }
    if Blocks(file) <= 65535 {
      var actions := FetchInOrder(server, filename, tid, file, Blocks(file));
    }
  }

  // ----- what is sent, and where to

  predicate IsRequest(d: seq<byte>) { |d| >= 2 && d[0] == 0 && d[1] == 1 }

  predicate IsAck(d: seq<byte>) { |d| == 4 && d[0] == 0 && d[1] == 4 }

  /** A datagram is answered exactly when it is a DATA packet of the block expected or the one
      before: with one ACK of that block, to the sender of the first datagram of four bytes. */
  lemma Answers(c: Client, d: seq<byte>, from: Address)
    ensures
      var to := if c.serverTid.Some? then c.serverTid.value else from;
      Received(c, d, from).sent ==
        if |d| >= 4 && d[0] == 0 && d[1] == 3 && c.currentBlock <= U16At(d, 2) <= c.currentBlock + 1
        then c.sent + [Packet([0, 4, d[2], d[3]], to)]
        else c.sent
    ensures
      var r := Received(c, d, from);
      r.lastPacket == if r.sent == c.sent then c.lastPacket else r.sent[|r.sent| - 1].bytes
  {
    if |d| >= 4 {
      assert PutU16(U16At(d, 2)) == [d[2], d[3]] && PutU16(OPCODE_ACK) == [0, 4];
      assert AckPacket(U16At(d, 2)) == [0, 4, d[2], d[3]];
      assert U16At(d, 0) == OPCODE_DATA <==> d[0] == 0 && d[1] == 3;
      hide PutU16, U16At, AckPacket;
    }
  }

  /** A datagram ends the transfer with success exactly when it is a DATA packet of the block
      expected with less than 512 bytes, and with an error exactly when it is an ERROR packet of
      five bytes or more, whose code is the result. Nothing else that is received ends it. */
  lemma EndsTransfer(c: Client, d: seq<byte>, from: Address)
    requires c.outcome.None?
    ensures
      var block := if |d| >= 4 then 256 * d[2] as int + d[3] else 0;
      Received(c, d, from).outcome ==
        if |d| >= 4 && d[0] == 0 && d[1] == 3 && block == c.currentBlock + 1 && |d| < 516 then Some(Success)
        else if |d| >= 5 && d[0] == 0 && d[1] == 5 then Some(ErrorPacket(block))
        else None
  {
    if |d| >= 4 {
      assert U16At(d, 0) == OPCODE_DATA <==> d[0] == 0 && d[1] == 3;
      assert U16At(d, 0) == OPCODE_ERROR <==> d[0] == 0 && d[1] == 5;
      assert U16At(d, 2) == 256 * d[2] as int + d[3];
      hide U16At, AckPacket;
    }
  }

  /** An interrupt cancels a transfer that is not over, and leaves no timer. */
  lemma InterruptCancels(c: Client)
    ensures Interrupted(c).outcome == if c.outcome.None? then Some(Cancelled) else c.outcome
    ensures !Interrupted(c).timerActive && Interrupted(c).sent == c.sent
  {
  }

  // The timeouts since the last datagram of four bytes or more.
  function TimeoutsInRow(actions: seq<Action>): nat {
    if actions == [] then 0
    else
      match actions[|actions| - 1]
      case Data(_, _) => 0
      case OtherDatagram(d, _) => if |d| >= 4 then 0 else TimeoutsInRow(actions[..|actions| - 1])
      case Timeout => TimeoutsInRow(actions[..|actions| - 1]) + 1
      case _ => TimeoutsInRow(actions[..|actions| - 1])
  }

  lemma NextRetries(s: System, a: Action, file: seq<byte>)
    requires Enabled(s, a, file)
    ensures
      var n := Next(s, a, file).client.retryCount;
      match a
      case Data(_, _) => n == 0
      case OtherDatagram(d, _) => n == if |d| >= 4 then 0 else s.client.retryCount
      case Timeout => n == s.client.retryCount + 1
      case _ => n == s.client.retryCount
  {
    hide U16At, AckPacket, RrqPacket, Chunk;
  }

  /** In every run the retry count is the number of timeouts in a row, and the transfer is given
      up for them exactly at the third. */
  lemma {:induction false} RunRetries(
    server: Address, filename: seq<byte>, tid: Address, file: seq<byte>, actions: seq<Action>)
    requires Exec(Initial(server, filename, tid), actions, file).Some?
    ensures
      var c := Exec(Initial(server, filename, tid), actions, file).value.client;
      && c.retryCount == TimeoutsInRow(actions) <= 3
      && (c.outcome == Some(TimedOut) <==> TimeoutsInRow(actions) == 3)
  {
    if actions != [] {
      var front, a := actions[..|actions| - 1], actions[|actions| - 1];
      var s := Exec(Initial(server, filename, tid), front, file).value;
      RunRetries(server, filename, tid, file, front);
      RunKeeps(server, filename, tid, file, front);
      NextRetries(s, a, file);
      GivenUp(s, a, file);
      hide Next, Enabled, InStep, Initial;
    }
  }

  lemma GivenUp(s: System, a: Action, file: seq<byte>)
    requires Enabled(s, a, file) && InStep(s, file) && s.client.retryCount <= 3
    requires s.client.outcome == Some(TimedOut) <==> s.client.retryCount == 3
    ensures
      var d := Next(s, a, file).client;
      (d.outcome == Some(TimedOut) <==> d.retryCount == 3) && d.retryCount <= 3
  {
    var c := s.client;
    assert Orderly(c);
    NextRetries(s, a, file);
    hide InStep, U16At, AckPacket, RrqPacket, Chunk, DataPacket, Received, Prefix, Blocks;
    match a
    case Data(k, from) => EndsTransfer(c, DataPacket(k % 0x1_0000, Chunk(file, k)), from);
    case OtherDatagram(d, from) =>
      EndsTransfer(c, d, from);
      ShortChangesLittle(c, d, from);
    case Timeout =>
    case CtrlC => InterruptCancels(c);
    case Advance =>
  }

  lemma ShortChangesLittle(c: Client, d: seq<byte>, from: Address)
    ensures |d| < 4 ==> Received(c, d, from) == c.(resends := 0)
  {
  }

  lemma PacketBytes(filename: seq<byte>, block: u16)
    ensures RrqPacket(filename) == [0, 1] + filename + [0] + [111, 99, 116, 101, 116] + [0]
    ensures AckPacket(block) == [0, 4, block / 256, block % 256]
  {
    assert PutU16(OPCODE_RRQ) == [0, 1] && PutU16(OPCODE_ACK) == [0, 4];
    assert PutU16(block) == [block / 256, block % 256];
  }

  /** A timeout sends the request again before the first block and the last ACK after it; the
      third one in a row sends nothing and ends the transfer. */
  lemma TimeoutResends(c: Client)
    requires Orderly(c) && c.outcome.None?
    ensures c.retryCount == 2 ==> Expired(c).sent == c.sent && Expired(c).outcome == Some(TimedOut)
    ensures c.retryCount < 2 ==>
      && Expired(c).outcome.None? && Expired(c).timerActive
      && Expired(c).sent == c.sent + [
           if c.currentBlock == 0 then Packet([0, 1] + c.filename + [0] + [111, 99, 116, 101, 116] + [0], c.server)
           else Packet([0, 4, c.currentBlock / 256, c.currentBlock % 256],
                       if c.serverTid.Some? then c.serverTid.value else c.server)]
  {
    assert c.currentBlock < 0x1_0000;
    PacketBytes(c.filename, c.currentBlock);
    hide RrqPacket, AckPacket;
  }

  // The sender of the first datagram of four bytes or more.
  function FirstSender(actions: seq<Action>): Option<Address> {
    if actions == [] then None
    else if FirstSender(actions[..|actions| - 1]).Some? then FirstSender(actions[..|actions| - 1])
    else
      match actions[|actions| - 1]
      case Data(_, from) => Some(from)
      case OtherDatagram(d, from) => if |d| >= 4 then Some(from) else None
      case _ => None
  }

  // Requests go to the server's port, and ACKs to the first sender.
  ghost predicate Addressed(c: Client, server: Address, first: Option<Address>) {
    && c.server == server && c.serverTid == first && (c.currentBlock > 0 ==> first.Some?)
    && forall p :: p in c.sent ==> (IsRequest(p.bytes) && p.to == server) || (IsAck(p.bytes) && first == Some(p.to))
  }

  lemma RrqIsRequest(filename: seq<byte>)
    ensures IsRequest(RrqPacket(filename)) && !IsAck(RrqPacket(filename))
  {
  }

  lemma AckIsAck(block: u16)
    ensures IsAck(AckPacket(block)) && !IsRequest(AckPacket(block))
  {
  }

  lemma ReceivedAddressed(c: Client, d: seq<byte>, from: Address, server: Address, first: Option<Address>)
    requires Addressed(c, server, first)
    ensures Addressed(Received(c, d, from), server, if first == None && |d| >= 4 then Some(from) else first)
  {
    Answers(c, d, from);
    ReceivedFields(c, d, from);
    hide IsRequest, U16At, Received;
  }

  lemma SendsKeep(c: Client, block: u16, o: Outcome)
    ensures SendAck(c, block).server == Fire(c, o).server == c.server
    ensures SendAck(c, block).serverTid == Fire(c, o).serverTid == c.serverTid
  {
    hide AckPacket;
  }

  lemma HandledFields(c: Client, d: seq<byte>)
    requires |d| >= 4
    ensures HandleData(c, d).server == HandleError(c, d).server == c.server
    ensures HandleData(c, d).serverTid == HandleError(c, d).serverTid == c.serverTid
  {
    hide U16At, SendAck, Fire;
    var stored := c.(currentBlock := U16At(d, 2), bytesReceived := c.bytesReceived + |d[4..]|,
                     artifact := c.artifact + d[4..]);
    SendsKeep(stored, U16At(d, 2), Success);
    SendsKeep(SendAck(stored, U16At(d, 2)).(timerActive := false), U16At(d, 2), Success);
    SendsKeep(c, U16At(d, 2), Success);
    SendsKeep(c.(timerActive := false), U16At(d, 2), ErrorPacket(U16At(d, 2)));
  }

  lemma ReceivedFields(c: Client, d: seq<byte>, from: Address)
    ensures
      var r := Received(c, d, from);
      && r.server == c.server
      && r.serverTid == (if c.serverTid == None && |d| >= 4 then Some(from) else c.serverTid)
      && (|d| < 4 ==> r.currentBlock == c.currentBlock)
  {
    if |d| >= 4 {
      HandledFields(Ready(c, from), d);
    }
    hide U16At, HandleData, HandleError;
  }

  lemma ExpiredAddressed(c: Client, server: Address, first: Option<Address>)
    requires Addressed(c, server, first)
    ensures Addressed(Expired(c), server, first)
  {
    RrqIsRequest(c.filename);
    AckIsAck(c.currentBlock % 0x1_0000);
    hide IsRequest, IsAck, RrqPacket, AckPacket;
  }

  lemma NextAddressed(s: System, a: Action, file: seq<byte>, server: Address, first: Option<Address>)
    requires Enabled(s, a, file) && Addressed(s.client, server, first)
    ensures
      var from :=
        match a
        case Data(_, from) => Some(from)
        case OtherDatagram(d, from) => if |d| >= 4 then Some(from) else None
        case _ => None;
      Addressed(Next(s, a, file).client, server, if first.Some? then first else from)
  {
    match a
    case Data(k, from) =>
      hide Addressed, Received, Chunk;
      ReceivedAddressed(s.client, DataPacket(k % 0x1_0000, Chunk(file, k)), from, server, first);
    case OtherDatagram(d, from) =>
      hide Addressed, Received;
      ReceivedAddressed(s.client, d, from, server, first);
    case Timeout =>
      hide Addressed, Expired;
      ExpiredAddressed(s.client, server, first);
    case _ =>
  }

  /** In every run each request has gone to the port asked for, and each ACK to the sender of
      the first datagram of four bytes or more, whoever that was. */
  lemma {:induction false} RunAddressed(
    server: Address, filename: seq<byte>, tid: Address, file: seq<byte>, actions: seq<Action>)
    requires Exec(Initial(server, filename, tid), actions, file).Some?
    ensures Addressed(Exec(Initial(server, filename, tid), actions, file).value.client, server, FirstSender(actions))
  {
    if actions == [] {
      RrqIsRequest(filename);
    } else {
      var front, a := actions[..|actions| - 1], actions[|actions| - 1];
      RunAddressed(server, filename, tid, file, front);
      hide Addressed, Next, Enabled, Initial;
      NextAddressed(Exec(Initial(server, filename, tid), front, file).value, a, file, server, FirstSender(front));
    }
  }

  // The sender gets past its first block only when it is the first that the client hears.
  lemma {:induction false} PastFirstBlock(
    server: Address, filename: seq<byte>, tid: Address, file: seq<byte>, actions: seq<Action>)
    requires Exec(Initial(server, filename, tid), actions, file).Some?
    ensures
      var s := Exec(Initial(server, filename, tid), actions, file).value;
      s.tid == tid && (s.position >= 2 ==> FirstSender(actions) == Some(tid))
  {
    if actions != [] {
      var front, a := actions[..|actions| - 1], actions[|actions| - 1];
      PastFirstBlock(server, filename, tid, file, front);
      RunAddressed(server, filename, tid, file, front);
      var s := Exec(Initial(server, filename, tid), front, file).value;
      AckIsAck(s.position % 0x1_0000);
      hide AckPacket, IsAck, IsRequest, Received, Expired, Interrupted, Initial;
    }
  }

  /** With a given address as the first that the client hears, a transfer can succeed exactly
      when the file has at most 65535 blocks and that address is the sender's transfer id, or
      the file has one block only: the ACKs of a client that heard somebody else are lost. */
  lemma WhichSendersSucceed(
    server: Address, filename: seq<byte>, tid: Address, file: seq<byte>, first: Address)
    ensures (exists actions ::
               && Exec(Initial(server, filename, tid), actions, file).Some?
               && Exec(Initial(server, filename, tid), actions, file).value.client.outcome == Some(Success)
               && FirstSender(actions) == Some(first))
       <==> Blocks(file) <= 65535 && (first == tid || Blocks(file) == 1)
  {
    forall actions | Exec(Initial(server, filename, tid), actions, file).Some?
      ensures
        var c := Exec(Initial(server, filename, tid), actions, file).value.client;
        c.outcome == Some(Success) && FirstSender(actions) == Some(first) ==>
          Blocks(file) <= 65535 && (first == tid || Blocks(file) == 1)
    {
      RunKeeps(server, filename, tid, file, actions);
      PastFirstBlock(server, filename, tid, file, actions);
    }
    if Blocks(file) <= 65535 && (first == tid || Blocks(file) == 1) {
      var actions := FetchFrom(server, filename, tid, file, first);
    }
  }

  lemma FetchFrom(server: Address, filename: seq<byte>, tid: Address, file: seq<byte>, first: Address)
    returns (actions: seq<Action>)
    requires Blocks(file) <= 65535 && (first == tid || Blocks(file) == 1)
    ensures Exec(Initial(server, filename, tid), actions, file).Some? && FirstSender(actions) == Some(first)
    ensures Exec(Initial(server, filename, tid), actions, file).value.client.outcome == Some(Success)
  {
    if first == tid {
      actions := FetchInOrder(server, filename, tid, file, Blocks(file));
      RunAddressed(server, filename, tid, file, actions);
      PastFirstBlock(server, filename, tid, file, actions);
      hide Exec, Initial, FirstSender, InStep;
    } else {
      actions := [] + [Advance] + [Data(1, first)];
      OneBlockFrom(server, filename, tid, file, first);
    }
  }

  // The sender of one block needs no ACK.
  lemma OneBlockFrom(server: Address, filename: seq<byte>, tid: Address, file: seq<byte>, first: Address)
    requires Blocks(file) == 1
    ensures
      var actions := [] + [Advance] + [Data(1, first)];
      && Exec(Initial(server, filename, tid), actions, file).Some? && FirstSender(actions) == Some(first)
      && Exec(Initial(server, filename, tid), actions, file).value.client.outcome == Some(Success)
  {
    var s, data := Initial(server, filename, tid), Data(1, first);
    var one, two := [] + [Advance], [] + [Advance] + [data];
    FetchedInitially(server, filename, tid, file);
    AdvanceEnabled(s, 0, file);
    var t := Next(s, Advance, file);
    assert Enabled(t, data, file) && t.client == s.client;
    OnlyBlock(s.client, Chunk(file, 1), first);
    ChunkExtends(file, 1);
    assert Next(t, data, file).client == Received(s.client, DataPacket(1, Chunk(file, 1)), first);
    assert FirstSender(two) == Some(first) by {
      assert one[..0] == [] && two[..1] == one && FirstSender(one) == None;
      hide Received, Enabled, Next, Exec;
    }
    hide *;
    ExecAppend(s, [], Advance, file);
    assert Exec(s, [], file) == Some(s) by {
      StartOfRun(s, file);
    }
    ExecAppend(s, one, data, file);
  }

  lemma StartOfRun(s: System, file: seq<byte>)
    ensures Exec(s, [], file) == Some(s)
  {
  }

  lemma OnlyBlock(c: Client, data: seq<byte>, from: Address)
    requires c.outcome == None && c.currentBlock == 0 && |data| < BLOCK_SIZE
    ensures Received(c, DataPacket(1, data), from).outcome == Some(Success)
  {
    hide DataPacket, AckPacket;
  }

  // ----- runs that hang

  ghost predicate Stalled(c: Client) {
    c.outcome.None? && !c.timerActive
  }

  /** A datagram leaves a waiting client without a timer exactly when it is long enough and
      neither a DATA packet of the block expected or the one before, nor a full ERROR packet. */
  lemma StallsIff(c: Client, d: seq<byte>, from: Address)
    requires Orderly(c) && c.portOpen && c.timerActive
    ensures Stalled(Received(c, d, from)) <==>
      && |d| >= 4
      && !(U16At(d, 0) == OPCODE_DATA && c.currentBlock <= U16At(d, 2) <= c.currentBlock + 1)
      && !(U16At(d, 0) == OPCODE_ERROR && |d| > 4)
  {
    hide U16At, AckPacket;
  }

  /** Without a further datagram or an interrupt a stalled client stays so: no timer is left. */
  lemma StalledWaits(s: System, a: Action, file: seq<byte>)
    requires Stalled(s.client) && Enabled(s, a, file)
    ensures a.Advance? || a.Data? || a.OtherDatagram? || a.CtrlC?
    ensures a.Advance? ==> Next(s, a, file).client == s.client
  {
    hide Received;
  }

  /** A late copy of an old block is enough: every file of three blocks or more has a run of
      the sender and the network in which the transfer hangs. */
  lemma LateBlockStalls(server: Address, filename: seq<byte>, tid: Address, file: seq<byte>)
    returns (actions: seq<Action>)
    requires 3 <= Blocks(file)
    ensures Exec(Initial(server, filename, tid), actions, file).Some?
    ensures Stalled(Exec(Initial(server, filename, tid), actions, file).value.client)
  {
    actions := FetchInOrder(server, filename, tid, file, 2);
    var s := Exec(Initial(server, filename, tid), actions, file).value;
    var late := Data(1, tid);
    assert Enabled(s, late, file) && s.client.currentBlock == 2 && s.client.outcome == None;
    LateBlock(s.client, Chunk(file, 1), tid);
    assert Next(s, late, file).client == Received(s.client, DataPacket(1, Chunk(file, 1)), tid);
    hide *;
    ExecAppend(Initial(server, filename, tid), actions, late, file);
    actions := actions + [late];
  }

  lemma LateBlock(c: Client, data: seq<byte>, from: Address)
    requires c.outcome == None && c.currentBlock == 2
    ensures Stalled(Received(c, DataPacket(1, data), from))
  {
    hide DataPacket, AckPacket;
  }

  /** `TFTPClient`, with its port, its deferred and the packets it has written. */
  class TftpClient {
    const host: Address
    const filename: seq<byte>
    var artifact: seq<byte>
    var currentBlock: nat
    var lastPacket: seq<byte>
    var retryCount: nat
    var timerActive: bool
    var bytesReceived: nat
    var serverTid: Option<Address>
    var outcome: Option<Outcome>
    var portOpen: bool
    var sent: seq<Packet>
    ghost var refired: bool
    ghost var resends: nat

    ghost function Current(): Client
      reads this
    {
      Client(host, filename, artifact, currentBlock, lastPacket, retryCount, timerActive, bytesReceived,
        serverTid, outcome, refired, portOpen, sent, resends)
    }

    // The constructor and `startProtocol`.
    constructor (host: Address, filename: seq<byte>)
      ensures Current() == Started(host, filename) && Orderly(Current())
    {
      this.host, this.filename := host, filename;
      artifact, currentBlock, lastPacket, retryCount, timerActive := [], 0, [], 0, false;
      bytesReceived, serverTid, outcome, portOpen, sent := 0, None, None, true, [];
      refired, resends := false, 0;
      new;
      SendRRQ();
      StartsOrderly(host, filename);
    }

    method SendRRQ()
      modifies this`sent, this`timerActive
      ensures Current() == SendRrq(old(Current()))
    {
      var packet := PutU16(OPCODE_RRQ);
      packet := packet + filename + [0];
      packet := packet + [111, 99, 116, 101, 116] + [0];
      assert packet == RrqPacket(filename);
      sent := sent + [Packet(packet, host)];
      ScheduleTimeout();
    }

    method SendACK(block: u16)
      modifies this`sent, this`lastPacket, this`timerActive
      ensures Current() == SendAck(old(Current()), block)
    {
      var packet := PutU16(OPCODE_ACK) + PutU16(block);
      if serverTid.Some? {
        sent := sent + [Packet(packet, serverTid.value)];
      } else {
        sent := sent + [Packet(packet, host)];
      }
      lastPacket := packet;
      ScheduleTimeout();
    }

    // A timer under way is cancelled, which leaves it inactive, and a new one started.
    method ScheduleTimeout()
      modifies this`timerActive
      ensures timerActive
    {
      timerActive := false;
      timerActive := true;
    }

    // `callback` or `errback` of the deferred, whose first call closes the port.
    method FireDeferred(o: Outcome)
      modifies this`outcome, this`portOpen, this`refired
      ensures Current() == Fire(old(Current()), o)
    {
      if outcome.Some? {
        refired := true;
      } else {
        outcome, portOpen := Some(o), false;
      }
    }

    method DatagramReceived(datagram: seq<byte>, from: Address)
      requires Orderly(Current()) && portOpen
      modifies this
      ensures Current() == Received(old(Current()), datagram, from)
      ensures Orderly(Current())
    {
      StaysOrderly(Current(), datagram, from);
      hide Orderly;
      resends := 0;
      if |datagram| < 4 {
        return;
      }
      var opcode := U16At(datagram, 0);
      if serverTid == None {
        serverTid := Some(from);
      }
      timerActive := false;
      retryCount := 0;
      if opcode == OPCODE_DATA {
        HandleDATA(datagram);
      } else if opcode == OPCODE_ERROR {
        HandleERROR(datagram);
      }
    }

    method HandleDATA(packet: seq<byte>)
      requires |packet| >= 4
      modifies this
      ensures Current() == HandleData(old(Current()), packet)
    {
      hide U16At, SendAck, Fire;
      var block, data := U16At(packet, 2), packet[4..];
      if block == currentBlock + 1 {
        Store(block, data);
        SendACK(block);
        if |data| < BLOCK_SIZE {
          Finish(Success);
        }
      } else if block == currentBlock {
        SendACK(block);
      }
    }

    method Store(block: u16, data: seq<byte>)
      modifies this`currentBlock, this`bytesReceived, this`artifact
      ensures Current() == old(Current()).(currentBlock := block, bytesReceived := old(bytesReceived) + |data|,
                                           artifact := old(artifact) + data)
    {
      currentBlock := block;
      bytesReceived := bytesReceived + |data|;
      artifact := artifact + data;
    }

    // Cancels the timer and fires the deferred.
    method Finish(o: Outcome)
      modifies this`timerActive, this`outcome, this`portOpen, this`refired
      ensures Current() == Fire(old(Current()).(timerActive := false), o)
    {
      timerActive := false;
      FireDeferred(o);
    }

    method HandleERROR(packet: seq<byte>)
      requires |packet| >= 4
      modifies this`timerActive, this`outcome, this`portOpen, this`refired
      ensures Current() == HandleError(old(Current()), packet)
    {
      hide U16At, Fire;
      if |packet| < 5 {
        return;
      }
      Finish(ErrorPacket(U16At(packet, 2)));
    }

    method HandleTimeout()
      requires Orderly(Current()) && timerActive
      modifies this
      ensures Current() == Expired(old(Current())) && Orderly(Current())
    {
      StaysOrderly(Current(), [], host);
      assert currentBlock < 0x1_0000;
      hide Orderly, SendAck, SendRrq, Fire, Received, Interrupted;
      timerActive := false;
      retryCount := retryCount + 1;
      if retryCount >= MAX_RETRIES {
        FireDeferred(TimedOut);
        return;
      }
      resends := resends + 1;
      if currentBlock == 0 {
        SendRRQ();
      } else {
        SendACK(currentBlock);
      }
    }

    // `handle_CTRL_C` of the command.
    method HandleCtrlC()
      requires Orderly(Current())
      modifies this`timerActive, this`outcome, this`portOpen, this`refired
      ensures Current() == Interrupted(old(Current())) && Orderly(Current())
    {
      StaysOrderly(Current(), [], host);
      hide Orderly;
      timerActive := false;
      if outcome.None? {
        FireDeferred(Cancelled);
      }
    }
  }
}
