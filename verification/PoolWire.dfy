/** The messages between the pool's clients and its server
    (src/cowrie/pool_interface/client.py and src/backend_pool/pool_server.py). */
module PoolWire {
  import opened Common

  const OP_I: byte := 105
  const OP_R: byte := 114
  const OP_F: byte := 102
  const OP_U: byte := 117

  datatype Message =
    | Initialise(maxVm: u32, unusedTimeout: u32, shareGuests: bool)
    | Ask(src: seq<byte>)
    | GiveBack(id: u32)
    | PutBack(id: u32)
    | Ignored

  datatype Reply =
    | Ready(code: u32)
    | Refused
    | Granted(id: u32, ip: seq<byte>, ssh: u16, telnet: u16, snapshot: seq<byte>)

  // The 16-bit length fields hold these; packing a longer string raises struct.error.
  predicate Sendable(m: Message) { m.Ask? ==> |m.src| < 0x1_0000 }

  predicate Packable(r: Reply) { r.Granted? ==> |r.ip| < 0x1_0000 && |r.snapshot| < 0x1_0000 }

  // ----- requests: packed by the client, unpacked by the server

  function SendMessage(m: Message): seq<byte>
    requires Sendable(m) && !m.Ignored?
  {
    match m
    case Initialise(maxVm, timeout, share) => [OP_I] + PutU32(maxVm) + PutU32(timeout) + [if share then 1 else 0]
    case Ask(src) => [OP_R] + PutU16(|src|) + src
    case GiveBack(id) => [OP_F] + PutU32(id)
    case PutBack(id) => [OP_U] + PutU32(id)
  }

  // None when unpacking raises an exception.
  function ReadMessage(data: seq<byte>): Option<Message> {
    if data == [] then None
    else if data[0] == OP_I then
      if |data| != 10 then None else Some(Initialise(U32At(data, 1), U32At(data, 5), data[9] != 0))
    else if data[0] == OP_R then
      if |data| < 3 || |data| - 3 != U16At(data, 1) then None else Some(Ask(data[3..]))
    else if data[0] == OP_F then
      if |data| != 5 then None else Some(GiveBack(U32At(data, 1)))
    else if data[0] == OP_U then
      if |data| != 5 then None else Some(PutBack(U32At(data, 1)))
    else Some(Ignored)
  }

  function BigEndian(data: seq<byte>): nat {
    if data == [] then 0 else 256 * BigEndian(data[..|data| - 1]) + data[|data| - 1]
  }

  lemma BigEndianFields(data: seq<byte>)
    ensures |data| == 2 ==> BigEndian(data) == U16At(data, 0)
    ensures |data| == 4 ==> BigEndian(data) == U32At(data, 0)
  {
    if |data| == 2 {
      assert data[..1][..0] == [] && data[..1][0] == data[0];
    }
    if |data| == 4 {
      var three, two, one := data[..3], data[..2], data[..1];
      assert three[..2] == two && two[..1] == one && one[..0] == [];
      assert BigEndian(one) == data[0] && BigEndian(two) == 256 * BigEndian(one) + data[1];
      assert BigEndian(three) == 256 * BigEndian(two) + data[2];
    }
  }

  lemma U32Field(before: seq<byte>, v: u32, after: seq<byte>)
    ensures U32At(before + PutU32(v) + after, |before|) == v
  {
  }

  /** The server reads back every message the client can send. */
  lemma MessageRoundTrip(m: Message)
    requires Sendable(m) && !m.Ignored?
    ensures ReadMessage(SendMessage(m)) == Some(m)
  {
  }

  // ----- responses: packed by the server, unpacked by the client

  function SendReply(r: Reply): seq<byte>
    requires Packable(r)
  {
    match r
    case Ready(code) => [OP_I] + PutU32(code)
    case Refused => [OP_R] + PutU32(1)
    case Granted(id, ip, ssh, telnet, snapshot) =>
      [OP_R] + PutU32(0) + PutU32(id) + PutU16(|ip|) + ip + PutU16(ssh) + PutU16(telnet) + PutU16(|snapshot|) + snapshot
  }

  // None when unpacking raises, or the response is of no kind the client knows.
  function ReadReply(data: seq<byte>): Option<Reply> {
    if |data| < 5 then None
    else if data[0] == OP_I then Some(Ready(U32At(data, 1)))
    else if data[0] != OP_R then None
    else if U32At(data, 1) != 0 then Some(Refused)
    else ReadGrant(data)
  }

  function ReadGrant(data: seq<byte>): Option<Reply>
    requires |data| >= 5
  {
    if |data| < 11 then None
    else
      var at := 11 + U16At(data, 9);
      if |data| < at + 6 then None
      else
        var end := at + 6 + U16At(data, at + 4);
        if |data| < end then None
        else Some(Granted(U32At(data, 5), data[11..at], U16At(data, at), U16At(data, at + 2), data[at + 6..end]))
  }

  lemma GrantHead(code: u32, id: u32, n: u16, after: seq<byte>)
    ensures
      var data := [OP_R] + PutU32(code) + PutU32(id) + PutU16(n) + after;
      data[0] == OP_R && U32At(data, 1) == code && U32At(data, 5) == id && U16At(data, 9) == n
  {
  }

  lemma ThreeFields(before: seq<byte>, a: u16, b: u16, c: u16, after: seq<byte>)
    ensures
      var data := before + PutU16(a) + PutU16(b) + PutU16(c) + after;
      var at := |before|;
      U16At(data, at) == a && U16At(data, at + 2) == b && U16At(data, at + 4) == c
  {
  }

  lemma GrantRoundTrip(id: u32, ip: seq<byte>, ssh: u16, telnet: u16, snapshot: seq<byte>, rest: seq<byte>)
    requires |ip| < 0x1_0000 && |snapshot| < 0x1_0000
    ensures
      var r := Granted(id, ip, ssh, telnet, snapshot);
      ReadReply(SendReply(r) + rest) == Some(r)
  {
    var data := SendReply(Granted(id, ip, ssh, telnet, snapshot)) + rest;
    var head := [OP_R] + PutU32(0) + PutU32(id) + PutU16(|ip|);
    var ports := PutU16(ssh) + PutU16(telnet) + PutU16(|snapshot|);
    assert data == head + (ip + ports + snapshot + rest);
    assert data == (head + ip) + PutU16(ssh) + PutU16(telnet) + PutU16(|snapshot|) + (snapshot + rest);
    hide SendReply, PutU16, PutU32, U16At, U32At;
    GrantHead(0, id, |ip|, ip + ports + snapshot + rest);
    ThreeFields(head + ip, ssh, telnet, |snapshot|, snapshot + rest);
    assert data[11..11 + |ip|] == ip;
    assert data[17 + |ip|..17 + |ip| + |snapshot|] == snapshot;
  }

  /** The client reads back every response the server can send, whatever follows it. */
  lemma ReplyRoundTrip(r: Reply, rest: seq<byte>)
    requires Packable(r)
    ensures ReadReply(SendReply(r) + rest) == Some(r)
  {
    match r
    case Ready(code) => U32Field([OP_I], code, rest);
    case Refused => U32Field([OP_R], 1, rest);
    case Granted(id, ip, ssh, telnet, snapshot) => GrantRoundTrip(id, ip, ssh, telnet, snapshot, rest);
  }

  /** The layout of the messages, as the client packs them. */
  lemma MessageLayout(maxVm: u32, timeout: u32, share: bool, src: seq<byte>, id: u32)
    requires |src| < 0x1_0000
    ensures
      var d := SendMessage(Initialise(maxVm, timeout, share));
      && |d| == 10 && d[0] == 'i' as int && BigEndian(d[1..5]) == maxVm && BigEndian(d[5..9]) == timeout
      && d[9] == if share then 1 else 0
    ensures
      var d := SendMessage(Ask(src));
      |d| == 3 + |src| && d[0] == 'r' as int && BigEndian(d[1..3]) == |src| && d[3..] == src
    ensures
      var f, u := SendMessage(GiveBack(id)), SendMessage(PutBack(id));
      && |f| == |u| == 5 && f[0] == 'f' as int && u[0] == 'u' as int
      && BigEndian(f[1..]) == id && BigEndian(u[1..]) == id
  {
    FieldBytes(maxVm, 0);
    FieldBytes(timeout, 0);
    FieldBytes(id, |src|);
    var d := SendMessage(Initialise(maxVm, timeout, share));
    assert d[1..5] == PutU32(maxVm) && d[5..9] == PutU32(timeout);
    assert SendMessage(Ask(src))[1..3] == PutU16(|src|);
    assert SendMessage(GiveBack(id))[1..] == PutU32(id) && SendMessage(PutBack(id))[1..] == PutU32(id);
    hide BigEndian, PutU16, PutU32;
  }

  lemma GrantFields(
    code: seq<byte>, id: seq<byte>, n: seq<byte>, ip: seq<byte>, ssh: seq<byte>, telnet: seq<byte>, m: seq<byte>,
    snapshot: seq<byte>)
    requires |code| == |id| == 4 && |n| == |ssh| == |telnet| == |m| == 2
    ensures
      var d, at := [OP_R] + code + id + n + ip + ssh + telnet + m + snapshot, 11 + |ip|;
      && |d| == at + 6 + |snapshot| && d[0] == OP_R && d[1..5] == code && d[5..9] == id && d[9..11] == n
      && d[11..at] == ip && d[at..at + 2] == ssh && d[at + 2..at + 4] == telnet && d[at + 4..at + 6] == m
      && d[at + 6..] == snapshot
  {
  }

  /** The layout of a grant: the operation, a status of zero, the id, the address with its
      length, the two ports, and the snapshot with its length, all in network byte order. */
  lemma GrantLayout(id: u32, ip: seq<byte>, ssh: u16, telnet: u16, snapshot: seq<byte>)
    requires |ip| < 0x1_0000 && |snapshot| < 0x1_0000
    ensures
      var d, at := SendReply(Granted(id, ip, ssh, telnet, snapshot)), 11 + |ip|;
      && |d| == at + 6 + |snapshot| && d[0] == 'r' as int && d[1..5] == [0, 0, 0, 0]
      && BigEndian(d[5..9]) == id && BigEndian(d[9..11]) == |ip| && d[11..at] == ip
      && BigEndian(d[at..at + 2]) == ssh && BigEndian(d[at + 2..at + 4]) == telnet
      && BigEndian(d[at + 4..at + 6]) == |snapshot| && d[at + 6..] == snapshot
  {
    hide *;
    SentGrant(id, ip, ssh, telnet, snapshot);
    FieldBytes(id, ssh);
    FieldBytes(0, telnet);
    FieldBytes(0, |ip|);
    FieldBytes(0, |snapshot|);
    GrantFields(PutU32(0), PutU32(id), PutU16(|ip|), ip, PutU16(ssh), PutU16(telnet), PutU16(|snapshot|), snapshot);
  }

  lemma SentGrant(id: u32, ip: seq<byte>, ssh: u16, telnet: u16, snapshot: seq<byte>)
    requires |ip| < 0x1_0000 && |snapshot| < 0x1_0000
    ensures
      SendReply(Granted(id, ip, ssh, telnet, snapshot))
      == [OP_R] + PutU32(0) + PutU32(id) + PutU16(|ip|) + ip + PutU16(ssh) + PutU16(telnet) + PutU16(|snapshot|)
         + snapshot
    ensures OP_R == 'r' as int
  {
  }

  lemma FieldBytes(v: u32, w: u16)
    ensures BigEndian(PutU32(v)) == v && |PutU32(v)| == 4 && PutU32(0) == [0, 0, 0, 0]
    ensures BigEndian(PutU16(w)) == w && |PutU16(w)| == 2
  {
    U32Field([], v, []);
    assert [] + PutU32(v) + [] == PutU32(v);
    BigEndianFields(PutU32(v));
    BigEndianFields(PutU16(w));
  }
}
