/** The tty log writer and reader (src/cowrie/core/ttylog.py). */
module TtyLog {
  import opened Common

  const OP_OPEN := 1
  const OP_CLOSE := 2
  const OP_WRITE := 3
  const TYPE_INPUT := 1
  const TYPE_OUTPUT := 2
  const HEADER_SIZE: nat := 24

  // The fields of the packed header "<iLiiLL".
  datatype Header = Header(op: int, tty: int, length: int, direction: int, sec: int, usec: int)

  datatype Record = Record(header: Header, data: seq<byte>)

  predicate FitsI32(v: int) { -0x8000_0000 <= v < 0x8000_0000 }

  predicate FitsU32(v: int) { 0 <= v < 0x1_0000_0000 }

  // `struct.pack` raises struct.error for any other field values.
  predicate Packable(h: Header) {
    && FitsI32(h.op) && FitsU32(h.tty) && FitsI32(h.length)
    && FitsI32(h.direction) && FitsU32(h.sec) && FitsU32(h.usec)
  }

  // Four little-endian bytes; a negative value is stored in two's complement.
  function PutWord(v: int): (s: seq<byte>)
    ensures |s| == 4 && UnsignedAt(s, 0) == v % 0x1_0000_0000
  {
    var q0 := v % 0x1_0000_0000;
    var q1 := q0 / 256;
    var q2 := q1 / 256;
    var q3 := q2 / 256;
    [q0 % 256, q1 % 256, q2 % 256, q3]
  }

  function UnsignedAt(s: seq<byte>, at: nat): int
    requires at + 4 <= |s|
  {
    (s[at] as int) + 256 * (s[at + 1] + 256 * (s[at + 2] + 256 * (s[at + 3] as int)))
  }

  function SignedAt(s: seq<byte>, at: nat): int
    requires at + 4 <= |s|
  {
    var u := UnsignedAt(s, at);
    if u < 0x8000_0000 then u else u - 0x1_0000_0000
  }

  function Pack(h: Header): (s: seq<byte>)
    ensures |s| == HEADER_SIZE
  {
    PutWord(h.op) + PutWord(h.tty) + PutWord(h.length) + PutWord(h.direction) + PutWord(h.sec) + PutWord(h.usec)
  }

  function Unpack(s: seq<byte>): Header
    requires |s| >= HEADER_SIZE
  {
    Header(SignedAt(s, 0), UnsignedAt(s, 4), SignedAt(s, 8), SignedAt(s, 12), UnsignedAt(s, 16), UnsignedAt(s, 20))
  }

  // `fd.read(length)`: -1 reads the rest of the file, and the end of the file cuts any read short.
  function ReadData(s: seq<byte>, length: int): seq<byte>
    requires length >= -1
  {
    if length == -1 || length > |s| then s else s[..length]
  }

  // The records the reader steps through. None: `fd.read` raised ValueError
  // (a length below -1), which the reader does not catch.
  function Records(log: seq<byte>): Option<seq<Record>>
    decreases |log|
  {
    if |log| < HEADER_SIZE then Some([])
    else
      var h := Unpack(log);
      if h.length < -1 then None
      else
        var data := ReadData(log[HEADER_SIZE..], h.length);
        match Records(log[HEADER_SIZE..][|data|..])
        case None => None
        case Some(rest) => Some([Record(h, data)] + rest)
  }

  predicate IsOutput(h: Header) { h.op == OP_WRITE && h.direction == TYPE_OUTPUT }

  // The bytes that are hashed: all data but that of output records.
  function Inputs(records: seq<Record>): seq<byte> {
    if records == [] then []
    else (if IsOutput(records[0].header) then [] else records[0].data) + Inputs(records[1..])
  }

  // A record as the writers leave it in the log.
  ghost predicate WellFormed(r: Record) {
    Packable(r.header) && r.header.length == |r.data|
  }

  function EncodeRecord(r: Record): seq<byte> { Pack(r.header) + r.data }

  function Encode(records: seq<Record>): seq<byte> {
    if records == [] then [] else EncodeRecord(records[0]) + Encode(records[1..])
  }

  lemma WordRoundTrip(v: int, before: seq<byte>, after: seq<byte>)
    ensures FitsU32(v) ==> UnsignedAt(before + PutWord(v) + after, |before|) == v
    ensures FitsI32(v) ==> SignedAt(before + PutWord(v) + after, |before|) == v
  {
    var word := PutWord(v);
    assert UnsignedAt(before + word + after, |before|) == UnsignedAt(word, 0);
  }

  function LittleEndian(s: seq<byte>): nat {
    if s == [] then 0 else s[0] as int + 256 * LittleEndian(s[1..])
  }

  lemma WordBytes(v: int)
    ensures |PutWord(v)| == 4 && LittleEndian(PutWord(v)) == v % 0x1_0000_0000
  {
    var s := PutWord(v);
    assert s[1..][1..] == s[2..] && s[2..][1..] == s[3..] && s[3..][1..] == [];
    assert LittleEndian(s[3..]) == s[3] && LittleEndian(s[2..]) == s[2] + 256 * LittleEndian(s[3..]);
    assert LittleEndian(s[1..]) == s[1] + 256 * LittleEndian(s[2..]);
  }

  /** The layout of a header: six fields of four bytes, the lowest first. */
  lemma HeaderLayout(h: Header)
    requires Packable(h) && h.op >= 0 && h.length >= 0 && h.direction >= 0
    ensures
      var s := Pack(h);
      && LittleEndian(s[0..4]) == h.op && LittleEndian(s[4..8]) == h.tty && LittleEndian(s[8..12]) == h.length
      && LittleEndian(s[12..16]) == h.direction && LittleEndian(s[16..20]) == h.sec && LittleEndian(s[20..24]) == h.usec
  {
    hide *;
    WordBytes(h.op);
    WordBytes(h.tty);
    WordBytes(h.length);
    WordBytes(h.direction);
    WordBytes(h.sec);
    WordBytes(h.usec);
    PackIsWords(h);
    SixWords(PutWord(h.op), PutWord(h.tty), PutWord(h.length), PutWord(h.direction), PutWord(h.sec), PutWord(h.usec));
    Fits(h);
  }

  lemma Fits(h: Header)
    requires Packable(h)
    ensures h.op < 0x1_0000_0000 && 0 <= h.tty < 0x1_0000_0000 && h.length < 0x1_0000_0000
    ensures h.direction < 0x1_0000_0000 && 0 <= h.sec < 0x1_0000_0000 && 0 <= h.usec < 0x1_0000_0000
  {
  }

  lemma PackIsWords(h: Header)
    ensures Pack(h) ==
      PutWord(h.op) + PutWord(h.tty) + PutWord(h.length) + PutWord(h.direction) + PutWord(h.sec) + PutWord(h.usec)
  {
  }

  lemma SixWords(a: seq<byte>, b: seq<byte>, c: seq<byte>, d: seq<byte>, e: seq<byte>, f: seq<byte>)
    requires |a| == |b| == |c| == |d| == |e| == |f| == 4
    ensures
      var s := a + b + c + d + e + f;
      && s[0..4] == a && s[4..8] == b && s[8..12] == c && s[12..16] == d && s[16..20] == e && s[20..24] == f
  {
  }

  lemma HeaderRoundTrip(h: Header, rest: seq<byte>)
    requires Packable(h)
    ensures Unpack(Pack(h) + rest) == h
  {
    var s := Pack(h) + rest;
    var op, tty, len := PutWord(h.op), PutWord(h.tty), PutWord(h.length);
    var dir, sec, usec := PutWord(h.direction), PutWord(h.sec), PutWord(h.usec);
    assert s == [] + op + (tty + len + dir + sec + usec + rest);
    assert s == op + tty + (len + dir + sec + usec + rest);
    assert s == (op + tty) + len + (dir + sec + usec + rest);
    assert s == (op + tty + len) + dir + (sec + usec + rest);
    assert s == (op + tty + len + dir) + sec + (usec + rest);
    assert s == (op + tty + len + dir + sec) + usec + rest;
    hide *;
    WordRoundTrip(h.op, [], tty + len + dir + sec + usec + rest);
    WordRoundTrip(h.tty, op, len + dir + sec + usec + rest);
    WordRoundTrip(h.length, op + tty, dir + sec + usec + rest);
    WordRoundTrip(h.direction, op + tty + len, sec + usec + rest);
    WordRoundTrip(h.sec, op + tty + len + dir, usec + rest);
    WordRoundTrip(h.usec, op + tty + len + dir + sec, rest);
  }

  // One record written in front of a log is the first record read back from it.
  lemma RecordsCons(r: Record, rest: seq<byte>)
    requires WellFormed(r)
    ensures Records(EncodeRecord(r) + rest) ==
            match Records(rest) case None => None case Some(rs) => Some([r] + rs)
  {
    var log := EncodeRecord(r) + rest;
    HeaderRoundTrip(r.header, r.data + rest);
    assert log == Pack(r.header) + (r.data + rest);
    assert log[HEADER_SIZE..] == r.data + rest;
    assert ReadData(r.data + rest, |r.data|) == r.data;
    assert (r.data + rest)[|r.data|..] == rest;
  }

  // Every record written is read back, whatever the data bytes are.
  lemma {:induction false} RecordsOfEncode(records: seq<Record>)
    requires forall r :: r in records ==> WellFormed(r)
    ensures Records(Encode(records)) == Some(records)
  {
    if records != [] {
      RecordsOfEncode(records[1..]);
      RecordsCons(records[0], Encode(records[1..]));
      assert records == [records[0]] + records[1..];
    }
  }

  lemma {:induction false} EncodeAppends(records: seq<Record>, r: Record)
    ensures Encode(records + [r]) == Encode(records) + EncodeRecord(r)
  {
    if records == [] {
      assert records + [r] == [r];
      assert Encode([]) == [];
    } else {
      EncodeAppends(records[1..], r);
      assert (records + [r])[1..] == records[1..] + [r];
    }
  }

  // The reader of a log cut anywhere hashes a prefix of what it hashes for the
  // whole log. This holds of any bytes, not only of logs the writers made.
  lemma {:induction false} CutLogHashesPrefix(kept: seq<byte>, lost: seq<byte>)
    requires Records(kept + lost).Some?
    ensures Records(kept).Some?
    ensures Inputs(Records(kept).value) <= Inputs(Records(kept + lost).value)
    decreases |kept|
  {
    if |kept| >= HEADER_SIZE {
      var body, h := kept[HEADER_SIZE..], Unpack(kept);
      assert Unpack(kept + lost) == h;
      assert (kept + lost)[HEADER_SIZE..] == body + lost;
      if h.length == -1 || h.length > |body| {
        CutInsideData(kept, lost);
      } else {
        var data := body[..h.length];
        assert ReadData(body + lost, h.length) == data;
        assert (body + lost)[|data|..] == body[|data|..] + lost;
        CutLogHashesPrefix(body[|data|..], lost);
        PrefixOfConcat(if IsOutput(h) then [] else data,
          Inputs(Records(body[|data|..]).value), Inputs(Records(body[|data|..] + lost).value));
      }
    }
  }

  lemma PrefixOfConcat<T>(a: seq<T>, b: seq<T>, c: seq<T>)
    requires b <= c
    ensures a + b <= a + c
  {
  }

  // The cut lies inside the data of the first record.
  lemma CutInsideData(kept: seq<byte>, lost: seq<byte>)
    requires |kept| >= HEADER_SIZE && Records(kept + lost).Some?
    requires var h := Unpack(kept); h.length == -1 || h.length > |kept[HEADER_SIZE..]|
    ensures Records(kept).Some?
    ensures Inputs(Records(kept).value) <= Inputs(Records(kept + lost).value)
  {
    hide *;
    SameHeader(kept, lost);
    ReadsBeyond(kept[HEADER_SIZE..], lost, Unpack(kept).length);
    LastRecord(kept);
    InputsOfFirst(kept + lost);
  }

  lemma SameHeader(kept: seq<byte>, lost: seq<byte>)
    requires |kept| >= HEADER_SIZE
    ensures Unpack(kept + lost) == Unpack(kept) && (kept + lost)[HEADER_SIZE..] == kept[HEADER_SIZE..] + lost
  {
  }

  lemma ReadsBeyond(body: seq<byte>, lost: seq<byte>, length: int)
    requires length == -1 || length > |body|
    ensures body <= ReadData(body + lost, length)
  {
  }

  lemma LastRecord(log: seq<byte>)
    requires |log| >= HEADER_SIZE
    requires var h := Unpack(log); h.length == -1 || h.length > |log[HEADER_SIZE..]|
    ensures Records(log) == Some([Record(Unpack(log), log[HEADER_SIZE..])])
    ensures Inputs(Records(log).value) == if IsOutput(Unpack(log)) then [] else log[HEADER_SIZE..]
  {
    var body := log[HEADER_SIZE..];
    assert ReadData(body, Unpack(log).length) == body && body[|body|..] == [];
    assert [Record(Unpack(log), body)] + [] == [Record(Unpack(log), body)];
    assert Inputs([]) == [];
  }

  lemma InputsOfFirst(log: seq<byte>)
    requires |log| >= HEADER_SIZE && Unpack(log).length >= -1 && Records(log).Some?
    ensures
      var h := Unpack(log);
      (if IsOutput(h) then [] else ReadData(log[HEADER_SIZE..], h.length)) <= Inputs(Records(log).value)
  {
    var data := ReadData(log[HEADER_SIZE..], Unpack(log).length);
    var rest := Records(log[HEADER_SIZE..][|data|..]).value;
    assert ([Record(Unpack(log), data)] + rest)[1..] == rest;
  }

  // What the reader has hashed so far, and what is still to come.
  ghost predicate ReadUpTo(log: seq<byte>, inputbytes: seq<byte>, rest: seq<byte>) {
    match Records(rest)
    case None => Records(log).None?
    case Some(rs) => Records(log).Some? && Inputs(Records(log).value) == inputbytes + Inputs(rs)
  }

  lemma ReadOne(log: seq<byte>, inputbytes: seq<byte>, rest: seq<byte>)
    requires ReadUpTo(log, inputbytes, rest)
    requires |rest| >= HEADER_SIZE && Unpack(rest).length >= -1
    ensures
      var h := Unpack(rest);
      var data := ReadData(rest[HEADER_SIZE..], h.length);
      ReadUpTo(log, if IsOutput(h) then inputbytes else inputbytes + data, rest[HEADER_SIZE..][|data|..])
  {
    var h := Unpack(rest);
    var data := ReadData(rest[HEADER_SIZE..], h.length);
    var tail := Records(rest[HEADER_SIZE..][|data|..]);
    if tail.Some? {
      var rs := [Record(h, data)] + tail.value;
      assert Records(rest) == Some(rs);
      hide Records, Unpack, ReadData;
      InputsOfOne(Record(h, data), tail.value, inputbytes);
    }
  }

  lemma InputsOfOne(r: Record, rs: seq<Record>, inputbytes: seq<byte>)
    ensures
      var more := if IsOutput(r.header) then inputbytes else inputbytes + r.data;
      inputbytes + Inputs([r] + rs) == more + Inputs(rs)
  {
    assert ([r] + rs)[1..] == rs;
    ConcatAssociates(inputbytes, if IsOutput(r.header) then [] else r.data, Inputs(rs));
    assert [] + Inputs(rs) == Inputs(rs);
  }

  // Python's int(): towards zero.
  function Trunc(x: real): int {
    if x >= 0.0 then x.Floor else -((-x).Floor)
  }

  function Stamped(op: int, length: int, direction: int, stamp: real): Header {
    var sec := Trunc(stamp);
    Header(op, 0, length, direction, sec, Trunc(1000000.0 * (stamp - sec as real)))
  }

  /** The seconds and microseconds of a record are the time stamp cut to whole microseconds; a
      time before 1970 cannot be packed unless both are zero. */
  lemma StampedMeans(op: int, length: int, direction: int, stamp: real)
    ensures
      var h := Stamped(op, length, direction, stamp);
      && h.op == op && h.tty == 0 && h.length == length && h.direction == direction
      && (stamp >= 0.0 ==>
            && 0 <= h.usec < 1000000
            && 1000000.0 * (h.sec as real) + h.usec as real <= 1000000.0 * stamp
            && 1000000.0 * stamp < 1000000.0 * (h.sec as real) + h.usec as real + 1.0)
      && (stamp < 0.0 ==> (h.sec >= 0 && h.usec >= 0 <==> 1000000.0 * stamp > -1.0))
  {
    var sec := Trunc(stamp);
    var micro := 1000000.0 * (stamp - sec as real);
    if stamp >= 0.0 {
      assert 0.0 <= stamp - sec as real < 1.0;
      assert 0.0 <= micro < 1000000.0;
    } else {
      assert -1.0 < stamp - sec as real <= 0.0;
      assert -1000000.0 < micro <= 0.0;
    }
  }

  /** A record can be packed exactly when its operation, length and direction fit into 32 bits
      with a sign, and its time lies from 1970 on, less a microsecond, and before 2106. */
  lemma StampedPacksIff(op: int, length: int, direction: int, stamp: real)
    ensures Packable(Stamped(op, length, direction, stamp)) <==>
      && -2147483648 <= op <= 2147483647 && -2147483648 <= length <= 2147483647
      && -2147483648 <= direction <= 2147483647
      && -1.0 < 1000000.0 * stamp && stamp < 4294967296.0
  {
    StampedMeans(op, length, direction, stamp);
  }

  // What a session types and shows, in order.
  datatype Part = Part(typed: bool, data: seq<byte>, stamp: real)

  function Typed(parts: seq<Part>): seq<byte> {
    if parts == [] then [] else (if parts[0].typed then parts[0].data else []) + Typed(parts[1..])
  }

  function Written(parts: seq<Part>): seq<Record> {
    if parts == [] then []
    else
      var p := parts[0];
      var direction := if p.typed then TYPE_INPUT else TYPE_OUTPUT;
      [Record(Stamped(OP_WRITE, |p.data|, direction, p.stamp), p.data)] + Written(parts[1..])
  }

  // A log that is opened, written to and closed.
  function Session(start: real, parts: seq<Part>, end: real): seq<Record> {
    [Record(Stamped(OP_OPEN, 0, 0, start), [])] + Written(parts) + [Record(Stamped(OP_CLOSE, 0, 0, end), [])]
  }

  lemma {:induction false} InputsConcat(a: seq<Record>, b: seq<Record>)
    ensures Inputs(a + b) == Inputs(a) + Inputs(b)
  {
    if a == [] {
      assert a + b == b;
    } else {
      assert (a + b)[1..] == a[1..] + b;
      InputsConcat(a[1..], b);
      ConcatAssociates(if IsOutput(a[0].header) then [] else a[0].data, Inputs(a[1..]), Inputs(b));
    }
  }

  lemma {:induction false} WrittenInputs(parts: seq<Part>)
    ensures Inputs(Written(parts)) == Typed(parts)
  {
    if parts != [] {
      WrittenInputs(parts[1..]);
      assert Written(parts)[1..] == Written(parts[1..]);
    }
  }

  /** What is hashed of a session is what was typed in it, all of it and in order. */
  lemma SessionInputs(start: real, parts: seq<Part>, end: real)
    ensures Inputs(Session(start, parts, end)) == Typed(parts)
  {
    var first, last := Record(Stamped(OP_OPEN, 0, 0, start), []), Record(Stamped(OP_CLOSE, 0, 0, end), []);
    WrittenInputs(parts);
    InputsConcat([first], Written(parts));
    InputsConcat([first] + Written(parts), [last]);
    assert Inputs([first]) == [] && Inputs([last]) == [] by {
      assert [first][1..] == [] && [last][1..] == [];
    }
    assert [] + Typed(parts) + [] == Typed(parts);
  }

  /** The log file. `records` remembers what the writers were asked to store. */
  class LogFile {
    var bytes: seq<byte>
    ghost var records: seq<Record>

    // The file holds exactly the records written, each with its true length.
    ghost predicate Intact()
      reads this
    {
      bytes == Encode(records) && forall r :: r in records ==> WellFormed(r)
    }

    constructor ()
      ensures Intact() && bytes == [] && records == []
    {
      bytes := [];
      records := [];
    }

    // Append a record. When a field does not fit, nothing is written.
    method Append(h: Header, data: seq<byte>) returns (packed: bool)
      modifies this
      ensures packed <==> Packable(h)
      ensures bytes == old(bytes) + if packed then Pack(h) + data else []
      ensures records == old(records) + if packed then [Record(h, data)] else []
      ensures old(Intact()) && h.length == |data| ==> Intact()
    {
      packed := Packable(h);
      if packed {
        bytes := bytes + Pack(h);
        bytes := bytes + data;
        records := records + [Record(h, data)];
        EncodeAppends(old(records), Record(h, data));
        assert bytes == old(bytes) + (Pack(h) + data);
      }
    }

    method Open(stamp: real) returns (packed: bool)
      modifies this
      ensures packed <==> Packable(Stamped(OP_OPEN, 0, 0, stamp))
      ensures bytes == old(bytes) + if packed then Pack(Stamped(OP_OPEN, 0, 0, stamp)) else []
      ensures records == old(records) + if packed then [Record(Stamped(OP_OPEN, 0, 0, stamp), [])] else []
      ensures old(Intact()) ==> Intact()
    {
      packed := Append(Stamped(OP_OPEN, 0, 0, stamp), []);
    }

    method Write(length: int, direction: int, stamp: real, data: seq<byte>) returns (packed: bool)
      modifies this
      ensures packed <==> Packable(Stamped(OP_WRITE, length, direction, stamp))
      ensures bytes == old(bytes) + if packed then Pack(Stamped(OP_WRITE, length, direction, stamp)) + data else []
      ensures
        var r := Record(Stamped(OP_WRITE, length, direction, stamp), data);
        records == old(records) + if packed then [r] else []
      ensures old(Intact()) && length == |data| ==> Intact()
    {
      packed := Append(Stamped(OP_WRITE, length, direction, stamp), data);
    }

    method Close(stamp: real) returns (packed: bool)
      modifies this
      ensures packed <==> Packable(Stamped(OP_CLOSE, 0, 0, stamp))
      ensures bytes == old(bytes) + if packed then Pack(Stamped(OP_CLOSE, 0, 0, stamp)) else []
      ensures records == old(records) + if packed then [Record(Stamped(OP_CLOSE, 0, 0, stamp), [])] else []
      ensures old(Intact()) ==> Intact()
    {
      packed := Append(Stamped(OP_CLOSE, 0, 0, stamp), []);
    }

    // None: the uncaught ValueError of a length below -1.
    method InputHash<D>(sha256: seq<byte> -> D) returns (digest: Option<D>)
      ensures digest == match Records(bytes) case None => None case Some(rs) => Some(sha256(Inputs(rs)))
      ensures Intact() ==> digest == Some(sha256(Inputs(records)))
    {
      var inputbytes: seq<byte> := [];
      var rest := bytes;
      if Intact() {
        RecordsOfEncode(records);
      }
      while |rest| >= HEADER_SIZE
        invariant ReadUpTo(bytes, inputbytes, rest)
        decreases |rest|
      {
        var h := Unpack(rest);
        if h.length < -1 {
          return None;
        }
        ReadOne(bytes, inputbytes, rest);
        var data := ReadData(rest[HEADER_SIZE..], h.length);
        rest := rest[HEADER_SIZE..][|data|..];
        if IsOutput(h) {
          continue;
        }
        inputbytes := inputbytes + data;
      }
      assert inputbytes + Inputs([]) == inputbytes;
      digest := Some(sha256(inputbytes));
    }
  }
}
