/** The TLS ClientHello parser (src/cowrie/core/fingerprint.py) against the
    message of section 4.1.2 of RFC 8446. */
module ClientHello {
  import opened Common

  const HANDSHAKE: byte := 0x16
  const CLIENT_HELLO: byte := 0x01
  const SERVER_NAME: u16 := 0x0000
  const SIGNATURE_ALGORITHMS: u16 := 0x000d
  const ALPN: u16 := 0x0010

  datatype Extras = Extras(
    extensions: seq<u16>, hasSni: bool, alpn: Option<seq<byte>>, signatureAlgorithms: Option<seq<u16>>)

  datatype Fields = Fields(tlsVersion: u16, ciphers: seq<u16>, extras: Extras)

  const NO_EXTRAS := Extras([], false, None, None)

  // ----- the parser

  // The 16-bit words that start in the next `n` bytes, as far as the data goes.
  function Words(data: seq<byte>, at: nat, n: int): seq<u16>
    decreases n
  {
    if n <= 0 || at + 2 > |data| then [] else [U16At(data, at)] + Words(data, at + 2, n - 2)
  }

  // `decode("ascii", errors="ignore")`
  function Ascii(s: seq<byte>): seq<byte> {
    if s == [] then [] else (if s[0] < 128 then [s[0]] else []) + Ascii(s[1..])
  }

  // The bounds are those of the data, not of the extension.
  function ReadAlpn(data: seq<byte>, at: nat, length: nat, current: Option<seq<byte>>): Option<seq<byte>>
    requires at + length <= |data|
  {
    if length <= 2 then current
    else
      var n := U16At(data, at);
      if n > 1 && at + 2 + n <= |data| && 0 < data[at + 2] && 1 + data[at + 2] <= n
      then Some(Ascii(data[at + 3..at + 3 + data[at + 2]]))
      else current
  }

  function ReadSignatureAlgorithms(data: seq<byte>, at: nat, length: nat, current: Option<seq<u16>>): Option<seq<u16>>
    requires at + length <= |data|
  {
    if length <= 2 then current
    else
      var n := U16At(data, at);
      if n > 0 && at + 2 + n <= |data| then Some(Words(data, at + 2, n)) else current
  }

  // One extension, its body at `at`, added to what is known.
  function Note(data: seq<byte>, kind: u16, at: nat, length: nat, known: Extras): Extras
    requires at + length <= |data|
  {
    var e := known.(extensions := known.extensions + [kind]);
    if kind == SERVER_NAME then e.(hasSni := true)
    else if kind == ALPN then e.(alpn := ReadAlpn(data, at, length, known.alpn))
    else if kind == SIGNATURE_ALGORITHMS then
      e.(signatureAlgorithms := ReadSignatureAlgorithms(data, at, length, known.signatureAlgorithms))
    else e
  }

  function ParseExtensions(data: seq<byte>, at: nat, end: nat, known: Extras): Extras
    decreases |data| - at
  {
    if at >= end || at + 4 > |data| then known
    else
      var kind, length := U16At(data, at), U16At(data, at + 2);
      if at + 4 + length > |data| then known
      else ParseExtensions(data, at + 4 + length, end, Note(data, kind, at + 4, length, known))
  }

  function ParseTail(data: seq<byte>, at: nat, version: u16, ciphers: seq<u16>): Option<Fields> {
    if |data| < at + 1 then None
    else
      var next := at + 1 + data[at];
      if |data| < next + 2 then None
      else Some(Fields(version, ciphers, ParseExtensions(data, next + 2, next + 2 + U16At(data, next), NO_EXTRAS)))
  }

  // An odd length makes the last word end one byte late; past the data that is a struct.error.
  function ParseCiphers(data: seq<byte>, at: nat, version: u16): Option<Fields>
    requires at + 2 <= |data|
  {
    var n := U16At(data, at);
    if |data| < at + 2 + n || |data| < at + 2 + n + n % 2 then None
    else ParseTail(data, at + 2 + n, version, Words(data, at + 2, n))
  }

  function ParseSession(data: seq<byte>, at: nat, version: u16): Option<Fields>
    requires at < |data|
  {
    var next := at + 1 + data[at];
    if |data| < next + 2 then None else ParseCiphers(data, next, version)
  }

  function Parse(data: seq<byte>): Option<Fields> {
    if |data| < 43 || data[0] != HANDSHAKE || data[5] != CLIENT_HELLO || |data| < 44 then None
    else ParseSession(data, 43, U16At(data, 9))
  }

  // ----- what is reported of any bytes

  // A report tells of extensions that are listed.
  ghost predicate Consistent(x: Extras) {
    && (x.hasSni <==> 0 in x.extensions)
    && (x.alpn.Some? ==> 16 in x.extensions)
    && (x.signatureAlgorithms.Some? ==> 13 in x.extensions)
  }

  lemma NoteConsistent(data: seq<byte>, kind: u16, at: nat, length: nat, known: Extras)
    requires at + length <= |data| && Consistent(known)
    ensures Consistent(Note(data, kind, at, length, known))
  {
    var more := known.extensions + [kind];
    assert forall k :: k in more <==> k in known.extensions || k == kind;
    hide ReadAlpn, ReadSignatureAlgorithms;
  }

  lemma {:induction false} ExtensionsConsistent(data: seq<byte>, at: nat, end: nat, known: Extras)
    requires Consistent(known)
    ensures Consistent(ParseExtensions(data, at, end, known))
    decreases |data| - at
  {
    if at < end && at + 4 <= |data| && at + 4 + U16At(data, at + 2) <= |data| {
      var kind, length := U16At(data, at), U16At(data, at + 2);
      hide U16At, Note, Consistent;
      NoteConsistent(data, kind, at + 4, length, known);
      ExtensionsConsistent(data, at + 4 + length, end, Note(data, kind, at + 4, length, known));
    }
  }

  lemma UnsignedWord(data: seq<byte>, at: nat)
    requires at + 2 <= |data|
    ensures U16At(data, at) == 256 * data[at] as int + data[at + 1]
  {
  }

  // An odd length reads one byte more than it says.
  lemma {:induction false} WordsAre(data: seq<byte>, at: nat, size: nat)
    requires at + size + size % 2 <= |data|
    ensures
      var ws := Words(data, at, size);
      && |ws| == (size + 1) / 2
      && forall i :: 0 <= i < |ws| ==> ws[i] == 256 * data[at + 2 * i] as int + data[at + 2 * i + 1]
    decreases size
  {
    if size > 0 {
      var ws := Words(data, at, size);
      if size > 1 {
        WordsAre(data, at + 2, size - 2);
        assert ws[1..] == Words(data, at + 2, size - 2);
        forall i | 1 <= i < |ws|
          ensures ws[i] == 256 * data[at + 2 * i] as int + data[at + 2 * i + 1]
        {
          assert ws[i] == ws[1..][i - 1];
        }
      }
    }
  }

  /** Something is reported exactly when each of the variable parts before the extensions ends
      within the data. */
  lemma ReportsIff(data: seq<byte>)
    ensures Parse(data).Some? <==>
      && |data| >= 44 && data[0] == 22 && data[5] == 1
      && var ciphers := 46 + data[43] as int;
         && ciphers <= |data|
         && var compression := ciphers + 256 * data[ciphers - 2] as int + data[ciphers - 1];
            compression < |data| && compression + 3 + data[compression] as int <= |data|
  {
    hide Words, ParseExtensions;
  }

  /** Whatever the bytes, something is reported only of a handshake record with a ClientHello,
      with the version that stands there, a server name exactly when that extension is listed,
      and a protocol or signature algorithms only when theirs is. */
  lemma ReportsOfAnyBytes(data: seq<byte>)
    requires Parse(data).Some?
    ensures
      var f := Parse(data).value;
      && |data| >= 44 && data[0] == 22 && data[5] == 1 && f.tlsVersion == 256 * data[9] as int + data[10]
      && Consistent(f.extras)
    ensures
      var f, at := Parse(data).value, 46 + data[43] as int;
      && at <= |data| && |f.ciphers| == (256 * data[at - 2] as int + data[at - 1] + 1) / 2
      && at + 2 * |f.ciphers| <= |data|
      && forall i :: 0 <= i < |f.ciphers| ==> f.ciphers[i] == 256 * data[at + 2 * i] as int + data[at + 2 * i + 1]
  {
    var n := 44 + data[43] as int;
    var size := U16At(data, n);
    var next := n + 2 + size;
    assert U16At(data, 9) == 256 * data[9] as int + data[10];
    hide U16At, Words, ParseExtensions;
    var at := next + 1 + data[next] as int;
    assert size == 256 * data[n] as int + data[n + 1] by {
      UnsignedWord(data, n);
    }
    WordsAre(data, n + 2, size);
    ExtensionsConsistent(data, at + 2, at + 2 + U16At(data, at), NO_EXTRAS);
  }

  // ----- the message

  // Extensions by meaning; ServerName and Other carry bodies the parser skips.
  datatype Extension =
    | ServerName(body: seq<byte>)
    | ProtocolNames(names: seq<seq<byte>>)
    | SchemeList(schemes: seq<u16>)
    | Other(kind: u16, body: seq<byte>)

  datatype Message = Message(
    version: u16, random: seq<byte>, sessionId: seq<byte>, ciphers: seq<u16>,
    compression: seq<byte>, extensions: seq<Extension>)

  function PutWords(ws: seq<u16>): (s: seq<byte>)
    ensures |s| == 2 * |ws|
  {
    if ws == [] then [] else PutU16(ws[0]) + PutWords(ws[1..])
  }

  function PutNames(names: seq<seq<byte>>): seq<byte>
    requires forall n :: n in names ==> |n| < 256
  {
    if names == [] then [] else [|names[0]|] + names[0] + PutNames(names[1..])
  }

  function Kind(e: Extension): u16 {
    match e
    case ServerName(_) => SERVER_NAME
    case ProtocolNames(_) => ALPN
    case SchemeList(_) => SIGNATURE_ALGORITHMS
    case Other(kind, _) => kind
  }

  // Sizes as RFC 8446 section 4.2 and RFC 7301 section 3.1 allow them.
  ghost predicate ValidExtension(e: Extension) {
    match e
    case ServerName(body) => |body| < 0x1_0000
    case ProtocolNames(names) =>
      && names != []
      && (forall n :: n in names ==> 0 < |n| < 256)
      && |PutNames(names)| < 0x1_0000 - 2
    case SchemeList(schemes) => 0 < 2 * |schemes| < 0x1_0000 - 2
    case Other(kind, body) =>
      && kind != SERVER_NAME && kind != ALPN && kind != SIGNATURE_ALGORITHMS
      && |body| < 0x1_0000
  }

  ghost function Body(e: Extension): (s: seq<byte>)
    requires ValidExtension(e)
    ensures |s| < 0x1_0000
  {
    match e
    case ServerName(body) => body
    case ProtocolNames(names) => PutU16(|PutNames(names)|) + PutNames(names)
    case SchemeList(schemes) => PutU16(2 * |schemes|) + PutWords(schemes)
    case Other(_, body) => body
  }

  ghost function PutExtension(e: Extension): (s: seq<byte>)
    requires ValidExtension(e)
    ensures |s| >= 4
  {
    PutU16(Kind(e)) + PutU16(|Body(e)|) + Body(e)
  }

  ghost function PutExtensions(es: seq<Extension>): seq<byte>
    requires forall e :: e in es ==> ValidExtension(e)
  {
    if es == [] then [] else PutExtension(es[0]) + PutExtensions(es[1..])
  }

  // No extension type occurs twice (RFC 8446 section 4.2).
  ghost predicate ValidMessage(m: Message) {
    && |m.random| == 32 && |m.sessionId| < 256 && 2 * |m.ciphers| < 0x1_0000 && |m.compression| < 256
    && (forall e :: e in m.extensions ==> ValidExtension(e))
    && |PutExtensions(m.extensions)| < 0x1_0000
    && DistinctKinds(m.extensions)
  }

  ghost function PutSession(m: Message): seq<byte>
    requires ValidMessage(m)
  {
    [|m.sessionId|] + m.sessionId
  }

  ghost function PutCiphers(m: Message): seq<byte>
    requires ValidMessage(m)
  {
    PutU16(2 * |m.ciphers|) + PutWords(m.ciphers)
  }

  ghost function PutTail(m: Message): seq<byte>
    requires ValidMessage(m)
  {
    [|m.compression|] + m.compression + (PutU16(|PutExtensions(m.extensions)|) + PutExtensions(m.extensions))
  }

  // The ClientHello structure.
  ghost function PutMessage(m: Message): seq<byte>
    requires ValidMessage(m)
  {
    PutU16(m.version) + (m.random + (PutSession(m) + (PutCiphers(m) + PutTail(m))))
  }

  function PutU24(n: nat): (s: seq<byte>)
    requires n < 0x100_0000
    ensures |s| == 3
  {
    [n / 0x1_0000, n / 0x100 % 0x100, n % 0x100]
  }

  // What the parser should report of a message.
  ghost predicate Reports(f: Fields, m: Message)
    requires ValidMessage(m)
  {
    && f.tlsVersion == m.version && f.ciphers == m.ciphers
    && f.extras.extensions == Kinds(m.extensions)
    && (f.extras.hasSni <==> exists e :: e in m.extensions && e.ServerName?)
    && (forall e :: e in m.extensions && e.ProtocolNames? ==> f.extras.alpn == Some(Ascii(e.names[0])))
    && ((forall e :: e in m.extensions ==> !e.ProtocolNames?) ==> f.extras.alpn == None)
    && (forall e :: e in m.extensions && e.SchemeList? ==> f.extras.signatureAlgorithms == Some(e.schemes))
    && ((forall e :: e in m.extensions ==> !e.SchemeList?) ==> f.extras.signatureAlgorithms == None)
  }

  // ----- reading back what was written

  // The bytes `s` stand in `data` from position `at` on.
  ghost predicate At(data: seq<byte>, at: nat, s: seq<byte>) {
    at + |s| <= |data| && forall i :: 0 <= i < |s| ==> data[at + i] == s[i]
  }

  lemma Split(data: seq<byte>, at: nat, a: seq<byte>, b: seq<byte>)
    requires At(data, at, a + b)
    ensures At(data, at, a) && At(data, at + |a|, b)
  {
    forall i | 0 <= i < |a|
      ensures data[at + i] == a[i]
    {
      assert (a + b)[i] == a[i];
    }
    forall i | 0 <= i < |b|
      ensures data[at + |a| + i] == b[i]
    {
      assert (a + b)[|a| + i] == b[i];
    }
  }

  lemma FieldRead(data: seq<byte>, at: nat, v: u16)
    requires At(data, at, PutU16(v))
    ensures at + 2 <= |data| && U16At(data, at) == v
  {
  }

  lemma ByteRead(data: seq<byte>, at: nat, b: byte)
    requires At(data, at, [b])
    ensures at < |data| && data[at] == b
  {
    assert [b][0] == b;
  }

  lemma {:induction false} WordsRead(data: seq<byte>, at: nat, ws: seq<u16>)
    requires At(data, at, PutWords(ws))
    ensures Words(data, at, 2 * |ws|) == ws
    decreases ws
  {
    if ws != [] {
      Split(data, at, PutU16(ws[0]), PutWords(ws[1..]));
      FieldRead(data, at, ws[0]);
      hide At, PutU16, U16At;
      WordsRead(data, at + 2, ws[1..]);
    }
  }

  lemma SliceRead(data: seq<byte>, at: nat, s: seq<byte>)
    requires At(data, at, s)
    ensures at + |s| <= |data| && data[at..at + |s|] == s
  {
  }

  lemma AlpnRead(data: seq<byte>, at: nat, names: seq<seq<byte>>, current: Option<seq<byte>>)
    requires ValidExtension(ProtocolNames(names))
    requires At(data, at, Body(ProtocolNames(names)))
    ensures
      var n := |Body(ProtocolNames(names))|;
      at + n <= |data| && ReadAlpn(data, at, n, current) == Some(Ascii(names[0]))
  {
    var list := PutNames(names);
    Split(data, at, PutU16(|list|), list);
    Split(data, at + 2, [|names[0]|] + names[0], PutNames(names[1..]));
    Split(data, at + 2, [|names[0]|], names[0]);
    FieldRead(data, at, |list|);
    ByteRead(data, at + 2, |names[0]|);
    SliceRead(data, at + 3, names[0]);
    hide Ascii, U16At, PutU16;
  }

  lemma SchemesRead(data: seq<byte>, at: nat, schemes: seq<u16>, current: Option<seq<u16>>)
    requires ValidExtension(SchemeList(schemes))
    requires At(data, at, Body(SchemeList(schemes)))
    ensures
      var n := |Body(SchemeList(schemes))|;
      at + n <= |data| && ReadSignatureAlgorithms(data, at, n, current) == Some(schemes)
  {
    Split(data, at, PutU16(2 * |schemes|), PutWords(schemes));
    FieldRead(data, at, 2 * |schemes|);
    WordsRead(data, at + 2, schemes);
    hide Words, PutWords, U16At, PutU16;
  }

  // What one extension should add.
  ghost function Add(e: Extension, known: Extras): Extras
    requires ValidExtension(e)
  {
    var x := known.(extensions := known.extensions + [Kind(e)]);
    match e
    case ServerName(_) => x.(hasSni := true)
    case ProtocolNames(names) => x.(alpn := Some(Ascii(names[0])))
    case SchemeList(schemes) => x.(signatureAlgorithms := Some(schemes))
    case Other(_, _) => x
  }

  ghost function AddAll(es: seq<Extension>, known: Extras): Extras
    requires forall e :: e in es ==> ValidExtension(e)
  {
    if es == [] then known else AddAll(es[1..], Add(es[0], known))
  }

  lemma BodyRead(data: seq<byte>, at: nat, e: Extension, known: Extras)
    requires ValidExtension(e) && At(data, at, Body(e))
    ensures at + |Body(e)| <= |data| && Note(data, Kind(e), at, |Body(e)|, known) == Add(e, known)
  {
    match e
    case ProtocolNames(names) => AlpnRead(data, at, names, known.alpn);
    case SchemeList(schemes) => SchemesRead(data, at, schemes, known.signatureAlgorithms);
    case ServerName(_) =>
    case Other(_, _) =>
  }

  lemma ExtensionRead(data: seq<byte>, at: nat, e: Extension, end: nat, known: Extras)
    requires ValidExtension(e) && at < end && At(data, at, PutExtension(e))
    ensures ParseExtensions(data, at, end, known)
         == ParseExtensions(data, at + |PutExtension(e)|, end, Add(e, known))
  {
    var kind, size := PutU16(Kind(e)), PutU16(|Body(e)|);
    Split(data, at, kind + size, Body(e));
    Split(data, at, kind, size);
    FieldRead(data, at, Kind(e));
    FieldRead(data, at + 2, |Body(e)|);
    BodyRead(data, at + 4, e, known);
    hide At, Body, Note, Add, PutU16, U16At;
  }

  lemma {:induction false} ExtensionsRead(data: seq<byte>, at: nat, es: seq<Extension>, known: Extras)
    requires forall e :: e in es ==> ValidExtension(e)
    requires At(data, at, PutExtensions(es))
    ensures ParseExtensions(data, at, at + |PutExtensions(es)|, known) == AddAll(es, known)
    decreases es
  {
    hide At, Body, PutU16, U16At, Note, Add;
    if es != [] {
      var first, rest := PutExtension(es[0]), PutExtensions(es[1..]);
      assert PutExtensions(es) == first + rest;
      assert AddAll(es, known) == AddAll(es[1..], Add(es[0], known));
      hide *;
      Split(data, at, first, rest);
      ExtensionRead(data, at, es[0], at + |first + rest|, known);
      ExtensionsRead(data, at + |first|, es[1..], Add(es[0], known));
    }
  }

  // ----- what the extensions add up to

  ghost predicate DistinctKinds(es: seq<Extension>) {
    forall i, j :: 0 <= i < j < |es| ==> Kind(es[i]) != Kind(es[j])
  }

  lemma {:induction false} AddAllKinds(es: seq<Extension>, known: Extras)
    requires forall e :: e in es ==> ValidExtension(e)
    ensures AddAll(es, known).extensions == known.extensions + Kinds(es)
    decreases es
  {
    if es == [] {
      assert known.extensions + [] == known.extensions;
    } else {
      AddAllKinds(es[1..], Add(es[0], known));
      ConcatAssociates(known.extensions, [Kind(es[0])], Kinds(es[1..]));
    }
  }

  function Kinds(es: seq<Extension>): (ks: seq<u16>)
    ensures |ks| == |es| && forall i :: 0 <= i < |es| ==> ks[i] == Kind(es[i])
  {
    if es == [] then [] else [Kind(es[0])] + Kinds(es[1..])
  }

  // Extensions of other types than the first.
  lemma OtherKinds(es: seq<Extension>)
    requires DistinctKinds(es) && es != []
    ensures DistinctKinds(es[1..])
    ensures forall e :: e in es[1..] ==> Kind(e) != Kind(es[0])
    ensures forall e :: e in es <==> e == es[0] || e in es[1..]
  {
    forall e | e in es[1..]
      ensures Kind(e) != Kind(es[0])
    {
      var i :| 0 <= i < |es[1..]| && es[1..][i] == e;
      assert es[i + 1] == e;
    }
  }

  lemma {:induction false} AddAllSni(es: seq<Extension>, known: Extras)
    requires forall e :: e in es ==> ValidExtension(e)
    ensures AddAll(es, known).hasSni <==> known.hasSni || exists e :: e in es && e.ServerName?
  {
    if es != [] {
      AddAllSni(es[1..], Add(es[0], known));
      assert forall e :: e in es <==> e == es[0] || e in es[1..];
    }
  }

  lemma {:induction false} AddAllAlpn(es: seq<Extension>, known: Extras)
    requires (forall e :: e in es ==> ValidExtension(e)) && DistinctKinds(es)
    ensures forall e :: e in es && e.ProtocolNames? ==> AddAll(es, known).alpn == Some(Ascii(e.names[0]))
    ensures (forall e :: e in es ==> !e.ProtocolNames?) ==> AddAll(es, known).alpn == known.alpn
  {
    if es != [] {
      OtherKinds(es);
      hide DistinctKinds, Ascii;
      AddAllAlpn(es[1..], Add(es[0], known));
    }
  }

  lemma {:induction false} AddAllSchemes(es: seq<Extension>, known: Extras)
    requires (forall e :: e in es ==> ValidExtension(e)) && DistinctKinds(es)
    ensures forall e :: e in es && e.SchemeList? ==> AddAll(es, known).signatureAlgorithms == Some(e.schemes)
    ensures (forall e :: e in es ==> !e.SchemeList?) ==>
      AddAll(es, known).signatureAlgorithms == known.signatureAlgorithms
  {
    if es != [] {
      OtherKinds(es);
      hide DistinctKinds;
      AddAllSchemes(es[1..], Add(es[0], known));
    }
  }

  // ----- the whole message

  // A vector with a one-byte length, and what follows it.
  lemma VectorRead(data: seq<byte>, at: nat, v: seq<byte>, after: seq<byte>)
    requires |v| < 256 && At(data, at, [|v|] + v + after)
    ensures at < |data| && data[at] == |v| && At(data, at + 1 + |v|, after)
  {
    Split(data, at, [|v|] + v, after);
    Split(data, at, [|v|], v);
    ByteRead(data, at, |v|);
  }

  lemma TailRead(data: seq<byte>, at: nat, m: Message, version: u16, ciphers: seq<u16>)
    requires ValidMessage(m) && At(data, at, PutTail(m))
    ensures ParseTail(data, at, version, ciphers)
         == Some(Fields(version, ciphers, AddAll(m.extensions, NO_EXTRAS)))
  {
    var exts := PutExtensions(m.extensions);
    VectorRead(data, at, m.compression, PutU16(|exts|) + exts);
    var next := at + 1 + |m.compression|;
    Split(data, next, PutU16(|exts|), exts);
    FieldRead(data, next, |exts|);
    ExtensionsRead(data, next + 2, m.extensions, NO_EXTRAS);
    hide At, PutExtensions, PutU16, U16At, AddAll, ParseExtensions;
  }

  lemma CiphersRead(data: seq<byte>, at: nat, m: Message, version: u16)
    requires ValidMessage(m) && At(data, at, PutCiphers(m) + PutTail(m))
    ensures at + 2 <= |data|
    ensures ParseCiphers(data, at, version) == Some(Fields(version, m.ciphers, AddAll(m.extensions, NO_EXTRAS)))
  {
    var n := 2 * |m.ciphers|;
    Split(data, at, PutCiphers(m), PutTail(m));
    Split(data, at, PutU16(n), PutWords(m.ciphers));
    FieldRead(data, at, n);
    WordsRead(data, at + 2, m.ciphers);
    TailRead(data, at + 2 + n, m, version, m.ciphers);
    hide PutTail, PutWords, PutU16, Words, U16At, AddAll, ParseTail;
  }

  lemma SessionRead(data: seq<byte>, at: nat, m: Message)
    requires ValidMessage(m) && At(data, at, PutSession(m) + (PutCiphers(m) + PutTail(m)))
    ensures at < |data|
    ensures ParseSession(data, at, m.version) == Some(Fields(m.version, m.ciphers, AddAll(m.extensions, NO_EXTRAS)))
  {
    VectorRead(data, at, m.sessionId, PutCiphers(m) + PutTail(m));
    CiphersRead(data, at + 1 + |m.sessionId|, m, m.version);
    hide At, PutCiphers, PutTail, ParseCiphers, AddAll;
  }

  // The handshake message as it follows the five bytes of the record header.
  ghost function PutHandshake(m: Message): seq<byte>
    requires ValidMessage(m)
  {
    [CLIENT_HELLO] + (PutU24(|PutMessage(m)|) + PutMessage(m))
  }

  lemma HandshakeRead(data: seq<byte>, m: Message)
    requires ValidMessage(m) && |data| >= 5 && data[0] == HANDSHAKE
    requires At(data, 5, PutHandshake(m))
    ensures Parse(data) == Some(Fields(m.version, m.ciphers, AddAll(m.extensions, NO_EXTRAS)))
  {
    var rest := PutSession(m) + (PutCiphers(m) + PutTail(m));
    Split(data, 5, [CLIENT_HELLO], PutU24(|PutMessage(m)|) + PutMessage(m));
    Split(data, 6, PutU24(|PutMessage(m)|), PutMessage(m));
    ByteRead(data, 5, CLIENT_HELLO);
    Split(data, 9, PutU16(m.version), m.random + rest);
    Split(data, 11, m.random, rest);
    FieldRead(data, 9, m.version);
    SessionRead(data, 43, m);
    hide At, PutMessage, PutSession, PutCiphers, PutTail, ParseSession, AddAll;
  }

  // ----- a message that is cut short

  // How many extensions lie in the first `room` bytes of the list as a whole.
  ghost function Whole(es: seq<Extension>, room: int): (k: nat)
    requires forall e :: e in es ==> ValidExtension(e)
    ensures k <= |es|
  {
    if es == [] || room < |PutExtension(es[0])| then 0 else 1 + Whole(es[1..], room - |PutExtension(es[0])|)
  }

  lemma {:induction false} WholeMeans(es: seq<Extension>, room: nat)
    requires forall e :: e in es ==> ValidExtension(e)
    ensures
      var k := Whole(es, room);
      && |PutExtensions(es[..k])| <= room
      && (k < |es| ==> |PutExtensions(es[..k + 1])| > room)
  {
    hide PutExtension;
    if es != [] {
      var first := |PutExtension(es[0])|;
      assert es[..1][1..] == [] && es[..1][0] == es[0] && |PutExtensions(es[..1])| == first;
      if room >= first {
        WholeMeans(es[1..], room - first);
        var k := Whole(es, room);
        assert es[..k][1..] == es[1..][..k - 1];
        assert k < |es| ==> es[..k + 1][1..] == es[1..][..k];
      }
    }
  }

  lemma CutAt(data: seq<byte>, at: nat, s: seq<byte>, n: nat)
    requires At(data, at, s) && at + |s| <= n <= |data|
    ensures At(data[..n], at, s)
  {
  }

  // An extension that is not there as a whole ends the list.
  lemma CutExtension(data: seq<byte>, at: nat, e: Extension, end: nat, known: Extras, n: nat)
    requires ValidExtension(e) && At(data, at, PutExtension(e)) && at <= n <= |data| && n < at + |PutExtension(e)|
    ensures ParseExtensions(data[..n], at, end, known) == known
  {
    var kind, size := PutU16(Kind(e)), PutU16(|Body(e)|);
    Split(data, at, kind + size, Body(e));
    Split(data, at, kind, size);
    FieldRead(data, at + 2, |Body(e)|);
    if at + 4 <= n {
      assert U16At(data[..n], at + 2) == U16At(data, at + 2);
    }
    hide At, Body, Note, PutU16, U16At;
  }

  lemma {:induction false} CutExtensions(data: seq<byte>, at: nat, es: seq<Extension>, known: Extras, n: nat)
    requires forall e :: e in es ==> ValidExtension(e)
    requires At(data, at, PutExtensions(es)) && at <= n <= |data|
    ensures ParseExtensions(data[..n], at, at + |PutExtensions(es)|, known) == AddAll(es[..Whole(es, n - at)], known)
    decreases es
  {
    hide At, Body, PutU16, U16At, Note, Add, PutExtension;
    if es != [] {
      var first, rest := PutExtension(es[0]), PutExtensions(es[1..]);
      var k := Whole(es, n - at);
      assert PutExtensions(es) == first + rest;
      Split(data, at, first, rest);
      if n - at < |first| {
        assert AddAll(es[..0], known) == known;
        CutExtension(data, at, es[0], at + |first + rest|, known, n);
      } else {
        assert es[..k][1..] == es[1..][..k - 1] && AddAll(es[..k], known) == AddAll(es[..k][1..], Add(es[0], known));
        hide *;
        CutAt(data, at, first, n);
        ExtensionRead(data[..n], at, es[0], at + |first + rest|, known);
        CutExtensions(data, at + |first|, es[1..], Add(es[0], known), n);
      }
    }
  }

  lemma CutTail(data: seq<byte>, at: nat, m: Message, version: u16, ciphers: seq<u16>, n: nat)
    requires ValidMessage(m) && At(data, at, PutTail(m)) && n <= |data|
    ensures
      var start := at + 3 + |m.compression|;
      ParseTail(data[..n], at, version, ciphers) ==
        if n < start then None
        else Some(Fields(version, ciphers, AddAll(m.extensions[..Whole(m.extensions, n - start)], NO_EXTRAS)))
  {
    var exts := PutExtensions(m.extensions);
    var next := at + 1 + |m.compression|;
    VectorRead(data, at, m.compression, PutU16(|exts|) + exts);
    Split(data, next, PutU16(|exts|), exts);
    FieldRead(data, next, |exts|);
    if next + 2 <= n {
      assert U16At(data[..n], next) == U16At(data, next);
      CutExtensions(data, next + 2, m.extensions, NO_EXTRAS, n);
    }
    hide At, PutExtensions, PutU16, U16At, AddAll, ParseExtensions, Whole;
  }

  lemma {:induction false} CutWords(data: seq<byte>, at: nat, size: int, n: nat)
    requires n <= |data| && at + size <= n && size % 2 == 0
    ensures Words(data[..n], at, size) == Words(data, at, size)
    decreases size
  {
    if size > 0 {
      CutWords(data, at + 2, size - 2, n);
    }
  }

  // Where the list of extensions starts in the record.
  ghost function ExtensionsAt(m: Message): nat {
    49 + |m.sessionId| + 2 * |m.ciphers| + |m.compression|
  }

  ghost function Cut(m: Message, n: nat): Option<Fields>
    requires ValidMessage(m)
  {
    if n < ExtensionsAt(m) then None
    else
      var k := Whole(m.extensions, n - ExtensionsAt(m));
      Some(Fields(m.version, m.ciphers, AddAll(m.extensions[..k], NO_EXTRAS)))
  }

  lemma CutCiphers(data: seq<byte>, at: nat, m: Message, n: nat)
    requires ValidMessage(m) && At(data, at, PutCiphers(m) + PutTail(m))
    requires at == 44 + |m.sessionId| && at + 2 <= n <= |data|
    ensures ParseCiphers(data[..n], at, m.version) == Cut(m, n)
  {
    var size := 2 * |m.ciphers|;
    Split(data, at, PutCiphers(m), PutTail(m));
    Split(data, at, PutU16(size), PutWords(m.ciphers));
    FieldRead(data, at, size);
    WordsRead(data, at + 2, m.ciphers);
    assert U16At(data[..n], at) == U16At(data, at);
    if at + 2 + size <= n {
      CutWords(data, at + 2, size, n);
      CutTail(data, at + 2 + size, m, m.version, m.ciphers, n);
    }
    hide PutTail, PutWords, PutU16, Words, U16At, AddAll, ParseTail, Whole, At;
  }

  lemma CutSession(data: seq<byte>, m: Message, n: nat)
    requires ValidMessage(m) && At(data, 43, PutSession(m) + (PutCiphers(m) + PutTail(m))) && 43 < n <= |data|
    ensures ParseSession(data[..n], 43, m.version) == Cut(m, n)
  {
    VectorRead(data, 43, m.sessionId, PutCiphers(m) + PutTail(m));
    assert data[..n][43] == data[43];
    if 46 + |m.sessionId| <= n {
      CutCiphers(data, 44 + |m.sessionId|, m, n);
    }
    hide At, PutCiphers, PutTail, ParseCiphers, AddAll, Whole;
  }

  lemma CutRecordRead(data: seq<byte>, m: Message, n: nat)
    requires ValidMessage(m) && |data| >= 5 && data[0] == HANDSHAKE && n <= |data|
    requires At(data, 5, PutHandshake(m))
    ensures Parse(data[..n]) == Cut(m, n)
  {
    var rest := PutSession(m) + (PutCiphers(m) + PutTail(m));
    Split(data, 5, [CLIENT_HELLO], PutU24(|PutMessage(m)|) + PutMessage(m));
    Split(data, 6, PutU24(|PutMessage(m)|), PutMessage(m));
    ByteRead(data, 5, CLIENT_HELLO);
    Split(data, 9, PutU16(m.version), m.random + rest);
    Split(data, 11, m.random, rest);
    FieldRead(data, 9, m.version);
    if n >= 44 {
      assert U16At(data[..n], 9) == U16At(data, 9);
      CutSession(data, m, n);
    }
    hide At, PutMessage, PutSession, PutCiphers, PutTail, ParseSession, AddAll, U16At, Whole;
  }

  /** Parsing a record that starts with a valid ClientHello reports exactly what
      the message says, whatever the record's version and length fields are and
      whatever bytes follow. */
  lemma MessageRead(data: seq<byte>, m: Message)
    requires ValidMessage(m) && |data| >= 5 && data[0] == HANDSHAKE
    requires At(data, 5, PutHandshake(m))
    ensures Parse(data).Some? && Reports(Parse(data).value, m)
  {
    HandshakeRead(data, m);
    AddAllKinds(m.extensions, NO_EXTRAS);
    AddAllSni(m.extensions, NO_EXTRAS);
    AddAllAlpn(m.extensions, NO_EXTRAS);
    AddAllSchemes(m.extensions, NO_EXTRAS);
    hide Parse, At, PutHandshake, Kinds, AddAll;
    assert [] + Kinds(m.extensions) == Kinds(m.extensions);
  }

  lemma {:induction false} FirstExtensions(es: seq<Extension>, k: nat)
    requires (forall e :: e in es ==> ValidExtension(e)) && k <= |es|
    ensures |PutExtensions(es[..k])| <= |PutExtensions(es)|
  {
    if k > 0 {
      assert es[..k][1..] == es[1..][..k - 1];
      FirstExtensions(es[1..], k - 1);
    }
  }

  lemma PartIsValid(m: Message, k: nat)
    requires ValidMessage(m) && k <= |m.extensions|
    ensures ValidMessage(m.(extensions := m.extensions[..k]))
  {
    FirstExtensions(m.extensions, k);
    hide PutExtensions, ValidExtension;
  }

  lemma PartReported(m: Message, k: nat)
    requires ValidMessage(m) && k <= |m.extensions|
    ensures
      var part := m.(extensions := m.extensions[..k]);
      && ValidMessage(part)
      && Reports(Fields(m.version, m.ciphers, AddAll(part.extensions, NO_EXTRAS)), part)
  {
    var es := m.extensions[..k];
    PartIsValid(m, k);
    AddAllKinds(es, NO_EXTRAS);
    AddAllSni(es, NO_EXTRAS);
    AddAllAlpn(es, NO_EXTRAS);
    AddAllSchemes(es, NO_EXTRAS);
    hide Kinds, AddAll, PutExtensions;
    assert [] + Kinds(es) == Kinds(es);
  }

  /** Of a record cut at any byte nothing is reported until the list of extensions starts; from
      there on everything is that comes before it, and of the extensions those that are there
      as a whole: as many as fit in the bytes that are left. */
  lemma CutRecordReports(data: seq<byte>, m: Message, n: nat)
    requires ValidMessage(m) && |data| >= 5 && data[0] == HANDSHAKE && n <= |data|
    requires At(data, 5, PutHandshake(m))
    ensures Parse(data[..n]).Some? <==> n >= ExtensionsAt(m)
    ensures n >= ExtensionsAt(m) ==>
      var k, room := Whole(m.extensions, n - ExtensionsAt(m)), n - ExtensionsAt(m);
      var part := m.(extensions := m.extensions[..k]);
      && ValidMessage(part) && Reports(Parse(data[..n]).value, part)
      && |PutExtensions(m.extensions[..k])| <= room
      && (k < |m.extensions| ==> |PutExtensions(m.extensions[..k + 1])| > room)
  {
    hide Parse, At, PutHandshake, Reports, PutExtensions, Whole;
    CutRecordRead(data, m, n);
    if n >= ExtensionsAt(m) {
      WholeMeans(m.extensions, n - ExtensionsAt(m));
      PartReported(m, Whole(m.extensions, n - ExtensionsAt(m)));
    }
  }

  // A name that is all ASCII is reported unchanged.
  lemma {:induction false} AsciiKeepsAscii(s: seq<byte>)
    ensures Ascii(s) == s <==> forall i :: 0 <= i < |s| ==> s[i] < 128
  {
    if s != [] {
      AsciiKeepsAscii(s[1..]);
      AsciiShrinks(s[1..]);
      if s[0] < 128 {
        assert Ascii(s)[1..] == Ascii(s[1..]);
      }
    }
  }

  lemma {:induction false} AsciiShrinks(s: seq<byte>)
    ensures |Ascii(s)| <= |s|
  {
    if s != [] {
      AsciiShrinks(s[1..]);
    }
  }

  // ----- the parser's loops

  // The 16-bit words of the next `n` bytes; `short` when one of them does not lie in the data.
  method ReadWords(data: seq<byte>, at: nat, n: nat) returns (ws: seq<u16>, short: bool)
    requires at + n <= |data|
    ensures ws == Words(data, at, n)
    ensures short <==> at + n + n % 2 > |data|
  {
    ws, short := [], false;
    var i := 0;
    while i < n
      invariant 0 <= i <= n + n % 2 && i % 2 == 0
      invariant short <==> at + i > |data|
      invariant ws + Words(data, at + i, n - i) == Words(data, at, n)
    {
      if at + i + 2 <= |data| {
        ConcatAssociates(ws, [U16At(data, at + i)], Words(data, at + i + 2, n - (i + 2)));
        ws := ws + [U16At(data, at + i)];
      } else {
        assert Words(data, at + i, n - i) == [];
        short := true;
      }
      i := i + 2;
    }
  }

  // What one extension adds to what is known.
  method ReadExtension(data: seq<byte>, kind: u16, at: nat, length: nat, known: Extras) returns (x: Extras)
    requires at + length <= |data|
    ensures x == Note(data, kind, at, length, known)
  {
    hide U16At, Ascii, Words;
    x := known.(extensions := known.extensions + [kind]);
    if kind == SERVER_NAME {
      x := x.(hasSni := true);
    } else if kind == ALPN && length > 2 {
      var n := U16At(data, at);
      if n > 0 && at + 2 + n <= |data| {
        if n > 1 {
          var protoLength: nat := data[at + 2];
          if protoLength > 0 && n >= 1 + protoLength {
            x := x.(alpn := Some(Ascii(data[at + 3..at + 3 + protoLength])));
          }
        }
      }
    } else if kind == SIGNATURE_ALGORITHMS && length > 2 {
      var n := U16At(data, at);
      if n > 0 && at + 2 + n <= |data| {
        var schemes, _ := ReadWords(data, at + 2, n);
        x := x.(signatureAlgorithms := Some(schemes));
      }
    }
  }

  method ReadExtensions(data: seq<byte>, at: nat, end: nat) returns (x: Extras)
    ensures x == ParseExtensions(data, at, end, NO_EXTRAS)
  {
    hide U16At, Note;
    var offset: nat := at;
    x := NO_EXTRAS;
    while offset < end && offset + 4 <= |data|
      invariant ParseExtensions(data, offset, end, x) == ParseExtensions(data, at, end, NO_EXTRAS)
      decreases |data| - offset
    {
      var kind, length := U16At(data, offset), U16At(data, offset + 2);
      offset := offset + 4;
      if offset + length > |data| {
        break;
      }
      x := ReadExtension(data, kind, offset, length, x);
      offset := offset + length;
    }
  }

  /** `parse_tls_client_hello`. Any record that starts with a valid ClientHello is reported faithfully. */
  method ParseTlsClientHello(data: seq<byte>) returns (r: Option<Fields>)
    ensures r == Parse(data)
    ensures forall m ::
      ValidMessage(m) && |data| >= 5 && data[0] == HANDSHAKE && At(data, 5, PutHandshake(m))
      ==> r.Some? && Reports(r.value, m)
  {
    forall m | ValidMessage(m) && |data| >= 5 && data[0] == HANDSHAKE && At(data, 5, PutHandshake(m))
      ensures Parse(data).Some? && Reports(Parse(data).value, m)
    {
      MessageRead(data, m);
    }
    hide ValidMessage, At, PutHandshake, Reports;
    if |data| < 43 || data[0] != HANDSHAKE || data[5] != CLIENT_HELLO {
      return None;
    }
    var offset: nat := 9;
    if |data| < offset + 35 {
      return None;
    }
    var version := U16At(data, offset);
    offset := offset + 2 + 32;
    offset := offset + 1 + data[offset];
    if |data| < offset + 2 {
      return None;
    }
    var ciphersLength := U16At(data, offset);
    offset := offset + 2;
    if |data| < offset + ciphersLength {
      return None;
    }
    var ciphers, short := ReadWords(data, offset, ciphersLength);
    if short {
      return None;
    }
    offset := offset + ciphersLength;
    if |data| < offset + 1 {
      return None;
    }
    offset := offset + 1 + data[offset];
    if |data| < offset + 2 {
      return None;
    }
    var extensionsLength := U16At(data, offset);
    offset := offset + 2;
    var x := ReadExtensions(data, offset, offset + extensionsLength);
    return Some(Fields(version, ciphers, x));
  }
}
