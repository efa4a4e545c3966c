/** From the bytes of a forwarded connection to its fingerprint
    (src/cowrie/ssh/forwarding.py with src/cowrie/core/fingerprint.py). */
module Fingerprint {
  import opened Common
  import opened ClientHello
  import opened Ja4

  function ContextOf(f: Fields): Context {
    Context(f.tlsVersion, f.extras.hasSni,
      if f.extras.alpn.Some? then Some(Text(f.extras.alpn.value)) else None,
      if f.extras.signatureAlgorithms.Some? then f.extras.signatureAlgorithms.value else [],
      false)
  }

  // `dataReceived`; None when the data does not start like a ClientHello, or fails to parse.
  function Ja4OfData(v: Vendor, data: seq<byte>): Option<string> {
    if |data| < 6 || data[0] != HANDSHAKE || data[5] != CLIENT_HELLO then None
    else
      match Parse(data)
      case None => None
      case Some(f) => Some(GenerateJa4(v, ContextOf(f), f.ciphers, f.extras.extensions))
  }

  // The record carries this ClientHello.
  ghost predicate Carries(data: seq<byte>, m: Message) {
    ValidMessage(m) && |data| >= 5 && data[0] == HANDSHAKE && At(data, 5, PutHandshake(m))
  }

  // The messages agree on all that the fingerprint looks at beside the two lists: bodies
  // of other extensions, random bytes, session and compression may differ.
  ghost predicate SameBeside(m: Message, n: Message) {
    && m.version == n.version
    && ((exists e :: e in m.extensions && e.ServerName?) <==> (exists e :: e in n.extensions && e.ServerName?))
    && (forall e :: e in m.extensions && (e.ProtocolNames? || e.SchemeList?) ==> e in n.extensions)
    && (forall e :: e in n.extensions && (e.ProtocolNames? || e.SchemeList?) ==> e in m.extensions)
  }

  lemma SameContext(f: Fields, m: Message, g: Fields, n: Message)
    requires ValidMessage(m) && Reports(f, m) && ValidMessage(n) && Reports(g, n) && SameBeside(m, n)
    ensures ContextOf(f) == ContextOf(g)
  {
  }

  lemma CarriedIsReported(v: Vendor, data: seq<byte>, m: Message)
    requires Carries(data, m)
    ensures Parse(data).Some? && Reports(Parse(data).value, m)
    ensures
      var f := Parse(data).value;
      Ja4OfData(v, data) == Some(GenerateJa4(v, ContextOf(f), m.ciphers, Kinds(m.extensions)))
  {
    MessageRead(data, m);
    assert PutHandshake(m)[0] == CLIENT_HELLO;
    hide Parse, ContextOf, GenerateJa4, ValidMessage;
  }

  /** On the wire: two ClientHellos that differ only in the order of their ciphers and
      extensions, in GREASE values and in what the fingerprint does not look at have the
      same fingerprint. */
  lemma ReorderedHelloSameJa4(v: Vendor, data: seq<byte>, m: Message, other: seq<byte>, n: Message)
    requires Carries(data, m) && Carries(other, n) && SameBeside(m, n)
    requires SameButGrease(m.ciphers, n.ciphers, v.grease)
    requires SameButGrease(Kinds(m.extensions), Kinds(n.extensions), v.grease)
    ensures Ja4OfData(v, data).Some? && Ja4OfData(v, data) == Ja4OfData(v, other)
  {
    hide *;
    CarriedIsReported(v, data, m);
    CarriedIsReported(v, other, n);
    CarriedIsValid(data, m);
    CarriedIsValid(other, n);
    SameContext(Parse(data).value, m, Parse(other).value, n);
    Unchanged(v, ContextOf(Parse(data).value), m.ciphers, Kinds(m.extensions), n.ciphers, Kinds(n.extensions));
  }

  lemma CarriedIsValid(data: seq<byte>, m: Message)
    requires Carries(data, m)
    ensures ValidMessage(m)
  {
  }

  /** And when the hash tells the cipher texts apart and the extension texts, only those do. */
  lemma SameJa4OnlyIfReordered(v: Vendor, data: seq<byte>, m: Message, other: seq<byte>, n: Message)
    requires Carries(data, m) && Carries(other, n) && SameBeside(m, n)
    requires Parse(data).Some? && Parse(other).Some?
    requires
      SeparatesBoth(v, ContextOf(Parse(data).value), m.ciphers, Kinds(m.extensions), n.ciphers, Kinds(n.extensions))
    ensures Ja4OfData(v, data) == Ja4OfData(v, other)
       <==> (SameButGrease(m.ciphers, n.ciphers, v.grease)
             && SameButGrease(Kinds(m.extensions), Kinds(n.extensions), v.grease))
  {
    hide *;
    CarriedIsReported(v, data, m);
    CarriedIsReported(v, other, n);
    CarriedIsValid(data, m);
    CarriedIsValid(other, n);
    SameContext(Parse(data).value, m, Parse(other).value, n);
    Decides(v, ContextOf(Parse(data).value), m.ciphers, Kinds(m.extensions), n.ciphers, Kinds(n.extensions));
  }
}
