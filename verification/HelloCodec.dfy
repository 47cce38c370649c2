/**
 The wire form of a ClientHello body as RFC 8446 section 4.1.2, RFC 6066 section 3 and RFC 7301 section
 3.1 lay it out, and what a server is to understand of it: the reference parseExtensions is held to.
 */
module HelloCodec {
  import opened Wrappers
  import opened ClientHello
  import Framing = Hello

  /** A vector with its length in front. */
  function Enc8(x: seq<Byte>): (r: seq<Byte>)
    requires |x| < 256
    ensures |r| == 1 + |x|
  {
    [|x|] + x
  }

  function Enc16(x: seq<Byte>): (r: seq<Byte>)
    requires |x| < 65536
    ensures |r| == 2 + |x|
  {
    [|x| / 256, |x| % 256] + x
  }

  lemma Dec8(x: seq<Byte>, rest: seq<Byte>)
    requires |x| < 256
    ensures Vec8(Enc8(x) + rest) == Some((x, rest))
  {
    var b := Enc8(x) + rest;
    assert b[1..][..|x|] == x && b[1..][|x|..] == rest;
  }

  lemma Dec16(x: seq<Byte>, rest: seq<Byte>)
    requires |x| < 65536
    ensures Vec16(Enc16(x) + rest) == Some((x, rest))
  {
    var b := Enc16(x) + rest;
    assert U16(b[0], b[1]) == |x|;
    assert b[2..][..|x|] == x && b[2..][|x|..] == rest;
  }

  datatype NameEntry = NameEntry(kind: Byte, name: seq<Byte>)

  datatype Extension =
    | ServerNames(names: seq<NameEntry>)
    | Alpn(protocols: seq<seq<Byte>>)
    | Unknown(hi: Byte, lo: Byte, data: seq<Byte>)

  datatype Hello = Hello(
    head: seq<Byte>, session: seq<Byte>, suites: seq<Byte>, compression: seq<Byte>, extensions: Option<seq<Extension>>)

  function EncNames(names: seq<NameEntry>): seq<Byte>
    requires forall i :: 0 <= i < |names| ==> |names[i].name| < 65536
  {
    if names == [] then [] else [names[0].kind] + Enc16(names[0].name) + EncNames(names[1..])
  }

  function EncProtocols(ps: seq<seq<Byte>>): seq<Byte>
    requires forall i :: 0 <= i < |ps| ==> |ps[i]| < 256
  {
    if ps == [] then [] else Enc8(ps[0]) + EncProtocols(ps[1..])
  }

  /** Every length fits its field. */
  ghost predicate ExtensionFits(e: Extension) {
    match e
    case ServerNames(names) =>
      (forall i :: 0 <= i < |names| ==> |names[i].name| < 65536) && |EncNames(names)| < 65534
    case Alpn(ps) => (forall i :: 0 <= i < |ps| ==> |ps[i]| < 256) && |EncProtocols(ps)| < 65534
    case Unknown(hi, lo, data) => |data| < 65536 && U16(hi, lo) != 0 && U16(hi, lo) != 16
  }

  /** The extension's type. */
  function TypeOf(e: Extension): (t: (Byte, Byte)) {
    match e
    case ServerNames(_) => (0, 0)
    case Alpn(_) => (0, 16)
    case Unknown(hi, lo, _) => (hi, lo)
  }

  ghost function DataOf(e: Extension): (d: seq<Byte>)
    requires ExtensionFits(e)
    ensures |d| < 65536
  {
    match e
    case ServerNames(names) => Enc16(EncNames(names))
    case Alpn(ps) => Enc16(EncProtocols(ps))
    case Unknown(_, _, data) => data
  }

  ghost function EncExtension(e: Extension): seq<Byte>
    requires ExtensionFits(e)
  {
    [TypeOf(e).0, TypeOf(e).1] + Enc16(DataOf(e))
  }

  ghost function EncExtensions(es: seq<Extension>): seq<Byte>
    requires forall i :: 0 <= i < |es| ==> ExtensionFits(es[i])
  {
    if es == [] then [] else EncExtension(es[0]) + EncExtensions(es[1..])
  }

  ghost predicate Fits(h: Hello) {
    |h.head| == 34 && |h.session| < 256 && |h.suites| < 65536 && |h.compression| < 256 &&
    (h.extensions.Some? ==>
      (forall i :: 0 <= i < |h.extensions.value| ==> ExtensionFits(h.extensions.value[i])) &&
      |EncExtensions(h.extensions.value)| < 65536)
  }

  function WithHead(h: Hello, b: seq<Byte>): seq<Byte>
    requires |h.session| < 256 && |h.suites| < 65536 && |h.compression| < 256
  {
    h.head + (Enc8(h.session) + (Enc16(h.suites) + (Enc8(h.compression) + b)))
  }

  ghost function Encode(h: Hello): seq<Byte>
    requires Fits(h)
  {
    WithHead(h, match h.extensions case None => [] case Some(es) => Enc16(EncExtensions(es)))
  }

  // ----- What the server understands -----

  /** The first host_name of a list, judged. */
  function FirstName(ip: AddrParser, names: seq<NameEntry>): NameResult {
    if names == [] then NoName
    else if names[0].kind == 0 then Judge(ip, names[0].name)
    else FirstName(ip, names[1..])
  }

  /** What the first server_name extension says; the later ones are ignored. */
  function NameMeant(ip: AddrParser, es: seq<Extension>): NameResult {
    if es == [] then NoName
    else if es[0].ServerNames? then FirstName(ip, es[0].names)
    else NameMeant(ip, es[1..])
  }

  /** All the protocols offered, in order. */
  function ProtocolsMeant(es: seq<Extension>): seq<seq<Byte>> {
    if es == [] then []
    else (if es[0].Alpn? then es[0].protocols else []) + ProtocolsMeant(es[1..])
  }

  function Meant(ip: AddrParser, h: Hello): Result<HelloInfo, Error> {
    match h.extensions
    case None => Ok(NOTHING)
    case Some(es) => WithName(NOTHING.(alpn := ProtocolsMeant(es)), NameMeant(ip, es))
  }

  // ----- The parser reads what was meant -----

  lemma {:induction false} ReadsNames(ip: AddrParser, names: seq<NameEntry>)
    requires forall i :: 0 <= i < |names| ==> |names[i].name| < 65536
    ensures ScanNames(ip, EncNames(names)) == FirstName(ip, names)
  {
    if names != [] {
      var b := EncNames(names);
      assert b[1..] == Enc16(names[0].name) + EncNames(names[1..]);
      Dec16(names[0].name, EncNames(names[1..]));
      ReadsNames(ip, names[1..]);
    }
  }

  lemma {:induction false} ReadsProtocols(ps: seq<seq<Byte>>)
    requires forall i :: 0 <= i < |ps| ==> |ps[i]| < 256
    ensures ScanProtocols(EncProtocols(ps)) == Some(ps)
  {
    if ps != [] {
      Dec8(ps[0], EncProtocols(ps[1..]));
      ReadsProtocols(ps[1..]);
      assert ps == [ps[0]] + ps[1..];
    }
  }

  lemma ReadsExtension(ip: AddrParser, e: Extension)
    requires ExtensionFits(e)
    ensures e.ServerNames? ==> ServerName(ip, DataOf(e)) == FirstName(ip, e.names)
    ensures e.Alpn? ==> Protocols(DataOf(e)) == Some(e.protocols)
  {
    match e {
      case ServerNames(names) =>
        Dec16(EncNames(names), []);
        assert Enc16(EncNames(names)) + [] == Enc16(EncNames(names));
        ReadsNames(ip, names);
      case Alpn(ps) =>
        Dec16(EncProtocols(ps), []);
        assert Enc16(EncProtocols(ps)) + [] == Enc16(EncProtocols(ps));
        ReadsProtocols(ps);
      case Unknown(_, _, _) =>
    }
  }

  lemma TypeThenRest(a: Byte, b: Byte, data: seq<Byte>, rest: seq<Byte>)
    ensures var s := [a, b] + data + rest;
      s[0] == a && s[1] == b && s[2..] == data + rest
  {
  }

  /** One extension at the front of the rest. */
  lemma FrontExtension(e: Extension, rest: seq<Byte>)
    requires ExtensionFits(e)
    ensures var b := EncExtension(e) + rest;
      |b| >= 2 && U16(b[0], b[1]) == U16(TypeOf(e).0, TypeOf(e).1) && Vec16(b[2..]) == Some((DataOf(e), rest))
  {
    TypeThenRest(TypeOf(e).0, TypeOf(e).1, Enc16(DataOf(e)), rest);
    Dec16(DataOf(e), rest);
  }

  /** What one extension adds. */
  function After(ip: AddrParser, e: Extension, seenName: bool, info: HelloInfo): Result<HelloInfo, Error> {
    match e
    case ServerNames(names) => if seenName then Ok(info) else WithName(info, FirstName(ip, names))
    case Alpn(ps) => Ok(info.(alpn := info.alpn + ps))
    case Unknown(_, _, _) => Ok(info)
  }

  lemma TakesExtension(ip: AddrParser, e: Extension, rest: seq<Byte>, seenName: bool, info: HelloInfo)
    requires ExtensionFits(e)
    ensures ScanExtensions(ip, EncExtension(e) + rest, seenName, info) ==
            match After(ip, e, seenName, info)
            case Err(x) => Err(x)
            case Ok(i) => ScanExtensions(ip, rest, seenName || e.ServerNames?, i)
  {
    FrontExtension(e, rest);
    ReadsExtension(ip, e);
  }

  function MeaningFrom(ip: AddrParser, es: seq<Extension>, seenName: bool, info: HelloInfo): Result<HelloInfo, Error> {
    WithName(info.(alpn := info.alpn + ProtocolsMeant(es)), if seenName then NoName else NameMeant(ip, es))
  }

  /** The meaning of a list of extensions, one extension at a time. */
  lemma MeansAfter(ip: AddrParser, es: seq<Extension>, seenName: bool, info: HelloInfo)
    requires es != []
    ensures MeaningFrom(ip, es, seenName, info) ==
            match After(ip, es[0], seenName, info)
            case Err(x) => Err(x)
            case Ok(i) => MeaningFrom(ip, es[1..], seenName || es[0].ServerNames?, i)
  {
    var ps := if es[0].Alpn? then es[0].protocols else [];
    assert info.alpn + ps + ProtocolsMeant(es[1..]) == info.alpn + (ps + ProtocolsMeant(es[1..]));
    assert info.alpn + [] == info.alpn;
  }

  lemma {:induction false} ReadsExtensions(ip: AddrParser, es: seq<Extension>, seenName: bool, info: HelloInfo)
    requires forall i :: 0 <= i < |es| ==> ExtensionFits(es[i])
    ensures ScanExtensions(ip, EncExtensions(es), seenName, info) == MeaningFrom(ip, es, seenName, info)
    decreases |es|
  {
    if es == [] {
      assert info.alpn + [] == info.alpn;
    } else {
      TakesExtension(ip, es[0], EncExtensions(es[1..]), seenName, info);
      MeansAfter(ip, es, seenName, info);
      match After(ip, es[0], seenName, info) {
        case Ok(i) => ReadsExtensions(ip, es[1..], seenName || es[0].ServerNames?, i);
        case Err(_) =>
      }
    }
  }

  lemma HeadSkipped(h: Hello, b: seq<Byte>)
    requires |h.head| == 34 && |h.session| < 256 && |h.suites| < 65536 && |h.compression| < 256
    ensures AfterHead(WithHead(h, b)) == Some(b)
  {
    var b3 := Enc8(h.compression) + b;
    var b2 := Enc16(h.suites) + b3;
    var b1 := Enc8(h.session) + b2;
    assert (h.head + b1)[34..] == b1;
    Dec8(h.session, b2);
    Dec16(h.suites, b3);
    Dec8(h.compression, b);
  }

  lemma ReadsBody(ip: AddrParser, body: seq<Byte>, es: seq<Extension>)
    requires forall i :: 0 <= i < |es| ==> ExtensionFits(es[i])
    requires |EncExtensions(es)| < 65536 && AfterHead(body) == Some(Enc16(EncExtensions(es)))
    ensures Extensions(ip, body) == MeaningFrom(ip, es, false, NOTHING)
  {
    var x := EncExtensions(es);
    Dec16(x, []);
    assert Enc16(x) + [] == Enc16(x);
    ReadsExtensions(ip, es, false, NOTHING);
  }

  lemma ReadsAsMeant(ip: AddrParser, h: Hello)
    requires Fits(h)
    ensures Extensions(ip, Encode(h)) == Meant(ip, h)
  {
    match h.extensions {
      case None => HeadSkipped(h, []);
      case Some(es) =>
        HeadSkipped(h, Enc16(EncExtensions(es)));
        ReadsBody(ip, Encode(h), es);
        assert [] + ProtocolsMeant(es) == ProtocolsMeant(es);
    }
  }

  // ----- In terms of what the client sent -----

  /** The first host_name of the first server_name extension, as it was sent. */
  function Sent(es: seq<Extension>): Option<seq<Byte>> {
    if es == [] then None
    else if es[0].ServerNames? then SentIn(es[0].names)
    else Sent(es[1..])
  }

  function SentIn(names: seq<NameEntry>): Option<seq<Byte>> {
    if names == [] then None else if names[0].kind == 0 then Some(names[0].name) else SentIn(names[1..])
  }

  /** A letter, a digit, a dot, a hyphen or an underscore, in ASCII. */
  predicate NameByte(b: Byte) {
    'a' <= b as char <= 'z' || 'A' <= b as char <= 'Z' || '0' <= b as char <= '9' || b as char in {'.', '-', '_'}
  }

  /** s is n with its capital letters replaced by the small ones. */
  predicate SmallLetters(s: seq<Byte>, n: seq<Byte>) {
    |s| == |n| &&
    forall i :: 0 <= i < |n| ==> s[i] == if 65 <= n[i] <= 90 then n[i] + 32 else n[i]
  }

  /** What a server may answer to a hello with this name and these protocols. */
  ghost predicate Says(ip: AddrParser, sent: Option<seq<Byte>>, protocols: seq<seq<Byte>>, r: Result<HelloInfo, Error>) {
    match sent
    case None => r == Ok(HelloInfo([], None, protocols, []))
    case Some(n) =>
      if n == [] || |n| > 253 then r == Err(BadHostName(n))
      else if ip(n).Some? then r == Ok(HelloInfo([], ip(n), protocols, []))
      else if exists i :: 0 <= i < |n| && !NameByte(n[i]) then r == Err(BadHostName(n))
      else
        r.Ok? && r.value.sniIp == None && r.value.alpn == protocols && r.value.hashed == [] &&
        SmallLetters(r.value.sni, n)
  }

  lemma {:induction false} JudgedName(ip: AddrParser, names: seq<NameEntry>)
    ensures FirstName(ip, names) ==
      match SentIn(names) case None => NoName case Some(n) => Judge(ip, n)
  {
    if names != [] {
      JudgedName(ip, names[1..]);
    }
  }

  lemma {:induction false} Judged(ip: AddrParser, es: seq<Extension>)
    ensures NameMeant(ip, es) == match Sent(es) case None => NoName case Some(n) => Judge(ip, n)
  {
    if es != [] {
      if es[0].ServerNames? {
        JudgedName(ip, es[0].names);
      } else {
        Judged(ip, es[1..]);
      }
    }
  }

  lemma JudgeSays(ip: AddrParser, n: seq<Byte>, protocols: seq<seq<Byte>>)
    ensures Says(ip, Some(n), protocols, WithName(NOTHING.(alpn := protocols), Judge(ip, n)))
  {
    assert forall i :: 0 <= i < |n| ==> (NameByte(n[i]) <==> IsHostByte(n[i]));
  }

  /**
   Every ClientHello body that fits its length fields is read as what it means: the first host name of the
   first server_name extension, its capital letters replaced by small ones, or the address that it is, or it
   is refused for that name; and every protocol offered, in order.
   */
  lemma ReadsHello(ip: AddrParser, h: Hello)
    requires Fits(h)
    ensures var es := if h.extensions.Some? then h.extensions.value else [];
      Says(ip, Sent(es), ProtocolsMeant(es), Extensions(ip, Encode(h)))
  {
    ReadsAsMeant(ip, h);
    if h.extensions.Some? {
      var es := h.extensions.value;
      Judged(ip, es);
      if Sent(es).Some? {
        JudgeSays(ip, Sent(es).value, ProtocolsMeant(es));
      }
    }
  }

  // ----- From the hello to the records and back -----

  /** The handshake message of a body: type 1, the length in three bytes, the body (RFC 8446 section 4). */
  function Message(body: seq<Byte>): (m: seq<Byte>)
    requires |body| < 0x1000000
    ensures |m| == 4 + |body|
  {
    [1, |body| / 65536, |body| / 256 % 256, |body| % 256] + body
  }

  lemma LengthReadsBack(body: seq<Byte>)
    requires |body| < 0x1000000
    ensures Framing.MessageLength(Message(body)) == |Message(body)|
  {
    var n := |body|;
    assert (n / 65536 * 256 + n / 256 % 256) * 256 + n % 256 == n;
  }

  function Read(ip: AddrParser): Framing.Meaning { (b: seq<Byte>) => Extensions(ip, b) }

  /**
   A ClientHello, encoded and cut into any records within the limits, is answered by what it says, and what is
   hashed is the message.
   */
  lemma RecordsSay(ip: AddrParser, h: Hello, rs: seq<Framing.Record>)
    requires Fits(h) && 4 + |Encode(h)| <= 65536
    requires |rs| <= 32 && |Framing.Frames(rs)| <= 65536 && Framing.Payloads(rs) == Message(Encode(h))
    ensures var es := if h.extensions.Some? then h.extensions.value else [];
      match Framing.Parse(Framing.VerdictOf(Read(ip)), Framing.Frames(rs))
      case NeedMore => false
      case Failed(e) => Says(ip, Sent(es), ProtocolsMeant(es), Err(e))
      case Parsed(info) =>
        info.hashed == Message(Encode(h)) && Says(ip, Sent(es), ProtocolsMeant(es), Ok(info.(hashed := [])))
  {
    var msg := Message(Encode(h));
    LengthReadsBack(Encode(h));
    Framing.SplitDoesNotMatter(Read(ip), msg, rs, rs);
    assert msg[4..] == Encode(h);
    ReadsHello(ip, h);
    HashedLater(ip, h);
  }

  /** The extensions say nothing of the hash. */
  lemma HashedLater(ip: AddrParser, h: Hello)
    requires Fits(h)
    ensures Extensions(ip, Encode(h)).Ok? ==> Extensions(ip, Encode(h)).value.hashed == []
  {
    ReadsHello(ip, h);
  }
}
