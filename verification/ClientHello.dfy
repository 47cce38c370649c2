/**
 What sni.go reads from the body of a ClientHello (RFC 8446, section 4.1.2): the server name
 (RFC 6066, section 3) and the application protocols offered (RFC 7301, section 3.1).
 */
module ClientHello {
  import opened Wrappers

  /** An IP address, as its 4 or 16 bytes. */
  type Addr = seq<Byte>

  /** netip.ParseAddr, refusing zones and unmapping IPv4-mapped addresses. */
  type AddrParser = seq<Byte> -> Option<Addr>

  datatype Error =
    | NotHandshakeRecord(contentType: Byte)
    | TooManyRecords
    | BadVersion(major: Byte, minor: Byte)
    | EmptyRecord
    | TooLarge
    | NotClientHello(messageType: Byte)
    | Truncated
    | BadHostName(name: seq<Byte>)

  datatype HelloInfo = HelloInfo(sni: seq<Byte>, sniIp: Option<Addr>, alpn: seq<seq<Byte>>, hashed: seq<Byte>)

  const NOTHING := HelloInfo([], None, [], [])

  function U16(hi: Byte, lo: Byte): nat {
    var h: int := hi;
    h * 256 + lo
  }

  function U24(a: Byte, b: Byte, c: Byte): nat {
    U16(a, b) * 256 + c
  }

  predicate IsHostByte(b: Byte) {
    97 <= b <= 122 || 65 <= b <= 90 || 48 <= b <= 57 || b == 46 || b == 45 || b == 95
  }

  function LowerByte(b: Byte): Byte {
    if 65 <= b <= 90 then b + 32 else b
  }

  function Lower(s: seq<Byte>): (r: seq<Byte>)
    ensures |r| == |s|
  {
    seq(|s|, i requires 0 <= i < |s| => LowerByte(s[i]))
  }

  // ----- What the bytes mean -----

  /** The first n bytes, and the rest. */
  function Split(b: seq<Byte>, n: nat): Option<(seq<Byte>, seq<Byte>)> {
    if |b| < n then None else Some((b[..n], b[n..]))
  }

  /** A vector with a one-byte length, and the rest. */
  function Vec8(b: seq<Byte>): Option<(seq<Byte>, seq<Byte>)> {
    if |b| < 1 then None else Split(b[1..], b[0])
  }

  /** A vector with a two-byte length, and the rest. */
  function Vec16(b: seq<Byte>): Option<(seq<Byte>, seq<Byte>)> {
    if |b| < 2 then None else Split(b[2..], U16(b[0], b[1]))
  }

  datatype NameResult = NoName | HostName(name: seq<Byte>) | Address(ip: Addr) | BadName(error: Error)

  /** A host_name entry. */
  function Judge(ip: AddrParser, name: seq<Byte>): NameResult {
    if |name| == 0 || |name| > 253 then BadName(BadHostName(name))
    else
      match ip(name)
      case Some(a) => Address(a)
      case None =>
        if forall i :: 0 <= i < |name| ==> IsHostByte(name[i]) then HostName(Lower(name)) else BadName(BadHostName(name))
  }

  /** The first host_name entry of a server name list. */
  function ScanNames(ip: AddrParser, b: seq<Byte>): NameResult
    decreases |b|
  {
    if b == [] then NoName
    else
      match Vec16(b[1..])
      case None => BadName(Truncated)
      case Some((name, rest)) => if b[0] != 0 then ScanNames(ip, rest) else Judge(ip, name)
  }

  function ServerName(ip: AddrParser, data: seq<Byte>): NameResult {
    match Vec16(data)
    case None => BadName(Truncated)
    case Some((list, _)) => ScanNames(ip, list)
  }

  function ScanProtocols(b: seq<Byte>): Option<seq<seq<Byte>>>
    decreases |b|
  {
    if b == [] then Some([])
    else
      match Vec8(b)
      case None => None
      case Some((p, rest)) =>
        match ScanProtocols(rest)
        case None => None
        case Some(ps) => Some([p] + ps)
  }

  function Protocols(data: seq<Byte>): Option<seq<seq<Byte>>> {
    match Vec16(data)
    case None => None
    case Some((list, _)) => ScanProtocols(list)
  }

  function WithName(info: HelloInfo, r: NameResult): Result<HelloInfo, Error> {
    match r
    case NoName => Ok(info)
    case HostName(name) => Ok(info.(sni := name))
    case Address(a) => Ok(info.(sniIp := Some(a)))
    case BadName(e) => Err(e)
  }

  function WithProtocols(info: HelloInfo, ps: Option<seq<seq<Byte>>>): Result<HelloInfo, Error> {
    match ps
    case None => Err(Truncated)
    case Some(more) => Ok(info.(alpn := info.alpn + more))
  }

  /** The extensions in b, given what those before them said. */
  function ScanExtensions(ip: AddrParser, b: seq<Byte>, seenName: bool, info: HelloInfo): Result<HelloInfo, Error>
    decreases |b|
  {
    if b == [] then Ok(info)
    else if |b| < 2 then Err(Truncated)
    else
      match Vec16(b[2..])
      case None => Err(Truncated)
      case Some((data, rest)) =>
        var typ := U16(b[0], b[1]);
        var next :=
          if typ == 0 && !seenName then WithName(info, ServerName(ip, data))
          else if typ == 16 then WithProtocols(info, Protocols(data))
          else Ok(info);
        match next
        case Err(e) => Err(e)
        case Ok(i) => ScanExtensions(ip, rest, seenName || typ == 0, i)
  }

  /** What is left after the fields in front of the extensions. */
  function AfterHead(body: seq<Byte>): Option<seq<Byte>> {
    match Split(body, 34)
    case None => None
    case Some((_, b)) =>
      match Vec8(b)
      case None => None
      case Some((_, b)) =>
        match Vec16(b)
        case None => None
        case Some((_, b)) =>
          match Vec8(b)
          case None => None
          case Some((_, b)) => Some(b)
  }

  function Extensions(ip: AddrParser, body: seq<Byte>): Result<HelloInfo, Error> {
    match AfterHead(body)
    case None => Err(Truncated)
    case Some(b) =>
      if b == [] then Ok(NOTHING)
      else
        match Vec16(b)
        case None => Err(Truncated)
        case Some((exts, _)) => ScanExtensions(ip, exts, false, NOTHING)
  }

  /** A name that is a server's: small letters, digits, dots, hyphens and underscores, at most 253. */
  predicate CleanName(s: seq<Byte>) {
    |s| <= 253 && forall i :: 0 <= i < |s| ==> 97 <= s[i] <= 122 || 48 <= s[i] <= 57 || s[i] == 45 || s[i] == 46 || s[i] == 95
  }

  /** What the name is, whatever bytes it was read from; an address is kept aside, never as a name. */
  predicate CleanInfo(info: HelloInfo) { CleanName(info.sni) && (info.sniIp.Some? ==> info.sni == []) }

  lemma {:induction false} ScannedName(ip: AddrParser, b: seq<Byte>)
    ensures ScanNames(ip, b).HostName? ==> CleanName(ScanNames(ip, b).name)
    decreases |b|
  {
    if b != [] && Vec16(b[1..]).Some? && b[0] != 0 {
      ScannedName(ip, Vec16(b[1..]).value.1);
    }
  }

  lemma {:induction false} ScannedInfo(ip: AddrParser, b: seq<Byte>, seenName: bool, info: HelloInfo)
    requires CleanInfo(info) && (!seenName ==> info.sni == [] && info.sniIp == None)
    ensures var r := ScanExtensions(ip, b, seenName, info); r.Ok? ==> CleanInfo(r.value)
    decreases |b|
  {
    if |b| >= 2 && Vec16(b[2..]).Some? {
      var (data, rest) := Vec16(b[2..]).value;
      var typ := U16(b[0], b[1]);
      if typ == 0 && !seenName {
        if Vec16(data).Some? {
          ScannedName(ip, Vec16(data).value.0);
        }
        var next := WithName(info, ServerName(ip, data));
        if next.Ok? {
          ScannedInfo(ip, rest, true, next.value);
        }
      } else if typ == 16 {
        var next := WithProtocols(info, Protocols(data));
        if next.Ok? {
          ScannedInfo(ip, rest, seenName, next.value);
        }
      } else {
        ScannedInfo(ip, rest, seenName || typ == 0, info);
      }
    }
  }

  /** Whatever the bytes are, a name that is read has no capital letter, and there is none beside an address. */
  lemma NamesAreClean(ip: AddrParser, body: seq<Byte>)
    ensures Extensions(ip, body).Ok? ==> CleanInfo(Extensions(ip, body).value)
  {
    if AfterHead(body).Some? && AfterHead(body).value != [] && Vec16(AfterHead(body).value).Some? {
      ScannedInfo(ip, Vec16(AfterHead(body).value).value.0, false, NOTHING);
    }
  }

  // ----- The parser -----

  /** A bounds-checked reader: once it ran short it stays bad, and hands out nothing. */
  class Cursor {
    var b: seq<Byte>
    var bad: bool

    constructor (b: seq<Byte>)
      ensures this.b == b && !bad
    {
      this.b, bad := b, false;
    }

    method Take(n: nat) returns (out: seq<Byte>)
      modifies this
      ensures if !old(bad) && |old(b)| >= n then !bad && out == old(b)[..n] && b == old(b)[n..] else bad && out == []
    {
      if bad || |b| < n {
        bad := true;
        return [];
      }
      out := b[..n];
      b := b[n..];
    }

    method ReadU8() returns (v: nat)
      modifies this
      ensures if !old(bad) && |old(b)| >= 1 then !bad && v == old(b)[0] && b == old(b)[1..] else bad && v == 0
    {
      var x := Take(1);
      v := if x != [] then x[0] else 0;
    }

    method ReadU16() returns (v: nat)
      modifies this
      ensures if !old(bad) && |old(b)| >= 2 then !bad && v == U16(old(b)[0], old(b)[1]) && b == old(b)[2..] else bad && v == 0
    {
      var x := Take(2);
      v := if x != [] then U16(x[0], x[1]) else 0;
    }

    method ReadVec8() returns (out: seq<Byte>)
      modifies this
      ensures if !old(bad) && Vec8(old(b)).Some? then !bad && (out, b) == Vec8(old(b)).value else bad && out == []
    {
      var n := ReadU8();
      out := Take(n);
    }

    method ReadVec16() returns (out: seq<Byte>)
      modifies this
      ensures if !old(bad) && Vec16(old(b)).Some? then !bad && (out, b) == Vec16(old(b)).value else bad && out == []
    {
      var n := ReadU16();
      out := Take(n);
    }
  }

  method AllHostBytes(name: seq<Byte>) returns (ok: bool)
    ensures ok <==> forall i :: 0 <= i < |name| ==> IsHostByte(name[i])
  {
    for i := 0 to |name|
      invariant forall j :: 0 <= j < i ==> IsHostByte(name[j])
    {
      if !IsHostByte(name[i]) {
        return false;
      }
    }
    ok := true;
  }

  /** The server_name extension. */
  method ReadServerName(ip: AddrParser, data: seq<Byte>, info: HelloInfo) returns (r: Result<HelloInfo, Error>)
    ensures r == WithName(info, ServerName(ip, data))
  {
    var list := new Cursor(data);
    var names := new Cursor([]);
    var inner := list.ReadVec16();
    names.b := inner;
    while !list.bad && |names.b| > 0
      invariant names != list && !names.bad
      invariant list.bad == Vec16(data).None?
      invariant !list.bad ==> ServerName(ip, data) == ScanNames(ip, names.b)
      decreases |names.b|
    {
      var nameType := names.ReadU8();
      var name := names.ReadVec16();
      if names.bad {
        break;
      }
      if nameType != 0 {
        continue;
      }
      if |name| == 0 || |name| > 253 {
        return Err(BadHostName(name));
      }
      var a := ip(name);
      if a.Some? {
        return Ok(info.(sniIp := a));
      }
      var valid := AllHostBytes(name);
      if !valid {
        return Err(BadHostName(name));
      }
      return Ok(info.(sni := Lower(name)));
    }
    if list.bad || names.bad {
      return Err(Truncated);
    }
    r := Ok(info);
  }

  /** The application_layer_protocol_negotiation extension. */
  method ReadProtocols(data: seq<Byte>, info: HelloInfo) returns (r: Result<HelloInfo, Error>)
    ensures r == WithProtocols(info, Protocols(data))
  {
    var list := new Cursor(data);
    var protos := new Cursor([]);
    var inner := list.ReadVec16();
    protos.b := inner;
    var alpn := info.alpn;
    while !list.bad && |protos.b| > 0
      invariant protos != list && !protos.bad
      invariant list.bad == Vec16(data).None?
      invariant !list.bad ==> WithProtocols(info, Protocols(data)) == WithProtocols(info.(alpn := alpn), ScanProtocols(protos.b))
      decreases |protos.b|
    {
      var p := protos.ReadVec8();
      if protos.bad {
        break;
      }
      ghost var more := ScanProtocols(protos.b);
      assert more.Some? ==> alpn + ([p] + more.value) == (alpn + [p]) + more.value;
      alpn := alpn + [p];
    }
    if list.bad || protos.bad {
      return Err(Truncated);
    }
    assert alpn + [] == alpn;
    r := Ok(info.(alpn := alpn));
  }

  method ParseExtensions(ip: AddrParser, body: seq<Byte>) returns (r: Result<HelloInfo, Error>)
    ensures r == Extensions(ip, body)
  {
    var c := new Cursor(body);
    var _ := c.Take(2);
    var _ := c.Take(32);
    assert !c.bad ==> |body| >= 34 && c.b == body[34..];
    var _ := c.ReadVec8();
    var _ := c.ReadVec16();
    var _ := c.ReadVec8();
    if c.bad {
      return Err(Truncated);
    }
    if |c.b| == 0 {
      return Ok(NOTHING);
    }
    var inner := c.ReadVec16();
    if c.bad {
      return Err(Truncated);
    }
    var exts := new Cursor(inner);
    var seenSNI, info := false, NOTHING;
    while |exts.b| > 0
      invariant !exts.bad
      invariant Extensions(ip, body) == ScanExtensions(ip, exts.b, seenSNI, info)
      decreases |exts.b|
    {
      var typ := exts.ReadU16();
      var data := exts.ReadVec16();
      if exts.bad {
        return Err(Truncated);
      }
      if typ == 0 {
        if seenSNI {
          continue;
        }
        seenSNI := true;
        var named := ReadServerName(ip, data, info);
        match named {
          case Err(e) => return Err(e);
          case Ok(i) => info := i;
        }
      } else if typ == 16 {
        var offered := ReadProtocols(data, info);
        match offered {
          case Err(e) => return Err(e);
          case Ok(i) => info := i;
        }
      }
    }
    r := Ok(info);
  }
}
