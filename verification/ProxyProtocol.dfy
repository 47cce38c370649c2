/**
 The PROXY protocol, versions 1 and 2 (proxy_protocol.go): writing a header, and taking one off the front
 of a connection. A string is a sequence of bytes, one per character. IPv4 addresses are exact in both
 forms; how IPv6 addresses are written as text is given by a codec.
 */
module ProxyProtocol {
  import opened Wrappers
  import opened Decimal

  const V1_PREFIX := "PROXY "
  const V1_MAX_LEN := 108
  const V2_SIG := "\r\n\r\n\0\r\nQUIT\n"

  /** An address: 4 or 16 bytes. */
  datatype Addr = V4(b: string) | V6(b: string)

  datatype Endpoint = Endpoint(addr: Addr, port: nat)

  /** A TCP address as the net package holds it. */
  datatype TcpAddr = TcpAddr(ip: string, port: int)

  predicate IsBytes(s: string) { forall i :: 0 <= i < |s| ==> s[i] as int < 256 }

  // ----- Addresses -----

  function FromSlice(ip: string): Option<Addr> {
    if |ip| == 4 then Some(V4(ip)) else if |ip| == 16 then Some(V6(ip)) else None
  }

  const MAPPED := "\0\0\0\0\0\0\0\0\0\0\U{ff}\U{ff}"

  function As16(a: Addr): Addr {
    match a
    case V4(b) => V6(MAPPED + b)
    case V6(_) => a
  }

  function Unmap(a: Addr): Addr {
    match a
    case V4(_) => a
    case V6(b) => if |b| == 16 && b[..12] == MAPPED then V4(b[12..]) else a
  }

  // ----- Text -----

  function Split(s: string, sep: char): (parts: seq<string>)
    ensures parts != []
  {
    if s == "" then [""]
    else
      var rest := Split(s[1..], sep);
      if s[0] == sep then [""] + rest else [[s[0]] + rest[0]] + rest[1..]
  }

  /** Words with a separator between them. */
  function Words(parts: seq<string>, sep: char): string
    requires parts != []
  {
    if |parts| == 1 then parts[0] else parts[0] + [sep] + Words(parts[1..], sep)
  }

  lemma {:induction false} SplitOfWord(w: string, rest: string, sep: char)
    requires sep !in w
    ensures Split(w, sep) == [w] && Split(w + [sep] + rest, sep) == [w] + Split(rest, sep)
    decreases |w|
  {
    if w == "" {
      assert ([] + [sep] + rest)[1..] == rest;
    } else {
      SplitOfWord(w[1..], rest, sep);
      assert (w + [sep] + rest)[1..] == w[1..] + [sep] + rest;
      assert w == [w[0]] + w[1..];
    }
  }

  lemma {:induction false} SplitOfWords(parts: seq<string>, sep: char)
    requires parts != [] && forall i :: 0 <= i < |parts| ==> sep !in parts[i]
    ensures Split(Words(parts, sep), sep) == parts
    decreases |parts|
  {
    if |parts| == 1 {
      SplitOfWord(parts[0], "", sep);
    } else {
      SplitOfWords(parts[1..], sep);
      SplitOfWord(parts[0], Words(parts[1..], sep), sep);
    }
  }

  /** Splitting keeps the text, and no part holds the separator. */
  lemma {:induction false} WordsOfSplit(s: string, sep: char)
    ensures Words(Split(s, sep), sep) == s && forall i :: 0 <= i < |Split(s, sep)| ==> sep !in Split(s, sep)[i]
    decreases |s|
  {
    if s != "" {
      WordsOfSplit(s[1..], sep);
      var rest := Split(s[1..], sep);
      if s[0] == sep {
        assert ([""] + rest)[1..] == rest && |[""] + rest| > 1;
        assert s == "" + [sep] + s[1..];
      } else {
        var parts := [[s[0]] + rest[0]] + rest[1..];
        assert parts[1..] == rest[1..] && s == [s[0]] + s[1..];
        assert |rest| > 1 ==> Words(rest, sep) == rest[0] + [sep] + Words(rest[1..], sep);
      }
    }
  }

  function Octet(c: char): string { Itoa(c as int) }

  function Dotted(b: string): string
    requires |b| == 4
  {
    Words([Octet(b[0]), Octet(b[1]), Octet(b[2]), Octet(b[3])], '.')
  }

  /** One field of a dotted address: digits without a leading zero, at most 255. */
  function ParseOctet(s: string): Option<char> {
    if |s| > 1 && s[0] == '0' then None
    else
      match Value(s)
      case None => None
      case Some(v) => if v > 255 then None else Some(v as char)
  }

  function ParseDotted(s: string): Option<Addr> {
    var f := Split(s, '.');
    if |f| != 4 then None
    else
      var a, b, c, d := ParseOctet(f[0]), ParseOctet(f[1]), ParseOctet(f[2]), ParseOctet(f[3]);
      if a.Some? && b.Some? && c.Some? && d.Some? then Some(V4([a.value, b.value, c.value, d.value])) else None
  }

  /** IPv6 text, both ways. */
  datatype Codec = Codec(format: string -> string, parse: string -> Option<string>)

  /** The first of the characters that tell the families apart. */
  function FirstMark(s: string): Option<char> {
    if s == "" then None
    else if s[0] == '.' || s[0] == ':' || s[0] == '%' then Some(s[0])
    else FirstMark(s[1..])
  }

  /** What is assumed of IPv6 text: it reads back, starts like one, is no longer than 39, and is one word. */
  ghost predicate Canonical(codec: Codec) {
    forall b :: |b| == 16 && IsBytes(b) ==>
      var t := codec.format(b);
      codec.parse(t) == Some(b) && FirstMark(t) == Some(':') && |t| <= 39 && ' ' !in t && '\r' !in t && '\n' !in t
  }

  function AddrText(codec: Codec, a: Addr): string
    requires a.V4? ==> |a.b| == 4
  {
    if a.V4? then Dotted(a.b) else codec.format(a.b)
  }

  function ParseAddr(codec: Codec, s: string): Option<Addr> {
    match FirstMark(s)
    case None => None
    case Some(c) =>
      if c == '.' then ParseDotted(s)
      else if c == ':' then (match codec.parse(s) case None => None case Some(b) => Some(V6(b)))
      else None
  }

  /** A number below 256 is written with 1 to 3 digits, no leading zero. */
  lemma OctetText(c: char)
    requires c as int < 256
    ensures 1 <= |Octet(c)| <= 3 && ParseOctet(Octet(c)) == Some(c)
    ensures forall i :: 0 <= i < |Octet(c)| ==> IsDigit(Octet(c)[i])
  {
    var n := c as int;
    ValueOfItoa(n);
    if n >= 10 {
      assert Itoa(n) == Itoa(n / 10) + [Digit(n % 10)];
      if n >= 100 {
        assert Itoa(n / 10) == Itoa(n / 100) + [Digit(n / 10 % 10)];
      }
    }
  }

  lemma {:induction false} MarkAfterDigits(digits: string, rest: string)
    requires forall i :: 0 <= i < |digits| ==> IsDigit(digits[i])
    ensures FirstMark(digits + rest) == FirstMark(rest)
    decreases |digits|
  {
    if digits == "" {
      assert digits + rest == rest;
    } else {
      assert (digits + rest)[1..] == digits[1..] + rest;
      MarkAfterDigits(digits[1..], rest);
    }
  }

  lemma FourWords(a: string, b: string, c: string, d: string, sep: char)
    ensures Words([a, b, c, d], sep) == a + ([sep] + (b + ([sep] + (c + ([sep] + d)))))
  {
    var two, three := [c, d], [b, c, d];
    assert [a, b, c, d][1..] == three && three[1..] == two && two[1..] == [d];
    assert Words(two, sep) == c + ([sep] + d);
    assert Words(three, sep) == b + ([sep] + Words(two, sep));
    assert Words([a, b, c, d], sep) == a + ([sep] + Words(three, sep));
  }

  lemma DottedText(b: string)
    requires |b| == 4 && IsBytes(b)
    ensures ParseDotted(Dotted(b)) == Some(V4(b)) && FirstMark(Dotted(b)) == Some('.')
    ensures |Dotted(b)| <= 15 && forall i :: 0 <= i < |Dotted(b)| ==> IsDigit(Dotted(b)[i]) || Dotted(b)[i] == '.'
  {
    var parts := [Octet(b[0]), Octet(b[1]), Octet(b[2]), Octet(b[3])];
    OctetText(b[0]);
    OctetText(b[1]);
    OctetText(b[2]);
    OctetText(b[3]);
    FourWords(parts[0], parts[1], parts[2], parts[3], '.');
    MarkAfterDigits(parts[0], "." + (parts[1] + ("." + (parts[2] + ("." + parts[3])))));
    DottedReadsBack(b);
  }

  lemma DottedReadsBack(b: string)
    requires |b| == 4 && IsBytes(b)
    ensures ParseDotted(Dotted(b)) == Some(V4(b))
  {
    var parts := [Octet(b[0]), Octet(b[1]), Octet(b[2]), Octet(b[3])];
    forall i | 0 <= i < 4 ensures '.' !in parts[i] && ParseOctet(parts[i]) == Some(b[i]) {
      OctetText(b[i]);
    }
    SplitOfWords(parts, '.');
    assert b == [b[0], b[1], b[2], b[3]];
  }

  /** An address as one word, which reads back. */
  lemma AddrReadsBack(codec: Codec, a: Addr)
    requires Canonical(codec) && IsBytes(a.b) && |a.b| == if a.V4? then 4 else 16
    ensures ParseAddr(codec, AddrText(codec, a)) == Some(a)
    ensures ' ' !in AddrText(codec, a) && '\r' !in AddrText(codec, a) && |AddrText(codec, a)| <= 39
  {
    if a.V4? {
      DottedText(a.b);
    }
  }

  // ----- Writing a header -----

  function U16(n: nat): string
    requires n < 0x1_0000
  {
    [(n / 256) as char, (n % 256) as char]
  }

  /** The endpoint as written: unmapped, or as IPv6 where the other side's family differs. */
  function Written(a: TcpAddr, other: TcpAddr): Option<Endpoint> {
    var ip, oip := FromSlice(a.ip), FromSlice(other.ip);
    if ip.None? || oip.None? || !(0 <= a.port <= 65535) then None
    else
      var x, y := Unmap(ip.value), Unmap(oip.value);
      Some(Endpoint(if x.V4? != y.V4? then As16(x) else x, a.port))
  }

  function HeaderV1(codec: Codec, s: Endpoint, d: Endpoint): string
    requires s.addr.V4? ==> |s.addr.b| == 4
    requires d.addr.V4? ==> |d.addr.b| == 4
  {
    var family := if s.addr.V4? then "TCP4" else "TCP6";
    Words(["PROXY", family, AddrText(codec, s.addr), AddrText(codec, d.addr), Itoa(s.port), Itoa(d.port)], ' ') + "\r\n"
  }

  function HeaderV2(s: Endpoint, d: Endpoint): string
    requires s.port < 0x1_0000 && d.port < 0x1_0000
  {
    var (family, length) := if s.addr.V4? then (0x11 as char, 12) else (0x21 as char, 36);
    V2_SIG + (([0x21 as char, family] + U16(length)) + ((s.addr.b + d.addr.b) + (U16(s.port) + U16(d.port))))
  }

  /** proxyProtocolHeader; None for what is not a TCP address. */
  function Header(codec: Codec, version: int, src: Option<TcpAddr>, dst: Option<TcpAddr>): Option<string> {
    if src.None? || dst.None? then None
    else
      var s, d := Written(src.value, dst.value), Written(dst.value, src.value);
      if s.None? || d.None? then None
      else if version == 1 then Some(HeaderV1(codec, s.value, d.value))
      else if version == 2 then Some(HeaderV2(s.value, d.value))
      else None
  }

  // ----- Reading one -----

  datatype Ends = Ends(src: Endpoint, dst: Endpoint)

  /** What reading a header leaves: an error, or the addresses stated, if any, and the bytes after it. */
  datatype Reading = Bad | Stated(ends: Option<Ends>, rest: string)

  /** The length of the line that ends in CRLF, given that its first n bytes do not. */
  function LineEnd(s: string, n: nat): (r: Option<nat>)
    requires n > 0
    ensures r.Some? ==> n < r.value <= |s|
    decreases |s| - n
  {
    if n >= V1_MAX_LEN || n >= |s| then None
    else if s[n - 1] == '\r' && s[n] == '\n' then Some(n + 1)
    else LineEnd(s, n + 1)
  }

  function ParsePort(s: string): Option<nat> {
    match Atoi(s)
    case None => None
    case Some(p) => if p < 0 || p > 65535 then None else Some(p)
  }

  /** The fields of a v1 line: None is invalid, Some(None) is UNKNOWN. */
  function ParseLine(codec: Codec, line: string): Option<Option<Ends>> {
    var f := Split(line, ' ');
    if |f| >= 2 && f[0] == "PROXY" && f[1] == "UNKNOWN" then Some(None)
    else if |f| != 6 || f[0] != "PROXY" || (f[1] != "TCP4" && f[1] != "TCP6") then None
    else
      var src, dst := ParseAddr(codec, f[2]), ParseAddr(codec, f[3]);
      var sport, dport := ParsePort(f[4]), ParsePort(f[5]);
      if src.None? || dst.None? || sport.None? || dport.None? then None
      else if src.value.V4? != (f[1] == "TCP4") || dst.value.V4? != (f[1] == "TCP4") then None
      else Some(Some(Ends(Endpoint(src.value, sport.value), Endpoint(dst.value, dport.value))))
  }

  /** A stream that starts with the v1 signature. */
  function ReadV1(codec: Codec, s: string): Reading {
    match LineEnd(s, |V1_PREFIX|)
    case None => Bad
    case Some(n) =>
      (match ParseLine(codec, s[..n - 2])
       case None => Bad
       case Some(ends) => Stated(ends, s[n..]))
  }

  function Num(s: string): nat
    requires |s| == 2
  {
    s[0] as int * 256 + s[1] as int
  }

  /** How long the address block of a family must be. */
  function Need(family: nat): nat {
    if family == 1 then 12 else if family == 2 then 36 else if family == 3 then 216 else 0
  }

  /** What follows the v2 signature. */
  function ReadV2(s: string): Reading {
    if |s| < 4 then Bad
    else
      var version, command := s[0] as int / 16, s[0] as int % 16;
      var family, protocol := s[1] as int / 16, s[1] as int % 16;
      var length := Num(s[2..4]);
      if version != 2 || command > 1 then Bad
      else if command == 0 then (if |s| < 4 + length then Bad else Stated(None, s[4 + length..]))
      else if family > 3 || protocol > 2 || length < Need(family) then Bad
      else if (family == 1 || family == 2) && protocol != 1 then Bad
      else if |s| < 4 + length then Bad
      else Stated(Block(family, s[4..4 + length]), s[4 + length..])
  }

  /** The addresses of a block, for the families that have them. */
  function Block(family: nat, b: string): Option<Ends>
    requires |b| >= Need(family)
  {
    if family == 1 then
      Some(Ends(Endpoint(V4(b[0..4]), Num(b[8..10])), Endpoint(V4(b[4..8]), Num(b[10..12]))))
    else if family == 2 then
      Some(Ends(Endpoint(V6(b[0..16]), Num(b[32..34])), Endpoint(V6(b[16..32]), Num(b[34..36]))))
    else None
  }

  /** A detected connection: the bytes to replay, then those still to come. Version 0 is no header. */
  datatype Outcome = Failed | Detected(prefix: string, rest: string, ends: Option<Ends>, version: nat)

  function Signature(first: char): Option<string> {
    if first == V1_PREFIX[0] then Some(V1_PREFIX) else if first == V2_SIG[0] then Some(V2_SIG) else None
  }

  /** detectProxyProtocol. broken: when the stream stops, that is an I/O error and not its end. */
  function Detect(codec: Codec, s: string, broken: bool): Outcome {
    if s == "" then Failed
    else
      var sig := Signature(s[0]);
      if sig.None? then Detected(s[..1], s[1..], None, 0)
      else
        var n := |sig.value|;
        if |s| < n then (if broken then Failed else Detected(s, "", None, 0))
        else if s[..n] != sig.value then Detected(s[..n], s[n..], None, 0)
        else
          var (reading, version) := if sig.value == V1_PREFIX then (ReadV1(codec, s), 1) else (ReadV2(s[n..]), 2);
          if reading.Bad? then Failed else Detected("", reading.rest, reading.ends, version)
  }

  // ----- The round trip -----

  lemma {:induction false} LineEndFinds(line: string, tail: string, n: nat)
    requires 0 < n <= |line| && |line| + 2 <= V1_MAX_LEN && '\r' !in line
    ensures LineEnd(line + "\r\n" + tail, n) == Some(|line| + 2)
    decreases |line| - n
  {
    var s := line + "\r\n" + tail;
    if n < |line| {
      assert s[n - 1] == line[n - 1];
      LineEndFinds(line, tail, n + 1);
    } else {
      assert s[n] == '\r' && s[n + 1] == '\n' && s[n - 1] == line[n - 1];
      assert LineEnd(s, n + 1) == Some(n + 2);
    }
  }

  /** A port as one word, which reads back. */
  lemma PortReadsBack(p: nat)
    requires p <= 65535
    ensures ParsePort(Itoa(p)) == Some(p) && |Itoa(p)| <= 5 && ' ' !in Itoa(p) && '\r' !in Itoa(p)
  {
    AtoiOfItoa(p);
    ItoaLength(p, 5, 100000);
  }

  lemma {:induction false} ItoaLength(n: nat, k: nat, bound: nat)
    requires n < bound && k > 0 && bound == Tens(k)
    ensures |Itoa(n)| <= k
    decreases k
  {
    if n >= 10 {
      ItoaLength(n / 10, k - 1, Tens(k - 1));
    }
  }

  function Tens(k: nat): nat { if k == 0 then 1 else 10 * Tens(k - 1) }

  /** An endpoint that may be written: the address of the right length, the port in range. */
  ghost predicate Proper(e: Endpoint) {
    IsBytes(e.addr.b) && |e.addr.b| == (if e.addr.V4? then 4 else 16) && e.port <= 65535
  }

  lemma {:induction false} WordsPlain(parts: seq<string>, sep: char, c: char)
    requires parts != [] && c != sep && forall i :: 0 <= i < |parts| ==> c !in parts[i]
    ensures c !in Words(parts, sep)
    decreases |parts|
  {
    if |parts| > 1 {
      WordsPlain(parts[1..], sep, c);
    }
  }

  lemma {:induction false} WordsLength(parts: seq<string>, sep: char)
    requires parts != []
    ensures |Words(parts, sep)| == Total(parts) + |parts| - 1
    decreases |parts|
  {
    if |parts| > 1 {
      WordsLength(parts[1..], sep);
    } else {
      assert parts[1..] == [];
    }
  }

  function Total(parts: seq<string>): nat { if parts == [] then 0 else |parts[0]| + Total(parts[1..]) }

  function Fields(codec: Codec, s: Endpoint, d: Endpoint): seq<string>
    requires s.addr.V4? ==> |s.addr.b| == 4
    requires d.addr.V4? ==> |d.addr.b| == 4
  {
    ["PROXY", if s.addr.V4? then "TCP4" else "TCP6", AddrText(codec, s.addr), AddrText(codec, d.addr), Itoa(s.port), Itoa(d.port)]
  }

  lemma FieldsArePlain(codec: Codec, s: Endpoint, d: Endpoint)
    requires Canonical(codec) && Proper(s) && Proper(d)
    ensures forall i :: 0 <= i < 6 ==> Plain(Fields(codec, s, d)[i])
  {
    forall i | 0 <= i < 6 ensures Plain(Fields(codec, s, d)[i]) {
      if i == 2 || i == 3 {
        AddrReadsBack(codec, if i == 2 then s.addr else d.addr);
      } else if i >= 4 {
        PortReadsBack(if i == 4 then s.port else d.port);
      }
    }
  }

  predicate Plain(word: string) { ' ' !in word && '\r' !in word }

  lemma FieldsAreShort(codec: Codec, s: Endpoint, d: Endpoint)
    requires Canonical(codec) && Proper(s) && Proper(d)
    ensures |Words(Fields(codec, s, d), ' ')| + 2 <= V1_MAX_LEN
  {
    var f := Fields(codec, s, d);
    AddrReadsBack(codec, s.addr);
    AddrReadsBack(codec, d.addr);
    PortReadsBack(s.port);
    PortReadsBack(d.port);
    WordsLength(f, ' ');
    TotalOfSix(f[0], f[1], f[2], f[3], f[4], f[5]);
    assert f == [f[0], f[1], f[2], f[3], f[4], f[5]];
  }

  lemma TotalOfSix(a: string, b: string, c: string, d: string, e: string, f: string)
    ensures Total([a, b, c, d, e, f]) == |a| + |b| + |c| + |d| + |e| + |f|
  {
    assert [a, b, c, d, e, f][1..] == [b, c, d, e, f] && [b, c, d, e, f][1..] == [c, d, e, f];
    assert [c, d, e, f][1..] == [d, e, f] && [d, e, f][1..] == [e, f] && [e, f][1..] == [f] && [f][1..] == [];
    assert Total([f]) == |f| && Total([e, f]) == |e| + |f| && Total([d, e, f]) == |d| + |e| + |f|;
    assert Total([c, d, e, f]) == |c| + |d| + |e| + |f|;
    assert Total([b, c, d, e, f]) == |b| + |c| + |d| + |e| + |f|;
  }

  /** A v1 line states the endpoints it was written for. */
  lemma LineReadsBack(codec: Codec, s: Endpoint, d: Endpoint)
    requires Canonical(codec) && Proper(s) && Proper(d) && s.addr.V4? == d.addr.V4?
    ensures ParseLine(codec, Words(Fields(codec, s, d), ' ')) == Some(Some(Ends(s, d)))
  {
    FieldsArePlain(codec, s, d);
    SplitOfWords(Fields(codec, s, d), ' ');
    AddrReadsBack(codec, s.addr);
    AddrReadsBack(codec, d.addr);
    PortReadsBack(s.port);
    PortReadsBack(d.port);
  }

  lemma V1RoundTrip(codec: Codec, s: Endpoint, d: Endpoint, tail: string, broken: bool)
    requires Canonical(codec) && Proper(s) && Proper(d) && s.addr.V4? == d.addr.V4?
    ensures Detect(codec, HeaderV1(codec, s, d) + tail, broken) == Detected("", tail, Some(Ends(s, d)), 1)
  {
    var f := Fields(codec, s, d);
    var line := Words(f, ' ');
    var all := line + "\r\n" + tail;
    assert line == ("PROXY" + " ") + Words(f[1..], ' ');
    assert "PROXY" + " " == V1_PREFIX && all[..6] == V1_PREFIX;
    V1ReadsBack(codec, s, d, tail);
  }

  lemma V1ReadsBack(codec: Codec, s: Endpoint, d: Endpoint, tail: string)
    requires Canonical(codec) && Proper(s) && Proper(d) && s.addr.V4? == d.addr.V4?
    ensures ReadV1(codec, Words(Fields(codec, s, d), ' ') + "\r\n" + tail) == Stated(Some(Ends(s, d)), tail)
  {
    var f := Fields(codec, s, d);
    FieldsArePlain(codec, s, d);
    WordsPlain(f, ' ', '\r');
    FieldsAreShort(codec, s, d);
    LineReadsBack(codec, s, d);
    LineIsRead(codec, Words(f, ' '), Some(Ends(s, d)), tail);
  }

  lemma LineIsRead(codec: Codec, line: string, ends: Option<Ends>, tail: string)
    requires '\r' !in line && |line| + 2 <= V1_MAX_LEN && ParseLine(codec, line) == Some(ends)
    ensures ReadV1(codec, line + "\r\n" + tail) == Stated(ends, tail)
  {
    var all := line + "\r\n" + tail;
    LineIsLong(codec, line);
    LineEndFinds(line, tail, 6);
    assert all[..|line| + 2 - 2] == line && all[|line| + 2..] == tail;
  }

  /** A line with fields is longer than the signature. */
  lemma LineIsLong(codec: Codec, line: string)
    requires ParseLine(codec, line).Some?
    ensures |line| >= 6
  {
    SplitLength(line, ' ');
    var f := Split(line, ' ');
    assert Total(f) >= |f[0]| + |f[1]| by {
      assert f[1..][0] == f[1];
    }
  }

  lemma {:induction false} SplitLength(s: string, sep: char)
    ensures |s| == Total(Split(s, sep)) + |Split(s, sep)| - 1
    decreases |s|
  {
    if s != "" {
      SplitLength(s[1..], sep);
      var rest := Split(s[1..], sep);
      if s[0] == sep {
        assert ([""] + rest)[1..] == rest;
      } else {
        assert ([[s[0]] + rest[0]] + rest[1..])[1..] == rest[1..];
      }
    } else {
      assert [""][1..] == [];
    }
  }

  lemma NumOfU16(n: nat)
    requires n < 0x1_0000
    ensures Num(U16(n)) == n
  {
  }

  /** The address block of a v2 header. */
  function BlockText(s: Endpoint, d: Endpoint): string
    requires s.port < 0x1_0000 && d.port < 0x1_0000
  {
    (s.addr.b + d.addr.b) + (U16(s.port) + U16(d.port))
  }

  lemma BlockReadsBack(s: Endpoint, d: Endpoint)
    requires Proper(s) && Proper(d) && s.addr.V4? == d.addr.V4?
    ensures var family := if s.addr.V4? then 1 else 2;
      |BlockText(s, d)| == Need(family) && Block(family, BlockText(s, d)) == Some(Ends(s, d))
  {
    NumOfU16(s.port);
    NumOfU16(d.port);
    var n := |s.addr.b|;
    var b := BlockText(s, d);
    assert b[0..n] == s.addr.b && b[n..n + n] == d.addr.b;
    assert b[n + n..n + n + 2] == U16(s.port) && b[n + n + 2..n + n + 4] == U16(d.port);
  }

  lemma V2RoundTrip(codec: Codec, s: Endpoint, d: Endpoint, tail: string, broken: bool)
    requires Proper(s) && Proper(d) && s.addr.V4? == d.addr.V4?
    ensures Detect(codec, HeaderV2(s, d) + tail, broken) == Detected("", tail, Some(Ends(s, d)), 2)
  {
    var h := HeaderV2(s, d);
    var block := BlockText(s, d);
    var (family, code, length) := if s.addr.V4? then (1, 0x11 as char, 12) else (2, 0x21 as char, 36);
    var rest := ([0x21 as char, code] + U16(length)) + block + tail;
    assert h + tail == V2_SIG + rest;
    assert (h + tail)[..12] == V2_SIG && (h + tail)[12..] == rest;
    BlockReadsBack(s, d);
    NumOfU16(length);
    assert rest[2..4] == U16(length) && rest[4..4 + length] == block && rest[4 + length..] == tail;
  }

  lemma WrittenIsProper(a: TcpAddr, other: TcpAddr)
    requires IsBytes(a.ip) && IsBytes(other.ip) && Written(a, other).Some? && Written(other, a).Some?
    ensures Proper(Written(a, other).value)
    ensures Written(a, other).value.addr.V4? == Written(other, a).value.addr.V4?
    ensures Unmap(Written(a, other).value.addr) == Unmap(FromSlice(a.ip).value) && Written(a, other).value.port == a.port
  {
    UnmapMeaning(FromSlice(a.ip).value);
    UnmapMeaning(FromSlice(other.ip).value);
  }

  /** Unmapping is final, and undoes mapping. */
  lemma UnmapMeaning(a: Addr)
    requires IsBytes(a.b) && |a.b| == if a.V4? then 4 else 16
    ensures var u := Unmap(a);
      IsBytes(u.b) && |u.b| == (if u.V4? then 4 else 16) && Unmap(u) == u &&
      IsBytes(As16(u).b) && |As16(u).b| == 16 && Unmap(As16(u)) == u
  {
    var u := Unmap(a);
    if u.V4? {
      assert (MAPPED + u.b)[..12] == MAPPED && (MAPPED + u.b)[12..] == u.b;
    }
  }

  /**
   Reading back a header, whatever follows it: the endpoints it was written for, up to IPv4-mapping, the
   version, and exactly the bytes that follow.
   */
  lemma HeaderReadsBack(codec: Codec, version: int, src: TcpAddr, dst: TcpAddr, tail: string, broken: bool)
    requires Canonical(codec) && IsBytes(src.ip) && IsBytes(dst.ip)
    requires Header(codec, version, Some(src), Some(dst)).Some?
    ensures var o := Detect(codec, Header(codec, version, Some(src), Some(dst)).value + tail, broken);
      o.Detected? && o.prefix == "" && o.rest == tail && o.version == version && o.ends.Some? &&
      Unmap(o.ends.value.src.addr) == Unmap(FromSlice(src.ip).value) && o.ends.value.src.port == src.port &&
      Unmap(o.ends.value.dst.addr) == Unmap(FromSlice(dst.ip).value) && o.ends.value.dst.port == dst.port
  {
    var s, d := Written(src, dst).value, Written(dst, src).value;
    WrittenIsProper(src, dst);
    WrittenIsProper(dst, src);
    if version == 1 {
      V1RoundTrip(codec, s, d, tail, broken);
    } else {
      V2RoundTrip(codec, s, d, tail, broken);
    }
  }

  /**
   A stream that does not start with a complete signature is passed on unchanged, its early end included,
   unless an I/O error cuts it off within the signature that its first byte begins.
   */
  lemma OtherStreamsAreReplayed(codec: Codec, s: string, broken: bool)
    requires s != "" && !(V1_PREFIX <= s) && !(V2_SIG <= s)
    ensures var o := Detect(codec, s, broken);
      if broken && Signature(s[0]).Some? && |s| < |Signature(s[0]).value| then o == Failed
      else o.Detected? && o.version == 0 && o.ends == None && o.prefix + o.rest == s
  {
    var sig := Signature(s[0]);
    if sig.Some? && |s| >= |sig.value| {
      assert s[..|sig.value|] != sig.value;
    }
  }

  // ----- The connection -----

  datatype ReadError = Fine | End | Cut | Broken

  class Conn {
    var data: string
    const broken: bool

    constructor (data: string, broken: bool)
      ensures this.data == data && this.broken == broken
    {
      this.data, this.broken := data, broken;
    }

    /** io.ReadFull: n bytes, or all there are and an error. */
    method ReadFull(n: nat) returns (got: string, err: ReadError)
      modifies this
      ensures |old(data)| >= n ==> err == Fine && got == old(data)[..n] && data == old(data)[n..]
      ensures |old(data)| < n ==> got == old(data) && data == ""
      ensures |old(data)| < n ==> err == if broken then Broken else if got == "" then End else Cut
    {
      if |data| >= n {
        got, err := data[..n], Fine;
      } else {
        got, err := data, if broken then Broken else if data == "" then End else Cut;
      }
      data := data[|got|..];
    }

    /** A read of the socket: some bytes, as many as the network has ready. */
    method Read(n: nat, ready: nat) returns (got: string)
      modifies this
      ensures old(data) == got + data && |got| <= n && (n > 0 && old(data) != "" ==> got != "")
    {
      var k := if ready == 0 then 1 else ready;
      k := if k > n then n else k;
      k := if k > |data| then |data| else k;
      got := data[..k];
      data := data[k..];
    }
  }

  class ProxyConn {
    const conn: Conn
    var prefix: string
    const ends: Option<Ends>
    const version: nat

    constructor (conn: Conn, prefix: string, ends: Option<Ends>, version: nat)
      ensures this.conn == conn && this.prefix == prefix && this.ends == ends && this.version == version
    {
      this.conn, this.prefix, this.ends, this.version := conn, prefix, ends, version;
    }

    /** All that reads will still give. */
    ghost function Stream(): string
      reads this, conn
    {
      prefix + conn.data
    }

    /** The replay first, then the socket; nothing is lost, repeated or reordered. */
    method Read(n: nat, ready: nat) returns (got: string)
      modifies this, conn
      ensures old(Stream()) == got + Stream() && |got| <= n && (n > 0 && old(Stream()) != "" ==> got != "")
    {
      if prefix != "" {
        var k := if n < |prefix| then n else |prefix|;
        got := prefix[..k];
        assert prefix + conn.data == got + (prefix[k..] + conn.data);
        prefix := prefix[k..];
      } else {
        got := conn.Read(n, ready);
      }
    }
  }

  /** The bytes up to the CRLF, one at a time. */
  method ReadLine(conn: Conn, start: string) returns (line: Option<string>)
    requires start != ""
    modifies conn
    ensures var s := start + old(conn.data);
      match LineEnd(s, |start|)
      case None => line.None?
      case Some(n) => line == Some(s[..n - 2]) && conn.data == s[n..]
  {
    ghost var s := start + conn.data;
    var got := start;
    while |got| < V1_MAX_LEN
      invariant 0 < |got| && s == got + conn.data
      invariant LineEnd(s, |start|) == LineEnd(s, |got|)
    {
      ghost var before := got;
      var b, err := conn.ReadFull(1);
      if err != Fine {
        return None;
      }
      got := got + b;
      assert s == got + conn.data;
      var n := |got|;
      assert s[n - 2] == got[n - 2] && s[n - 1] == got[n - 1] && n == |before| + 1;
      if n >= 2 && got[n - 2] == '\r' && got[n - 1] == '\n' {
        assert LineEnd(s, |before|) == Some(n);
        assert s[..n - 2] == got[..n - 2] && s[n..] == conn.data;
        return Some(got[..n - 2]);
      }
    }
    return None;
  }

  /** What follows a v2 signature. */
  method ReadBinary(conn: Conn) returns (r: Option<Option<Ends>>)
    modifies conn
    ensures match ReadV2(old(conn.data))
      case Bad => r.None?
      case Stated(ends, rest) => r == Some(ends) && conn.data == rest
  {
    ghost var s := conn.data;
    var header, err := conn.ReadFull(4);
    if err != Fine || header[0] as int / 16 != 2 {
      return None;
    }
    var command, length := header[0] as int % 16, Num(header[2..]);
    assert header[2..] == s[2..4];
    if command == 0 {
      var skipped, end := conn.ReadFull(length);
      if end != Fine {
        return None;
      }
      assert conn.data == s[4 + length..];
      return Some(None);
    }
    if command != 1 {
      return None;
    }
    var family, protocol := header[1] as int / 16, header[1] as int % 16;
    if family > 3 || protocol > 2 || length < Need(family) || ((family == 1 || family == 2) && protocol != 1) {
      return None;
    }
    var block, end := conn.ReadFull(length);
    if end != Fine {
      return None;
    }
    assert block == s[4..4 + length] && conn.data == s[4 + length..];
    return Some(Block(family, block));
  }

  /** detectProxyProtocol does what Detect says, and leaves the rest of the stream on the connection. */
  method DetectProxyProtocol(codec: Codec, conn: Conn) returns (c: Option<ProxyConn>)
    modifies conn
    ensures match Detect(codec, old(conn.data), conn.broken)
      case Failed => c.None?
      case Detected(prefix, rest, ends, version) =>
        c.Some? && c.value.conn == conn && c.value.prefix == prefix && conn.data == rest &&
        c.value.ends == ends && c.value.version == version
  {
    ghost var s := conn.data;
    var first, err := conn.ReadFull(1);
    if err != Fine {
      return None;
    }
    var sig := Signature(first[0]);
    if sig.None? {
      var p := new ProxyConn(conn, first, None, 0);
      return Some(p);
    }
    var more;
    more, err := conn.ReadFull(|sig.value| - 1);
    var seen := first + more;
    if err == Broken {
      return None;
    }
    if err != Fine {
      assert seen == s;
      var p := new ProxyConn(conn, seen, None, 0);
      return Some(p);
    }
    assert seen == s[..|sig.value|] && conn.data == s[|sig.value|..];
    if seen != sig.value {
      var p := new ProxyConn(conn, seen, None, 0);
      return Some(p);
    }
    if sig.value == V1_PREFIX {
      assert seen + conn.data == s;
      var line := ReadLine(conn, seen);
      if line.None? {
        return None;
      }
      var ends := ParseLine(codec, line.value);
      if ends.None? {
        return None;
      }
      var p := new ProxyConn(conn, "", ends.value, 1);
      return Some(p);
    }
    var ends := ReadBinary(conn);
    if ends.None? {
      return None;
    }
    var p := new ProxyConn(conn, "", ends.value, 2);
    return Some(p);
  }
}
