/**
 Which streams carry a PROXY header, what it states, and which endpoints a header is written for
 (proxy_protocol.go), told by the bytes and without the functions that read them.
 */
module ProxyHeaders {
  import opened Wrappers
  import opened Decimal
  import opened ProxyProtocol

  // ----- IPv4 text -----

  /** A field of a dotted address is exactly what is written for a byte. */
  lemma OctetMeans(s: string)
    ensures match ParseOctet(s)
      case Some(c) => c as int < 256 && s == Octet(c)
      case None => forall c: char :: c as int < 256 ==> s != Octet(c)
  {
    forall c: char | c as int < 256 ensures ParseOctet(Octet(c)) == Some(c) {
      OctetText(c);
    }
    if ParseOctet(s).Some? {
      ItoaOfValue(s);
    }
  }

  ghost predicate Four(b: string) { |b| == 4 && IsBytes(b) }

  /** Exactly the dotted forms of four bytes are read, each as those bytes. */
  lemma DottedMeans(s: string)
    ensures match ParseDotted(s)
      case Some(a) => a.V4? && Four(a.b) && s == Dotted(a.b)
      case None => forall b :: Four(b) ==> s != Dotted(b)
  {
    forall b | Four(b) ensures ParseDotted(Dotted(b)) == Some(V4(b)) {
      DottedReadsBack(b);
    }
    var f := Split(s, '.');
    WordsOfSplit(s, '.');
    if ParseDotted(s).Some? {
      OctetMeans(f[0]);
      OctetMeans(f[1]);
      OctetMeans(f[2]);
      OctetMeans(f[3]);
      assert f == [f[0], f[1], f[2], f[3]];
    }
  }

  predicate IsMark(c: char) { c in ".:%" }

  /** The first mark of a text is c. */
  ghost predicate Marked(s: string, c: char) {
    exists i :: 0 <= i < |s| && s[i] == c && IsMark(c) && forall j :: 0 <= j < i ==> !IsMark(s[j])
  }

  lemma {:induction false} MarkMeans(s: string)
    ensures match FirstMark(s)
      case Some(c) => Marked(s, c)
      case None => forall i :: 0 <= i < |s| ==> !IsMark(s[i])
    decreases |s|
  {
    if s != "" && !IsMark(s[0]) {
      MarkMeans(s[1..]);
      assert forall i :: 0 < i < |s| ==> s[i] == s[1..][i - 1];
      if FirstMark(s).Some? {
        var c := FirstMark(s).value;
        var i :| 0 <= i < |s[1..]| && s[1..][i] == c && IsMark(c) && forall j :: 0 <= j < i ==> !IsMark(s[1..][j]);
        assert s[i + 1] == c;
      }
    }
  }

  lemma OneFirstMark(s: string, c: char, d: char)
    requires Marked(s, c) && Marked(s, d)
    ensures c == d
  {
  }

  /** A word that is the text of an address: four decimal bytes, or IPv6 text, which has a colon as its first mark. */
  ghost predicate Spells(codec: Codec, word: string, a: Addr) {
    match a
    case V4(b) => Four(b) && word == Dotted(b)
    case V6(b) => Marked(word, ':') && codec.parse(word) == Some(b)
  }

  lemma AddrMeans(codec: Codec, word: string, a: Addr)
    ensures ParseAddr(codec, word) == Some(a) <==> Spells(codec, word, a)
  {
    MarkMeans(word);
    DottedMeans(word);
    if Spells(codec, word, a) {
      if a.V4? {
        DottedText(a.b);
      } else {
        OneFirstMark(word, ':', FirstMark(word).value);
      }
    }
  }

  // ----- Version 1 -----

  /** A word that is a port: decimal with an optional sign, from 0 to 65535. */
  ghost predicate IsPort(word: string, port: nat) { Atoi(word) == Some(port) && port < 0x1_0000 }

  /** The six words of a line that states these endpoints, with one space between two of them. */
  ghost predicate LineOf(codec: Codec, line: string, s: Endpoint, d: Endpoint, w: seq<string>) {
    |w| == 6 && (forall i :: 0 <= i < 6 ==> ' ' !in w[i]) && line == Words(w, ' ') &&
    w[0] == "PROXY" && w[1] == (if s.addr.V4? then "TCP4" else "TCP6") && s.addr.V4? == d.addr.V4? &&
    Spells(codec, w[2], s.addr) && Spells(codec, w[3], d.addr) && IsPort(w[4], s.port) && IsPort(w[5], d.port)
  }

  /** What a line states: nothing for UNKNOWN, whatever follows, and else the two endpoints. */
  ghost predicate Tells(codec: Codec, line: string, ends: Option<Ends>) {
    match ends
    case None => line == "PROXY UNKNOWN" || "PROXY UNKNOWN " <= line
    case Some(e) => exists w :: LineOf(codec, line, e.src, e.dst, w)
  }

  lemma WordsGiveLine(codec: Codec, line: string, s: Endpoint, d: Endpoint, w: seq<string>)
    requires LineOf(codec, line, s, d, w)
    ensures ParseLine(codec, line) == Some(Some(Ends(s, d)))
  {
    SplitOfWords(w, ' ');
    AddrMeans(codec, w[2], s.addr);
    AddrMeans(codec, w[3], d.addr);
  }

  lemma LineGivesWords(codec: Codec, line: string, e: Ends)
    requires ParseLine(codec, line) == Some(Some(e))
    ensures LineOf(codec, line, e.src, e.dst, Split(line, ' '))
  {
    var w := Split(line, ' ');
    WordsOfSplit(line, ' ');
    AddrMeans(codec, w[2], e.src.addr);
    AddrMeans(codec, w[3], e.dst.addr);
  }

  /** A text's first two words are these. */
  lemma FirstTwoWords(s: string, a: string, b: string, sep: char)
    requires sep !in a && sep !in b
    ensures var f := Split(s, sep);
      (|f| >= 2 && f[0] == a && f[1] == b) <==> (s == a + [sep] + b || a + [sep] + b + [sep] <= s)
  {
    var f := Split(s, sep);
    WordsOfSplit(s, sep);
    if s == a + [sep] + b {
      SplitOfWord(a, b, sep);
      SplitOfWord(b, "", sep);
    } else if a + [sep] + b + [sep] <= s {
      var n := |a| + 1 + |b| + 1;
      assert s == a + [sep] + (b + [sep] + s[n..]);
      SplitOfWord(a, b + [sep] + s[n..], sep);
      SplitOfWord(b, s[n..], sep);
    }
  }

  lemma UnknownLine(codec: Codec, line: string)
    ensures ParseLine(codec, line) == Some(None) <==> Tells(codec, line, None)
  {
    var proxy, unknown := "PROXY", "UNKNOWN";
    assert proxy + " " + unknown == "PROXY UNKNOWN" && proxy + " " + unknown + " " == "PROXY UNKNOWN ";
    FirstTwoWords(line, proxy, unknown, ' ');
  }

  lemma LineMeans(codec: Codec, line: string, ends: Option<Ends>)
    ensures ParseLine(codec, line) == Some(ends) <==> Tells(codec, line, ends)
  {
    UnknownLine(codec, line);
    if ends.Some? {
      if ParseLine(codec, line) == Some(ends) {
        LineGivesWords(codec, line, ends.value);
      } else if Tells(codec, line, ends) {
        var w :| LineOf(codec, line, ends.value.src, ends.value.dst, w);
        WordsGiveLine(codec, line, ends.value.src, ends.value.dst, w);
      }
    }
  }

  /** A CRLF ends at k. */
  ghost predicate CrlfTo(s: string, k: nat) { 2 <= k <= |s| && s[k - 2] == '\r' && s[k - 1] == '\n' }

  /** The end of the line is that of the first CRLF, within 108 bytes. */
  lemma {:induction false} LineEndMeans(s: string, n: nat)
    requires n > 0
    ensures match LineEnd(s, n)
      case Some(e) => n < e <= 108 && CrlfTo(s, e) && forall k :: n < k < e ==> !CrlfTo(s, k)
      case None => forall k :: n < k <= 108 ==> !CrlfTo(s, k)
    decreases |s| - n
  {
    if n < 108 && n < |s| && !CrlfTo(s, n + 1) {
      LineEndMeans(s, n + 1);
    }
  }

  /** A stream that begins with a line of at most 108 bytes, its CRLF included, and the bytes after it. */
  ghost predicate FirstLine(s: string, line: string, rest: string) {
    s == line + "\r\n" + rest && |line| + 2 <= 108 && forall k: nat :: k < |line| + 2 ==> !CrlfTo(s, k)
  }

  lemma LineOfStream(s: string, line: string, rest: string)
    requires V1_PREFIX <= s
    ensures FirstLine(s, line, rest) <==>
      LineEnd(s, 6) == Some(|line| + 2) && line == s[..|line|] && rest == s[|line| + 2..]
  {
    LineEndMeans(s, 6);
    assert s[..6] == V1_PREFIX;
    assert forall k: nat :: k <= 6 ==> !CrlfTo(s, k) by {
      assert forall i :: 0 <= i < 6 ==> s[i] == V1_PREFIX[i];
    }
    if FirstLine(s, line, rest) {
      assert CrlfTo(s, |line| + 2);
    }
  }

  /** A stream is read as a version 1 header exactly when its first line is one that states these endpoints. */
  lemma Version1Exactly(codec: Codec, s: string, broken: bool, ends: Option<Ends>, rest: string)
    ensures Detect(codec, s, broken) == Detected("", rest, ends, 1) <==>
      exists line :: FirstLine(s, line, rest) && Tells(codec, line, ends)
  {
    OneSignature(codec, s, broken);
    if exists line :: FirstLine(s, line, rest) && Tells(codec, line, ends) {
      var line :| FirstLine(s, line, rest) && Tells(codec, line, ends);
      LineIsRead(codec, s, line, ends, rest);
    } else if V1_PREFIX <= s && ReadV1(codec, s) == Stated(ends, rest) {
      ReadIsLine(codec, s, ends, rest);
    }
  }

  /** Only the two signatures are read as headers. */
  lemma OneSignature(codec: Codec, s: string, broken: bool)
    ensures V1_PREFIX <= s ==> Detect(codec, s, broken) == Outcomes(ReadV1(codec, s), 1)
    ensures V2_SIG <= s ==> Detect(codec, s, broken) == Outcomes(ReadV2(s[12..]), 2)
    ensures !(V1_PREFIX <= s) && !(V2_SIG <= s) ==>
      Detect(codec, s, broken).Failed? || Detect(codec, s, broken).version == 0
  {
    if s != "" && !(V1_PREFIX <= s) && !(V2_SIG <= s) {
      OtherStreamsAreReplayed(codec, s, broken);
    }
  }

  function Outcomes(reading: Reading, version: nat): Outcome {
    if reading.Bad? then Failed else Detected("", reading.rest, reading.ends, version)
  }

  lemma LineIsRead(codec: Codec, s: string, line: string, ends: Option<Ends>, rest: string)
    requires FirstLine(s, line, rest) && Tells(codec, line, ends)
    ensures V1_PREFIX <= s && ReadV1(codec, s) == Stated(ends, rest)
  {
    LineMeans(codec, line, ends);
    LineStartsSo(codec, line);
    assert V1_PREFIX <= s by {
      assert s[..6] == line[..6];
    }
    LineOfStream(s, line, rest);
  }

  lemma ReadIsLine(codec: Codec, s: string, ends: Option<Ends>, rest: string)
    requires V1_PREFIX <= s && ReadV1(codec, s) == Stated(ends, rest)
    ensures exists line :: FirstLine(s, line, rest) && Tells(codec, line, ends)
  {
    var line := s[..LineEnd(s, 6).value - 2];
    LineOfStream(s, line, rest);
    LineMeans(codec, line, ends);
  }

  lemma LineStartsSo(codec: Codec, line: string)
    requires ParseLine(codec, line).Some?
    ensures V1_PREFIX <= line
  {
    var f := Split(line, ' ');
    WordsOfSplit(line, ' ');
    assert line == "PROXY" + " " + Words(f[1..], ' ');
    assert "PROXY" + " " == V1_PREFIX;
  }

  // ----- Version 2 -----

  /** The block states these endpoints, in that order, and may go on. */
  ghost predicate Begins(block: string, s: Endpoint, d: Endpoint) {
    s.port < 0x1_0000 && d.port < 0x1_0000 && BlockText(s, d) <= block
  }

  /** What the two code bytes and the address block of a version 2 header state. */
  ghost predicate Codes(a: char, b: char, block: string, ends: Option<Ends>) {
    || (a == 0x20 as char && ends == None)
    || (a == 0x21 as char && b as int < 3 && ends == None)
    || (a == 0x21 as char && 0x30 <= b as int < 0x33 && |block| >= 216 && ends == None)
    || (a == 0x21 as char && ends.Some? && Begins(block, ends.value.src, ends.value.dst) &&
        ((b == 0x11 as char && IsV4(ends.value.src) && IsV4(ends.value.dst)) ||
         (b == 0x21 as char && IsV6(ends.value.src) && IsV6(ends.value.dst))))
  }

  predicate IsV4(e: Endpoint) { e.addr.V4? && |e.addr.b| == 4 }

  predicate IsV6(e: Endpoint) { e.addr.V6? && |e.addr.b| == 16 }

  /** A stream that begins with the version 2 signature, two code bytes, a length and a block of that length. */
  ghost predicate Binary(s: string, a: char, b: char, block: string, rest: string) {
    |block| < 0x1_0000 && s == V2_SIG + ([a, b] + U16(|block|) + block + rest)
  }

  lemma U16OfNum(s: string)
    requires |s| == 2 && IsBytes(s)
    ensures Num(s) < 0x1_0000 && U16(Num(s)) == s
  {
  }

  lemma BlockMeans(family: nat, b: string, ends: Option<Ends>)
    requires |b| >= Need(family) && IsBytes(b) && family < 4
    ensures Block(family, b) == ends <==>
      if family == 1 then ends.Some? && IsV4(ends.value.src) && IsV4(ends.value.dst) && Begins(b, ends.value.src, ends.value.dst)
      else if family == 2 then
        ends.Some? && IsV6(ends.value.src) && IsV6(ends.value.dst) && Begins(b, ends.value.src, ends.value.dst)
      else ends == None
  {
    if family == 1 || family == 2 {
      var n := if family == 1 then 4 else 16;
      BlockGives(n, b);
      if ends.Some? && Begins(b, ends.value.src, ends.value.dst) && |ends.value.src.addr.b| == n && |ends.value.dst.addr.b| == n {
        BlockTakes(n, b, ends.value.src, ends.value.dst);
      }
    }
  }

  /** The parts of a block, put together again. */
  lemma BlockGives(n: nat, b: string)
    requires |b| >= n + n + 4 && IsBytes(b)
    ensures Num(b[n + n..n + n + 2]) < 0x1_0000 && Num(b[n + n + 2..n + n + 4]) < 0x1_0000
    ensures (b[0..n] + b[n..n + n]) + (U16(Num(b[n + n..n + n + 2])) + U16(Num(b[n + n + 2..n + n + 4]))) == b[..n + n + 4]
  {
    U16OfNum(b[n + n..n + n + 2]);
    U16OfNum(b[n + n + 2..n + n + 4]);
  }

  lemma BlockTakes(n: nat, b: string, s: Endpoint, d: Endpoint)
    requires Begins(b, s, d) && |s.addr.b| == n && |d.addr.b| == n
    ensures |b| >= n + n + 4 && b[0..n] == s.addr.b && b[n..n + n] == d.addr.b
    ensures Num(b[n + n..n + n + 2]) == s.port && Num(b[n + n + 2..n + n + 4]) == d.port
  {
    var t := BlockText(s, d);
    assert t == b[..|t|] && |t| == n + n + 4;
    assert t[0..n] == s.addr.b && t[n..n + n] == d.addr.b;
    assert t[n + n..n + n + 2] == U16(s.port) && t[n + n + 2..n + n + 4] == U16(d.port);
    assert b[0..n] == t[0..n] && b[n..n + n] == t[n..n + n];
    assert b[n + n..n + n + 2] == t[n + n..n + n + 2] && b[n + n + 2..n + n + 4] == t[n + n + 2..n + n + 4];
    NumOfU16(s.port);
    NumOfU16(d.port);
  }

  /** The same, of what follows the signature. */
  ghost predicate Parts(t: string, a: char, b: char, block: string, rest: string) {
    |block| < 0x1_0000 && t == [a, b] + U16(|block|) + block + rest
  }

  lemma PartsMean(t: string, a: char, b: char, block: string, rest: string)
    requires IsBytes(t)
    ensures Parts(t, a, b, block, rest) <==>
      |t| >= 4 && t[0] == a && t[1] == b && |t| >= 4 + |block| && Num(t[2..4]) == |block| &&
      t[4..4 + |block|] == block && t[4 + |block|..] == rest
  {
    var n := |block|;
    if Parts(t, a, b, block, rest) {
      NumOfU16(n);
      assert t[2..4] == U16(n);
    } else if |t| >= 4 && Num(t[2..4]) == n && |t| >= 4 + n {
      U16OfNum(t[2..4]);
      assert t == t[..2] + t[2..4] + t[4..4 + n] + t[4 + n..];
    }
  }

  /** Whether the codes and the block are accepted, and what they state. */
  lemma CodesMean(t: string, a: char, b: char, block: string, rest: string, ends: Option<Ends>)
    requires IsBytes(t) && Parts(t, a, b, block, rest)
    ensures ReadV2(t) == Stated(ends, rest) <==> Codes(a, b, block, ends)
  {
    PartsMean(t, a, b, block, rest);
    var family := b as int / 16;
    if family < 4 && |block| >= Need(family) {
      assert IsBytes(block);
      BlockMeans(family, block, ends);
    }
    if ends.Some? && Begins(block, ends.value.src, ends.value.dst) {
      assert |block| >= |BlockText(ends.value.src, ends.value.dst)|;
    }
  }

  lemma ReadIsBinary(s: string, ends: Option<Ends>, rest: string)
    requires IsBytes(s) && V2_SIG <= s && ReadV2(s[12..]) == Stated(ends, rest)
    ensures exists a, b, block :: Binary(s, a, b, block, rest) && Codes(a, b, block, ends)
  {
    var t := s[12..];
    var n := Num(t[2..4]);
    U16OfNum(t[2..4]);
    PartsMean(t, t[0], t[1], t[4..4 + n], rest);
    CodesMean(t, t[0], t[1], t[4..4 + n], rest, ends);
    assert Binary(s, t[0], t[1], t[4..4 + n], rest);
  }

  /** A stream is read as a version 2 header exactly when its codes are accepted and its block states these endpoints. */
  lemma Version2Exactly(codec: Codec, s: string, broken: bool, ends: Option<Ends>, rest: string)
    requires IsBytes(s)
    ensures Detect(codec, s, broken) == Detected("", rest, ends, 2) <==>
      exists a, b, block :: Binary(s, a, b, block, rest) && Codes(a, b, block, ends)
  {
    OneSignature(codec, s, broken);
    if exists a, b, block :: Binary(s, a, b, block, rest) && Codes(a, b, block, ends) {
      var a, b, block :| Binary(s, a, b, block, rest) && Codes(a, b, block, ends);
      assert s[12..] == [a, b] + U16(|block|) + block + rest;
      CodesMean(s[12..], a, b, block, rest, ends);
    } else if V2_SIG <= s && ReadV2(s[12..]) == Stated(ends, rest) {
      ReadIsBinary(s, ends, rest);
    }
  }

  // ----- What is written -----

  /** An address of 4 bytes, or an IPv6 address that is IPv4-mapped. */
  predicate IsFour(ip: string) { |ip| == 4 || (|ip| == 16 && MAPPED <= ip) }

  /** A TCP address that can be stated. */
  predicate CanBeSent(a: TcpAddr) { (|a.ip| == 4 || |a.ip| == 16) && 0 <= a.port < 0x1_0000 }

  /** How it is stated: as IPv4 where both sides are, and else as IPv6. */
  function Sent(a: TcpAddr, other: TcpAddr): Endpoint
    requires CanBeSent(a)
  {
    Endpoint(
      if IsFour(a.ip) && IsFour(other.ip) then V4(a.ip[|a.ip| - 4..])
      else V6(if |a.ip| == 4 then MAPPED + a.ip else a.ip),
      a.port)
  }

  /** A header is written for two TCP addresses that can be stated, in version 1 or 2, and for nothing else. */
  lemma HeaderExactly(codec: Codec, version: int, src: Option<TcpAddr>, dst: Option<TcpAddr>)
    ensures Header(codec, version, src, dst).Some? <==>
      src.Some? && dst.Some? && CanBeSent(src.value) && CanBeSent(dst.value) && (version == 1 || version == 2)
  {
  }

  lemma WrittenIsSent(a: TcpAddr, other: TcpAddr)
    requires CanBeSent(a) && CanBeSent(other)
    ensures Written(a, other) == Some(Sent(a, other))
  {
    if |a.ip| == 16 && MAPPED <= a.ip {
      assert a.ip[..12] == MAPPED && a.ip == MAPPED + a.ip[12..];
    }
    assert |other.ip| == 16 ==> (MAPPED <= other.ip <==> other.ip[..12] == MAPPED);
  }

  /** What was written is read back, whatever follows it: the endpoints in the one family both can be stated in. */
  lemma SentIsRead(codec: Codec, version: int, src: TcpAddr, dst: TcpAddr, tail: string, broken: bool)
    requires Canonical(codec) && IsBytes(src.ip) && IsBytes(dst.ip)
    requires CanBeSent(src) && CanBeSent(dst) && (version == 1 || version == 2)
    ensures var h := Header(codec, version, Some(src), Some(dst));
      h.Some? && Detect(codec, h.value + tail, broken) == Detected("", tail, Some(Ends(Sent(src, dst), Sent(dst, src))), version)
  {
    WrittenIsSent(src, dst);
    WrittenIsSent(dst, src);
    WrittenIsProper(src, dst);
    WrittenIsProper(dst, src);
    if version == 1 {
      V1RoundTrip(codec, Sent(src, dst), Sent(dst, src), tail, broken);
    } else {
      V2RoundTrip(codec, Sent(src, dst), Sent(dst, src), tail, broken);
    }
  }
}
