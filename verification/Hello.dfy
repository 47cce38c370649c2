/**
 Framing of the ClientHello (RFC 8446, sections 4.1.2 and 5.1): sni.go parseHello, which starts from
 scratch, and proxy.go readHello, which keeps its scanning state across reads.
 */
module Hello {
  import opened Wrappers
  import opened ClientHello

  /** What a ClientHello body says, or why it is refused (ClientHello.Extensions). */
  type Meaning = seq<Byte> -> Result<HelloInfo, Error>

  const MAX_HELLO: nat := 65536
  const MAX_RECORDS: nat := 32

  datatype Outcome = NeedMore | Failed(error: Error) | Parsed(info: HelloInfo)

  /** The length the 4-byte handshake header states, header included. */
  function MessageLength(h: seq<Byte>): (n: nat)
    requires |h| >= 4
    ensures n >= 4
  {
    4 + U24(h[1], h[2], h[3])
  }

  /** What a complete ClientHello message means: its extensions, and the hash of the message. */
  function Finish(ext: Meaning, msg: seq<Byte>): (o: Outcome)
    requires |msg| >= 4
    ensures o != NeedMore
  {
    match ext(msg[4..])
    case Ok(info) => Parsed(info.(hashed := msg))
    case Err(e) => Failed(e)
  }

  /** What the handshake bytes gathered so far already decide, if anything. */
  function Verdict(ext: Meaning, hs: seq<Byte>): Option<Outcome> {
    if |hs| < 4 then None
    else if hs[0] != 1 then Some(Failed(NotClientHello(hs[0])))
    else if MessageLength(hs) > MAX_HELLO then Some(Failed(TooLarge))
    else if |hs| >= MessageLength(hs) then Some(Finish(ext, hs[..MessageLength(hs)]))
    else None
  }

  type Verdicts = seq<Byte> -> Option<Outcome>

  function VerdictOf(ext: Meaning): Verdicts {
    hs => Verdict(ext, hs)
  }

  /** What the header of the next record decides: an outcome, or the length of the record's payload. */
  function NextRecord(rest: seq<Byte>, used: nat, records: nat): (r: Result<nat, Outcome>)
    ensures r.Ok? ==> r.value >= 1 && |rest| >= 5 + r.value
  {
    if |rest| < 5 then
      if |rest| > 0 && rest[0] != 0x16 then Err(Failed(NotHandshakeRecord(rest[0]))) else Err(NeedMore)
    else if rest[0] != 0x16 then Err(Failed(NotHandshakeRecord(rest[0])))
    else if records >= MAX_RECORDS then Err(Failed(TooManyRecords))
    else if rest[1] != 0x03 then Err(Failed(BadVersion(rest[1], rest[2])))
    else
      var n := U16(rest[3], rest[4]);
      if n == 0 then Err(Failed(EmptyRecord))
      else if used + 5 + n > MAX_HELLO then Err(Failed(TooLarge))
      else if |rest| < 5 + n then Err(NeedMore)
      else Ok(n)
  }

  /** The outcome of rest, after used bytes in so many records gave the handshake bytes hs. */
  function ParseRest(v: Verdicts, rest: seq<Byte>, used: nat, records: nat, hs: seq<Byte>): Outcome
    decreases |rest|
  {
    match v(hs)
    case Some(o) => o
    case None =>
      match NextRecord(rest, used, records)
      case Err(o) => o
      case Ok(n) => ParseRest(v, rest[5 + n..], used + 5 + n, records + 1, hs + rest[5..5 + n])
  }

  function Parse(v: Verdicts, data: seq<Byte>): Outcome {
    ParseRest(v, data, 0, 0, [])
  }

  method ParseHello(ext: Meaning, data: seq<Byte>) returns (o: Outcome)
    ensures o == Parse(VerdictOf(ext), data)
  {
    ghost var v := VerdictOf(ext);
    var handshake: seq<Byte> := [];
    var rest := data;
    var records := 0;
    while true
      invariant |rest| <= |data| && records >= 0
      invariant Parse(v, data) == ParseRest(v, rest, |data| - |rest|, records, handshake)
      decreases |rest|
    {
      if |handshake| >= 4 {
        if handshake[0] != 0x01 {
          return Failed(NotClientHello(handshake[0]));
        }
        var msgLen := U24(handshake[1], handshake[2], handshake[3]);
        if 4 + msgLen > MAX_HELLO {
          return Failed(TooLarge);
        }
        if |handshake| >= 4 + msgLen {
          var r := ext(handshake[4..4 + msgLen]);
          assert handshake[..4 + msgLen][4..] == handshake[4..4 + msgLen];
          match r {
            case Ok(info) => return Parsed(info.(hashed := handshake[..4 + msgLen]));
            case Err(e) => return Failed(e);
          }
        }
      }
      if |rest| < 5 {
        if |rest| > 0 && rest[0] != 0x16 {
          return Failed(NotHandshakeRecord(rest[0]));
        }
        return NeedMore;
      }
      if rest[0] != 0x16 {
        return Failed(NotHandshakeRecord(rest[0]));
      }
      if records >= MAX_RECORDS {
        return Failed(TooManyRecords);
      }
      if rest[1] != 0x03 {
        return Failed(BadVersion(rest[1], rest[2]));
      }
      var n := U16(rest[3], rest[4]);
      if n == 0 {
        return Failed(EmptyRecord);
      }
      if |data| - |rest| + 5 + n > MAX_HELLO {
        return Failed(TooLarge);
      }
      if |rest| < 5 + n {
        return NeedMore;
      }
      handshake := handshake + rest[5..5 + n];
      rest := rest[5 + n..];
      records := records + 1;
    }
  }

  // ----- A verdict is final -----

  /** More bytes do not change what the bytes so far decide. */
  lemma {:induction false} OutcomeIsFinal(
      v: Verdicts, rest: seq<Byte>, more: seq<Byte>, used: nat, records: nat, hs: seq<Byte>, o: Outcome)
    requires ParseRest(v, rest, used, records, hs) == o != NeedMore
    ensures ParseRest(v, rest + more, used, records, hs) == o
    decreases |rest|
  {
    if v(hs).None? {
      if NextRecord(rest, used, records).Ok? {
        var n := NextRecord(rest, used, records).value;
        var hs1 := hs + rest[5..5 + n];
        SameRecord(rest, more, used, records, n);
        OutcomeIsFinal(v, rest[5 + n..], more, used + 5 + n, records + 1, hs1, o);
      } else {
        SameRefusal(rest, more, used, records);
      }
    }
  }

  lemma SameRefusal(rest: seq<Byte>, more: seq<Byte>, used: nat, records: nat)
    requires NextRecord(rest, used, records).Err? && NextRecord(rest, used, records).error != NeedMore
    ensures NextRecord(rest + more, used, records) == NextRecord(rest, used, records)
  {
  }

  lemma SameRecord(rest: seq<Byte>, more: seq<Byte>, used: nat, records: nat, n: nat)
    requires NextRecord(rest, used, records) == Ok(n)
    ensures NextRecord(rest + more, used, records) == Ok(n)
    ensures (rest + more)[5..5 + n] == rest[5..5 + n] && (rest + more)[5 + n..] == rest[5 + n..] + more
  {
  }

  /** A verdict is never "need more". */
  ghost predicate NeverWaits(v: Verdicts) {
    forall hs: seq<Byte> :: v(hs) != Some(NeedMore)
  }

  lemma ParseIsFinal(v: Verdicts, data: seq<Byte>, more: seq<Byte>)
    requires Parse(v, data) != NeedMore
    ensures Parse(v, data + more) == Parse(v, data)
  {
    OutcomeIsFinal(v, data, more, 0, 0, [], Parse(v, data));
  }

  /** Only bounded input is undecided. */
  lemma {:induction false} UndecidedIsSmall(v: Verdicts, rest: seq<Byte>, used: nat, records: nat, hs: seq<Byte>)
    requires NeverWaits(v) && used <= MAX_HELLO && ParseRest(v, rest, used, records, hs) == NeedMore
    ensures used + |rest| < MAX_HELLO + 5
    decreases |rest|
  {
    if v(hs).None? && NextRecord(rest, used, records).Ok? {
      var n := NextRecord(rest, used, records).value;
      UndecidedIsSmall(v, rest[5 + n..], used + 5 + n, records + 1, hs + rest[5..5 + n]);
    }
  }

  // ----- The incremental reader -----

  datatype ReadError = Eof | Other(code: int)

  /** One read of the socket: how much it would deliver given the room, and the error with it, if any. */
  datatype ReadStep = ReadStep(want: nat, err: Option<ReadError>)

  function Least(a: nat, b: nat, c: nat): nat {
    if a <= b && a <= c then a else if b <= c then b else c
  }

  /** Copies the bytes into buf from `from` on. */
  method Fill(buf: array<Byte>, from: nat, bytes: seq<Byte>)
    requires from + |bytes| <= buf.Length
    modifies buf
    ensures buf[..from] == old(buf[..from]) && buf[from..from + |bytes|] == bytes
  {
    forall i | 0 <= i < |bytes| {
      buf[from + i] := bytes[i];
    }
  }

  /** The client's socket: a byte stream and how the reads happen to split it. */
  class Conn {
    const stream: seq<Byte>
    var pos: nat
    var script: seq<ReadStep>
    /** How much had arrived when the last read began. */
    ghost var last: nat

    ghost predicate Valid()
      reads this
    {
      last <= pos <= |stream|
    }

    constructor (stream: seq<Byte>, script: seq<ReadStep>)
      ensures Valid() && this.stream == stream && pos == 0 && this.script == script
    {
      this.stream, this.pos, this.script := stream, 0, script;
      last := 0;
    }

    /** Fills buf[from..] with what arrives next. A read without an error uses up a step of the script. */
    method Read(buf: array<Byte>, from: nat) returns (n: nat, err: Option<ReadError>)
      requires Valid() && from <= buf.Length
      modifies this, buf
      ensures Valid() && from + n <= buf.Length && pos == old(pos) + n && last == old(pos)
      ensures buf[..from] == old(buf[..from]) && buf[from..from + n] == stream[old(pos)..pos]
      ensures err.None? ==> |script| < |old(script)|
    {
      last := pos;
      if script == [] {
        return 0, Some(Eof);
      }
      n := Least(script[0].want, buf.Length - from, |stream| - pos);
      err := script[0].err;
      Fill(buf, from, stream[pos..pos + n]);
      pos := pos + n;
      script := script[1..];
    }
  }

  /** Where readHello's answer came from: its own framing checks, parseHello, or the socket. */
  datatype Answer = FromScan(error: Error) | FromParser(outcome: Outcome) | FromSocket(err: ReadError)

  /** The answer is the parser's on the bytes got, which were complete if the parser was handed them. */
  ghost predicate AnswerOk(v: Verdicts, got: seq<Byte>, answer: Answer) {
    match answer
    case FromScan(e) => Parse(v, got) == Failed(e)
    case FromParser(o) => Parse(v, got) == o && o != NeedMore
    case FromSocket(_) => Parse(v, got) == NeedMore
  }

  /** The scanner has consumed head, in so many records, and gathered the handshake bytes hs. */
  ghost predicate Scanned(v: Verdicts, head: seq<Byte>, records: nat, hs: seq<Byte>) {
    forall more: seq<Byte> :: Parse(v, head + more) == ParseRest(v, more, |head|, records, hs)
  }

  lemma ScannedRecord(v: Verdicts, head: seq<Byte>, records: nat, hs: seq<Byte>, record: seq<Byte>)
    requires Scanned(v, head, records, hs) && v(hs).None?
    requires NextRecord(record, |head|, records) == Ok(|record| - 5)
    ensures Scanned(v, head + record, records + 1, hs + record[5..])
  {
    forall more: seq<Byte>
      ensures Parse(v, head + record + more) ==
              ParseRest(v, more, |head + record|, records + 1, hs + record[5..])
    {
      var n := |record| - 5;
      assert head + record + more == head + (record + more);
      assert (record + more)[5..5 + n] == record[5..];
      assert (record + more)[5 + n..] == more;
      assert NextRecord(record + more, |head|, records) == Ok(n);
    }
  }

  /**
   The framing state readHello keeps across reads. header holds the first bytes of the handshake (at
   most 4); helloBytes is the length they state, -1 until there are 4.
   */
  datatype Scan = Scan(scanAt: nat, records: nat, handshakeBytes: nat, header: seq<Byte>, helloBytes: int)

  /** The state is that of a scanner which gathered the handshake bytes hs from the start of data. */
  ghost predicate ScanOk(v: Verdicts, data: seq<Byte>, st: Scan, hs: seq<Byte>) {
    st.scanAt <= |data| && Scanned(v, data[..st.scanAt], st.records, hs) && v(hs).None? &&
    st.handshakeBytes == |hs| && HeaderOf(hs, st.header, st.helloBytes)
  }

  ghost predicate Undecided(v: Verdicts, data: seq<Byte>, st: Scan, hs: seq<Byte>) {
    ScanOk(v, data, st, hs) && Parse(v, data) == NeedMore
  }

  lemma ScanMeansRest(v: Verdicts, data: seq<Byte>, st: Scan, hs: seq<Byte>)
    requires ScanOk(v, data, st, hs)
    ensures Parse(v, data) == ParseRest(v, data[st.scanAt..], st.scanAt, st.records, hs)
  {
    assert data == data[..st.scanAt] + data[st.scanAt..];
  }

  /** A complete record at the scanner: the parser's state after it. */
  lemma RecordScanned(v: Verdicts, data: seq<Byte>, st: Scan, hs: seq<Byte>, n: nat)
    requires ScanOk(v, data, st, hs) && NextRecord(data[st.scanAt..], st.scanAt, st.records) == Ok(n)
    ensures var end := st.scanAt + 5 + n;
      Scanned(v, data[..end], st.records + 1, hs + data[st.scanAt + 5..end]) &&
      Parse(v, data) == ParseRest(v, data[end..], end, st.records + 1, hs + data[st.scanAt + 5..end])
  {
    var end := st.scanAt + 5 + n;
    var record := data[st.scanAt..end];
    assert NextRecord(record, st.scanAt, st.records) == Ok(n);
    ScannedRecord(v, data[..st.scanAt], st.records, hs, record);
    assert data[..st.scanAt] + record == data[..end];
    assert record[5..] == data[st.scanAt + 5..end];
    assert data == data[..end] + data[end..];
  }

  /** The message a complete record finishes is the outcome. */
  lemma RecordDecides(v: Verdicts, data: seq<Byte>, st: Scan, hs: seq<Byte>, n: nat, o: Outcome)
    requires ScanOk(v, data, st, hs) && NextRecord(data[st.scanAt..], st.scanAt, st.records) == Ok(n)
    requires v(hs + data[st.scanAt + 5..st.scanAt + 5 + n]) == Some(o)
    ensures Parse(v, data) == o
  {
    RecordScanned(v, data, st, hs, n);
  }

  /** The scanner is past a complete record that finishes nothing. */
  lemma RecordPassed(v: Verdicts, data: seq<Byte>, st: Scan, hs: seq<Byte>, n: nat, header: seq<Byte>, helloBytes: int)
    requires ScanOk(v, data, st, hs) && NextRecord(data[st.scanAt..], st.scanAt, st.records) == Ok(n)
    requires var gathered := hs + data[st.scanAt + 5..st.scanAt + 5 + n];
      v(gathered).None? && HeaderOf(gathered, header, helloBytes)
    ensures ScanOk(v, data, Scan(st.scanAt + 5 + n, st.records + 1, st.handshakeBytes + n, header, helloBytes),
                   hs + data[st.scanAt + 5..st.scanAt + 5 + n])
  {
    RecordScanned(v, data, st, hs, n);
  }

  /** readHello's inner loop: scan the records that have arrived, until something is decided. */
  method ScanRecords(ext: Meaning, data: seq<Byte>, start: Scan, ghost gathered: seq<Byte>)
    returns (answer: Option<Answer>, st: Scan, ghost hs: seq<Byte>)
    requires ScanOk(VerdictOf(ext), data, start, gathered)
    ensures match answer
      case None => Undecided(VerdictOf(ext), data, st, hs)
      case Some(a) => AnswerOk(VerdictOf(ext), data, a) && !a.FromSocket?
  {
    ghost var v := VerdictOf(ext);
    st, hs := start, gathered;
    while true
      invariant ScanOk(v, data, st, hs)
      decreases |data| - st.scanAt
    {
      var at := st.scanAt;
      ScanMeansRest(v, data, st, hs);
      if |data| - at < 5 {
        if |data| > at && data[at] != 0x16 {
          return Some(FromScan(NotHandshakeRecord(data[at]))), st, hs;
        }
        return None, st, hs;
      }
      if data[at] != 0x16 {
        return Some(FromScan(NotHandshakeRecord(data[at]))), st, hs;
      }
      if st.records >= MAX_RECORDS {
        return Some(FromScan(TooManyRecords)), st, hs;
      }
      if data[at + 1] != 0x03 {
        return Some(FromScan(BadVersion(data[at + 1], data[at + 2]))), st, hs;
      }
      var recordBytes := U16(data[at + 3], data[at + 4]);
      if recordBytes == 0 {
        return Some(FromScan(EmptyRecord)), st, hs;
      }
      var recordEnd := at + 5 + recordBytes;
      if recordEnd > MAX_HELLO {
        return Some(FromScan(TooLarge)), st, hs;
      }
      if |data| < recordEnd {
        return None, st, hs;
      }
      answer, st, hs := TakeRecord(ext, data, st, hs, recordBytes);
      if answer.Some? {
        return answer, st, hs;
      }
    }
  }

  /** A complete record: gather its payload, and look at the message header once it is there. */
  method TakeRecord(ext: Meaning, data: seq<Byte>, start: Scan, ghost gathered: seq<Byte>, recordBytes: nat)
    returns (answer: Option<Answer>, st: Scan, ghost hs: seq<Byte>)
    requires ScanOk(VerdictOf(ext), data, start, gathered)
    requires NextRecord(data[start.scanAt..], start.scanAt, start.records) == Ok(recordBytes)
    ensures match answer
      case None => ScanOk(VerdictOf(ext), data, st, hs) && st.scanAt > start.scanAt
      case Some(a) => AnswerOk(VerdictOf(ext), data, a) && !a.FromSocket?
  {
    ghost var v := VerdictOf(ext);
    st := start;
    var recordEnd := st.scanAt + 5 + recordBytes;
    var payload := data[st.scanAt + 5..recordEnd];
    hs := gathered + payload;
    var header, helloBytes, bad := TakeHeader(ext, st.header, st.helloBytes, payload, gathered);
    if bad.Some? {
      RecordDecides(v, data, start, gathered, recordBytes, Failed(bad.value));
      return Some(FromScan(bad.value)), st, hs;
    }
    answer, st := PassRecord(ext, data, start, gathered, recordBytes, header, helloBytes);
  }

  /** Past a record: its message is complete, or the scan goes on after it. */
  method PassRecord(
      ext: Meaning, data: seq<Byte>, start: Scan, ghost gathered: seq<Byte>, recordBytes: nat, header: seq<Byte>,
      helloBytes: int)
    returns (answer: Option<Answer>, st: Scan)
    requires ScanOk(VerdictOf(ext), data, start, gathered)
    requires NextRecord(data[start.scanAt..], start.scanAt, start.records) == Ok(recordBytes)
    requires var hs := gathered + data[start.scanAt + 5..start.scanAt + 5 + recordBytes];
      HeaderOf(hs, header, helloBytes) && VerdictOf(ext)(hs) != Some(NeedMore) &&
      (VerdictOf(ext)(hs).Some? <==> helloBytes >= 0 && |hs| >= helloBytes)
    ensures match answer
      case None =>
        ScanOk(VerdictOf(ext), data, st, gathered + data[start.scanAt + 5..start.scanAt + 5 + recordBytes]) &&
        st.scanAt > start.scanAt
      case Some(a) => AnswerOk(VerdictOf(ext), data, a) && !a.FromSocket?
  {
    ghost var v := VerdictOf(ext);
    ghost var hs := gathered + data[start.scanAt + 5..start.scanAt + 5 + recordBytes];
    st := start.(header := header, helloBytes := helloBytes, handshakeBytes := start.handshakeBytes + recordBytes);
    if st.helloBytes >= 0 && st.handshakeBytes >= st.helloBytes {
      RecordDecides(v, data, start, gathered, recordBytes, v(hs).value);
      var o := ParseHello(ext, data);
      return Some(FromParser(o)), st;
    }
    RecordPassed(v, data, start, gathered, recordBytes, header, helloBytes);
    st := st.(scanAt := start.scanAt + 5 + recordBytes, records := start.records + 1);
    answer := None;
  }

  /** header and helloBytes are what the handshake bytes gathered so far say of themselves. */
  ghost predicate HeaderOf(hs: seq<Byte>, header: seq<Byte>, helloBytes: int) {
    header == (if |hs| < 4 then hs else hs[..4]) &&
    helloBytes == (if |hs| < 4 then -1 else MessageLength(hs))
  }

  method TakeHeader(ext: Meaning, start: seq<Byte>, stated: int, payload: seq<Byte>, ghost gathered: seq<Byte>)
    returns (header: seq<Byte>, helloBytes: int, bad: Option<Error>)
    requires HeaderOf(gathered, start, stated) && VerdictOf(ext)(gathered).None?
    ensures bad.Some? ==> VerdictOf(ext)(gathered + payload) == Some(Failed(bad.value))
    ensures VerdictOf(ext)(gathered + payload) != Some(NeedMore)
    ensures bad.None? ==> HeaderOf(gathered + payload, header, helloBytes)
    ensures bad.None? ==>
      (VerdictOf(ext)(gathered + payload).Some? <==> helloBytes >= 0 && |gathered + payload| >= helloBytes)
  {
    ghost var v := VerdictOf(ext);
    header, helloBytes, bad := start, stated, None;
    ghost var hs := gathered + payload;
    if |header| < 4 {
      var room := 4 - |header|;
      header := header + if |payload| <= room then payload else payload[..room];
      assert header == if |hs| < 4 then hs else hs[..4];
      if |header| == 4 {
        if header[0] != 0x01 {
          return header, helloBytes, Some(NotClientHello(header[0]));
        }
        helloBytes := 4 + U24(header[1], header[2], header[3]);
        if helloBytes > MAX_HELLO {
          return header, helloBytes, Some(TooLarge);
        }
      }
    } else {
      assert hs[..4] == gathered[..4];
    }
  }

  /** Goes on scanning when more has arrived. */
  method ScanOn(ext: Meaning, ghost got: seq<Byte>, now: seq<Byte>, start: Scan, ghost gathered: seq<Byte>)
    returns (answer: Option<Answer>, st: Scan, ghost hs: seq<Byte>)
    requires Undecided(VerdictOf(ext), got, start, gathered) && got <= now
    ensures match answer
      case None => Undecided(VerdictOf(ext), now, st, hs)
      case Some(a) => AnswerOk(VerdictOf(ext), now, a)
  {
    MoreToScan(VerdictOf(ext), got, now, start, gathered);
    answer, st, hs := ScanRecords(ext, now, start, gathered);
  }

  /**
   Whatever the reads deliver, the answer is that of the parser on all the bytes read; the parser
   itself is only handed a complete hello; and what had arrived before the last read decided nothing, so the
   answer is that on the shortest decisive prefix of the stream (ShortestPrefixDecides).
   */
  method ReadHello(ext: Meaning, client: Conn, buf: array<Byte>)
    returns (answer: Answer, data: array<Byte>, len: nat)
    requires client.Valid() && client.pos == 0
    modifies client, buf
    ensures client.Valid() && len == client.pos && len <= data.Length && data[..len] == client.stream[..len]
    ensures AnswerOk(VerdictOf(ext), data[..len], answer)
    ensures Parse(VerdictOf(ext), client.stream[..client.last]) == NeedMore
  {
    data, len := buf, 0;
    var st := Scan(0, 0, 0, [], -1);
    ghost var hs: seq<Byte> := [];
    StartScan(ext, VerdictOf(ext));
    while true
      invariant client.Valid() && len == client.pos <= data.Length && (data == buf || fresh(data))
      invariant data[..len] == client.stream[..len]
      invariant Undecided(VerdictOf(ext), client.stream[..len], st, hs)
      decreases |client.script|
    {
      var answered;
      answered, data, len, st, hs := ReadOnce(ext, client, data, len, st, hs);
      if answered.Some? {
        return answered.value, data, len;
      }
    }
  }

  /** One turn of readHello's loop: a read, and a scan if it brought anything. */
  method ReadOnce(ext: Meaning, client: Conn, buf: array<Byte>, had: nat, start: Scan, ghost gathered: seq<Byte>)
    returns (answer: Option<Answer>, data: array<Byte>, len: nat, st: Scan, ghost hs: seq<Byte>)
    requires client.Valid() && had == client.pos <= buf.Length && buf[..had] == client.stream[..had]
    requires Undecided(VerdictOf(ext), client.stream[..had], start, gathered)
    modifies client, buf
    ensures client.Valid() && client.last == had && len == client.pos <= data.Length && (data == buf || fresh(data))
    ensures data[..len] == client.stream[..len]
    ensures match answer
      case Some(a) => AnswerOk(VerdictOf(ext), client.stream[..len], a)
      case None => Undecided(VerdictOf(ext), client.stream[..len], st, hs) && |client.script| < |old(client.script)|
  {
    var n, rerr;
    VerdictIsFinal(ext);
    data, n, rerr := ReadMore(VerdictOf(ext), client, buf, had);
    len, st, hs, answer := had + n, start, gathered, None;
    if n > 0 {
      answer, st, hs := ScanOn(ext, client.stream[..had], data[..len], st, hs);
    }
    if answer.None? && rerr.Some? {
      answer := Some(FromSocket(rerr.value));
    }
  }

  /** Makes room if there is none, and reads. */
  method ReadMore(ghost v: Verdicts, client: Conn, buf: array<Byte>, len: nat)
    returns (data: array<Byte>, n: nat, err: Option<ReadError>)
    requires client.Valid() && len == client.pos <= buf.Length && buf[..len] == client.stream[..len]
    requires NeverWaits(v) && Parse(v, client.stream[..len]) == NeedMore
    modifies client, buf
    ensures client.Valid() && client.last == len && client.pos == len + n <= data.Length && (data == buf || fresh(data))
    ensures data[..len + n] == client.stream[..len + n]
    ensures err.None? ==> |client.script| < |old(client.script)|
  {
    data := buf;
    if len == data.Length {
      UndecidedIsSmall(v, client.stream[..len], 0, 0, []);
      if data.Length > MAX_HELLO + 16 {
        assert false; // 64 KiB and a record header always decide
      }
      data := Grown(data, len);
    }
    n, err := client.Read(data, len);
    assert data[..len] == client.stream[..len] && data[len..len + n] == client.stream[len..len + n];
    assert data[..len + n] == data[..len] + data[len..len + n];
    assert client.stream[..len + n] == client.stream[..len] + client.stream[len..len + n];
  }

  method Grown(data: array<Byte>, len: nat) returns (bigger: array<Byte>)
    requires len <= data.Length
    ensures fresh(bigger) && bigger.Length == 2 * data.Length + 4096 && bigger[..len] == data[..len]
  {
    bigger := new Byte[2 * data.Length + 4096];
    forall i | 0 <= i < len {
      bigger[i] := data[i];
    }
  }

  lemma StartScan(ext: Meaning, v: Verdicts)
    requires v == VerdictOf(ext)
    ensures Undecided(v, [], Scan(0, 0, 0, [], -1), [])
  {
    forall more: seq<Byte> ensures Parse(v, [] + more) == ParseRest(v, more, 0, 0, []) {
      assert [] + more == more;
    }
  }

  lemma MoreToScan(v: Verdicts, data: seq<Byte>, longer: seq<Byte>, st: Scan, hs: seq<Byte>)
    requires ScanOk(v, data, st, hs) && data <= longer
    ensures ScanOk(v, longer, st, hs)
  {
    assert longer[..st.scanAt] == data[..st.scanAt];
  }

  /**
   However the same stream is split into reads, two readers that both decide give the same outcome:
   that of the parser on the shortest decisive prefix.
   */
  lemma ShortestPrefixDecides(v: Verdicts, stream: seq<Byte>, len: nat) returns (k: nat)
    requires len <= |stream| && Parse(v, stream[..len]) != NeedMore
    ensures k <= len && Parse(v, stream[..k]) == Parse(v, stream[..len])
    ensures forall i :: 0 <= i < k ==> Parse(v, stream[..i]) == NeedMore
    ensures forall i :: k <= i <= |stream| ==> Parse(v, stream[..i]) == Parse(v, stream[..k])
  {
    k := 0;
    while Parse(v, stream[..k]) == NeedMore
      invariant k <= len
      decreases len - k
      invariant forall i :: 0 <= i < k ==> Parse(v, stream[..i]) == NeedMore
    {
      k := k + 1;
    }
    forall i | k <= i <= |stream| ensures Parse(v, stream[..i]) == Parse(v, stream[..k]) {
      assert stream[..i] == stream[..k] + stream[k..i];
      ParseIsFinal(v, stream[..k], stream[k..i]);
    }
  }

  // ----- How a message is split into records does not matter -----

  datatype RawRecord = RawRecord(minor: Byte, hi: Byte, lo: Byte, payload: seq<Byte>)

  /** A TLS handshake record, with its stated length. The minor version byte is not looked at. */
  type Record = r: RawRecord | U16(r.hi, r.lo) == |r.payload| >= 1 witness RawRecord(1, 0, 1, [0])

  function Frame(r: Record): (f: seq<Byte>)
    ensures |f| == 5 + |r.payload|
  {
    [0x16, 0x03, r.minor, r.hi, r.lo] + r.payload
  }

  function Payloads(rs: seq<Record>): seq<Byte> {
    if rs == [] then [] else Payloads(rs[..|rs| - 1]) + rs[|rs| - 1].payload
  }

  function Frames(rs: seq<Record>): seq<Byte> {
    if rs == [] then [] else Frames(rs[..|rs| - 1]) + Frame(rs[|rs| - 1])
  }

  /** More handshake bytes do not change a verdict. */
  ghost predicate Final(v: Verdicts) {
    forall hs: seq<Byte>, more: seq<Byte> :: v(hs).Some? ==> v(hs + more) == v(hs)
  }

  lemma VerdictIsFinal(ext: Meaning)
    ensures Final(VerdictOf(ext)) && NeverWaits(VerdictOf(ext))
  {
    forall hs: seq<Byte>, more: seq<Byte> | Verdict(ext, hs).Some?
      ensures Verdict(ext, hs + more) == Verdict(ext, hs)
    {
      if |hs| >= MessageLength(hs) {
        assert (hs + more)[..MessageLength(hs)] == hs[..MessageLength(hs)];
      }
    }
  }

  lemma NothingDecidedBefore(v: Verdicts, rs: seq<Record>)
    requires Final(v) && rs != [] && v(Payloads(rs)).None?
    ensures v(Payloads(rs[..|rs| - 1])).None?
  {
    assert Payloads(rs) == Payloads(rs[..|rs| - 1]) + rs[|rs| - 1].payload;
  }

  /** Records within the limits are gathered as long as nothing is decided before the last one. */
  lemma {:induction false} RecordsGathered(v: Verdicts, rs: seq<Record>)
    requires Final(v) && |rs| <= MAX_RECORDS && |Frames(rs)| <= MAX_HELLO
    requires rs != [] ==> v(Payloads(rs[..|rs| - 1])).None?
    ensures Scanned(v, Frames(rs), |rs|, Payloads(rs))
    decreases |rs|
  {
    if rs == [] {
      forall more: seq<Byte> ensures Parse(v, [] + more) == ParseRest(v, more, 0, 0, []) {
        assert [] + more == more;
      }
    } else {
      var front, last := rs[..|rs| - 1], rs[|rs| - 1];
      if front != [] {
        NothingDecidedBefore(v, front);
      }
      RecordsGathered(v, front);
      ScannedRecord(v, Frames(front), |front|, Payloads(front), Frame(last));
    }
  }

  /** What the handshake bytes decide by themselves. */
  function Decided(v: Verdicts, hs: seq<Byte>): Outcome {
    match v(hs) case Some(o) => o case None => NeedMore
  }

  /** Within the limits the outcome is that of the reassembled handshake bytes. */
  lemma {:induction false} ReassembledOutcome(v: Verdicts, rs: seq<Record>)
    requires Final(v) && NeverWaits(v) && |rs| <= MAX_RECORDS && |Frames(rs)| <= MAX_HELLO
    ensures Parse(v, Frames(rs)) == Decided(v, Payloads(rs))
    decreases |rs|
  {
    if rs == [] || v(Payloads(rs[..|rs| - 1])).None? {
      RecordsGathered(v, rs);
      assert Frames(rs) == Frames(rs) + [];
    } else {
      var front := rs[..|rs| - 1];
      ReassembledOutcome(v, front);
      ParseIsFinal(v, Frames(front), Frame(rs[|rs| - 1]));
    }
  }

  /**
   Any two ways to cut a ClientHello message into records within the limits give the same outcome,
   the meaning of the message.
   */
  lemma SplitDoesNotMatter(ext: Meaning, msg: seq<Byte>, a: seq<Record>, b: seq<Record>)
    requires |a| <= MAX_RECORDS && |Frames(a)| <= MAX_HELLO && |b| <= MAX_RECORDS && |Frames(b)| <= MAX_HELLO
    requires Payloads(a) == Payloads(b) == msg && |msg| >= 4 && msg[0] == 1 && MessageLength(msg) == |msg|
    ensures Parse(VerdictOf(ext), Frames(a)) == Parse(VerdictOf(ext), Frames(b))
    ensures |msg| <= MAX_HELLO ==> Parse(VerdictOf(ext), Frames(a)) == Finish(ext, msg)
  {
    VerdictIsFinal(ext);
    ReassembledOutcome(VerdictOf(ext), a);
    ReassembledOutcome(VerdictOf(ext), b);
    assert msg[..|msg|] == msg;
  }

  predicate RefusedForSize(o: Outcome) { o == Failed(TooManyRecords) || o == Failed(TooLarge) }

  /**
   The limits are exact: the first record past 32, or past 64 KiB in all, while nothing is decided
   yet, is refused for that (and SplitDoesNotMatter covers every hello that stays within them).
   */
  lemma BeyondTheLimits(ext: Meaning, rs: seq<Record>, last: Record, more: seq<Byte>)
    requires Verdict(ext, Payloads(rs)).None?
    requires |rs| <= MAX_RECORDS && |Frames(rs)| <= MAX_HELLO
    requires |rs| + 1 > MAX_RECORDS || |Frames(rs)| + |Frame(last)| > MAX_HELLO
    ensures RefusedForSize(Parse(VerdictOf(ext), Frames(rs) + (Frame(last) + more)))
  {
    var v := VerdictOf(ext);
    VerdictIsFinal(ext);
    if rs != [] {
      NothingDecidedBefore(v, rs);
    }
    RecordsGathered(v, rs);
    var rest := Frame(last) + more;
    assert NextRecord(rest, |Frames(rs)|, |rs|) ==
           Err(Failed(if |rs| >= MAX_RECORDS then TooManyRecords else TooLarge));
  }

  /** What is refused at the first record, as soon as the byte that shows it is there, and what is waited for. */
  lemma FirstRecord(ext: Meaning, data: seq<Byte>)
    ensures var o := Parse(VerdictOf(ext), data);
      if data == [] then o == NeedMore
      else if data[0] != 22 then o == Failed(NotHandshakeRecord(data[0]))
      else if |data| < 5 then o == NeedMore
      else if data[1] != 3 then o == Failed(BadVersion(data[1], data[2]))
      else
        var n: int := data[3] as int * 256 + data[4] as int;
        if n == 0 then o == Failed(EmptyRecord)
        else if n + 5 > 65536 then o == Failed(TooLarge)
        else if |data| < n + 5 then o == NeedMore
        else if n >= 4 && data[5] != 1 then o == Failed(NotClientHello(data[5]))
        else n < 4 || 65536 * data[6] as int + 256 * data[7] as int + data[8] as int <= 65532 || o == Failed(TooLarge)
  {
    var v := VerdictOf(ext);
    assert v([]).None?;
    if |data| >= 5 && NextRecord(data, 0, 0).Ok? {
      var n := NextRecord(data, 0, 0).value;
      var hs := data[5..5 + n];
      assert [] + hs == hs;
      assert Parse(v, data) == ParseRest(v, data[5 + n..], 5 + n, 1, hs);
    }
  }
}
