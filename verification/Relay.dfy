/**
 One copy direction of a relayed connection (proxy.go pump and bufferMover, linger.go, the contract of
 splice_linux.go's mover). The sockets are scripts of what each read and write comes back with; the
 proofs hold for every script, every clock and every outcome of waiting for a speed limit.
 */
module Relay {
  import opened Wrappers
  import Limiter

  /** Timeout: a deadline passed; the clock then, and when either direction last moved something. */
  datatype Error = Nothing | Eof | Timeout(now: int, lastActivity: int) | Refused | UnexpectedEof | Closed | Other

  /** What a read comes back with: some bytes, an error, or both. */
  datatype Raw = Raw(data: seq<Byte>, err: Error)

  type Item = i: Raw | i.data != [] || i.err != Nothing witness Raw([], Eof)

  /** How many bytes a write takes at most, and its error. */
  datatype Took = Took(n: nat, err: Error)

  /** The bytes of the stream: all there are before its end. */
  function Stream(script: seq<Item>): seq<Byte> {
    if script == [] then []
    else script[0].data + if script[0].err == Eof then [] else Stream(script[1..])
  }

  function Left(script: seq<Item>): nat {
    if script == [] then 0 else |script[0].data| + 1 + Left(script[1..])
  }

  /** The connection has been moving something within the idle time, so a timeout is no end. */
  predicate Moving(err: Error, idle: int) { err.Timeout? && err.now - err.lastActivity < idle }

  /** A stream that ends, with no error before but reads that time out while the other direction is moving. */
  predicate Clean(script: seq<Item>, idle: int) {
    script != [] &&
    (script[0].err == Eof || ((script[0].err == Nothing || Moving(script[0].err, idle)) && Clean(script[1..], idle)))
  }

  /** A socket that the kernel will not splice, and that is clean otherwise. */
  predicate Unsplit(script: seq<Item>, kernel: bool, idle: int) {
    kernel && script != [] && script[0] == Raw([], Refused) && Clean(script[1..], idle)
  }

  /** Reading from a clean stream leaves it clean until its end. */
  ghost predicate Smooth(before: seq<Item>, src: Source, err: Error)
    reads src
  {
    Clean(before, src.idle) ==>
      (src.ended || Clean(src.script, src.idle)) && (err == Nothing || err == Eof || Moving(err, src.idle))
  }

  // ----- The sockets -----

  /** idle: the idle time its read deadline follows. told: the error of its last read; looks: how many there were. */
  class Source {
    const idle: int
    var script: seq<Item>
    ghost var told: Error
    ghost var looks: nat
    ghost var taken: seq<Byte>
    ghost var ended: bool
    ghost const whole: seq<Byte>

    /** What was taken and what is to come make up the stream. */
    ghost predicate Valid()
      reads this
    {
      whole == taken + if ended then [] else Stream(script)
    }

    constructor (script: seq<Item>, idle: int)
      ensures Valid() && taken == [] && !ended && this.script == script && whole == Stream(script) && this.idle == idle
    {
      this.script := script;
      this.idle := idle;
      told, looks := Nothing, 0;
      taken := [];
      ended := false;
      whole := Stream(script);
      new;
      assert Stream(script) == [] + Stream(script);
    }

    /** A read of a socket or of TLS: nil error unless the item is used up. */
    method Read(max: nat) returns (data: seq<Byte>, err: Error)
      requires Valid() && !ended && max > 0
      modifies this
      ensures Valid() && taken == old(taken) + data && |data| <= max
      ensures (ended <==> err == Eof) && Left(script) <= Left(old(script))
      ensures err != Closed ==> Left(script) < Left(old(script))
      ensures Smooth(old(script), this, err)
      ensures data == [] ==> err != Nothing
      ensures data != [] && err != Nothing ==> old(script) != [] && old(script)[0] == Raw(data, err)
      ensures told == err && looks == old(looks) + 1
      ensures old(script) != [] && old(script)[0].data == [] ==>
        data == [] && err == old(script)[0].err && script == old(script)[1..]
    {
      looks := looks + 1;
      if script == [] {
        told := Closed;
        return [], Closed;
      }
      var i := script[0];
      if |i.data| > max {
        data, err := i.data[..max], Nothing;
        Assoc(taken, data, i.data[max..], if i.err == Eof then [] else Stream(script[1..]));
        assert i.data == data + i.data[max..];
        var rest: Item := Raw(i.data[max..], i.err);
        assert ([rest] + script[1..])[1..] == script[1..];
        script := [rest] + script[1..];
      } else {
        data, err := i.data, i.err;
        Assoc(taken, data, [], if i.err == Eof then [] else Stream(script[1..]));
        script := script[1..];
        ended := err == Eof;
      }
      taken := taken + data;
      told := err;
    }

    /** A splice out of the socket: bytes or an error, never both. */
    method Splice(max: nat) returns (data: seq<Byte>, err: Error)
      requires Valid() && !ended && max > 0
      modifies this
      ensures Valid() && taken == old(taken) + data && |data| <= max
      ensures (ended <==> err == Eof) && Left(script) <= Left(old(script))
      ensures err != Closed ==> Left(script) < Left(old(script))
      ensures Smooth(old(script), this, err)
      ensures data == [] <==> err != Nothing
      ensures told == err && looks == old(looks) + 1
      ensures old(script) != [] && old(script)[0].data == [] ==> err == old(script)[0].err && script == old(script)[1..]
    {
      if script != [] && script[0].data != [] && script[0].err != Nothing && |script[0].data| <= max {
        var i := script[0];
        data, err := i.data, Nothing;
        var rest: Item := Raw([], i.err);
        assert ([rest] + script[1..])[1..] == script[1..];
        Assoc(taken, data, [], if i.err == Eof then [] else Stream(script[1..]));
        script := [rest] + script[1..];
        taken := taken + data;
        told, looks := Nothing, looks + 1;
      } else {
        data, err := Read(max);
      }
    }
  }

  lemma Join(a: seq<Byte>, b: seq<Byte>, c: seq<Byte>)
    ensures a + (b + c) == (a + b) + c
  {
  }

  lemma Assoc(a: seq<Byte>, b: seq<Byte>, c: seq<Byte>, d: seq<Byte>)
    ensures a + ((b + c) + d) == (a + b) + (c + d)
    ensures a + (b + d) == (a + b) + d
    ensures b + [] == b && [] + d == d
  {
  }

  /** In a top-up a timeout means that nothing more came, and refusing to splice is too late. */
  function OnTopUp(err: Error): Error {
    if err.Timeout? then Nothing else if err == Refused then Other else err
  }

  /** told: the error of its last write. */
  class Sink {
    var script: seq<Took>
    ghost var delivered: seq<Byte>
    ghost var told: Error

    constructor (script: seq<Took>)
      ensures delivered == [] && this.script == script
    {
      this.script := script;
      delivered := [];
      told := Nothing;
    }

    /**
     The only place where anything is delivered: it must continue what was delivered before, so at every
     moment the bytes delivered are a prefix of the bytes taken from the source.
     */
    method Write(data: seq<Byte>, src: Source) returns (n: nat, err: Error)
      requires delivered + data <= src.taken
      modifies this
      ensures n <= |data| && delivered == old(delivered) + data[..n] && delivered <= src.taken
      ensures old(script) == [] ==> script == [] && n == |data| && err == Nothing
      ensures told == err && script == if old(script) == [] then [] else old(script)[1..]
    {
      if script == [] {
        n, err := |data|, Nothing;
      } else {
        n, err := Min(script[0].n, |data|), script[0].err;
        script := script[1..];
      }
      delivered := delivered + data[..n];
      told := err;
    }
  }

  // ----- The mover: a buffer, or a kernel pipe -----

  /** A write ends with the error it was told, or with one of its own when it took too little without one. */
  predicate WriteSays(err: Error, told: Error) { err == told || (err == Other && told == Nothing) }

  class Mover {
    const kernel: bool
    const size: nat
    const records: bool
    const buf: array<Byte>
    var pipe: seq<Byte>
    var moved: bool

    ghost predicate Valid()
      reads this
    {
      size > 0 && (if kernel then |pipe| <= size else pipe == [] && buf.Length == size)
    }

    /** What it holds after reads and top-ups of n bytes. */
    ghost function Holds(n: nat): seq<Byte>
      requires Valid() && n <= size
      reads this, buf
    {
      if kernel then pipe else buf[..n]
    }

    ghost predicate HoldsThat(n: nat)
      requires Valid()
      reads this, buf
    {
      n <= size && (kernel ==> |pipe| == n)
    }

    constructor (kernel: bool, size: nat, records: bool)
      requires size > 0
      ensures Valid() && this.kernel == kernel && this.size == size && this.records == records && pipe == [] && !moved
      ensures fresh(buf)
    {
      this.kernel, this.size, this.records := kernel, size, records;
      buf := new Byte[if kernel then 0 else size](_ => 0);
      pipe := [];
      moved := false;
    }

    method Fill(at: nat, data: seq<Byte>)
      requires at + |data| <= buf.Length
      modifies buf
      ensures buf[..at + |data|] == old(buf[..at]) + data
    {
      forall i | 0 <= i < |data| {
        buf[at + i] := data[i];
      }
    }

    /**
     Up to size bytes of what the source holds. Refused, the kernel will not splice this socket, is
     reported only before anything was moved.
     */
    method Read(src: Source) returns (n: nat, err: Error)
      requires Valid() && pipe == [] && src.Valid() && !src.ended
      modifies this`pipe, this`moved, buf, src
      ensures Valid() && HoldsThat(n) && src.Valid() && src.taken == old(src.taken) + Holds(n)
      ensures (src.ended <==> err == Eof) && Left(src.script) <= Left(old(src.script))
      ensures err != Closed ==> Left(src.script) < Left(old(src.script))
      ensures n == 0 ==> err != Nothing
      ensures Smooth(old(src.script), src, err)
      ensures err == Refused ==> n == 0 && kernel && !old(moved)
      ensures moved <==> old(moved) || (kernel && n > 0)
      ensures err == src.told || (src.told == Refused && err == Other)
      ensures var first := old(src.script);
        kernel && !old(moved) && first != [] && first[0] == Raw([], Refused) ==> err == Refused && src.script == first[1..]
    {
      var data;
      if kernel {
        data, err := src.Splice(size);
        pipe := data;
        moved := moved || data != [];
        if err == Refused && moved {
          err := Other;
        }
      } else {
        data, err := src.Read(size);
        if err == Refused {
          err := Other;
        }
        Fill(0, data);
      }
      n := |data|;
    }

    /** Adds what is there, data, to the have bytes held, without waiting for more. */
    method TopUp(src: Source, have: nat) returns (more: nat, err: Error, ghost data: seq<Byte>)
      requires Valid() && HoldsThat(have) && src.Valid() && !src.ended
      modifies this`pipe, buf, src
      ensures Valid() && HoldsThat(have + more) && src.Valid() && |data| == more
      ensures src.taken == old(src.taken) + data && Holds(have + more) == old(Holds(have)) + data
      ensures (src.ended <==> err == Eof) && Left(src.script) <= Left(old(src.script))
      ensures !err.Timeout? && err != Refused && Smooth(old(src.script), src, err)
      ensures err == Nothing || err == OnTopUp(src.told)
    {
      if kernel {
        more, err, data := TopUpPipe(src);
      } else {
        more, err, data := TopUpBuffer(src, have);
      }
    }

    method TopUpPipe(src: Source) returns (more: nat, err: Error, ghost data: seq<Byte>)
      requires Valid() && kernel && src.Valid() && !src.ended
      modifies this`pipe, src
      ensures Valid() && src.Valid() && |data| == more
      ensures pipe == old(pipe) + data && src.taken == old(src.taken) + data
      ensures (src.ended <==> err == Eof) && Left(src.script) <= Left(old(src.script))
      ensures !err.Timeout? && err != Refused && Smooth(old(src.script), src, err)
      ensures err == Nothing || err == OnTopUp(src.told)
    {
      var room := size - |pipe|;
      if room == 0 {
        return 0, Nothing, [];
      }
      var got;
      got, err := src.Splice(room);
      err := OnTopUp(err);
      pipe := pipe + got;
      more, data := |got|, got;
    }

    /** Reads again and again, since one read may bring one TLS record only: until nothing more comes or fits. */
    method TopUpBuffer(src: Source, have: nat) returns (more: nat, err: Error, ghost data: seq<Byte>)
      requires Valid() && !kernel && have <= size && src.Valid() && !src.ended
      modifies buf, src
      ensures have + more <= size && src.Valid() && |data| == more
      ensures buf[..have + more] == old(buf[..have]) + data && src.taken == old(src.taken) + data
      ensures (src.ended <==> err == Eof) && Left(src.script) <= Left(old(src.script))
      ensures !err.Timeout? && err != Refused && Smooth(old(src.script), src, err)
      ensures err == Nothing || err == OnTopUp(src.told)
      ensures !records ==> src.looks == old(src.looks) + if have < size then 1 else 0
      ensures records ==> have + more == size || src.told != Nothing
    {
      more, err, data := 0, Nothing, [];
      ghost var start, taken, script := buf[..have], src.taken, src.script;
      while have + more < size
        invariant have + more <= size && src.Valid() && !src.ended && err == Nothing && |data| == more
        invariant buf[..have + more] == start + data && src.taken == taken + data
        invariant Left(src.script) <= Left(script) && Smooth(script, src, err)
        invariant !records ==> src.looks == old(src.looks) && more == 0
        decreases Left(src.script)
      {
        var got;
        got, err := ReadInto(src, have + more, start, taken, data);
        more, data := more + |got|, data + got;
        if err != Nothing {
          err := OnTopUp(err);
          return;
        }
        if !records {
          return;
        }
      }
    }

    /** One more read of a top-up that has taken data so far. */
    method ReadInto(src: Source, at: nat, ghost start: seq<Byte>, ghost taken: seq<Byte>, ghost data: seq<Byte>)
      returns (got: seq<Byte>, err: Error)
      requires Valid() && !kernel && at < size && src.Valid() && !src.ended
      requires buf[..at] == start + data && src.taken == taken + data
      modifies buf, src
      ensures at + |got| <= size && src.Valid()
      ensures buf[..at + |got|] == start + (data + got) && src.taken == taken + (data + got)
      ensures (src.ended <==> err == Eof) && Left(src.script) <= Left(old(src.script))
      ensures err != Closed ==> Left(src.script) < Left(old(src.script))
      ensures Smooth(old(src.script), src, err) && err == src.told && src.looks == old(src.looks) + 1
    {
      got, err := src.Read(size - at);
      Fill(at, got);
      Join(start, data, got);
      Join(taken, data, got);
    }

    /** Delivers the n bytes held, in order; fewer only with an error. */
    method Write(dst: Sink, n: nat, src: Source) returns (written: nat, err: Error)
      requires Valid() && HoldsThat(n) && dst.delivered + Holds(n) == src.taken
      modifies this`pipe, dst
      ensures Valid() && written <= n && dst.delivered == old(dst.delivered) + old(Holds(n))[..written]
      ensures dst.delivered <= src.taken
      ensures err == Nothing && written == n ==> pipe == [] && dst.delivered == src.taken
      ensures n > 0 ==> WriteSays(err, dst.told)
      ensures old(dst.script) == [] ==> dst.script == [] && written == n && err == Nothing
    {
      if kernel {
        written, err := Drain(dst, src);
      } else {
        written, err := dst.Write(buf[..n], src);
      }
    }

    /** Splices until the pipe is empty. */
    method Drain(dst: Sink, src: Source) returns (written: nat, err: Error)
      requires Valid() && kernel && dst.delivered + pipe == src.taken
      modifies this`pipe, dst
      ensures Valid() && written <= |old(pipe)| && dst.delivered == old(dst.delivered) + old(pipe)[..written]
      ensures pipe == old(pipe)[written..] && dst.delivered + pipe == src.taken
      ensures err == Nothing ==> pipe == []
      ensures old(pipe) != [] ==> WriteSays(err, dst.told)
      ensures old(dst.script) == [] ==> dst.script == [] && err == Nothing
    {
      ghost var all := pipe;
      written, err := 0, Nothing;
      while pipe != []
        invariant written <= |all| && pipe == all[written..] && dst.delivered == old(dst.delivered) + all[..written]
        invariant dst.delivered + pipe == src.taken && err == Nothing && (old(dst.script) == [] ==> dst.script == [])
        invariant written > 0 ==> dst.told == Nothing
        decreases |pipe|
      {
        var n;
        n, err := dst.Write(pipe, src);
        assert all[written..][..n] == all[written..written + n] && all[written..][n..] == all[written + n..];
        assert all[..written + n] == all[..written] + all[written..written + n];
        pipe := pipe[n..];
        written := written + n;
        if err == Nothing && n == 0 {
          err := Other;
        }
        if err != Nothing {
          return;
        }
      }
    }
  }

  // ----- Lingering -----

  const LINGER_GAP := 5000000

  const HINT_RECHECK := 100000000

  /** measure: the next top-up is to compare what it took with what the socket held. */
  datatype Mode = Mode(lingering: bool, measure: bool, full: nat, lastRead: int, checked: int)

  /** Now and then lingering is tried again and the hint measured anew. */
  function Rechecked(b: Mode, now: int, chunk: nat): Mode {
    if now - b.checked >= HINT_RECHECK then Mode(true, true, chunk, b.lastRead, now) else b
  }

  predicate MovesAtOnce(b: Mode, n: nat, now: int) {
    !b.lingering || n >= b.full || now - b.lastRead >= LINGER_GAP
  }

  /** What a top-up of more bytes to the n of a read tells; waiting: how much the socket held, if that was asked. */
  function Learned(b: Mode, n: nat, more: nat, err: Error, waiting: int, chunk: nat, later: int): Mode {
    var seen := if b.measure then waiting else -1;
    var full :=
      if n + more == chunk then n
      else if more < Min(seen, chunk - n) then n + more
      else Max(b.full, n + more);
    var out := n + more != chunk && more >= Min(seen, chunk - n) && more == 0 && err == Nothing;
    Mode(b.lingering && !out, false, full, later, b.checked)
  }

  /** What a batcher is after a read of n bytes that found more, or moved at once. */
  function AfterRead(b: Mode, n: nat, more: nat, err: Error, now: int, waiting: int, chunk: nat, later: int): Mode {
    var r := Rechecked(b, now, chunk);
    if MovesAtOnce(r, n, now) then r.(full := Max(r.full, n), lastRead := now)
    else Learned(r, n, more, err, waiting, chunk, later)
  }

  /**
   The rules of lingering. A top-up that fills the chunk, or takes less than the socket held, makes reads of
   that size move at once from then on; one that finds nothing turns lingering off until the next check; a
   read after a pause is moved at once, and one larger than the hint raises it.
   */
  lemma LingerRules(b: Mode, n: nat, more: nat, err: Error, now: int, waiting: int, chunk: nat, later: int)
    requires 0 < n && n + more <= chunk && b.full <= chunk
    ensures var r, a := Rechecked(b, now, chunk), AfterRead(b, n, more, err, now, waiting, chunk, later);
      a.full <= chunk &&
      (now - b.checked >= 100000000 ==> r.lingering && r.full == chunk && a.checked == now) &&
      (now - b.lastRead >= 5000000 ==> MovesAtOnce(r, n, now)) &&
      (MovesAtOnce(r, n, now) ==> a.full >= n && a.lingering == r.lingering) &&
      (!MovesAtOnce(r, n, now) && n + more == chunk ==> forall t: int :: MovesAtOnce(a, n, t)) &&
      (!MovesAtOnce(r, n, now) && r.measure && n + more < chunk && more < waiting ==>
        var both := n + more; forall t: int :: MovesAtOnce(a, both, t)) &&
      (!MovesAtOnce(r, n, now) && more == 0 && err == Nothing && (!r.measure || waiting <= 0) && n < chunk ==>
        forall k: nat, t: int :: MovesAtOnce(a, k, t)) &&
      (!MovesAtOnce(r, n, now) && more > 0 ==> a.lingering)
  {
  }

  class Batcher {
    const off: bool
    var lingering: bool
    var measure: bool
    var full: nat
    var lastRead: int
    var checked: int

    function State(): Mode
      reads this
    {
      Mode(lingering, measure, full, lastRead, checked)
    }

    constructor (off: bool, zero: int)
      ensures this.off == off && State() == Mode(false, false, 0, zero, zero)
    {
      this.off := off;
      lingering, measure, full, lastRead, checked := false, false, 0, zero, zero;
    }

    /**
     After a read of n bytes at the time now: how many bytes the mover holds now. A read that lingers always
     has room to top up, since the size hint never exceeds the chunk.
     */
    method Batch(m: Mover, src: Source, n: nat, now: int, later: int, waiting: int)
      returns (held: nat, err: Error, ghost data: seq<Byte>)
      requires m.Valid() && m.HoldsThat(n) && n > 0 && src.Valid() && !src.ended && full <= m.size
      modifies this, m`pipe, m.buf, src
      ensures m.Valid() && m.HoldsThat(held) && src.Valid() && full <= m.size
      ensures src.taken == old(src.taken) + data && m.Holds(held) == old(m.Holds(n)) + data
      ensures (src.ended <==> err == Eof) && Left(src.script) <= Left(old(src.script))
      ensures !err.Timeout? && err != Refused && Smooth(old(src.script), src, err)
      ensures err == Nothing || err == OnTopUp(src.told)
      ensures State() == if off then old(State()) else
        AfterRead(old(State()), n, held - n, err, now, if m.kernel then waiting else -1, m.size, later)
      ensures off || MovesAtOnce(Rechecked(old(State()), now, m.size), n, now) ==> held == n && err == Nothing
    {
      data := [];
      assert old(m.Holds(n)) + data == m.Holds(n) && src.taken + data == src.taken;
      if off {
        return n, Nothing, data;
      }
      if now - checked >= HINT_RECHECK {
        checked, lingering, full, measure := now, true, m.size, true;
      }
      if !lingering || n >= full || now - lastRead >= LINGER_GAP {
        full := Max(full, n);
        lastRead := now;
        return n, Nothing, data;
      }
      held, err, data := Linger(m, src, n, later, waiting);
    }

    /** A short read of a busy stream, after the sleep: tops up, and learns how big reads get. */
    method Linger(m: Mover, src: Source, n: nat, later: int, waiting: int)
      returns (held: nat, err: Error, ghost data: seq<Byte>)
      requires m.Valid() && m.HoldsThat(n) && src.Valid() && !src.ended && lingering && 0 < n < full <= m.size
      modifies this, m`pipe, m.buf, src
      ensures m.Valid() && m.HoldsThat(held) && src.Valid() && full <= m.size && held >= n
      ensures src.taken == old(src.taken) + data && m.Holds(held) == old(m.Holds(n)) + data
      ensures (src.ended <==> err == Eof) && Left(src.script) <= Left(old(src.script))
      ensures !err.Timeout? && err != Refused && Smooth(old(src.script), src, err)
      ensures err == Nothing || err == OnTopUp(src.told)
      ensures State() == Learned(old(State()), n, held - n, err, if m.kernel then waiting else -1, m.size, later)
    {
      var inSocket := -1;
      if measure {
        inSocket, measure := if m.kernel then waiting else -1, false;
      }
      var room := m.size - n;
      var more;
      more, err, data := m.TopUp(src, n);
      if more == room {
        full := n;
      } else if more < Min(inSocket, room) {
        full := n + more;
      } else {
        if more == 0 && err == Nothing {
          lingering := false;
        }
        full := Max(full, n + more);
      }
      lastRead := later;
      held := n + more;
    }
  }

  // ----- The pump -----

  /** The bytes moved, counted for the connection, its host, its rule, its listener and in all. */
  class Counters {
    var connection: nat
    var host: nat
    var rule: nat
    var listener: nat
    var total: nat

    ghost function All(): seq<nat>
      reads this
    {
      [connection, host, rule, listener, total]
    }

    method Add(n: nat)
      modifies this
      ensures All() == Plus(old(All()), n)
    {
      connection := connection + n;
      host := host + n;
      rule := rule + n;
      listener := listener + n;
      total := total + n;
    }
  }

  /** Every counter is n higher. */
  function Plus(counts: seq<nat>, n: nat): (r: seq<nat>) {
    seq(|counts|, i requires 0 <= i < |counts| => counts[i] + n)
  }

  lemma PlusPlus(counts: seq<nat>, m: nat, n: nat)
    ensures Plus(Plus(counts, m), n) == Plus(counts, m + n)
    ensures Plus(counts, 0) == counts
  {
  }

  /** A limited direction moves smaller chunks. */
  method Chunk(bufferSize: nat, rates: seq<real>) returns (chunk: nat)
    requires bufferSize > 0 && forall i :: 0 <= i < |rates| ==> rates[i] > 0.0
    ensures 0 < chunk <= bufferSize
    ensures forall i :: 0 <= i < |rates| ==> chunk <= Limiter.LimitedChunk(rates[i], bufferSize)
    ensures chunk == bufferSize || exists i :: 0 <= i < |rates| && chunk == Limiter.LimitedChunk(rates[i], bufferSize)
  {
    chunk := bufferSize;
    for k := 0 to |rates|
      invariant 0 < chunk <= bufferSize
      invariant forall i :: 0 <= i < k ==> chunk <= Limiter.LimitedChunk(rates[i], bufferSize)
      invariant chunk == bufferSize || exists i :: 0 <= i < k && chunk == Limiter.LimitedChunk(rates[i], bufferSize)
    {
      chunk := Min(chunk, Limiter.LimitedChunk(rates[k], bufferSize));
    }
  }

  /** What the limits of a direction were charged, in bytes. permit: they let it on before the connection closes. */
  class Toll {
    var charged: nat

    method WaitAll(n: nat, permit: bool) returns (ok: bool)
      modifies this
      ensures charged == old(charged) + n && ok == permit
    {
      charged := charged + n;
      ok := permit;
    }
  }

  /** How a direction ended, and so what happens to the other one. */
  datatype End =
    | SourceEnded
    | SinkRefused
    | WriteTimedOut
    | LimitWoken
    | Woken
    | Idle
    | TornRecord
    | Failed

  /** pipe: the size of the kernel pipe, if the direction can be spliced. */
  datatype Config = Config(bufferSize: nat, rates: seq<real>, pipe: Option<nat>, records: bool, lowLatency: bool)
  {
    predicate Valid() { bufferSize > 0 && (pipe.Some? ==> pipe.value > 0) && forall i :: 0 <= i < |rates| ==> rates[i] > 0.0 }
  }

  /** The clock around a top-up and what the socket holds before it. */
  datatype Tick = Tick(now: int, later: int, waiting: int)

  /** Nothing is held, and everything taken was delivered and counted. */
  ghost predicate Even(src: Source, dst: Sink, c: Counters, counts: seq<nat>, before: nat)
    reads src, dst, c
  {
    src.Valid() && dst.delivered == src.taken && |dst.delivered| >= before &&
    c.All() == Plus(counts, |dst.delivered| - before)
  }

  /** Whether every byte taken is delivered in such an end. */
  predicate Complete(e: End) { !e.SinkRefused? && !e.WriteTimedOut? && !e.LimitWoken? }

  ghost predicate Delivered(src: Source, dst: Sink, c: Counters, counts: seq<nat>, before: nat, e: End)
    reads src, dst, c
  {
    dst.delivered <= src.taken && |dst.delivered| >= before && c.All() == Plus(counts, |dst.delivered| - before) &&
    (Complete(e) ==> dst.delivered == src.taken) && (e == SourceEnded ==> dst.delivered == src.whole)
  }

  /**
   Writes what the mover holds, all of it charged to the limits, and counts what was delivered; the error ends
   the direction.
   */
  method Deliver(m: Mover, src: Source, dst: Sink, c: Counters, toll: Toll, n: nat,
      ghost counts: seq<nat>, ghost before: nat, ghost start: int)
    returns (err: Error)
    requires toll.charged == start + |src.taken|
    requires m.Valid() && m.HoldsThat(n) && dst.delivered + m.Holds(n) == src.taken && |dst.delivered| >= before
    requires src.Valid() && c.All() == Plus(counts, |dst.delivered| - before)
    modifies m`pipe, dst, c
    ensures m.Valid() && Delivered(src, dst, c, counts, before, SinkRefused)
    ensures err == Nothing ==> m.pipe == [] && Even(src, dst, c, counts, before)
    ensures old(dst.script) == [] ==> dst.script == [] && err == Nothing
    ensures n > 0 ==> WriteSays(err, dst.told)
  {
    var written;
    written, err := m.Write(dst, n, src);
    PlusPlus(counts, old(|dst.delivered|) - before, written);
    if written > 0 {
      c.Add(written);
    }
    if err == Nothing && written != n {
      err := Other;
    }
  }

  /** What a read error means for the direction; None is go on. */
  function OnReadError(err: Error, idle: int): (e: Option<End>)
    requires err != Nothing && err != Refused
    ensures e.None? <==> Moving(err, idle)
    ensures e == Some(Idle) <==> err.Timeout? && err.now - err.lastActivity >= idle
    ensures e == Some(SourceEnded) <==> err == Eof
    ensures e == Some(Woken) <==> err == Closed
    ensures e == Some(TornRecord) <==> err == UnexpectedEof
    ensures e.Some? ==> Complete(e.value)
  {
    match err
    case Eof => Some(SourceEnded)
    case Closed => Some(Woken)
    case Timeout(_, _) => if Moving(err, idle) then None else Some(Idle)
    case UnexpectedEof => Some(TornRecord)
    case _ => Some(Failed)
  }

  /** Why a direction ends: by what its last read or write was told, or because the limits did not let it on. */
  ghost predicate Because(e: End, src: Source, dst: Sink, permit: bool)
    reads src, dst
  {
    match e
    case SourceEnded => src.told == Eof
    case Woken => src.told == Closed
    case Idle => src.told.Timeout? && src.told.now - src.told.lastActivity >= src.idle
    case TornRecord => src.told == UnexpectedEof
    case Failed => src.told == Refused || src.told == Other
    case WriteTimedOut => dst.told.Timeout?
    case SinkRefused => !dst.told.Timeout?
    case LimitWoken => !permit
  }

  /** A read's error is what the socket said, but for a refusal to splice that comes too late. */
  predicate ReadSays(err: Error, told: Error) { err == told || (told == Refused && err == Other) }

  /** What the pump keeps between two reads. */
  ghost predicate Ready(m: Mover, b: Batcher, src: Source, dst: Sink, c: Counters, counts: seq<nat>, before: nat)
    reads m, b, src, dst, c
  {
    m.Valid() && m.pipe == [] && !src.ended && Even(src, dst, c, counts, before) &&
    b.full <= m.size && (m.kernel && !m.moved ==> b.full == 0)
  }

  /** What it knows after a read of n bytes that came back with an error, or none. */
  ghost predicate Holding(m: Mover, b: Batcher, src: Source, dst: Sink, c: Counters, n: nat, read: Error,
      counts: seq<nat>, before: nat)
    reads m, m.buf, b, src, dst, c
  {
    m.Valid() && m.HoldsThat(n) && dst.delivered + m.Holds(n) == src.taken && |dst.delivered| >= before &&
    src.Valid() && (src.ended <==> read == Eof) && c.All() == Plus(counts, |dst.delivered| - before) &&
    b.full <= m.size && read != Refused && (n == 0 ==> read != Nothing) &&
    (m.kernel && !m.moved ==> b.full == 0 && n == 0)
  }

  /** A read; when the kernel refuses to splice, nothing was moved and nothing measured. */
  method ReadOn(m: Mover, b: Batcher, src: Source, dst: Sink, c: Counters, ghost counts: seq<nat>, ghost before: nat)
    returns (n: nat, err: Error)
    requires Ready(m, b, src, dst, c, counts, before)
    modifies m`pipe, m`moved, m.buf, src
    ensures err == Refused ==> Even(src, dst, c, counts, before) && !src.ended && b.full == 0
    ensures err != Refused ==> Holding(m, b, src, dst, c, n, err, counts, before)
    ensures Left(src.script) <= Left(old(src.script)) && (err != Closed ==> Left(src.script) < Left(old(src.script)))
    ensures Smooth(old(src.script), src, err) && ReadSays(err, src.told)
    ensures Unsplit(old(src.script), m.kernel && !old(m.moved), src.idle) ==> err == Refused && Clean(src.script, src.idle)
  {
    n, err := m.Read(src);
  }

  /** The kernel pipe, which may be smaller than asked for, or else a buffer. */
  method NewMover(config: Config, chunk: nat) returns (m: Mover)
    requires config.Valid() && chunk > 0
    ensures m.Valid() && m.pipe == [] && !m.moved && m.size <= chunk && fresh(m) && fresh(m.buf)
    ensures m.kernel == config.pipe.Some? && m.records == config.records
    ensures m.size == if config.pipe.Some? then Min(chunk, config.pipe.value) else chunk
  {
    if config.pipe.Some? {
      m := new Mover(true, Min(chunk, config.pipe.value), config.records);
    } else {
      m := new Mover(false, chunk, config.records);
    }
  }

  /** A read without error may be topped up. */
  method BatchMore(m: Mover, b: Batcher, src: Source, dst: Sink, c: Counters, n: nat, tick: Tick,
      ghost counts: seq<nat>, ghost before: nat)
    returns (held: nat, err: Error)
    requires Holding(m, b, src, dst, c, n, Nothing, counts, before)
    modifies m`pipe, m.buf, b, src
    ensures Holding(m, b, src, dst, c, held, err, counts, before) && held >= n
    ensures Left(src.script) <= Left(old(src.script)) && Smooth(old(src.script), src, err) && !err.Timeout?
    ensures err == Nothing || err == OnTopUp(src.told)
    ensures b.State() == if b.off then old(b.State()) else
      AfterRead(old(b.State()), n, held - n, err, tick.now, if m.kernel then tick.waiting else -1, m.size, tick.later)
  {
    ghost var data;
    held, err, data := b.Batch(m, src, n, tick.now, tick.later, tick.waiting);
    Join(dst.delivered, old(m.Holds(n)), data);
    assert dst.delivered + m.Holds(held) == src.taken;
  }

  /** The receiver takes everything and the source will end. */
  ghost predicate Willing(src: Source, dst: Sink, err: Error)
    reads src, dst
  {
    dst.script == [] && (src.ended || Clean(src.script, src.idle)) && (err == Nothing || err == Eof || Moving(err, src.idle))
  }

  /** What is held is charged, and delivered if the limits let it on before the connection is closed. */
  method Forward(m: Mover, src: Source, dst: Sink, c: Counters, toll: Toll, held: nat, permit: bool,
      ghost counts: seq<nat>, ghost before: nat, ghost start: int)
    returns (e: Option<End>)
    requires m.Valid() && m.HoldsThat(held) && dst.delivered + m.Holds(held) == src.taken && held > 0
    requires |dst.delivered| >= before && src.Valid() && c.All() == Plus(counts, |dst.delivered| - before)
    requires toll.charged == start + |dst.delivered|
    modifies m`pipe, dst, c, toll
    ensures toll.charged == start + |src.taken| && m.Valid()
    ensures e.None? ==> m.pipe == [] && Even(src, dst, c, counts, before)
    ensures e.Some? ==> Delivered(src, dst, c, counts, before, e.value) && Because(e.value, src, dst, permit)
    ensures e.Some? ==> !Complete(e.value)
    ensures e == Some(LimitWoken) ==> dst.delivered == old(dst.delivered)
    ensures old(dst.script) == [] && permit ==> e == None && dst.script == []
  {
    var ok := toll.WaitAll(held, permit);
    if !ok {
      return Some(LimitWoken);
    }
    var werr := Deliver(m, src, dst, c, toll, held, counts, before, start);
    return if werr == Nothing then None else Some(if werr.Timeout? then WriteTimedOut else SinkRefused);
  }

  /** The same before anything was read, when the kernel may yet refuse to splice. */
  ghost predicate WillingFrom(src: Source, dst: Sink, kernel: bool)
    reads src, dst
  {
    Willing(src, dst, Nothing) || (dst.script == [] && !src.ended && Unsplit(src.script, kernel, src.idle))
  }

  /**
   One turn of the pump after a read of n bytes: batch, wait for the limits, write and count, and then
   see about the error of the read or of the top-up. permit: the limits let the bytes pass before the
   connection is closed.
   */
  method Turn(m: Mover, b: Batcher, src: Source, dst: Sink, c: Counters, toll: Toll, n: nat, read: Error, tick: Tick,
      permit: bool, ghost counts: seq<nat>, ghost before: nat, ghost start: int)
    returns (e: Option<End>)
    requires toll.charged == start + |dst.delivered|
    requires Holding(m, b, src, dst, c, n, read, counts, before) && ReadSays(read, src.told)
    modifies m`pipe, m.buf, b, src, dst, c, toll
    ensures e.Some? ==> Because(e.value, src, dst, permit)
    ensures toll.charged == start + |src.taken|
    ensures n > 0 && read == Nothing && !b.off ==> b.lastRead == tick.now || b.lastRead == tick.later
    ensures e == Some(LimitWoken) ==> dst.delivered == old(dst.delivered)
    ensures e.None? ==> Ready(m, b, src, dst, c, counts, before)
    ensures e.Some? ==> Delivered(src, dst, c, counts, before, e.value)
    ensures Left(src.script) <= Left(old(src.script)) && (read == Closed ==> e.Some?)
    ensures old(Willing(src, dst, read)) && permit ==> e == Some(SourceEnded) || (e.None? && Willing(src, dst, Nothing))
  {
    var held, err := n, read;
    if n > 0 && err == Nothing {
      held, err := BatchMore(m, b, src, dst, c, n, tick, counts, before);
    }
    if held > 0 {
      e := Forward(m, src, dst, c, toll, held, permit, counts, before, start);
      if e.Some? {
        return;
      }
    }
    if err == Nothing {
      return None;
    }
    return OnReadError(err, src.idle);
  }

  /** One read and its turn, or the change to a buffer when the kernel refuses to splice. */
  method Round(m: Mover, b: Batcher, src: Source, dst: Sink, c: Counters, toll: Toll, config: Config, chunk: nat,
      tick: Tick, permit: bool, ghost counts: seq<nat>, ghost before: nat, ghost start: int)
    returns (next: Mover, e: Option<End>)
    requires Ready(m, b, src, dst, c, counts, before) && chunk > 0 && toll.charged == start + |dst.delivered|
    modifies m`pipe, m`moved, m.buf, b, src, dst, c, toll
    ensures toll.charged == start + |src.taken|
    ensures next == m || (fresh(next) && fresh(next.buf) && !next.kernel && next.size == chunk && next.records == config.records)
    ensures e.None? ==> Ready(next, b, src, dst, c, counts, before) && Left(src.script) < Left(old(src.script))
    ensures e.Some? ==> Delivered(src, dst, c, counts, before, e.value) && Because(e.value, src, dst, permit)
    ensures e == Some(LimitWoken) ==> dst.delivered == old(dst.delivered)
    ensures old(Willing(src, dst, Nothing)) && permit ==>
      e == Some(SourceEnded) || (e.None? && Willing(src, dst, Nothing))
    ensures old(dst.script) == [] && Unsplit(old(src.script), m.kernel && !old(m.moved), src.idle) ==>
      e.None? && Willing(src, dst, Nothing)
  {
    next := m;
    var n, err := ReadOn(m, b, src, dst, c, counts, before);
    if err == Refused {
      next := new Mover(false, chunk, config.records);
      return next, None;
    }
    e := Turn(m, b, src, dst, c, toll, n, err, tick, permit, counts, before, start);
  }

  /**
   One direction, until it ends. At every moment the bytes delivered are a prefix of the bytes taken (see
   Sink.Write); nothing taken is lost except where the receiver refuses it or the connection is closed
   while waiting for a limit; the whole stream arrives when the source ends; and all five counters say
   exactly how much was delivered.
   */
  method Pump(config: Config, src: Source, dst: Sink, c: Counters, toll: Toll, zero: int, ticks: seq<Tick>,
      permits: seq<bool>)
    returns (e: End)
    requires config.Valid() && src.Valid() && !src.ended && dst.delivered == src.taken
    modifies src, dst, c, toll
    ensures toll.charged - old(toll.charged) == |src.taken| - |old(src.taken)|
    ensures Delivered(src, dst, c, old(c.All()), old(|dst.delivered|), e)
    ensures Because(e, src, dst, false !in permits)
    ensures old(WillingFrom(src, dst, config.pipe.Some?)) && false !in permits ==> e == SourceEnded
  {
    ghost var counts, before, start := c.All(), |dst.delivered|, toll.charged - |src.taken|;
    ghost var willing := WillingFrom(src, dst, config.pipe.Some?) && false !in permits;
    PlusPlus(counts, 0, 0);
    var chunk := Chunk(config.bufferSize, config.rates);
    var m := NewMover(config, chunk);
    var b := new Batcher(config.lowLatency, zero);
    var turn := 0;
    while true
      invariant fresh(m) && fresh(m.buf) && fresh(b) && turn >= 0
      invariant Ready(m, b, src, dst, c, counts, before) && toll.charged == start + |src.taken|
      invariant willing ==> WillingFrom(src, dst, m.kernel && !m.moved)
      decreases Left(src.script)
    {
      var tick := if turn < |ticks| then ticks[turn] else Tick(zero, zero, -1);
      var permit := if turn < |permits| then permits[turn] else true;
      turn := turn + 1;
      var end;
      m, end := Round(m, b, src, dst, c, toll, config, chunk, tick, permit, counts, before, start);
      if end.Some? {
        return end.value;
      }
    }
  }
}
