/**
 The rotating log file (rotate.go): batches of lines, and the renames of a rotation, with the files as a
 map. I/O succeeds. While a compressor holds the guard there is no rotation; what WriteLine sees when it
 looks at the guard is given by a sequence, and everything is proved for each such sequence.
 */
module Rotation {
  import opened Wrappers

  /** A rotated generation: path.n or path.n.gz, by what it holds uncompressed. */
  datatype Gen = Gen(n: nat, gz: bool)

  type Files = map<Gen, string>

  datatype Config = Config(maxSize: int, keep: nat, compressAfter: nat)

  /** guard: what the next looks at the compress guard will see; free when there is nothing left. */
  datatype Log = Log(live: string, files: Files, guard: seq<bool>)

  function Get(files: Files, g: Gen): Option<string> { if g in files then Some(files[g]) else None }

  // ----- A rotation -----

  /** What a generation holds after a rotation that keeps `keep` of them. */
  function After(files: Files, live: string, keep: nat, g: Gen): Option<string> {
    if keep == 0 then (if g.n == 1 then None else Get(files, g))
    else if g.n == 1 then (if g.gz then None else Some(live))
    else if 2 <= g.n <= keep then Get(files, Gen(g.n - 1, g.gz))
    else Get(files, g)
  }

  function Rotated(files: Files, live: string, keep: nat): Files {
    var all := files.Keys + (set g | g in files :: Gen(g.n + 1, g.gz)) + {Gen(1, false)};
    map g | g in all && After(files, live, keep, g).Some? :: After(files, live, keep, g).value
  }

  lemma RotatedHolds(files: Files, live: string, keep: nat, g: Gen)
    ensures Get(Rotated(files, live, keep), g) == After(files, live, keep, g)
  {
    if 2 <= g.n <= keep && Gen(g.n - 1, g.gz) in files {
      assert g in (set h | h in files :: Gen(h.n + 1, h.gz)) by {
        assert Gen(g.n - 1, g.gz).n + 1 == g.n;
      }
    }
  }

  /** The loop has shifted the generations above n. */
  function Shifted(files: Files, keep: nat, n: nat, g: Gen): Option<string> {
    var top := Max(keep, 1);
    if g.n <= n || g.n > top then Get(files, g)
    else if g.n == n + 1 then None
    else Get(files, Gen(g.n - 1, g.gz))
  }

  /** Generation n has moved up, or away. */
  function Moved(files: Files, keep: nat, n: nat, gz: bool, g: Gen): Option<string> {
    if g == Gen(n, gz) then None
    else if g == Gen(n + 1, gz) && n < keep then Get(files, Gen(n, gz))
    else Get(files, g)
  }

  // ----- Lines -----

  /** The length of the first line, its newline included. */
  function FirstLine(text: string): (k: nat)
    requires text != ""
    ensures 0 < k <= |text|
    ensures k == |text| || text[k - 1] == '\n'
    ensures forall i :: 0 <= i < k - 1 ==> text[i] != '\n'
  {
    if text[0] == '\n' || |text| == 1 then 1 else 1 + FirstLine(text[1..])
  }

  function Lines(text: string): seq<string>
    decreases |text|
  {
    if text == "" then [] else [text[..FirstLine(text)]] + Lines(text[FirstLine(text)..])
  }

  /** WriteLine: rotate first if the file is full and nobody compresses. */
  function Line(c: Config, l: Log, line: string): Log {
    var full := |l.live| >= c.maxSize;
    var held := full && l.guard != [] && l.guard[0];
    var guard := if full && l.guard != [] then l.guard[1..] else l.guard;
    if full && !held then Log(line, Rotated(l.files, l.live, c.keep), guard)
    else Log(l.live + line, l.files, guard)
  }

  /** One WriteLine for each line. */
  function EachLine(c: Config, l: Log, lines: seq<string>): Log
    decreases |lines|
  {
    if lines == [] then l else EachLine(c, Line(c, l, lines[0]), lines[1..])
  }

  /** Every line of the chunk but the last ends before there is no room left. */
  predicate Fits(chunk: string, room: int) {
    forall i :: 0 <= i < |chunk| - 1 && chunk[i] == '\n' ==> i + 1 < room
  }

  /** A text that ends with a line, or is followed by nothing. */
  predicate WholeLines(chunk: string, rest: string) {
    chunk != "" && (rest == "" || chunk[|chunk| - 1] == '\n')
  }

  /** The first line of a chunk of whole lines is the first line of the text. */
  lemma {:induction false} FirstOfChunk(chunk: string, rest: string)
    requires WholeLines(chunk, rest)
    ensures FirstLine(chunk + rest) == FirstLine(chunk)
    decreases |chunk|
  {
    if rest == "" {
      assert chunk + rest == chunk;
    } else if chunk[0] != '\n' {
      assert (chunk + rest)[1..] == chunk[1..] + rest;
      FirstOfChunk(chunk[1..], rest);
    }
  }

  /** The lines of a text are its first line and those of the rest. */
  lemma LinesOfSplit(text: string, first: string, rest: string)
    requires text == first + rest && text != "" && |first| == FirstLine(text)
    ensures Lines(text) == [first] + Lines(rest)
  {
    assert text[..|first|] == first && text[|first|..] == rest;
  }

  /** A chunk of whole lines that only its last line may fill: writing it at once is writing each line. */
  lemma {:induction false} ChunkIsItsLines(c: Config, l: Log, chunk: string, rest: string)
    requires WholeLines(chunk, rest)
    requires |chunk| == FirstLine(chunk) || (|l.live| < c.maxSize && Fits(chunk, c.maxSize - |l.live|))
    ensures EachLine(c, l, Lines(chunk + rest)) == EachLine(c, Line(c, l, chunk), Lines(rest))
    decreases |chunk|
  {
    FirstOfChunk(chunk, rest);
    var f := FirstLine(chunk);
    if f == |chunk| {
      LinesOfSplit(chunk + rest, chunk, rest);
      OneMoreLine(c, l, chunk, Lines(rest));
    } else {
      var a, b := chunk[..f], chunk[f..];
      assert chunk == a + b && chunk + rest == a + (b + rest) && chunk[f - 1] == '\n';
      LinesOfSplit(chunk + rest, a, b + rest);
      OneMoreLine(c, l, a, Lines(b + rest));
      FitsRest(chunk, f, c.maxSize - |l.live|);
      TwoWrites(c, l, a, b);
      ChunkIsItsLines(c, Line(c, l, a), b, rest);
    }
  }

  lemma FitsRest(chunk: string, f: nat, room: int)
    requires f <= |chunk| && Fits(chunk, room)
    ensures Fits(chunk[f..], room - f)
  {
    forall i | 0 <= i < |chunk| - f - 1 && chunk[f..][i] == '\n' ensures i + 1 < room - f {
      assert chunk[f + i] == '\n';
    }
  }

  lemma OneMoreLine(c: Config, l: Log, line: string, lines: seq<string>)
    ensures EachLine(c, l, [line] + lines) == EachLine(c, Line(c, l, line), lines)
  {
    assert ([line] + lines)[1..] == lines;
  }

  /** While there is room, two writes are one. */
  lemma TwoWrites(c: Config, l: Log, a: string, b: string)
    requires |l.live| + |a| < c.maxSize
    ensures Line(c, l, a).live == l.live + a
    ensures Line(c, Line(c, l, a), b) == Line(c, l, a + b)
  {
    assert (l.live + a) + b == l.live + (a + b);
  }

  // ----- The logger -----

  class FileLogger {
    const config: Config
    var live: string
    var size: int
    var files: Files
    var guard: seq<bool>

    ghost function State(): Log
      reads this
    {
      Log(live, files, guard)
    }

    ghost predicate Valid()
      reads this
    {
      size == |live|
    }

    /** Opens the file for appending, with what it holds already. */
    constructor (config: Config, live: string, files: Files, guard: seq<bool>)
      ensures Valid() && this.config == config && State() == Log(live, files, guard)
    {
      this.config := config;
      this.live, this.size, this.files, this.guard := live, |live|, files, guard;
    }

    method Remove(g: Gen)
      requires g in files
      modifies `files
      ensures files == old(files) - {g}
    {
      files := files - {g};
    }

    /** Nothing is ever overwritten by a rename. */
    method Rename(a: Gen, b: Gen)
      requires a in files && b !in files
      modifies `files
      ensures files == (old(files) - {a})[b := old(files)[a]]
    {
      files := (files - {a})[b := files[a]];
    }

    /** Generation n goes: up by one, or away if it is the oldest to keep. */
    method ShiftOne(n: nat, gz: bool)
      requires n > 0 && (n < config.keep ==> Gen(n + 1, gz) !in files)
      modifies `files
      ensures forall g :: Get(files, g) == Moved(old(files), config.keep, n, gz, g)
    {
      if Gen(n, gz) !in files {
        return;
      }
      if n >= config.keep {
        Remove(Gen(n, gz));
      } else {
        Rename(Gen(n, gz), Gen(n + 1, gz));
      }
    }

    method Shift(n: nat, ghost was: Files)
      requires 0 < n <= Max(config.keep, 1)
      requires forall g :: Get(files, g) == Shifted(was, config.keep, n, g)
      modifies `files
      ensures forall g :: Get(files, g) == Shifted(was, config.keep, n - 1, g)
    {
      assert n < config.keep ==> Get(files, Gen(n + 1, false)) == None && Get(files, Gen(n + 1, true)) == None;
      ShiftOne(n, false);
      assert n < config.keep ==> Get(files, Gen(n + 1, true)) == None;
      ShiftOne(n, true);
    }

    /** Oldest first; the live file becomes generation 1, or goes when none is kept. */
    method Rotate()
      requires Valid()
      modifies `live, `size, `files
      ensures Valid() && live == "" && files == Rotated(old(files), old(live), config.keep)
    {
      var n := Max(config.keep, 1);
      while n >= 1
        invariant 0 <= n <= Max(config.keep, 1) && live == old(live)
        invariant forall g :: Get(files, g) == Shifted(old(files), config.keep, n, g)
      {
        Shift(n, old(files));
        n := n - 1;
      }
      ghost var shifted := files;
      if config.keep > 0 {
        assert Get(files, Gen(1, false)) == None;
        files := files[Gen(1, false) := live];
      }
      assert files == if config.keep > 0 then shifted[Gen(1, false) := old(live)] else shifted;
      forall g ensures Get(files, g) == Get(Rotated(old(files), old(live), config.keep), g) {
        RotatedHolds(old(files), old(live), config.keep, g);
        assert Get(shifted, g) == Shifted(old(files), config.keep, 0, g);
        LastStep(old(files), shifted, old(live), config.keep, g);
      }
      SameFiles(files, Rotated(old(files), old(live), config.keep));
      live, size := "", 0;
    }

    method WriteLine(line: string)
      requires Valid()
      modifies this
      ensures Valid() && State() == Line(config, old(State()), line)
    {
      if size >= config.maxSize {
        var held := guard != [] && guard[0];
        if guard != [] {
          guard := guard[1..];
        }
        if !held {
          Rotate();
          assert "" + line == line;
        }
      }
      live := live + line;
      size := size + |line|;
    }

    /** As many whole lines as fill the file, or one line if it is full. */
    method ChunkEnd(text: string) returns (k: nat)
      requires Valid() && text != ""
      ensures 0 < k <= |text| && WholeLines(text[..k], text[k..])
      ensures k == FirstLine(text[..k]) || (size < config.maxSize && Fits(text[..k], config.maxSize - size))
    {
      k := |text|;
      var room := config.maxSize - size;
      if room > 0 && |text| > room {
        k := Cut(text, room - 1);
      } else if room <= 0 {
        k := Cut(text, 0);
        FirstIsCut(text[..k]);
      }
    }

    /** A batch leaves exactly what one WriteLine for each of its lines would. */
    method WriteLines(batch: string)
      requires Valid()
      modifies this
      ensures Valid() && State() == EachLine(config, old(State()), Lines(batch))
    {
      var text := batch;
      while text != ""
        invariant Valid() && EachLine(config, State(), Lines(text)) == EachLine(config, old(State()), Lines(batch))
        decreases |text|
      {
        text := WriteChunk(text);
      }
    }

    /** One chunk of the text, in one write. */
    method WriteChunk(text: string) returns (rest: string)
      requires Valid() && text != ""
      modifies this
      ensures Valid() && |rest| < |text|
      ensures EachLine(config, State(), Lines(rest)) == EachLine(config, old(State()), Lines(text))
    {
      var k := ChunkEnd(text);
      var chunk := text[..k];
      rest := text[k..];
      assert text == chunk + rest;
      ChunkIsItsLines(config, State(), chunk, rest);
      WriteLine(chunk);
    }
  }

  /** A line is its own first line. */
  lemma {:induction false} FirstIsCut(line: string)
    requires line != "" && forall i :: 0 <= i < |line| - 1 ==> line[i] != '\n'
    ensures FirstLine(line) == |line|
    decreases |line|
  {
    if |line| > 1 {
      FirstIsCut(line[1..]);
    }
  }

  lemma LastStep(was: Files, shifted: Files, live: string, keep: nat, g: Gen)
    requires Get(shifted, g) == Shifted(was, keep, 0, g)
    ensures Get(if keep > 0 then shifted[Gen(1, false) := live] else shifted, g) == After(was, live, keep, g)
  {
  }

  lemma SameFiles(a: Files, b: Files)
    requires forall g :: Get(a, g) == Get(b, g)
    ensures a == b
  {
    forall g | g in a ensures g in b && a[g] == b[g] {
      assert Get(a, g) == Get(b, g);
    }
    forall g | g in b ensures g in a {
      assert Get(a, g) == Get(b, g);
    }
  }

  /** Up to the first newline at or after the index, or everything. */
  method Cut(text: string, from: nat) returns (k: nat)
    requires from < |text|
    ensures from < k <= |text| && (k == |text| || text[k - 1] == '\n')
    ensures forall i :: from <= i < k - 1 ==> text[i] != '\n'
  {
    k := from;
    while k < |text|
      invariant from <= k <= |text| && forall i :: from <= i < k ==> text[i] != '\n'
    {
      if text[k] == '\n' {
        return k + 1;
      }
      k := k + 1;
    }
  }
}
