/**
 A log file over time (rotate.go): lines are written, the file is rotated, and after a rotation a
 goroutine compresses old generations while writing goes on. As a transition system with one action per
 look at the guard, rotation, append, and step of the compressor.
 */
module RotationRuns {
  import opened Wrappers
  import opened Rotation

  datatype Writer = Ready | Rotating(line: string) | Appending(line: string)

  /** Which generation the compressor is at: looking for it, having read it, having written its archive. */
  datatype Compressor = Idle | Look(n: nat) | Zipping(n: nat, text: string) | Zipped(n: nat)

  /**
   logged, starts and settled are history: every line so far, where the live file (0) and the generations
   (1, 2, ...) start in it, and whether there has been a rotation since the logger was opened, or nothing to
   compress then.
   */
  datatype State = State(
    live: string, files: Files, compressing: bool, compressor: Compressor, writer: Writer,
    logged: seq<string>, starts: seq<nat>, settled: bool)

  datatype Action = Write(line: string) | Proceed | Compress

  function Do(c: Config, s: State, a: Action): State {
    match a
    case Write(line) =>
      if !s.writer.Ready? then s
      else if |s.live| >= c.maxSize && !s.compressing then s.(writer := Rotating(line))
      else s.(writer := Appending(line))
    case Proceed =>
      (match s.writer
       case Ready => s
       case Rotating(line) => Rotate(c, s).(writer := Appending(line))
       case Appending(line) => s.(writer := Ready, live := s.live + line, logged := s.logged + [line]))
    case Compress => Zip(c, s)
  }

  /** The renames, and then the guard for the compressor if there is anything it may compress. */
  function Rotate(c: Config, s: State): State {
    var t := s.(live := "", files := Rotated(s.files, s.live, c.keep), starts := [|s.logged|] + s.starts, settled := true);
    if c.compressAfter >= c.keep then t else t.(compressing := true, compressor := Look(c.compressAfter + 1))
  }

  function Zip(c: Config, s: State): State {
    match s.compressor
    case Idle => s
    case Look(n) =>
      if n > c.keep then s.(compressing := false, compressor := Idle)
      else if Gen(n, false) in s.files then s.(compressor := Zipping(n, s.files[Gen(n, false)]))
      else s.(compressor := Look(n + 1))
    case Zipping(n, text) => s.(files := s.files[Gen(n, true) := text], compressor := Zipped(n))
    case Zipped(n) => s.(files := s.files - {Gen(n, false)}, compressor := Look(n + 1))
  }

  function Execute(c: Config, s: State, actions: seq<Action>): State
    decreases |actions|
  {
    if actions == [] then s else Execute(c, Do(c, s, actions[0]), actions[1..])
  }

  /** All the text of some lines. */
  function Flatten(lines: seq<string>): string {
    if lines == [] then "" else Flatten(lines[..|lines| - 1]) + lines[|lines| - 1]
  }

  lemma {:induction false} FlattenPlus(a: seq<string>, b: seq<string>)
    ensures Flatten(a + b) == Flatten(a) + Flatten(b)
    decreases |b|
  {
    if b == [] {
      assert a + b == a;
    } else {
      var most := b[..|b| - 1];
      assert (a + b)[..|a + b| - 1] == a + most;
      FlattenPlus(a, most);
    }
  }

  // ----- What is there when the logger is opened -----

  /** The text of generation n, plain or compressed. */
  function Text(files: Files, n: nat): Option<string> {
    if Gen(n, false) in files then Some(files[Gen(n, false)]) else Get(files, Gen(n, true))
  }

  /** Of those to keep, generations 1 to n are there, each once, plain or compressed, and no other. */
  ghost predicate Takeable(c: Config, files: Files, n: nat) {
    n <= c.keep && (forall g :: g in files && g.n <= c.keep ==> 1 <= g.n <= n) &&
    forall k: nat :: 1 <= k <= n ==> (Gen(k, false) in files <==> Gen(k, true) !in files)
  }

  /** Generations n down to 1 and the live file as they were found, each as if it were one line. */
  function Found(live: string, files: Files, n: nat): (lines: seq<string>)
    ensures |lines| == n + 1
  {
    if n == 0 then [live]
    else [if Text(files, n).Some? then Text(files, n).value else ""] + Found(live, files, n - 1)
  }

  ghost function Opened(c: Config, live: string, files: Files, n: nat): State {
    State(live, files, false, Idle, Ready, Found(live, files, n), seq(n + 1, k requires 0 <= k <= n => n - k),
          forall k: nat :: c.compressAfter < k <= n ==> Gen(k, false) !in files)
  }

  lemma {:induction false} FoundAt(live: string, files: Files, n: nat, k: nat)
    requires k <= n
    ensures Found(live, files, n)[n - k] ==
      if k == 0 then live else if Text(files, k).Some? then Text(files, k).value else ""
    decreases n
  {
    if k < n {
      FoundAt(live, files, n - 1, k);
    }
  }

  lemma FlattenOne(lines: seq<string>, i: nat)
    requires i < |lines|
    ensures Flatten(lines[i..i + 1]) == lines[i]
  {
    assert lines[i..i + 1] == [] + [lines[i]];
    assert lines[i..i + 1][..0] == [];
  }

  lemma FoundFile(c: Config, live: string, files: Files, n: nat, g: Gen)
    requires Takeable(c, files, n) && g in files
    ensures FileOk(c, Opened(c, live, files, n), g, files[g])
  {
    if g.n <= c.keep {
      FoundAt(live, files, n, g.n);
      FlattenOne(Found(live, files, n), n - g.n);
    }
  }

  lemma FoundLive(live: string, files: Files, n: nat)
    ensures live == Flatten(Found(live, files, n)[n..])
  {
    FoundAt(live, files, n, 0);
    FlattenOne(Found(live, files, n), n);
    assert Found(live, files, n)[n..] == Found(live, files, n)[n..n + 1];
  }

  lemma FoundGens(c: Config, live: string, files: Files, n: nat)
    requires Takeable(c, files, n)
    ensures forall k: nat :: 1 <= k <= n ==> GenOk(Opened(c, live, files, n), k)
  {
    forall k: nat | 1 <= k <= n ensures GenOk(Opened(c, live, files, n), k) {
      assert Gen(k, false) in files <==> Gen(k, true) !in files;
    }
  }

  lemma FoundCompressed(c: Config, live: string, files: Files, n: nat)
    requires Takeable(c, files, n)
    ensures CompressorOk(Opened(c, live, files, n)) && Compressed(c, Opened(c, live, files, n))
  {
  }

  lemma FoundFiles(c: Config, live: string, files: Files, n: nat)
    requires Takeable(c, files, n)
    ensures forall g :: g in files ==> FileOk(c, Opened(c, live, files, n), g, files[g])
  {
    forall g | g in files ensures FileOk(c, Opened(c, live, files, n), g, files[g]) {
      FoundFile(c, live, files, n, g);
    }
  }

  lemma InvOf(c: Config, s: State, n: nat)
    requires |s.starts| == n + 1 == |s.logged| && s.starts[0] == n <= c.keep && s.live == Flatten(s.logged[n..])
    requires forall g :: g in s.files ==> FileOk(c, s, g, s.files[g])
    requires forall k: nat :: 1 <= k <= n ==> GenOk(s, k)
    requires CompressorOk(s) && Compressed(c, s)
    ensures Inv(c, s)
  {
  }

  /** Opening a logger on such files gives a state all runs may begin with. */
  lemma OpenedOk(c: Config, live: string, files: Files, n: nat)
    requires Takeable(c, files, n)
    ensures Inv(c, Opened(c, live, files, n))
  {
    FoundLive(live, files, n);
    FoundGens(c, live, files, n);
    FoundCompressed(c, live, files, n);
    FoundFiles(c, live, files, n);
    InvOf(c, Opened(c, live, files, n), n);
  }

  // ----- What every run keeps -----

  /** The generations there are: as many as rotations, but no more than are kept. */
  function Count(c: Config, s: State): (n: nat)
    requires s.starts != []
  {
    if |s.starts| - 1 < c.keep then |s.starts| - 1 else c.keep
  }

  /** The part of the log in generation n. */
  ghost predicate Holds(s: State, n: nat, text: string) {
    0 < n < |s.starts| && s.starts[n] <= s.starts[n - 1] <= |s.logged| &&
    text == Flatten(s.logged[s.starts[n]..s.starts[n - 1]])
  }

  /** Generations above the number to keep are left alone, whatever they hold. */
  ghost predicate FileOk(c: Config, s: State, g: Gen, text: string) { g.n <= c.keep ==> Holds(s, g.n, text) }

  /** A generation is there once, except while its archive is there and the plain file not yet gone. */
  ghost predicate GenOk(s: State, n: nat) {
    (Gen(n, false) in s.files || Gen(n, true) in s.files) &&
    (Gen(n, false) in s.files && Gen(n, true) in s.files ==> s.compressor == Zipped(n))
  }

  ghost predicate CompressorOk(s: State) {
    (s.compressing <==> !s.compressor.Idle?) && (s.writer.Rotating? ==> !s.compressing) &&
    (s.compressor.Zipping? ==>
      Gen(s.compressor.n, false) in s.files && s.files[Gen(s.compressor.n, false)] == s.compressor.text) &&
    (s.compressor.Zipped? ==> Gen(s.compressor.n, true) in s.files)
  }

  /** How far the compressor has come; everything above CompressAfter when it is idle. */
  function Done(c: Config, s: State): nat {
    match s.compressor
    case Idle => c.keep + 1
    case Look(n) => n
    case Zipping(n, _) => n
    case Zipped(n) => n
  }

  ghost predicate Compressed(c: Config, s: State) {
    (s.compressing ==> s.settled) && (s.compressor.Zipping? || s.compressor.Zipped? ==> s.compressor.n <= c.keep) &&
    (s.settled ==> forall n :: c.compressAfter < n < Done(c, s) ==> Gen(n, false) !in s.files)
  }

  ghost predicate Inv(c: Config, s: State) {
    s.starts != [] && s.starts[0] <= |s.logged| && s.live == Flatten(s.logged[s.starts[0]..]) &&
    (forall g :: g in s.files ==> FileOk(c, s, g, s.files[g])) &&
    (forall n: nat :: 1 <= n <= Count(c, s) ==> GenOk(s, n)) && CompressorOk(s) && Compressed(c, s)
  }

  /** One more line. */
  lemma FlattenSnoc(lines: seq<string>, from: nat, line: string)
    requires from <= |lines|
    ensures Flatten((lines + [line])[from..]) == Flatten(lines[from..]) + line
  {
    assert (lines + [line])[from..] == lines[from..] + [line];
    assert (lines[from..] + [line])[..|lines[from..]|] == lines[from..];
  }

  /** What a generation holds does not depend on what is logged later. */
  lemma HoldsStill(s: State, t: State, n: nat, text: string, more: seq<string>)
    requires Holds(s, n, text) && t.starts == s.starts && t.logged == s.logged + more
    ensures Holds(t, n, text)
  {
    var a, b := s.starts[n], s.starts[n - 1];
    assert (s.logged + more)[a..b] == s.logged[a..b];
  }

  lemma AppendKeepsInv(c: Config, s: State)
    requires Inv(c, s) && s.writer.Appending?
    ensures Inv(c, Do(c, s, Proceed))
  {
    var t := Do(c, s, Proceed);
    FlattenSnoc(s.logged, s.starts[0], s.writer.line);
    forall g | g in t.files ensures FileOk(c, t, g, t.files[g]) {
      assert FileOk(c, s, g, s.files[g]);
      if g.n <= c.keep {
        HoldsStill(s, t, g.n, s.files[g], [s.writer.line]);
      }
    }
    forall n: nat | 1 <= n <= Count(c, t) ensures GenOk(t, n) {
      assert GenOk(s, n);
    }
  }

  /** The live file becomes generation 1. */
  lemma LiveIsFirst(s: State, t: State)
    requires s.starts != [] && s.starts[0] <= |s.logged| && s.live == Flatten(s.logged[s.starts[0]..])
    requires t.logged == s.logged && t.starts == [|s.logged|] + s.starts
    ensures Holds(t, 1, s.live)
  {
    assert s.logged[s.starts[0]..] == s.logged[s.starts[0]..|s.logged|];
  }

  /** A generation moves up by one. */
  lemma OneUp(s: State, t: State, n: nat, text: string)
    requires Holds(s, n, text) && t.logged == s.logged && t.starts == [|s.logged|] + s.starts
    ensures Holds(t, n + 1, text)
  {
    assert t.starts[n + 1] == s.starts[n] && t.starts[n] == s.starts[n - 1];
  }

  /** After a rotation a generation to keep is what the live file was, or one that was a number lower. */
  predicate CameFrom(c: Config, files: Files, live: string, g: Gen, text: string) {
    if g.n == 1 then text == live else g.n > 1 && Get(files, Gen(g.n - 1, g.gz)) == Some(text)
  }

  lemma RotatedText(c: Config, files: Files, live: string, g: Gen)
    requires Gen(0, g.gz) !in files && g in Rotated(files, live, c.keep) && g.n <= c.keep
    ensures CameFrom(c, files, live, g, Rotated(files, live, c.keep)[g])
  {
    RotatedHolds(files, live, c.keep, g);
    assert After(files, live, c.keep, g).Some?;
  }

  lemma MovedFile(c: Config, s: State, t: State, g: Gen, text: string)
    requires Inv(c, s) && CameFrom(c, s.files, s.live, g, text) && g.n <= c.keep
    requires t.logged == s.logged && t.starts == [|s.logged|] + s.starts
    ensures FileOk(c, t, g, text)
  {
    if g.n == 1 {
      LiveIsFirst(s, t);
    } else {
      assert FileOk(c, s, Gen(g.n - 1, g.gz), text);
      OneUp(s, t, g.n - 1, text);
    }
  }

  lemma NoneIsLive(c: Config, s: State, gz: bool)
    requires Inv(c, s)
    ensures Gen(0, gz) !in s.files
  {
    assert Gen(0, gz) in s.files ==> FileOk(c, s, Gen(0, gz), s.files[Gen(0, gz)]);
  }

  lemma RotatedFiles(c: Config, s: State, g: Gen)
    requires Inv(c, s) && g in Rotated(s.files, s.live, c.keep)
    ensures FileOk(c, Rotate(c, s), g, Rotated(s.files, s.live, c.keep)[g])
  {
    if g.n <= c.keep {
      NoneIsLive(c, s, g.gz);
      RotatedText(c, s.files, s.live, g);
      MovedFile(c, s, Rotate(c, s), g, Rotated(s.files, s.live, c.keep)[g]);
    }
  }

  /** No generation is lost or there twice after a rotation, and there is one more if it is kept. */
  lemma RotatedGens(c: Config, s: State, n: nat)
    requires Inv(c, s) && !s.compressing && 1 <= n <= Count(c, Rotate(c, s))
    ensures GenOk(Rotate(c, s), n)
  {
    RotatedHolds(s.files, s.live, c.keep, Gen(n, false));
    RotatedHolds(s.files, s.live, c.keep, Gen(n, true));
    assert n > 1 ==> GenOk(s, n - 1);
  }

  lemma RotateKeepsInv(c: Config, s: State)
    requires Inv(c, s) && s.writer.Rotating?
    ensures Inv(c, Do(c, s, Proceed))
  {
    var t := Do(c, s, Proceed);
    var r := Rotate(c, s);
    assert t.logged[t.starts[0]..] == [];
    forall g | g in t.files ensures FileOk(c, t, g, t.files[g]) {
      RotatedFiles(c, s, g);
    }
    forall n: nat | 1 <= n <= Count(c, t) ensures GenOk(t, n) {
      RotatedGens(c, s, n);
    }
  }

  lemma ZipKeepsFiles(c: Config, s: State, g: Gen)
    requires Inv(c, s) && g in Zip(c, s).files
    ensures FileOk(c, Zip(c, s), g, Zip(c, s).files[g])
  {
    if s.compressor.Zipping? && g == Gen(s.compressor.n, true) {
      assert FileOk(c, s, Gen(g.n, false), s.files[Gen(g.n, false)]);
    } else {
      assert FileOk(c, s, g, s.files[g]);
    }
  }

  lemma ZipKeepsGens(c: Config, s: State, n: nat)
    requires Inv(c, s) && 1 <= n <= Count(c, s)
    ensures GenOk(Zip(c, s), n)
  {
    assert GenOk(s, n);
  }

  lemma ZipKeepsCompressor(c: Config, s: State)
    requires Inv(c, s)
    ensures CompressorOk(Zip(c, s)) && Compressed(c, Zip(c, s))
  {
  }

  lemma ZipKeepsInv(c: Config, s: State)
    requires Inv(c, s)
    ensures Inv(c, Zip(c, s))
  {
    var t := Zip(c, s);
    ZipKeepsCompressor(c, s);
    forall g | g in t.files ensures FileOk(c, t, g, t.files[g]) {
      ZipKeepsFiles(c, s, g);
    }
    forall n: nat | 1 <= n <= Count(c, t) ensures GenOk(t, n) {
      ZipKeepsGens(c, s, n);
    }
  }

  lemma DoKeepsInv(c: Config, s: State, a: Action)
    requires Inv(c, s)
    ensures Inv(c, Do(c, s, a))
  {
    match a {
      case Write(_) =>
        var t := Do(c, s, a);
        forall n: nat | 1 <= n <= Count(c, t) ensures GenOk(t, n) {
          assert GenOk(s, n);
        }
        forall g | g in t.files ensures FileOk(c, t, g, t.files[g]) {
          assert FileOk(c, s, g, s.files[g]);
        }
      case Proceed =>
        if s.writer.Rotating? {
          RotateKeepsInv(c, s);
        } else if s.writer.Appending? {
          AppendKeepsInv(c, s);
        }
      case Compress => ZipKeepsInv(c, s);
    }
  }

  lemma {:induction false} EveryRun(c: Config, s: State, actions: seq<Action>)
    requires Inv(c, s)
    ensures Inv(c, Execute(c, s, actions))
    decreases |actions|
  {
    if actions != [] {
      DoKeepsInv(c, s, actions[0]);
      EveryRun(c, Do(c, s, actions[0]), actions[1..]);
    }
  }

  /** Nothing logged is forgotten. */
  lemma {:induction false} LogGrows(c: Config, s: State, actions: seq<Action>)
    ensures s.logged <= Execute(c, s, actions).logged
    decreases |actions|
  {
    if actions != [] {
      LogGrows(c, Do(c, s, actions[0]), actions[1..]);
    }
  }

  // ----- What is in the files -----

  /** Generations n down to 1, oldest first, and then the live file. */
  function Read(s: State, n: nat): string {
    if n == 0 then s.live
    else (if Text(s.files, n).Some? then Text(s.files, n).value else "") + Read(s, n - 1)
  }

  lemma {:induction false} ReadIsLogged(c: Config, s: State, n: nat)
    requires Inv(c, s) && n <= Count(c, s)
    ensures s.starts[n] <= |s.logged| && Read(s, n) == Flatten(s.logged[s.starts[n]..])
    decreases n
  {
    if n > 0 {
      ReadIsLogged(c, s, n - 1);
      ReadOneMore(c, s, n, Read(s, n - 1));
    }
  }

  lemma ReadOneMore(c: Config, s: State, n: nat, rest: string)
    requires Inv(c, s) && 1 <= n <= Count(c, s) && s.starts[n - 1] <= |s.logged|
    requires rest == Flatten(s.logged[s.starts[n - 1]..])
    ensures Text(s.files, n).Some? && s.starts[n] <= |s.logged|
    ensures Text(s.files, n).value + rest == Flatten(s.logged[s.starts[n]..])
  {
    TextIsLogged(c, s, n);
    FlattenFrom(s.logged, s.starts[n], s.starts[n - 1]);
  }

  lemma TextIsLogged(c: Config, s: State, n: nat)
    requires Inv(c, s) && 1 <= n <= Count(c, s)
    ensures Text(s.files, n).Some? && Holds(s, n, Text(s.files, n).value)
  {
    assert GenOk(s, n);
    var g := if Gen(n, false) in s.files then Gen(n, false) else Gen(n, true);
    assert FileOk(c, s, g, s.files[g]);
  }

  lemma FlattenFrom(lines: seq<string>, a: nat, b: nat)
    requires a <= b <= |lines|
    ensures Flatten(lines[a..]) == Flatten(lines[a..b]) + Flatten(lines[b..])
  {
    FlattenPlus(lines[a..b], lines[b..]);
    assert lines[a..] == lines[a..b] + lines[b..];
  }

  /**
   In every run, from whatever files the logger was opened on, the generations from the oldest to the newest
   and then the live file read as the last of what was found and the lines logged since, from some line on:
   nothing is lost in between, out of order, twice, or split.
   */
  lemma FilesAreTheLastLines(c: Config, live: string, files: Files, n: nat, actions: seq<Action>)
    requires Takeable(c, files, n)
    ensures var s := Execute(c, Opened(c, live, files, n), actions);
      Found(live, files, n) <= s.logged && s.starts != [] && Count(c, s) < |s.starts| &&
      s.starts[Count(c, s)] <= |s.logged| && Read(s, Count(c, s)) == Flatten(s.logged[s.starts[Count(c, s)]..])
  {
    OpenedOk(c, live, files, n);
    EveryRun(c, Opened(c, live, files, n), actions);
    LogGrows(c, Opened(c, live, files, n), actions);
    var s := Execute(c, Opened(c, live, files, n), actions);
    ReadIsLogged(c, s, Count(c, s));
  }

  /** In every run, each generation holds whole lines, and the next newer one goes on where it ends. */
  lemma GenerationsHoldWholeLines(c: Config, live: string, files: Files, n: nat, actions: seq<Action>, g: Gen)
    requires Takeable(c, files, n)
    ensures var s := Execute(c, Opened(c, live, files, n), actions);
      g in s.files && g.n <= c.keep ==> g.n > 0 && Holds(s, g.n, s.files[g])
  {
    OpenedOk(c, live, files, n);
    EveryRun(c, Opened(c, live, files, n), actions);
    var s := Execute(c, Opened(c, live, files, n), actions);
    if g in s.files {
      assert FileOk(c, s, g, s.files[g]);
    }
  }

  lemma CompressingMovesNothing(c: Config, s: State, a: Action, k: nat)
    requires Inv(c, s) && s.compressing
    ensures Text(Do(c, s, a).files, k) == Text(s.files, k)
  {
    if s.compressor.Zipped? {
      var m := s.compressor.n;
      var g, z := Gen(m, false), Gen(m, true);
      assert FileOk(c, s, z, s.files[z]);
      if g in s.files {
        assert FileOk(c, s, g, s.files[g]);
      }
    }
  }

  /** While the compressor runs, no step of anybody overwrites or renumbers a generation. */
  lemma NothingMovesWhileCompressing(
      c: Config, live: string, files: Files, n: nat, actions: seq<Action>, a: Action, k: nat)
    requires Takeable(c, files, n)
    ensures var s := Execute(c, Opened(c, live, files, n), actions);
      s.compressing ==> Text(Do(c, s, a).files, k) == Text(s.files, k)
  {
    OpenedOk(c, live, files, n);
    EveryRun(c, Opened(c, live, files, n), actions);
    var s := Execute(c, Opened(c, live, files, n), actions);
    if s.compressing {
      CompressingMovesNothing(c, s, a, k);
    }
  }

  /**
   In every run, whenever nobody compresses, every generation above CompressAfter is compressed: from the
   first rotation on, or from the start if those found were.
   */
  lemma OldGenerationsAreCompressed(c: Config, live: string, files: Files, n: nat, actions: seq<Action>, k: nat)
    requires Takeable(c, files, n)
    ensures var start := Opened(c, live, files, n);
      var s := Execute(c, start, actions);
      (start.settled || |s.starts| > |start.starts|) && !s.compressing && c.compressAfter < k <= c.keep ==>
        Gen(k, false) !in s.files
  {
    var start := Opened(c, live, files, n);
    OpenedOk(c, live, files, n);
    EveryRun(c, start, actions);
    SettledByRotation(c, start, actions);
  }

  lemma {:induction false} SettledByRotation(c: Config, s: State, actions: seq<Action>)
    ensures |Execute(c, s, actions).starts| > |s.starts| || s.settled ==> Execute(c, s, actions).settled
    decreases |actions|
  {
    if actions != [] {
      SettledByRotation(c, Do(c, s, actions[0]), actions[1..]);
    }
  }

  // ----- One operation at a time -----

  /** Writing a line by itself does what WriteLine does, and starts the compressor if it rotated. */
  lemma WriteByItself(c: Config, s: State, line: string)
    requires s.writer.Ready?
    ensures var rotates := |s.live| >= c.maxSize && !s.compressing;
      var a := Do(c, Do(c, s, Write(line)), Proceed);
      var r := if rotates then Do(c, a, Proceed) else a;
      var l := Line(c, Log(s.live, s.files, [s.compressing]), line);
      r.writer.Ready? && r.live == l.live && r.files == l.files && r.logged == s.logged + [line] &&
      (if rotates && c.compressAfter < c.keep then r.compressing && r.compressor == Look(c.compressAfter + 1)
       else r.compressing == s.compressing && r.compressor == s.compressor)
  {
  }

  /** What the compressor leaves once it has been over generations n to keep. */
  ghost predicate ZippedFrom(c: Config, was: Files, now: Files, n: nat) {
    forall g: Gen ::
      Get(now, g) ==
        if n <= g.n <= c.keep then
          if g.gz then (if Gen(g.n, false) in was then Get(was, Gen(g.n, false)) else Get(was, g)) else None
        else Get(was, g)
  }

  /** So many steps of the compressor. */
  function Zips(c: Config, s: State, k: nat): State
    decreases k
  {
    if k == 0 then s else Zips(c, Do(c, s, Compress), k - 1)
  }

  lemma {:induction false} MoreZips(c: Config, s: State, a: nat, b: nat)
    ensures Zips(c, s, a + b) == Zips(c, Zips(c, s, a), b)
    decreases a
  {
    if a > 0 {
      MoreZips(c, Do(c, s, Compress), a - 1, b);
    }
  }

  /** One generation by itself: compressed if it was plain. */
  function ZipOne(s: State, n: nat): State {
    if Gen(n, false) in s.files then
      s.(files := s.files[Gen(n, true) := s.files[Gen(n, false)]] - {Gen(n, false)}, compressor := Look(n + 1))
    else s.(compressor := Look(n + 1))
  }

  lemma ZipsOne(c: Config, s: State, n: nat)
    requires s.compressor == Look(n) && n <= c.keep
    ensures Zips(c, s, if Gen(n, false) in s.files then 3 else 1) == ZipOne(s, n)
  {
    if Gen(n, false) in s.files {
      var a := s.(compressor := Zipping(n, s.files[Gen(n, false)]));
      var b := a.(files := s.files[Gen(n, true) := s.files[Gen(n, false)]], compressor := Zipped(n));
      assert Do(c, s, Compress) == a && Do(c, a, Compress) == b && Do(c, b, Compress) == ZipOne(s, n);
      assert Zips(c, s, 3) == Zips(c, a, 2) && Zips(c, a, 2) == Zips(c, b, 1);
      assert Zips(c, b, 1) == Do(c, b, Compress);
    } else {
      assert Zips(c, s, 1) == Do(c, s, Compress);
    }
  }

  /**
   The compressor by itself goes over all generations from n to the last one kept, compresses those that are
   plain, leaves everything else alone, and releases the guard.
   */
  lemma {:induction false} CompressorByItself(c: Config, s: State, n: nat) returns (k: nat)
    requires s.compressor == Look(n)
    ensures var r := Zips(c, s, k);
      r.compressor.Idle? && !r.compressing && ZippedFrom(c, s.files, r.files, n) &&
      r.live == s.live && r.logged == s.logged && r.writer == s.writer
    decreases c.keep + 1 - n
  {
    if n > c.keep {
      k := 1;
      assert Zips(c, s, 1) == Do(c, s, Compress);
    } else {
      var one := if Gen(n, false) in s.files then 3 else 1;
      ZipsOne(c, s, n);
      var rest := CompressorByItself(c, ZipOne(s, n), n + 1);
      MoreZips(c, s, one, rest);
      k := one + rest;
    }
  }
}
