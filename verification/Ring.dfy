/**
 The bounded multi-producer multi-consumer ring of lockfree.go, as a transition system: one action
 per atomic load, store or compare-and-swap, with a program counter per goroutine. A run is any
 sequence of actions, so every interleaving of any number of producers and consumers is covered.
 The two counters and the sequence numbers are unbounded naturals (64-bit wrap is not modelled).
 */
module Ring {
  import opened Bits
  import opened Wrappers

  /** Where a goroutine stands inside TryPush or TryPop (Idle: in neither). */
  datatype Pc<T> =
    | Idle
    | PushLoadTail(v: T)
    | PushLoadSeq(v: T, pos: nat)
    | PushClaim(v: T, pos: nat)
    | PushWrite(v: T, pos: nat)
    | PushPublish(v: T, pos: nat)
    | PushOk(v: T, pos: nat)
    | PushFull(v: T)
    | PopLoadHead
    | PopLoadSeq(pos: nat)
    | PopClaim(pos: nat)
    | PopRead(pos: nat)
    | PopClear(v: T, pos: nat)
    | PopRelease(v: T, pos: nat)
    | PopOk(v: T, pos: nat)
    | PopEmpty

  /**
   The shared memory: the counters and the cells (seqs and vals), with zero the zero value of T.
   The last three fields are history: the values in the order their positions were claimed, the
   positions made visible to consumers, and what the consumer of each position was handed.
   */
  datatype Memory<T> = Memory(
    head: nat, tail: nat, seqs: seq<nat>, vals: seq<T>, zero: T,
    pushed: seq<T>, published: set<nat>, popped: map<nat, T>)
  {
    ghost predicate Shaped() { |seqs| == |vals| >= 2 }

    function Cap(): nat { |seqs| }

    /** pos & mask (see Bits.MaskIsRem). */
    function Slot(pos: nat): (i: nat)
      requires Shaped()
      ensures i < |seqs|
    {
      Rem(pos, |seqs|)
    }

    function Contents(): seq<T>
      requires head <= tail == |pushed|
    {
      pushed[head..tail]
    }
  }

  datatype State<T> = State(m: Memory<T>, threads: seq<Pc<T>>)

  datatype Action<T> = StartPush(t: nat, v: T) | StartPop(t: nat) | Advance(t: nat)

  /** One atomic step of a goroutine that stands at pc. A finished call goes back to Idle. */
  function Step<T>(m: Memory<T>, pc: Pc<T>): (Memory<T>, Pc<T>)
    requires m.Shaped()
  {
    match pc
    case Idle => (m, pc)
    case PushLoadTail(v) => (m, PushLoadSeq(v, m.tail))
    case PushLoadSeq(v, pos) =>
      var q := m.seqs[m.Slot(pos)];
      (m, if q == pos then PushClaim(v, pos) else if q < pos then PushFull(v) else PushLoadTail(v))
    case PushClaim(v, pos) =>
      if m.tail == pos then (m.(tail := pos + 1, pushed := m.pushed + [v]), PushWrite(v, pos))
      else (m, PushLoadTail(v))
    case PushWrite(v, pos) => (m.(vals := m.vals[m.Slot(pos) := v]), PushPublish(v, pos))
    case PushPublish(v, pos) =>
      (m.(seqs := m.seqs[m.Slot(pos) := pos + 1], published := m.published + {pos}), PushOk(v, pos))
    case PopLoadHead => (m, PopLoadSeq(m.head))
    case PopLoadSeq(pos) =>
      var q := m.seqs[m.Slot(pos)];
      (m, if q == pos + 1 then PopClaim(pos) else if q < pos + 1 then PopEmpty else PopLoadHead)
    case PopClaim(pos) =>
      if m.head == pos then (m.(head := pos + 1), PopRead(pos)) else (m, PopLoadHead)
    case PopRead(pos) => (m, PopClear(m.vals[m.Slot(pos)], pos))
    case PopClear(v, pos) => (m.(vals := m.vals[m.Slot(pos) := m.zero]), PopRelease(v, pos))
    case PopRelease(v, pos) =>
      (m.(seqs := m.seqs[m.Slot(pos) := pos + m.Cap()], popped := m.popped[pos := v]), PopOk(v, pos))
    case _ => (m, Idle)
  }

  /** An action of a goroutine that does not exist, or is busy, changes nothing. */
  function Do<T>(s: State<T>, a: Action<T>): (r: State<T>)
    requires s.m.Shaped()
    ensures r.m.Shaped() && |r.threads| == |s.threads|
  {
    if a.t >= |s.threads| then s
    else
      match a
      case StartPush(t, v) => if s.threads[t].Idle? then s.(threads := s.threads[t := PushLoadTail(v)]) else s
      case StartPop(t) => if s.threads[t].Idle? then s.(threads := s.threads[t := PopLoadHead]) else s
      case Advance(t) =>
        var (m, pc) := Step(s.m, s.threads[t]);
        State(m, s.threads[t := pc])
  }

  function Execute<T>(s: State<T>, actions: seq<Action<T>>): (r: State<T>)
    requires s.m.Shaped()
    ensures r.m.Shaped() && |r.threads| == |s.threads|
    decreases |actions|
  {
    if actions == [] then s else Execute(Do(s, actions[0]), actions[1..])
  }

  function Init<T>(n: nat, zero: T, threads: nat): State<T> {
    State(Memory(0, 0, seq(n, i => i), seq(n, _ => zero), zero, [], {}, map[]), seq(threads, _ => Idle))
  }

  // ----- The invariant -----

  /** The claimed position a goroutine holds, and on which side. */
  datatype Hold = Nothing | AsProducer(pos: nat) | AsConsumer(pos: nat)

  function Holding<T>(pc: Pc<T>): Hold {
    match pc
    case PushWrite(_, pos) => AsProducer(pos)
    case PushPublish(_, pos) => AsProducer(pos)
    case PopRead(pos) => AsConsumer(pos)
    case PopClear(_, pos) => AsConsumer(pos)
    case PopRelease(_, pos) => AsConsumer(pos)
    case _ => Nothing
  }

  predicate Compatible<T>(a: Pc<T>, b: Pc<T>) {
    Holding(a) == Nothing || Holding(a) != Holding(b)
  }

  /** Cell i waits for the producer of position p. */
  ghost predicate Free<T>(m: Memory<T>, i: nat, p: nat)
    requires m.Shaped()
  {
    m.Slot(p) == i && m.head <= p < m.head + m.Cap()
  }

  /** Cell i holds, or is just giving up, the value of position p. */
  ghost predicate Filled<T>(m: Memory<T>, i: nat, p: nat)
    requires m.Shaped() && i < m.Cap() && |m.pushed| == m.tail
  {
    m.Slot(p) == i && p < m.tail <= p + m.Cap() && (p >= m.head ==> m.vals[i] == m.pushed[p])
  }

  ghost predicate CellOk<T>(m: Memory<T>, i: nat)
    requires m.Shaped() && i < m.Cap() && |m.pushed| == m.tail
  {
    Free(m, i, m.seqs[i]) || (m.seqs[i] >= 1 && Filled(m, i, m.seqs[i] - 1))
  }

  ghost predicate CellsOk<T>(m: Memory<T>) {
    m.Shaped() && |m.pushed| == m.tail && m.head <= m.tail <= m.head + m.Cap() &&
    forall i :: 0 <= i < m.Cap() ==> CellOk(m, i)
  }

  /** The history agrees with the sequence numbers. */
  ghost predicate HistoryOk<T>(m: Memory<T>)
    requires m.Shaped() && |m.pushed| == m.tail
  {
    (forall p: nat :: p in m.published <==> m.seqs[m.Slot(p)] > p) &&
    (forall p: nat :: p in m.popped <==> m.seqs[m.Slot(p)] >= p + m.Cap()) &&
    (forall p: nat :: p in m.popped ==> p < m.tail && m.popped[p] == m.pushed[p])
  }

  ghost predicate ThreadOk<T>(m: Memory<T>, pc: Pc<T>)
    requires m.Shaped() && |m.pushed| == m.tail
  {
    match pc
    case PushLoadSeq(v, pos) => pos <= m.tail
    case PushClaim(v, pos) => pos <= m.tail && (pos == m.tail ==> m.seqs[m.Slot(pos)] == pos)
    case PushWrite(v, pos) => pos < m.tail && m.seqs[m.Slot(pos)] == pos && m.pushed[pos] == v
    case PushPublish(v, pos) =>
      pos < m.tail && m.seqs[m.Slot(pos)] == pos && m.pushed[pos] == v && m.vals[m.Slot(pos)] == v
    case PopLoadSeq(pos) => pos <= m.head
    case PopClaim(pos) => pos <= m.head && (pos == m.head ==> m.seqs[m.Slot(pos)] == pos + 1)
    case PopRead(pos) =>
      pos < m.head <= m.tail && m.seqs[m.Slot(pos)] == pos + 1 && m.vals[m.Slot(pos)] == m.pushed[pos]
    case PopClear(v, pos) => pos < m.head <= m.tail && m.seqs[m.Slot(pos)] == pos + 1 && v == m.pushed[pos]
    case PopRelease(v, pos) => pos < m.head <= m.tail && m.seqs[m.Slot(pos)] == pos + 1 && v == m.pushed[pos]
    case PushOk(v, pos) => pos < m.tail && pos in m.published && m.pushed[pos] == v
    case PopOk(v, pos) => pos in m.popped && v == m.popped[pos]
    case _ => true
  }

  /** A claimed position that is not finished has a goroutine at work on it. */
  ghost predicate Owned<T>(s: State<T>) {
    (forall p: nat :: p < s.m.tail && p !in s.m.published ==>
      exists t :: 0 <= t < |s.threads| && Holding(s.threads[t]) == AsProducer(p)) &&
    (forall p: nat :: p < s.m.head && p !in s.m.popped ==>
      exists t :: 0 <= t < |s.threads| && Holding(s.threads[t]) == AsConsumer(p))
  }

  ghost predicate Inv<T>(s: State<T>) {
    CellsOk(s.m) && HistoryOk(s.m) &&
    (forall t :: 0 <= t < |s.threads| ==> ThreadOk(s.m, s.threads[t])) &&
    (forall t, u :: 0 <= t < u < |s.threads| ==> Compatible(s.threads[t], s.threads[u])) &&
    Owned(s)
  }

  // ----- Every action keeps the invariant -----

  lemma InitOk<T>(n: nat, zero: T, threads: nat)
    requires n >= 2
    ensures Inv(Init(n, zero, threads))
  {
    var m := Init(n, zero, threads).m;
    forall p: nat ensures m.seqs[m.Slot(p)] <= p {
    }
  }

  /** The cell of a position tells which of the two roles it is in. */
  lemma FreeFor<T>(m: Memory<T>, pos: nat)
    requires CellsOk(m) && m.seqs[m.Slot(pos)] == pos
    ensures Free(m, m.Slot(pos), pos)
  {
    assert CellOk(m, m.Slot(pos));
    if pos > 0 {
      NextSlot(pos - 1, m.Cap());
    }
  }

  lemma FilledFor<T>(m: Memory<T>, pos: nat)
    requires CellsOk(m) && m.seqs[m.Slot(pos)] == pos + 1
    ensures Filled(m, m.Slot(pos), pos)
  {
    assert CellOk(m, m.Slot(pos));
    NextSlot(pos, m.Cap());
  }

  lemma StepCells<T>(m: Memory<T>, pc: Pc<T>)
    requires CellsOk(m) && ThreadOk(m, pc)
    ensures CellsOk(Step(m, pc).0)
  {
    match pc {
      case PushClaim(v, pos) =>
        if pos == m.tail {
          FreeFor(m, pos);
          ClaimPushCells(m, v);
        }
      case PopClaim(pos) =>
        if pos == m.head {
          FilledFor(m, pos);
          ClaimPopCells(m);
        }
      case PushWrite(v, pos) =>
        FreeFor(m, pos);
        ValueCells(m, pos, v);
      case PushPublish(v, pos) =>
        FreeFor(m, pos);
        PublishCells(m, pos);
      case PopClear(v, pos) =>
        FilledFor(m, pos);
        ValueCells(m, pos, m.zero);
      case PopRelease(v, pos) =>
        FilledFor(m, pos);
        ReleaseCells(m, pos, v);
      case _ =>
    }
  }

  /** The holder of a position may overwrite the value of its cell. */
  lemma ValueCells<T>(m: Memory<T>, pos: nat, v: T)
    requires CellsOk(m)
    requires m.seqs[m.Slot(pos)] == pos || (m.seqs[m.Slot(pos)] == pos + 1 && pos < m.head)
    requires m.seqs[m.Slot(pos)] == pos ==> Free(m, m.Slot(pos), pos)
    ensures CellsOk(m.(vals := m.vals[m.Slot(pos) := v]))
  {
    var r := m.(vals := m.vals[m.Slot(pos) := v]);
    forall i | 0 <= i < m.Cap() ensures CellOk(r, i) {
      assert CellOk(m, i);
    }
  }

  lemma PublishCells<T>(m: Memory<T>, pos: nat)
    requires CellsOk(m) && Free(m, m.Slot(pos), pos) && pos < m.tail && m.vals[m.Slot(pos)] == m.pushed[pos]
    ensures CellsOk(m.(seqs := m.seqs[m.Slot(pos) := pos + 1], published := m.published + {pos}))
  {
    var r := m.(seqs := m.seqs[m.Slot(pos) := pos + 1], published := m.published + {pos});
    forall i | 0 <= i < m.Cap() ensures CellOk(r, i) {
      assert CellOk(m, i);
      assert i == m.Slot(pos) ==> Filled(r, i, pos);
    }
  }

  lemma ReleaseCells<T>(m: Memory<T>, pos: nat, v: T)
    requires CellsOk(m) && Filled(m, m.Slot(pos), pos) && pos < m.head
    ensures CellsOk(m.(seqs := m.seqs[m.Slot(pos) := pos + m.Cap()], popped := m.popped[pos := v]))
  {
    var r := m.(seqs := m.seqs[m.Slot(pos) := pos + m.Cap()], popped := m.popped[pos := v]);
    forall i | 0 <= i < m.Cap() ensures CellOk(r, i) {
      assert CellOk(m, i);
      assert i == m.Slot(pos) ==> Free(r, i, pos + m.Cap());
    }
  }

  lemma ClaimPushCells<T>(m: Memory<T>, v: T)
    requires CellsOk(m) && Free(m, m.Slot(m.tail), m.tail) && m.seqs[m.Slot(m.tail)] == m.tail
    ensures CellsOk(m.(tail := m.tail + 1, pushed := m.pushed + [v]))
  {
    var r := m.(tail := m.tail + 1, pushed := m.pushed + [v]);
    forall i | 0 <= i < m.Cap() ensures CellOk(r, i) {
      assert CellOk(m, i);
      if m.seqs[i] >= 1 && Filled(m, i, m.seqs[i] - 1) {
        assert m.Slot(m.seqs[i] - 1 + m.Cap()) == i;
      }
    }
  }

  lemma ClaimPopCells<T>(m: Memory<T>)
    requires CellsOk(m) && Filled(m, m.Slot(m.head), m.head) && m.seqs[m.Slot(m.head)] == m.head + 1
    ensures CellsOk(m.(head := m.head + 1))
  {
    var r := m.(head := m.head + 1);
    forall i | 0 <= i < m.Cap() ensures CellOk(r, i) {
      assert CellOk(m, i);
    }
  }

  /** The history follows the sequence numbers. */
  lemma StepHistory<T>(m: Memory<T>, pc: Pc<T>)
    requires CellsOk(m) && HistoryOk(m) && ThreadOk(m, pc)
    ensures |Step(m, pc).0.pushed| == Step(m, pc).0.tail && HistoryOk(Step(m, pc).0)
  {
    if pc.PushPublish? {
      PublishStep(m, pc);
    } else if pc.PopRelease? {
      ReleaseStep(m, pc);
    } else {
      OtherStepsKeepHistory(m, pc);
      SameHistory(m, Step(m, pc).0);
    }
  }

  lemma PublishStep<T>(m: Memory<T>, pc: Pc<T>)
    requires CellsOk(m) && HistoryOk(m) && ThreadOk(m, pc) && pc.PushPublish?
    ensures |Step(m, pc).0.pushed| == Step(m, pc).0.tail && HistoryOk(Step(m, pc).0)
  {
    PublishHistory(m, pc.pos);
  }

  lemma ReleaseStep<T>(m: Memory<T>, pc: Pc<T>)
    requires CellsOk(m) && HistoryOk(m) && ThreadOk(m, pc) && pc.PopRelease?
    ensures |Step(m, pc).0.pushed| == Step(m, pc).0.tail && HistoryOk(Step(m, pc).0)
  {
    ReleaseHistory(m, pc.pos, pc.v);
  }

  lemma OtherStepsKeepHistory<T>(m: Memory<T>, pc: Pc<T>)
    requires m.Shaped() && |m.pushed| == m.tail && !pc.PushPublish? && !pc.PopRelease?
    ensures var r := Step(m, pc).0;
      r.seqs == m.seqs && |r.vals| == |m.vals| && r.published == m.published && r.popped == m.popped &&
      |r.pushed| == r.tail && m.pushed <= r.pushed
  {
  }

  lemma SameHistory<T>(m: Memory<T>, r: Memory<T>)
    requires CellsOk(m) && HistoryOk(m)
    requires r.seqs == m.seqs && |r.vals| == |m.vals| && r.published == m.published && r.popped == m.popped
    requires |r.pushed| == r.tail && m.pushed <= r.pushed
    ensures HistoryOk(r)
  {
    forall p: nat ensures r.Slot(p) == m.Slot(p) {}
  }

  lemma PublishHistory<T>(m: Memory<T>, pos: nat)
    requires CellsOk(m) && HistoryOk(m) && pos < m.tail && m.seqs[m.Slot(pos)] == pos
    ensures HistoryOk(m.(seqs := m.seqs[m.Slot(pos) := pos + 1], published := m.published + {pos}))
  {
    var r := m.(seqs := m.seqs[m.Slot(pos) := pos + 1], published := m.published + {pos});
    NextSlot(pos, m.Cap());
    forall p: nat
      ensures p in r.published <==> r.seqs[r.Slot(p)] > p
      ensures p in r.popped <==> r.seqs[r.Slot(p)] >= p + r.Cap()
    {
      assert r.Slot(p) == m.Slot(p) == m.Slot(p + m.Cap());
    }
  }

  lemma ReleaseHistory<T>(m: Memory<T>, pos: nat, v: T)
    requires CellsOk(m) && HistoryOk(m) && pos < m.tail && m.seqs[m.Slot(pos)] == pos + 1 && v == m.pushed[pos]
    ensures HistoryOk(m.(seqs := m.seqs[m.Slot(pos) := pos + m.Cap()], popped := m.popped[pos := v]))
  {
    var r := m.(seqs := m.seqs[m.Slot(pos) := pos + m.Cap()], popped := m.popped[pos := v]);
    forall p: nat
      ensures p in r.published <==> r.seqs[r.Slot(p)] > p
      ensures p in r.popped <==> r.seqs[r.Slot(p)] >= p + r.Cap()
    {
      assert r.Slot(p) == m.Slot(p);
      if m.Slot(p) == m.Slot(pos) {
        if p < pos {
          SameSlot(p, pos, m.Cap());
        } else if pos < p {
          SameSlot(pos, p, m.Cap());
        }
      }
    }
  }

  /** A step leaves its own goroutine consistent with the memory it made. */
  lemma StepSelf<T>(m: Memory<T>, pc: Pc<T>)
    requires CellsOk(m) && ThreadOk(m, pc)
    ensures |Step(m, pc).0.pushed| == Step(m, pc).0.tail && ThreadOk(Step(m, pc).0, Step(m, pc).1)
  {
    match pc {
      case PushLoadSeq(v, pos) =>
      case PopClaim(pos) =>
        if pos == m.head {
          FilledFor(m, pos);
          assert m.vals[m.Slot(pos)] == m.pushed[pos];
        }
      case _ =>
    }
  }

  /** A step does not disturb another goroutine, which holds something else. */
  lemma StepOther<T>(m: Memory<T>, pc: Pc<T>, other: Pc<T>)
    requires CellsOk(m) && HistoryOk(m) && ThreadOk(m, pc) && ThreadOk(m, other)
    requires Compatible(pc, other)
    ensures |Step(m, pc).0.pushed| == Step(m, pc).0.tail
    ensures ThreadOk(Step(m, pc).0, other) && Compatible(Step(m, pc).1, other)
  {
    if Holding(pc) != Nothing {
      HolderOther(m, pc, other);
    } else if pc.PopClaim? && pc.pos == m.head {
      FilledFor(m, pc.pos);
      ClaimPopOther(m, other);
    } else if pc.PushClaim? && pc.pos == m.tail {
      ClaimPushOther(m, pc.v, other);
    } else {
      UnclaimedStep(m, pc);
    }
  }

  lemma UnclaimedStep<T>(m: Memory<T>, pc: Pc<T>)
    requires m.Shaped() && Holding(pc) == Nothing
    requires pc.PopClaim? ==> pc.pos != m.head
    requires pc.PushClaim? ==> pc.pos != m.tail
    ensures Step(m, pc).0 == m && Holding(Step(m, pc).1) == Nothing
  {
  }

  lemma ClaimPushOther<T>(m: Memory<T>, v: T, other: Pc<T>)
    requires m.Shaped() && |m.pushed| == m.tail && m.head <= m.tail && ThreadOk(m, other)
    ensures ThreadOk(m.(tail := m.tail + 1, pushed := m.pushed + [v]), other)
    ensures Holding(other) != AsProducer(m.tail)
  {
  }

  lemma ClaimPopOther<T>(m: Memory<T>, other: Pc<T>)
    requires m.Shaped() && |m.pushed| == m.tail && m.head < m.tail && ThreadOk(m, other)
    ensures ThreadOk(m.(head := m.head + 1), other)
    ensures Holding(other) != AsConsumer(m.head)
  {
  }

  lemma HolderOther<T>(m: Memory<T>, pc: Pc<T>, other: Pc<T>)
    requires CellsOk(m) && HistoryOk(m) && ThreadOk(m, pc) && ThreadOk(m, other)
    requires Compatible(pc, other) && Holding(pc) != Nothing
    ensures |Step(m, pc).0.pushed| == Step(m, pc).0.tail
    ensures ThreadOk(Step(m, pc).0, other) && Compatible(Step(m, pc).1, other)
  {
    var r, pos := Step(m, pc).0, Holding(pc).pos;
    Elsewhere(m, pc, other);
    if !pc.PopRead? {
      assert pos !in m.popped by {
        assert m.seqs[m.Slot(pos)] < pos + m.Cap();
      }
      OtherCell(m, r, pos, other);
    }
  }

  /** A change of one cell's content does not disturb a goroutine that relies on other cells. */
  lemma OtherCell<T>(m: Memory<T>, r: Memory<T>, pos: nat, other: Pc<T>)
    requires m.Shaped() && |m.pushed| == m.tail && ThreadOk(m, other) && RelyElsewhere(m, pos, other)
    requires r.head == m.head && r.tail == m.tail && r.pushed == m.pushed
    requires |r.seqs| == |m.seqs| && forall i :: 0 <= i < |m.seqs| && i != m.Slot(pos) ==> r.seqs[i] == m.seqs[i]
    requires |r.vals| == |m.vals| && forall i :: 0 <= i < |m.vals| && i != m.Slot(pos) ==> r.vals[i] == m.vals[i]
    requires forall p: nat :: p in m.popped ==> p in r.popped && r.popped[p] == m.popped[p]
    requires m.published <= r.published
    ensures ThreadOk(r, other)
  {
  }

  /** The cell other relies on, if any, is not that of pos. */
  ghost predicate RelyElsewhere<T>(m: Memory<T>, pos: nat, other: Pc<T>)
    requires m.Shaped()
  {
    (Holding(other) != Nothing ==> m.Slot(Holding(other).pos) != m.Slot(pos)) &&
    (other.PushClaim? && other.pos == m.tail ==> m.Slot(m.tail) != m.Slot(pos)) &&
    (other.PopClaim? && other.pos == m.head ==> m.Slot(m.head) != m.Slot(pos))
  }

  lemma Elsewhere<T>(m: Memory<T>, pc: Pc<T>, other: Pc<T>)
    requires CellsOk(m) && ThreadOk(m, pc) && ThreadOk(m, other) && Compatible(pc, other)
    requires Holding(pc) != Nothing
    ensures RelyElsewhere(m, Holding(pc).pos, other)
  {
    NextSlot(Holding(pc).pos, m.Cap());
    if Holding(other) != Nothing {
      NextSlot(Holding(other).pos, m.Cap());
    } else if other.PushClaim? || other.PopClaim? {
      NextSlot(other.pos, m.Cap());
    }
  }

  /** Positions claimed by a step are owned by its goroutine, and owned until finished. */
  lemma StepOwned<T>(s: State<T>, t: nat)
    requires t < |s.threads| && s.m.Shaped() && Owned(s)
    ensures Owned(Do(s, Advance(t)))
  {
    var r := Do(s, Advance(t));
    forall p: nat | p < r.m.tail && p !in r.m.published
      ensures exists u :: 0 <= u < |r.threads| && Holding(r.threads[u]) == AsProducer(p)
    {
      if p < s.m.tail {
        var u :| 0 <= u < |s.threads| && Holding(s.threads[u]) == AsProducer(p);
        assert Holding(r.threads[u]) == AsProducer(p);
      } else {
        assert Holding(r.threads[t]) == AsProducer(p);
      }
    }
    forall p: nat | p < r.m.head && p !in r.m.popped
      ensures exists u :: 0 <= u < |r.threads| && Holding(r.threads[u]) == AsConsumer(p)
    {
      if p < s.m.head {
        var u :| 0 <= u < |s.threads| && Holding(s.threads[u]) == AsConsumer(p);
        assert Holding(r.threads[u]) == AsConsumer(p);
      } else {
        assert Holding(r.threads[t]) == AsConsumer(p);
      }
    }
  }

  lemma StartOwned<T>(s: State<T>, a: Action<T>)
    requires !a.Advance? && s.m.Shaped() && Owned(s)
    ensures Owned(Do(s, a))
  {
    var r := Do(s, a);
    forall u | 0 <= u < |s.threads| ensures Holding(r.threads[u]) == Holding(s.threads[u]) {}
  }

  lemma StepKeepsOther<T>(s: State<T>, t: nat, u: nat)
    requires Inv(s) && t < |s.threads| && u < |s.threads| && u != t
    ensures var r := Do(s, Advance(t));
      |r.m.pushed| == r.m.tail && ThreadOk(r.m, r.threads[u]) && Compatible(r.threads[t], r.threads[u])
  {
    assert Compatible(s.threads[t], s.threads[u]);
    StepOther(s.m, s.threads[t], s.threads[u]);
  }

  lemma DoKeepsInv<T>(s: State<T>, a: Action<T>)
    requires Inv(s)
    ensures Inv(Do(s, a))
  {
    var r := Do(s, a);
    if a.t < |s.threads| {
      if a.Advance? {
        var pc := s.threads[a.t];
        StepCells(s.m, pc);
        StepHistory(s.m, pc);
        StepSelf(s.m, pc);
        StepOwned(s, a.t);
        forall u | 0 <= u < |s.threads| && u != a.t
          ensures ThreadOk(r.m, r.threads[u]) && Compatible(r.threads[a.t], r.threads[u])
        {
          StepKeepsOther(s, a.t, u);
        }
      } else {
        StartOwned(s, a);
      }
    }
  }

  // ----- What it means for the callers -----

  /** The history only grows: what was pushed, published or handed out stays so. */
  ghost predicate Extends<T>(m: Memory<T>, r: Memory<T>) {
    m.head <= r.head && |r.seqs| == |m.seqs| && m.pushed <= r.pushed && m.published <= r.published &&
    forall p :: p in m.popped ==> p in r.popped && r.popped[p] == m.popped[p]
  }

  lemma StepExtends<T>(m: Memory<T>, pc: Pc<T>)
    requires CellsOk(m) && HistoryOk(m) && ThreadOk(m, pc)
    ensures Extends(m, Step(m, pc).0)
  {
    if pc.PopRelease? {
      assert m.seqs[m.Slot(pc.pos)] < pc.pos + m.Cap();
    }
  }

  /**
   In every state of every run the tail is at most the capacity ahead of the head, and nothing of
   the history is lost: a position is claimed once, and handed out with the value pushed there.
   */
  lemma {:induction false} EveryRun<T>(s: State<T>, actions: seq<Action<T>>)
    requires Inv(s)
    ensures var r := Execute(s, actions);
      Inv(r) && Extends(s.m, r.m) && 0 <= r.m.tail - r.m.head <= s.m.Cap()
    decreases |actions|
  {
    if actions != [] {
      var s1 := Do(s, actions[0]);
      DoKeepsInv(s, actions[0]);
      if actions[0].Advance? && actions[0].t < |s.threads| {
        StepExtends(s.m, s.threads[actions[0].t]);
      }
      assert Extends(s.m, s1.m);
      EveryRun(s1, actions[1..]);
    }
  }

  /** What a consumer returns is what was pushed at its position, in every state of every run. */
  lemma ReturnedIsPushed<T>(s: State<T>, actions: seq<Action<T>>, t: nat)
    requires Inv(s)
    ensures var r := Execute(s, actions);
      t < |r.threads| && r.threads[t].PopOk? ==>
        r.threads[t].pos < |r.m.pushed| && r.threads[t].v == r.m.pushed[r.threads[t].pos]
  {
    EveryRun(s, actions);
    var r := Execute(s, actions);
    if t < |r.threads| {
      assert ThreadOk(r.m, r.threads[t]);
    }
  }

  /** A consumer's value is handed out at the moment it releases its cell, and was not before. */
  lemma HandedOutOnce<T>(s: State<T>, t: nat)
    requires Inv(s) && t < |s.threads| && s.threads[t].PopRelease?
    ensures var pos, v := s.threads[t].pos, s.threads[t].v;
      pos !in s.m.popped && pos in s.m.published && v == s.m.pushed[pos] &&
      Do(s, Advance(t)).threads[t] == PopOk(v, pos) && Do(s, Advance(t)).m.popped == s.m.popped[pos := v]
  {
    assert ThreadOk(s.m, s.threads[t]);
    assert s.m.seqs[s.m.Slot(s.threads[t].pos)] < s.threads[t].pos + s.m.Cap();
  }

  /** The cell at the tail: free once the position one lap back is released. */
  lemma TailCell<T>(m: Memory<T>)
    requires CellsOk(m) && HistoryOk(m)
    ensures m.seqs[m.Slot(m.tail)] == m.tail <==> m.tail < m.Cap() || m.tail - m.Cap() in m.popped
    ensures m.seqs[m.Slot(m.tail)] <= m.tail
  {
    var q, n := m.seqs[m.Slot(m.tail)], m.Cap();
    assert CellOk(m, m.Slot(m.tail));
    if q > m.tail {
      SmallestLap(m.tail, q, n);
    }
    if m.tail >= n {
      assert m.Slot(m.tail - n) == m.Slot(m.tail);
    } else {
      SmallSlot(m.tail, n);
      SmallSlot(q, n);
      if q >= 1 {
        SmallSlot(q - 1, n);
      }
    }
  }

  /** A sequence number below a position means that nobody has claimed that position. */
  lemma BelowMeansUnclaimed<T>(m: Memory<T>, pos: nat)
    requires CellsOk(m) && HistoryOk(m) && m.seqs[m.Slot(pos)] < pos
    ensures pos >= m.tail
  {
    var q, n := m.seqs[m.Slot(pos)], m.Cap();
    assert CellOk(m, m.Slot(pos));
    if Free(m, m.Slot(pos), q) {
      SameSlot(q, pos, n);
    } else {
      SameSlot(q - 1, pos, n);
    }
  }

  /**
   TryPush reports false exactly when, at the moment it reads the cell, its position is still the
   next one to claim and the position one lap back has not been released by its consumer.
   */
  lemma PushFullMeans<T>(s: State<T>, t: nat)
    requires Inv(s) && t < |s.threads| && s.threads[t].PushLoadSeq?
    ensures Do(s, Advance(t)).threads[t].PushFull? <==>
      s.threads[t].pos == s.m.tail && s.m.tail >= s.m.Cap() && s.m.tail - s.m.Cap() !in s.m.popped
  {
    assert ThreadOk(s.m, s.threads[t]);
    TailCell(s.m);
    if s.m.seqs[s.m.Slot(s.threads[t].pos)] < s.threads[t].pos {
      BelowMeansUnclaimed(s.m, s.threads[t].pos);
    }
  }

  /** The value a call of TryPush was asked to push, from its first step to its answer. */
  function Pushing<T>(pc: Pc<T>): Option<T> {
    match pc
    case PushLoadTail(v) => Some(v)
    case PushLoadSeq(v, _) => Some(v)
    case PushClaim(v, _) => Some(v)
    case PushWrite(v, _) => Some(v)
    case PushPublish(v, _) => Some(v)
    case PushOk(v, _) => Some(v)
    case PushFull(v) => Some(v)
    case _ => None
  }

  predicate Answered<T>(pc: Pc<T>) { pc.Idle? || pc.PushOk? || pc.PushFull? || pc.PopOk? || pc.PopEmpty? }

  /**
   A call goes on until it answers, a push with the value it was asked to push: losing a
   compare-and-swap ends none.
   */
  lemma CallGoesOn<T>(s: State<T>, t: nat)
    requires Inv(s) && t < |s.threads| && !Answered(s.threads[t])
    ensures var r := Do(s, Advance(t)).threads[t];
      !r.Idle? && r != s.threads[t] && Pushing(r) == Pushing(s.threads[t])
  {
  }

  /**
   TryPush reports true exactly in the step that publishes a position, one that nobody published before and
   that holds the value it was asked to push.
   */
  lemma TrueMeansPushed<T>(s: State<T>, t: nat)
    requires Inv(s) && t < |s.threads|
    ensures var r := Do(s, Advance(t));
      if r.threads[t].PushOk? then
        var v, p := r.threads[t].v, r.threads[t].pos;
        Pushing(s.threads[t]) == Some(v) && p !in s.m.published && r.m.published == s.m.published + {p} &&
        p < |r.m.pushed| && r.m.pushed[p] == v
      else r.m.published == s.m.published
  {
    assert ThreadOk(s.m, s.threads[t]);
  }

  /** It reports false only at a moment when the position one lap back from the tail is not released. */
  lemma FalseMeansFull<T>(s: State<T>, t: nat)
    requires Inv(s) && t < |s.threads| && Do(s, Advance(t)).threads[t].PushFull?
    ensures s.m.tail >= s.m.Cap() && s.m.tail - s.m.Cap() !in s.m.popped && Do(s, Advance(t)).m == s.m
  {
    PushFullMeans(s, t);
  }

  lemma HeadCell<T>(m: Memory<T>, pos: nat)
    requires CellsOk(m) && HistoryOk(m) && pos <= m.head
    ensures m.seqs[m.Slot(pos)] < pos + 1 <==> pos == m.head && pos !in m.published
  {
    var q, n := m.seqs[m.Slot(pos)], m.Cap();
    assert CellOk(m, m.Slot(pos));
    if q <= pos && pos < m.head {
      if !Free(m, m.Slot(pos), q) {
        SameSlot(q - 1, pos, n);
      }
    }
  }

  /**
   TryPop reports false exactly when, at the moment it reads the cell, its position is still the
   head and the producer of the head position has not published it.
   */
  lemma PopEmptyMeans<T>(s: State<T>, t: nat)
    requires Inv(s) && t < |s.threads| && s.threads[t].PopLoadSeq?
    ensures Do(s, Advance(t)).threads[t].PopEmpty? <==>
      s.threads[t].pos == s.m.head && s.m.head !in s.m.published
  {
    assert ThreadOk(s.m, s.threads[t]);
    HeadCell(s.m, s.threads[t].pos);
  }

  /**
   TryPop reports a value exactly in the step that hands out a position, one that was published and that
   nobody handed out before, with the value pushed there.
   */
  lemma ValueMeansPopped<T>(s: State<T>, t: nat)
    requires Inv(s) && t < |s.threads|
    ensures var r := Do(s, Advance(t));
      if r.threads[t].PopOk? then
        var v, p := r.threads[t].v, r.threads[t].pos;
        p in s.m.published && p !in s.m.popped && r.m.popped == s.m.popped[p := v] &&
        p < |s.m.pushed| && v == s.m.pushed[p]
      else r.m.popped == s.m.popped
  {
    assert ThreadOk(s.m, s.threads[t]);
    if s.threads[t].PopRelease? {
      assert s.m.seqs[s.m.Slot(s.threads[t].pos)] < s.threads[t].pos + s.m.Cap();
    }
  }

  /** It reports none only at a moment when the position at the head is not published. */
  lemma NoneMeansEmpty<T>(s: State<T>, t: nat)
    requires Inv(s) && t < |s.threads| && Do(s, Advance(t)).threads[t].PopEmpty?
    ensures s.m.head !in s.m.published && Do(s, Advance(t)).m == s.m
  {
    PopEmptyMeans(s, t);
  }

  /** pc is about to read or write the value of a cell, which is not an atomic access. */
  predicate TouchesValue<T>(pc: Pc<T>) { pc.PushWrite? || pc.PopRead? || pc.PopClear? }

  /** Two goroutines never touch the value of the same cell at once: there is no data race. */
  lemma NoDataRace<T>(s: State<T>, t: nat, u: nat)
    requires Inv(s) && t < u < |s.threads| && TouchesValue(s.threads[t]) && TouchesValue(s.threads[u])
    ensures s.m.Slot(s.threads[t].pos) != s.m.Slot(s.threads[u].pos)
  {
    assert ThreadOk(s.m, s.threads[t]) && ThreadOk(s.m, s.threads[u]) && Compatible(s.threads[t], s.threads[u]);
    Elsewhere(s.m, s.threads[t], s.threads[u]);
  }

  // ----- With nothing in flight the ring is a bounded FIFO -----

  ghost predicate Quiet<T>(s: State<T>) {
    forall t :: 0 <= t < |s.threads| ==> s.threads[t].Idle?
  }

  /** Goroutine t alone takes k steps. */
  function Alone<T>(s: State<T>, t: nat, k: nat): (r: State<T>)
    requires s.m.Shaped()
    ensures r.m.Shaped() && |r.threads| == |s.threads|
    decreases k
  {
    if k == 0 then s else Alone(Do(s, Advance(t)), t, k - 1)
  }

  lemma QuietMeansFinished<T>(s: State<T>)
    requires Inv(s) && Quiet(s)
    ensures Finished(s.m)
  {
  }

  /** The same on the memory and the goroutine's own program counter. */
  function AloneStep<T>(m: Memory<T>, pc: Pc<T>, k: nat): (r: (Memory<T>, Pc<T>))
    requires m.Shaped()
    ensures r.0.Shaped()
    decreases k
  {
    if k == 0 then (m, pc) else AloneStep(Step(m, pc).0, Step(m, pc).1, k - 1)
  }

  lemma {:induction false} AloneIs<T>(s: State<T>, t: nat, k: nat)
    requires s.m.Shaped() && t < |s.threads|
    ensures var (m, pc) := AloneStep(s.m, s.threads[t], k);
      Alone(s, t, k) == State(m, s.threads[t := pc])
    decreases k
  {
    if k > 0 {
      AloneIs(Do(s, Advance(t)), t, k - 1);
    }
  }

  lemma {:induction false} AloneSplit<T>(m: Memory<T>, pc: Pc<T>, a: nat, b: nat)
    requires m.Shaped()
    ensures var (r, q) := AloneStep(m, pc, a);
      AloneStep(m, pc, a + b) == AloneStep(r, q, b)
    decreases a
  {
    if a > 0 {
      AloneSplit(Step(m, pc).0, Step(m, pc).1, a - 1, b);
    }
  }

  lemma ClaimPushAlone<T>(m: Memory<T>, v: T)
    requires m.Shaped() && m.seqs[m.Slot(m.tail)] == m.tail
    ensures AloneStep(m, PushLoadTail(v), 3) ==
            (m.(tail := m.tail + 1, pushed := m.pushed + [v]), PushWrite(v, m.tail))
  {
    assert AloneStep(m, PushLoadTail(v), 3) == AloneStep(m, PushLoadSeq(v, m.tail), 2);
    assert AloneStep(m, PushLoadSeq(v, m.tail), 2) == AloneStep(m, PushClaim(v, m.tail), 1);
    assert AloneStep(m, PushClaim(v, m.tail), 1) == Step(m, PushClaim(v, m.tail));
  }

  lemma GiveAlone<T>(m: Memory<T>, v: T, p: nat)
    requires m.Shaped()
    ensures var (r, pc) := AloneStep(m, PushWrite(v, p), 2);
      pc == PushOk(v, p) && r.head == m.head && r.tail == m.tail && r.pushed == m.pushed
  {
    var m4 := Step(m, PushWrite(v, p)).0;
    assert AloneStep(m, PushWrite(v, p), 2) == AloneStep(m4, PushPublish(v, p), 1);
    assert AloneStep(m4, PushPublish(v, p), 1) == Step(m4, PushPublish(v, p));
  }

  lemma ClaimPopAlone<T>(m: Memory<T>)
    requires m.Shaped() && m.seqs[m.Slot(m.head)] == m.head + 1
    ensures AloneStep(m, PopLoadHead, 3) == (m.(head := m.head + 1), PopRead(m.head))
  {
    assert AloneStep(m, PopLoadHead, 3) == AloneStep(m, PopLoadSeq(m.head), 2);
    assert AloneStep(m, PopLoadSeq(m.head), 2) == AloneStep(m, PopClaim(m.head), 1);
    assert AloneStep(m, PopClaim(m.head), 1) == Step(m, PopClaim(m.head));
  }

  lemma TakeAlone<T>(m: Memory<T>, p: nat)
    requires m.Shaped()
    ensures var (r, pc) := AloneStep(m, PopRead(p), 3);
      pc == PopOk(m.vals[m.Slot(p)], p) && r.head == m.head && r.tail == m.tail && r.pushed == m.pushed
  {
    var v := m.vals[m.Slot(p)];
    var m5 := Step(m, PopClear(v, p)).0;
    assert AloneStep(m, PopRead(p), 3) == AloneStep(m, PopClear(v, p), 2);
    assert AloneStep(m, PopClear(v, p), 2) == AloneStep(m5, PopRelease(v, p), 1);
    assert AloneStep(m5, PopRelease(v, p), 1) == Step(m5, PopRelease(v, p));
  }

  /** Nothing is in flight: every claimed position is finished. */
  ghost predicate Finished<T>(m: Memory<T>) {
    (forall p: nat :: p < m.tail ==> p in m.published) && (forall p: nat :: p < m.head ==> p in m.popped)
  }

  /** The head position is not released while it is the head. */
  lemma HeadNotReleased<T>(m: Memory<T>)
    requires CellsOk(m) && HistoryOk(m)
    ensures m.head !in m.popped
  {
    assert CellOk(m, m.Slot(m.head));
    assert m.Slot(m.head + m.Cap()) == m.Slot(m.head);
    NextSlot(m.head + m.Cap() - 1, m.Cap());
  }

  lemma HeadIsFilled<T>(m: Memory<T>)
    requires CellsOk(m) && HistoryOk(m) && m.head < m.tail && m.head in m.published
    ensures m.seqs[m.Slot(m.head)] == m.head + 1 && m.vals[m.Slot(m.head)] == m.pushed[m.head]
  {
    var q := m.seqs[m.Slot(m.head)];
    assert CellOk(m, m.Slot(m.head));
    if Free(m, m.Slot(m.head), q) {
      SameSlot(m.head, q, m.Cap());
    } else if q > m.head + 1 {
      SameSlot(m.head, q - 1, m.Cap());
    }
  }

  lemma PushSomeAlone<T>(m: Memory<T>, v: T)
    requires CellsOk(m) && HistoryOk(m) && Finished(m) && m.tail - m.head < m.Cap()
    ensures var (r, pc) := AloneStep(m, PushLoadTail(v), 5);
      pc == PushOk(v, m.tail) && r.head == m.head && r.tail == m.tail + 1 && r.pushed == m.pushed + [v]
  {
    TailCell(m);
    ClaimPushAlone(m, v);
    GiveAlone(m.(tail := m.tail + 1, pushed := m.pushed + [v]), v, m.tail);
    AloneSplit(m, PushLoadTail(v), 3, 2);
  }

  lemma PushNoneAlone<T>(m: Memory<T>, v: T)
    requires CellsOk(m) && HistoryOk(m) && m.tail - m.head == m.Cap()
    ensures AloneStep(m, PushLoadTail(v), 2) == (m, PushFull(v))
  {
    TailCell(m);
    HeadNotReleased(m);
    assert AloneStep(m, PushLoadTail(v), 2) == AloneStep(m, PushLoadSeq(v, m.tail), 1);
    assert AloneStep(m, PushLoadSeq(v, m.tail), 1) == Step(m, PushLoadSeq(v, m.tail));
  }

  lemma PushAlone<T>(m: Memory<T>, v: T)
    requires CellsOk(m) && HistoryOk(m) && Finished(m)
    ensures var c := m.Contents();
      var (r, pc) := AloneStep(m, PushLoadTail(v), if |c| < m.Cap() then 5 else 2);
      pc == (if |c| < m.Cap() then PushOk(v, m.tail) else PushFull(v)) && r.head <= r.tail == |r.pushed| &&
      r.Contents() == (if |c| < m.Cap() then c + [v] else c)
  {
    if |m.Contents()| < m.Cap() {
      PushSomeAlone(m, v);
      assert (m.pushed + [v])[m.head..m.tail + 1] == m.Contents() + [v];
    } else {
      PushNoneAlone(m, v);
    }
  }

  lemma PopSomeAlone<T>(m: Memory<T>)
    requires CellsOk(m) && HistoryOk(m) && Finished(m) && m.head < m.tail
    ensures var (r, pc) := AloneStep(m, PopLoadHead, 6);
      pc == PopOk(m.pushed[m.head], m.head) && r.head == m.head + 1 && r.tail == m.tail && r.pushed == m.pushed
  {
    HeadIsFilled(m);
    ClaimPopAlone(m);
    TakeAlone(m.(head := m.head + 1), m.head);
    AloneSplit(m, PopLoadHead, 3, 3);
  }

  lemma PopNoneAlone<T>(m: Memory<T>)
    requires CellsOk(m) && HistoryOk(m) && m.head == m.tail
    ensures AloneStep(m, PopLoadHead, 2) == (m, PopEmpty)
  {
    TailCell(m);
    assert AloneStep(m, PopLoadHead, 2) == AloneStep(m, PopLoadSeq(m.head), 1);
    assert AloneStep(m, PopLoadSeq(m.head), 1) == Step(m, PopLoadSeq(m.head));
  }

  lemma PopAlone<T>(m: Memory<T>)
    requires CellsOk(m) && HistoryOk(m) && Finished(m)
    ensures var c := m.Contents();
      var (r, pc) := AloneStep(m, PopLoadHead, if c != [] then 6 else 2);
      pc == (if c != [] then PopOk(c[0], m.head) else PopEmpty) && r.head <= r.tail == |r.pushed| &&
      r.Contents() == (if c != [] then c[1..] else c)
  {
    if m.head < m.tail {
      PopSomeAlone(m);
    } else {
      PopNoneAlone(m);
    }
  }

  /** Alone, TryPush appends unless the ring holds its capacity, and then says so. */
  lemma PushWhenQuiet<T>(s: State<T>, t: nat, v: T)
    requires Inv(s) && Quiet(s) && t < |s.threads|
    ensures var c := s.m.Contents();
      var r := Alone(Do(s, StartPush(t, v)), t, if |c| < s.m.Cap() then 5 else 2);
      r.threads == s.threads[t := if |c| < s.m.Cap() then PushOk(v, s.m.tail) else PushFull(v)] &&
      r.m.head <= r.m.tail == |r.m.pushed| &&
      r.m.Contents() == (if |c| < s.m.Cap() then c + [v] else c)
  {
    QuietMeansFinished(s);
    PushAlone(s.m, v);
    AloneIs(Do(s, StartPush(t, v)), t, if |s.m.Contents()| < s.m.Cap() then 5 else 2);
  }

  /** Alone, TryPop takes the oldest value, or says that there is none. */
  lemma PopWhenQuiet<T>(s: State<T>, t: nat)
    requires Inv(s) && Quiet(s) && t < |s.threads|
    ensures var c := s.m.Contents();
      var r := Alone(Do(s, StartPop(t)), t, if c != [] then 6 else 2);
      r.threads == s.threads[t := if c != [] then PopOk(c[0], s.m.head) else PopEmpty] &&
      r.m.head <= r.m.tail == |r.m.pushed| &&
      r.m.Contents() == (if c != [] then c[1..] else c)
  {
    QuietMeansFinished(s);
    PopAlone(s.m);
    AloneIs(Do(s, StartPop(t)), t, if s.m.Contents() != [] then 6 else 2);
  }

  /** newRing: the size is the least power of two that is at least 2 and the capacity asked for. */
  method NewRing<T>(capacity: nat, zero: T, threads: nat) returns (s: State<T>, ghost k: nat)
    ensures s == Init(Pow2(k), zero, threads) && Inv(s)
    ensures Pow2(k) >= capacity && k >= 1 && (k > 1 ==> Pow2(k - 1) < capacity)
  {
    var n := 2;
    k := 1;
    while n < capacity
      invariant n == Pow2(k) && n >= 2 && k >= 1 && (k > 1 ==> Pow2(k - 1) < capacity)
      decreases capacity - n
    {
      n := 2 * n;
      k := k + 1;
    }
    s := Init(n, zero, threads);
    InitOk(n, zero, threads);
  }
}
