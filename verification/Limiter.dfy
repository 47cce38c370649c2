/**
 The lock-free rate limiter of limit.go: GCRA over one number per limiter, charged with a
 compare-and-swap, and waitAll, which charges several limiters and waits for the slowest. As a
 transition system: one action per clock reading, load, compare-and-swap and timer event, any number
 of calls in flight. The wall clock, which reserve reads, may be set forward or back at any moment; timers
 go by the time that passes. Times are nanoseconds without overflow, the floats of the source are reals.
 */
module Limiter {
  import opened Wrappers

  /**
   perByte: the nanoseconds of one byte, cost: those of so many, rounded down. burstDur: how much may be owed
   with no wait.
   */
  datatype Limit = Limit(rate: real, perByte: real, cost: nat -> nat, burstDur: nat)

  /** cost is the time that n bytes take at the rate, rounded down to a nanosecond. */
  predicate Priced(n: nat, cost: nat, perByte: real) { cost as real <= n as real * perByte < cost as real + 1.0 }

  ghost predicate Proper(l: Limit) {
    l.rate > 0.0 && l.perByte > 0.0 && l.perByte * l.rate == 1000000000.0 &&
    forall n: nat :: Priced(n, l.cost(n), l.perByte)
  }

  /** A twentieth of a second's bytes, but no more than the buffer holds, and no less than 256. */
  function LimitedChunk(bytesPerSec: real, bufferSize: nat): (chunk: nat)
    requires bytesPerSec > 0.0
    ensures chunk >= 256 && (chunk > 256 ==> chunk <= bufferSize && chunk as real * 20.0 <= bytesPerSec)
    ensures chunk < bufferSize ==> (chunk + 1) as real * 20.0 > bytesPerSec
  {
    Max(256, Min((bytesPerSec / 20.0).Floor, bufferSize))
  }

  /** No limit is no limiter. */
  function NewLimiter(bytesPerSec: real, bufferSize: nat): (l: Option<Limit>)
    ensures l.Some? <==> bytesPerSec > 0.0
    ensures l.Some? ==> Proper(l.value) && l.value.rate == bytesPerSec
    ensures l.Some? ==> l.value.burstDur == l.value.cost(LimitedChunk(bytesPerSec, bufferSize))
  {
    if bytesPerSec <= 0.0 then None
    else
      var burst := LimitedChunk(bytesPerSec, bufferSize);
      var perByte := 1000000000.0 / bytesPerSec;
      Some(Limit(bytesPerSec, perByte, (n: nat) => Duration(n, perByte), Duration(burst, perByte)))
  }

  /** int64(float64(n) * perByte) for what is not negative. */
  function Duration(n: nat, perByte: real): (d: nat)
    requires perByte > 0.0
    ensures Priced(n, d, perByte)
  {
    (n as real * perByte).Floor
  }

  /**
   Where a call of waitAll stands. It charges its limiters in order; d is the longest wait so far. now is
   a reading of the wall clock; at and until are in time passed, at being that of the reading (history).
   */
  datatype Phase =
    | Clock
    | Load(now: int, at: nat)
    | Swap(now: int, at: nat, seen: int)
    | Arm
    | Waiting(until: nat)
    | Released(at: nat)
    | Cancelled

  datatype Call = Call(n: nat, limits: seq<nat>, next: nat, d: nat, phase: Phase)

  /** A successful compare-and-swap, in the order they happened (history). */
  datatype Charge = Charge(call: nat, limit: nat, now: int, at: nat, cost: nat, tat: int)

  /** elapsed: the time that passed. ahead: what the wall clock shows beyond that. */
  datatype State = State(
    limits: seq<Limit>, tats: seq<int>, elapsed: nat, ahead: int, calls: seq<Call>, log: seq<Charge>)
  {
    ghost predicate Shaped() {
      |limits| == |tats| &&
      forall c :: 0 <= c < |calls| ==> forall k :: 0 <= k < |calls[c].limits| ==> calls[c].limits[k] < |limits|
    }

    function Wall(): int { elapsed + ahead }

    function With(c: nat, call: Call): State
      requires c < |calls|
    {
      this.(calls := calls[c := call])
    }
  }

  /** Adjust sets the wall clock, in either direction. */
  datatype Action =
    | Tick(dt: nat)
    | Adjust(step: int)
    | Start(n: nat, limits: seq<nat>)
    | Step(c: nat)
    | Cancel(c: nat)

  /** The next step of call c: inside reserve for its next limiter, or of the timer. */
  function Advance(s: State, c: nat): State
    requires s.Shaped() && c < |s.calls|
  {
    var k := s.calls[c];
    match k.phase
    case Clock =>
      s.With(c, k.(phase := if k.next < |k.limits| then Load(s.Wall(), s.elapsed) else Arm))
    case Load(now, at) =>
      if k.next >= |k.limits| then s else s.With(c, k.(phase := Swap(now, at, s.tats[k.limits[k.next]])))
    case Swap(now, at, seen) =>
      if k.next >= |k.limits| then s
      else
        var l := k.limits[k.next];
        if s.tats[l] == seen then
          var cost := s.limits[l].cost(k.n);
          var tat := Max(seen, now) + cost;
          var wait := Max(0, tat - now - s.limits[l].burstDur);
          s.With(c, k.(phase := Clock, next := k.next + 1, d := Max(k.d, wait)))
           .(tats := s.tats[l := tat], log := s.log + [Charge(c, l, now, at, cost, tat)])
        else s.With(c, k.(phase := Clock))
    case Arm => s.With(c, k.(phase := if k.d <= 0 then Released(s.elapsed) else Waiting(s.elapsed + k.d)))
    case Waiting(until) => if s.elapsed >= until then s.With(c, k.(phase := Released(s.elapsed))) else s
    case _ => s
  }

  function Do(s: State, a: Action): State
    requires s.Shaped()
  {
    match a
    case Tick(dt) => s.(elapsed := s.elapsed + dt)
    case Adjust(step) => s.(ahead := s.ahead + step)
    case Start(n, limits) =>
      if forall k :: 0 <= k < |limits| ==> limits[k] < |s.limits| then
        s.(calls := s.calls + [Call(n, limits, 0, 0, Clock)])
      else s
    case Step(c) => if c < |s.calls| then Advance(s, c) else s
    case Cancel(c) =>
      if c < |s.calls| && s.calls[c].phase.Waiting? then s.With(c, s.calls[c].(phase := Cancelled)) else s
  }

  lemma DoKeepsShape(s: State, a: Action)
    requires s.Shaped()
    ensures Do(s, a).Shaped() && Do(s, a).limits == s.limits
  {
  }

  function Execute(s: State, actions: seq<Action>): (r: State)
    requires s.Shaped()
    ensures r.Shaped() && r.limits == s.limits
    decreases |actions|
  {
    if actions == [] then s
    else
      DoKeepsShape(s, actions[0]);
      Execute(Do(s, actions[0]), actions[1..])
  }

  /** The limiters of some rates. */
  function NewLimits(rates: seq<real>, bufferSize: nat): (limits: seq<Limit>)
    requires forall i :: 0 <= i < |rates| ==> rates[i] > 0.0
    ensures |limits| == |rates|
    ensures forall i :: 0 <= i < |rates| ==>
      Proper(limits[i]) && limits[i].rate == rates[i] &&
      limits[i].burstDur == limits[i].cost(LimitedChunk(rates[i], bufferSize))
  {
    seq(|rates|, i requires 0 <= i < |rates| => NewLimiter(rates[i], bufferSize).value)
  }

  // ----- The invariant -----

  ghost predicate PhaseOk(s: State, k: Call) {
    match k.phase
    case Load(_, at) => at <= s.elapsed
    case Swap(_, at, _) => at <= s.elapsed
    case _ => true
  }

  ghost predicate ChargeOk(s: State, i: nat)
    requires s.Shaped() && i < |s.log|
  {
    var e := s.log[i];
    e.call < |s.calls| && e.limit < |s.limits| && e.at <= s.elapsed &&
    e.cost == s.limits[e.limit].cost(s.calls[e.call].n) &&
    e.tat >= e.now + e.cost && s.tats[e.limit] >= e.tat && PaidFor(s, e, s.calls[e.call])
  }

  /** A call asks to wait until what it charged is within the burst, and waits that long after the charge. */
  ghost predicate PaidFor(s: State, e: Charge, k: Call)
    requires s.Shaped() && e.limit < |s.limits|
  {
    k.d >= e.tat - e.now - s.limits[e.limit].burstDur &&
    (k.phase.Waiting? ==> k.phase.until >= e.at + k.d) && (k.phase.Released? ==> k.phase.at >= e.at + k.d)
  }

  ghost predicate Inv(s: State) {
    s.Shaped() &&
    (forall c :: 0 <= c < |s.calls| ==> PhaseOk(s, s.calls[c])) &&
    (forall i: nat :: i < |s.log| ==> ChargeOk(s, i)) &&
    (forall i: nat, j: nat :: i < j < |s.log| && s.log[i].limit == s.log[j].limit ==>
      s.log[j].tat >= s.log[i].tat + s.log[j].cost)
  }

  /** Steps that charge nothing leave the numbers alone. */
  lemma QuietKeepsInv(s: State, c: nat, k: Call)
    requires Inv(s) && c < |s.calls| && k.n == s.calls[c].n && k.limits == s.calls[c].limits && PhaseOk(s, k)
    requires forall i: nat :: i < |s.log| && s.log[i].call == c && ChargeOk(s, i) ==> PaidFor(s, s.log[i], k)
    ensures Inv(s.With(c, k))
  {
    var r := s.With(c, k);
    forall i: nat | i < |r.log| ensures ChargeOk(r, i) {
      assert ChargeOk(s, i);
    }
  }

  /** A successful compare-and-swap: the new charge is the last of its limiter. */
  lemma ChargeKeepsInv(s: State, c: nat)
    requires Inv(s) && c < |s.calls| && s.calls[c].phase.Swap? && s.calls[c].next < |s.calls[c].limits|
    requires s.tats[s.calls[c].limits[s.calls[c].next]] == s.calls[c].phase.seen
    ensures Inv(Advance(s, c))
  {
    var r := Advance(s, c);
    DoKeepsShape(s, Step(c));
    assert PhaseOk(s, s.calls[c]);
    forall i: nat | i < |r.log| ensures ChargeOk(r, i) {
      assert i < |s.log| ==> ChargeOk(s, i);
    }
    forall i: nat, j: nat | i < j < |r.log| && r.log[i].limit == r.log[j].limit
      ensures r.log[j].tat >= r.log[i].tat + r.log[j].cost
    {
      assert ChargeOk(s, i);
    }
  }

  lemma AdvanceKeepsInv(s: State, c: nat)
    requires Inv(s) && c < |s.calls|
    ensures Inv(Advance(s, c))
  {
    var k := s.calls[c];
    if k.phase.Swap? && k.next < |k.limits| && s.tats[k.limits[k.next]] == k.phase.seen {
      ChargeKeepsInv(s, c);
    } else if Advance(s, c) != s {
      assert PhaseOk(s, k);
      QuietKeepsInv(s, c, Advance(s, c).calls[c]);
    }
  }

  lemma DoKeepsInv(s: State, a: Action)
    requires Inv(s)
    ensures Inv(Do(s, a))
  {
    var r := Do(s, a);
    DoKeepsShape(s, a);
    match a {
      case Step(c) =>
        if c < |s.calls| {
          AdvanceKeepsInv(s, c);
        }
      case Cancel(c) =>
        if r != s {
          QuietKeepsInv(s, c, r.calls[c]);
        }
      case _ =>
        forall i: nat | i < |r.log| ensures ChargeOk(r, i) {
          assert ChargeOk(s, i);
        }
    }
  }

  lemma {:induction false} EveryRun(s: State, actions: seq<Action>)
    requires Inv(s)
    ensures Inv(Execute(s, actions)) && Execute(s, actions).limits == s.limits
    decreases |actions|
  {
    if actions != [] {
      DoKeepsInv(s, actions[0]);
      DoKeepsShape(s, actions[0]);
      EveryRun(Do(s, actions[0]), actions[1..]);
    }
  }

  // ----- The window bound -----

  /**
   Charge i is on limit l, read the clock at or after from, and its call may go on by to: that reading
   plus the wait the call was told.
   */
  predicate Counts(s: State, l: nat, from: int, to: int, i: nat) {
    i < |s.log| && s.log[i].limit == l && s.log[i].now >= from && s.log[i].call < |s.calls| &&
    s.log[i].now + s.calls[s.log[i].call].d <= to
  }

  /** Which charges to add up. */
  type Pick = nat -> bool

  function Charged(s: State, l: nat, from: int, to: int): Pick { (i: nat) => Counts(s, l, from, to, i) }

  /** What was charged for how many bytes. */
  datatype Item = Item(bytes: nat, cost: nat)

  /** Those of the first k charges that are picked, in order. */
  function Window(s: State, pick: Pick, k: nat): seq<Item>
    requires k <= |s.log|
  {
    if k == 0 then []
    else
      var e := s.log[k - 1];
      if pick(k - 1) && e.call < |s.calls| then Window(s, pick, k - 1) + [Item(s.calls[e.call].n, e.cost)]
      else Window(s, pick, k - 1)
  }

  function Cost(items: seq<Item>): nat {
    if items == [] then 0 else Cost(items[..|items| - 1]) + items[|items| - 1].cost
  }

  function Bytes(items: seq<Item>): nat {
    if items == [] then 0 else Bytes(items[..|items| - 1]) + items[|items| - 1].bytes
  }

  /** The charges picked of the first k are of limit l, from `from` on, and spend it until x at most. */
  ghost predicate Within(s: State, pick: Pick, l: nat, from: int, k: nat, x: int) {
    forall i: nat :: i < k && pick(i) ==>
      i < |s.log| && s.log[i].limit == l && s.log[i].now >= from && s.log[i].tat <= x
  }

  lemma CostSnoc(w: seq<Item>, item: Item)
    ensures Cost(w + [item]) == Cost(w) + item.cost
  {
    assert (w + [item])[..|w|] == w;
  }

  /** Of one limiter, each charge begins after its reading and where earlier ones end, or later. */
  ghost predicate Spaced(log: seq<Charge>) {
    (forall i :: 0 <= i < |log| ==> log[i].tat >= log[i].now + log[i].cost) &&
    forall i, j :: 0 <= i < j < |log| && log[i].limit == log[j].limit ==> log[j].tat >= log[i].tat + log[j].cost
  }

  lemma AllSpaced(s: State)
    requires Inv(s)
    ensures Spaced(s.log)
  {
    forall i | 0 <= i < |s.log| ensures s.log[i].tat >= s.log[i].now + s.log[i].cost {
      assert ChargeOk(s, i);
    }
  }

  lemma {:induction false} CostBelow(s: State, pick: Pick, l: nat, from: int, k: nat, x: int)
    requires Spaced(s.log) && k <= |s.log| && from <= x && Within(s, pick, l, from, k, x)
    ensures Cost(Window(s, pick, k)) <= x - from
    decreases k
  {
    if k > 0 {
      var e := s.log[k - 1];
      if pick(k - 1) {
        CostBelow(s, pick, l, from, k - 1, e.tat - e.cost);
        if e.call < |s.calls| {
          CostSnoc(Window(s, pick, k - 1), Item(s.calls[e.call].n, e.cost));
        }
      } else {
        CostBelow(s, pick, l, from, k - 1, x);
      }
    }
  }

  /** Any pick of charges that count costs at most (to - from) + burstDur in all. */
  lemma PickBound(s: State, pick: Pick, l: nat, from: int, to: int)
    requires Inv(s) && l < |s.limits| && from <= to
    requires forall i: nat :: i < |s.log| && pick(i) ==> Counts(s, l, from, to, i)
    ensures Cost(Window(s, pick, |s.log|)) <= (to - from) + s.limits[l].burstDur
  {
    forall i: nat | i < |s.log| && pick(i) ensures s.log[i].tat <= to + s.limits[l].burstDur {
      assert ChargeOk(s, i);
    }
    AllSpaced(s);
    CostBelow(s, pick, l, from, |s.log|, to + s.limits[l].burstDur);
  }

  /**
   In every state of every run (EveryRun), whatever the wall clock did, for each limiter: what was charged
   at or after from, by calls that may go on by to, costs at most (to - from) + burstDur in all. waitAll
   waits for the slowest of its limiters, so this holds for every one of them at once.
   */
  lemma WindowBound(s: State, l: nat, from: int, to: int)
    requires Inv(s) && l < |s.limits| && from <= to
    ensures Cost(Window(s, Charged(s, l, from, to), |s.log|)) <= (to - from) + s.limits[l].burstDur
  {
    PickBound(s, Charged(s, l, from, to), l, from, to);
  }

  /** No call is let go early: not before the wait it was told has passed since any of its charges. */
  lemma NeverEarly(s: State, i: nat)
    requires Inv(s) && i < |s.log|
    ensures s.log[i].call < |s.calls|
    ensures var k := s.calls[s.log[i].call];
      k.phase.Released? ==> k.phase.at >= s.log[i].at + k.d
  {
    assert ChargeOk(s, i);
  }

  /** New limiters, charged in any way before, and no call in flight. */
  function Fresh(rates: seq<real>, bufferSize: nat, tats: seq<int>, elapsed: nat, ahead: int): (s: State)
    requires (forall i :: 0 <= i < |rates| ==> rates[i] > 0.0) && |rates| == |tats|
    ensures Inv(s) && |s.limits| == |rates| && s.log == [] && s.calls == []
    ensures forall i :: 0 <= i < |rates| ==> Proper(s.limits[i]) && s.limits[i].rate == rates[i]
  {
    State(NewLimits(rates, bufferSize), tats, elapsed, ahead, [], [])
  }

  /** The same, over any run from such limiters. */
  lemma WindowBoundInEveryRun(
      rates: seq<real>, bufferSize: nat, tats: seq<int>, elapsed: nat, ahead: int, actions: seq<Action>,
      l: nat, from: int, to: int)
    requires (forall i :: 0 <= i < |rates| ==> rates[i] > 0.0) && |rates| == |tats| && l < |rates| && from <= to
    ensures var s := Execute(Fresh(rates, bufferSize, tats, elapsed, ahead), actions);
      Cost(Window(s, Charged(s, l, from, to), |s.log|)) <= (to - from) + s.limits[l].burstDur
  {
    var start := Fresh(rates, bufferSize, tats, elapsed, ahead);
    EveryRun(start, actions);
    WindowBound(Execute(start, actions), l, from, to);
  }

  // ----- While nobody sets the wall clock -----

  /** Every reading was what the wall clock says of that moment now. */
  ghost predicate Steady(s: State) {
    (forall i :: 0 <= i < |s.log| ==> s.log[i].now == s.log[i].at + s.ahead) &&
    forall c :: 0 <= c < |s.calls| ==> ReadSteadily(s.calls[c].phase, s.ahead)
  }

  ghost predicate ReadSteadily(p: Phase, ahead: int) {
    match p
    case Load(now, at) => now == at + ahead
    case Swap(now, at, _) => now == at + ahead
    case _ => true
  }

  lemma DoKeepsSteady(s: State, a: Action)
    requires s.Shaped() && Steady(s) && !a.Adjust?
    ensures Steady(Do(s, a)) && Do(s, a).ahead == s.ahead
  {
    var r := Do(s, a);
    forall c | 0 <= c < |r.calls| ensures ReadSteadily(r.calls[c].phase, r.ahead) {
      assert c < |s.calls| ==> ReadSteadily(s.calls[c].phase, s.ahead);
    }
  }

  lemma {:induction false} EverySteadyRun(s: State, actions: seq<Action>)
    requires s.Shaped() && Steady(s) && forall i :: 0 <= i < |actions| ==> !actions[i].Adjust?
    ensures Steady(Execute(s, actions))
    decreases |actions|
  {
    if actions != [] {
      DoKeepsSteady(s, actions[0]);
      DoKeepsShape(s, actions[0]);
      EverySteadyRun(Do(s, actions[0]), actions[1..]);
    }
  }

  /** Charge i is on limit l, at or after from, and its call was let go by to on the wall clock. */
  predicate LetGo(s: State, l: nat, from: int, to: int, i: nat) {
    i < |s.log| && s.log[i].limit == l && s.log[i].now >= from && s.log[i].call < |s.calls| &&
    s.calls[s.log[i].call].phase.Released? && s.calls[s.log[i].call].phase.at + s.ahead <= to
  }

  function GoneBy(s: State, l: nat, from: int, to: int): Pick { (i: nat) => LetGo(s, l, from, to, i) }

  lemma SteadyWindow(s: State, l: nat, from: int, to: int)
    requires Inv(s) && Steady(s) && l < |s.limits| && from <= to
    ensures Cost(Window(s, GoneBy(s, l, from, to), |s.log|)) <= (to - from) + s.limits[l].burstDur
  {
    forall i: nat | i < |s.log| && LetGo(s, l, from, to, i) ensures Counts(s, l, from, to, i) {
      NeverEarly(s, i);
    }
    PickBound(s, GoneBy(s, l, from, to), l, from, to);
  }

  /** In a run in which nobody sets the wall clock the bound holds for the calls let go in the window. */
  lemma SteadyWindowBound(
      rates: seq<real>, bufferSize: nat, tats: seq<int>, elapsed: nat, ahead: int, actions: seq<Action>,
      l: nat, from: int, to: int)
    requires (forall i :: 0 <= i < |rates| ==> rates[i] > 0.0) && |rates| == |tats| && l < |rates| && from <= to
    requires forall i :: 0 <= i < |actions| ==> !actions[i].Adjust?
    ensures var s := Execute(Fresh(rates, bufferSize, tats, elapsed, ahead), actions);
      Cost(Window(s, GoneBy(s, l, from, to), |s.log|)) <= (to - from) + s.limits[l].burstDur
  {
    var start := Fresh(rates, bufferSize, tats, elapsed, ahead);
    EveryRun(start, actions);
    EverySteadyRun(start, actions);
    SteadyWindow(Execute(start, actions), l, from, to);
  }

  // ----- In bytes -----

  /** The cost of an item is that of its bytes. */
  predicate Rounded(i: Item, perByte: real) { Priced(i.bytes, i.cost, perByte) }

  lemma {:induction false} WindowCosts(s: State, pick: Pick, l: nat, k: nat)
    requires Inv(s) && l < |s.limits| && k <= |s.log|
    requires forall i: nat :: i < k && pick(i) ==> s.log[i].limit == l
    ensures forall i :: i in Window(s, pick, k) ==> i.cost == s.limits[l].cost(i.bytes)
    decreases k
  {
    if k > 0 {
      WindowCosts(s, pick, l, k - 1);
      assert ChargeOk(s, k - 1);
    }
  }

  lemma {:induction false} BytesCost(items: seq<Item>, perByte: real)
    requires forall i :: i in items ==> Rounded(i, perByte)
    ensures Bytes(items) as real * perByte <= Cost(items) as real + |items| as real
    decreases |items|
  {
    if items != [] {
      var front, last := items[..|items| - 1], items[|items| - 1];
      BytesCost(front, perByte);
      assert Rounded(last, perByte);
      OneMore(Bytes(front), last.bytes, perByte, last.cost, Cost(front) as real + |front| as real);
    }
  }

  /** One more charge of n bytes. */
  lemma OneMore(b: nat, n: nat, perByte: real, cost: nat, charged: real)
    requires b as real * perByte <= charged && n as real * perByte <= cost as real + 1.0
    ensures (b + n) as real * perByte <= charged + cost as real + 1.0
  {
    assert (b + n) as real * perByte == b as real * perByte + n as real * perByte;
  }

  /** Priced as the limit does, items are rounded down. */
  lemma AllRounded(items: seq<Item>, l: Limit)
    requires Proper(l) && forall i :: i in items ==> i.cost == l.cost(i.bytes)
    ensures forall i :: i in items ==> Rounded(i, l.perByte)
  {
    forall i | i in items ensures Rounded(i, l.perByte) {
      assert Priced(i.bytes, l.cost(i.bytes), l.perByte);
    }
  }

  /** So many bytes are what the rate lets through in x nanoseconds, at most. */
  predicate AtTheRate(bytes: nat, rate: real, x: int) { bytes as real * 1000000000.0 <= rate * x as real }

  lemma WithinTheRate(items: seq<Item>, perByte: real, rate: real, x: int)
    requires rate > 0.0 && perByte * rate == 1000000000.0
    requires (forall i :: i in items ==> Rounded(i, perByte)) && Cost(items) <= x
    ensures AtTheRate(Bytes(items), rate, x + |items|)
  {
    BytesCost(items, perByte);
    AtMost(Bytes(items) as real * perByte, Cost(items), |items|, x);
    Scale(Bytes(items) as real, perByte, rate, (x + |items|) as real);
  }

  /** What counts for a window, as a list of charges: rounded down, and together within the bound. */
  lemma WindowItems(s: State, l: nat, from: int, to: int)
    requires Inv(s) && l < |s.limits| && from <= to
    ensures var w := Window(s, Charged(s, l, from, to), |s.log|);
      Cost(w) <= (to - from) + s.limits[l].burstDur && forall i :: i in w ==> i.cost == s.limits[l].cost(i.bytes)
  {
    WindowBound(s, l, from, to);
    WindowCosts(s, Charged(s, l, from, to), l, |s.log|);
  }

  lemma WindowBytes(s: State, l: nat, from: int, to: int)
    requires Inv(s) && l < |s.limits| && from <= to && Proper(s.limits[l])
    ensures var w := Window(s, Charged(s, l, from, to), |s.log|);
      AtTheRate(Bytes(w), s.limits[l].rate, (to - from) + s.limits[l].burstDur + |w|)
  {
    WindowItems(s, l, from, to);
    ItemsBound(Window(s, Charged(s, l, from, to), |s.log|), s.limits[l], (to - from) + s.limits[l].burstDur);
  }

  /**
   In bytes: in every run, what counts for a window amounts to at most the rate times the window and the
   burst, plus less than a nanosecond for each charge that was rounded down.
   */
  lemma BytesBound(
      rates: seq<real>, bufferSize: nat, tats: seq<int>, elapsed: nat, ahead: int, actions: seq<Action>,
      l: nat, from: int, to: int)
    requires (forall i :: 0 <= i < |rates| ==> rates[i] > 0.0) && |rates| == |tats| && l < |rates| && from <= to
    ensures var s := Execute(Fresh(rates, bufferSize, tats, elapsed, ahead), actions);
      var w := Window(s, Charged(s, l, from, to), |s.log|);
      AtTheRate(Bytes(w), rates[l], (to - from) + s.limits[l].burstDur + |w|)
  {
    var start := Fresh(rates, bufferSize, tats, elapsed, ahead);
    EveryRun(start, actions);
    WindowBytes(Execute(start, actions), l, from, to);
  }

  lemma ItemsBound(items: seq<Item>, l: Limit, x: int)
    requires Proper(l) && (forall i :: i in items ==> i.cost == l.cost(i.bytes)) && Cost(items) <= x
    ensures AtTheRate(Bytes(items), l.rate, x + |items|)
  {
    AllRounded(items, l);
    WithinTheRate(items, l.perByte, l.rate, x);
  }

  lemma AtMost(spent: real, cost: int, n: int, x: int)
    requires spent <= cost as real + n as real && cost <= x
    ensures spent <= (x + n) as real
  {
  }

  /** Bytes that take at most x nanoseconds at perByte are at most rate times x/10^9. */
  lemma Scale(b: real, perByte: real, rate: real, x: real)
    requires rate > 0.0 && perByte * rate == 1000000000.0 && b * perByte <= x
    ensures b * 1000000000.0 <= rate * x
  {
    assert b * 1000000000.0 == (b * perByte) * rate;
  }

  // ----- Nobody waits for more -----

  /** The limiter's number when so many charges had been made in all, from what it was at first. */
  function TatAt(log: seq<Charge>, l: nat, k: nat, first: int): int
    requires k <= |log|
  {
    if k == 0 then first else if log[k - 1].limit == l then log[k - 1].tat else TatAt(log, l, k - 1, first)
  }

  /** Which limiters call c had charged by then, in order. */
  function ChargedBy(log: seq<Charge>, c: nat, k: nat): seq<nat>
    requires k <= |log|
  {
    if k == 0 then [] else ChargedBy(log, c, k - 1) + if log[k - 1].call == c then [log[k - 1].limit] else []
  }

  /** By how much a charge exceeds the burst at its reading of the clock. */
  function Excess(limits: seq<Limit>, e: Charge): int {
    if e.limit < |limits| then e.tat - e.now - limits[e.limit].burstDur else 0
  }

  /** The greatest excess among the charges of call c by then, if any exceeds the burst. */
  function Longest(limits: seq<Limit>, log: seq<Charge>, c: nat, k: nat): (d: nat)
    requires k <= |log|
  {
    if k == 0 then 0
    else
      var d := Longest(limits, log, c, k - 1);
      if log[k - 1].call == c then Max(d, Excess(limits, log[k - 1])) else d
  }

  /** Each charge goes on where the limiter was, or from its reading of the clock if that is later. */
  ghost predicate EntryExact(s: State, first: seq<int>, i: nat)
    requires i < |s.log|
  {
    var e := s.log[i];
    e.limit < |s.limits| && e.limit < |first| && e.call < |s.calls| &&
    e.cost == s.limits[e.limit].cost(s.calls[e.call].n) &&
    e.tat == Max(TatAt(s.log, e.limit, i, first[e.limit]), e.now) + e.cost
  }

  /** A call has charged its limiters in order, each once, and waits for the worst of its charges. */
  ghost predicate CallExact(s: State, c: nat)
    requires c < |s.calls|
  {
    var k := s.calls[c];
    k.next <= |k.limits| && ChargedBy(s.log, c, |s.log|) == k.limits[..k.next] &&
    k.d == Longest(s.limits, s.log, c, |s.log|) &&
    (k.phase.Clock? || (if k.phase.Load? || k.phase.Swap? then k.next < |k.limits| else k.next == |k.limits|))
  }

  ghost predicate Exact(s: State, first: seq<int>) {
    s.Shaped() && |first| == |s.limits| &&
    (forall i :: 0 <= i < |s.log| ==> EntryExact(s, first, i)) &&
    (forall l :: 0 <= l < |s.tats| ==> s.tats[l] == TatAt(s.log, l, |s.log|, first[l])) &&
    forall c :: 0 <= c < |s.calls| ==> CallExact(s, c)
  }

  lemma {:induction false} TatOfMore(log: seq<Charge>, e: Charge, l: nat, k: nat, first: int)
    requires k <= |log|
    ensures TatAt(log + [e], l, k, first) == TatAt(log, l, k, first)
    decreases k
  {
    if k > 0 {
      TatOfMore(log, e, l, k - 1, first);
    }
  }

  lemma {:induction false} ChargedByMore(log: seq<Charge>, e: Charge, c: nat, k: nat)
    requires k <= |log|
    ensures ChargedBy(log + [e], c, k) == ChargedBy(log, c, k)
    decreases k
  {
    if k > 0 {
      ChargedByMore(log, e, c, k - 1);
    }
  }

  lemma {:induction false} LongestOfMore(limits: seq<Limit>, log: seq<Charge>, e: Charge, c: nat, k: nat)
    requires k <= |log|
    ensures Longest(limits, log + [e], c, k) == Longest(limits, log, c, k)
    decreases k
  {
    if k > 0 {
      LongestOfMore(limits, log, e, c, k - 1);
    }
  }

  /** A step that charges nothing. */
  lemma QuietKeepsExact(s: State, r: State, first: seq<int>)
    requires Exact(s, first) && r.Shaped() && r.limits == s.limits && r.tats == s.tats && r.log == s.log
    requires |r.calls| >= |s.calls| && forall c :: 0 <= c < |s.calls| ==> r.calls[c].n == s.calls[c].n
    requires forall c :: 0 <= c < |r.calls| ==> CallExact(r, c)
    ensures Exact(r, first)
  {
    forall i | 0 <= i < |r.log| ensures EntryExact(r, first, i) {
      assert EntryExact(s, first, i);
    }
  }

  lemma OneCallKeepsExact(s: State, c: nat, k: Call, first: seq<int>)
    requires Exact(s, first) && c < |s.calls| && k.n == s.calls[c].n && k.limits == s.calls[c].limits
    requires CallExact(s.With(c, k), c)
    ensures Exact(s.With(c, k), first)
  {
    forall u | 0 <= u < |s.calls| ensures CallExact(s.With(c, k), u) {
      assert CallExact(s, u);
    }
    QuietKeepsExact(s, s.With(c, k), first);
  }

  /** The state after the compare-and-swap of call c succeeds. */
  lemma ChargeKeepsEntries(s: State, r: State, e: Charge, first: seq<int>)
    requires Exact(s, first) && r.Shaped() && r.limits == s.limits && r.log == s.log + [e] && |r.calls| == |s.calls|
    requires forall c :: 0 <= c < |s.calls| ==> r.calls[c].n == s.calls[c].n
    requires e.limit < |s.limits| && e.call < |s.calls| && e.cost == s.limits[e.limit].cost(s.calls[e.call].n)
    requires e.tat == Max(s.tats[e.limit], e.now) + e.cost && r.tats == s.tats[e.limit := e.tat]
    ensures forall i :: 0 <= i < |r.log| ==> EntryExact(r, first, i)
    ensures forall l :: 0 <= l < |r.tats| ==> r.tats[l] == TatAt(r.log, l, |r.log|, first[l])
  {
    forall i | 0 <= i < |r.log| ensures EntryExact(r, first, i) {
      assert i < |s.log| ==> EntryExact(s, first, i);
      TatOfMore(s.log, e, r.log[i].limit, i, first[r.log[i].limit]);
    }
    forall l | 0 <= l < |r.tats| ensures r.tats[l] == TatAt(r.log, l, |r.log|, first[l]) {
      TatOfMore(s.log, e, l, |s.log|, first[l]);
    }
  }

  lemma ChargeKeepsCalls(s: State, r: State, e: Charge, first: seq<int>)
    requires Exact(s, first) && r.Shaped() && r.limits == s.limits && r.log == s.log + [e] && |r.calls| == |s.calls|
    requires e.call < |s.calls| && s.calls[e.call].phase.Swap? && s.calls[e.call].next < |s.calls[e.call].limits|
    requires e.limit == s.calls[e.call].limits[s.calls[e.call].next]
    requires r.calls == s.calls[e.call := r.calls[e.call]]
    requires var k := s.calls[e.call];
      r.calls[e.call] == k.(phase := Clock, next := k.next + 1, d := Max(k.d, Excess(s.limits, e)))
    ensures forall c :: 0 <= c < |r.calls| ==> CallExact(r, c)
  {
    forall c | 0 <= c < |r.calls| ensures CallExact(r, c) {
      assert CallExact(s, c);
      ChargedByMore(s.log, e, c, |s.log|);
      LongestOfMore(s.limits, s.log, e, c, |s.log|);
      if c == e.call {
        var k := s.calls[c];
        assert k.limits[..k.next + 1] == k.limits[..k.next] + [k.limits[k.next]];
      } else {
        assert ChargedBy(s.log, c, |s.log|) + [] == ChargedBy(s.log, c, |s.log|);
      }
    }
  }

  lemma ChargeKeepsExact(s: State, c: nat, first: seq<int>)
    requires Exact(s, first) && c < |s.calls| && s.calls[c].phase.Swap? && s.calls[c].next < |s.calls[c].limits|
    requires s.tats[s.calls[c].limits[s.calls[c].next]] == s.calls[c].phase.seen
    ensures Exact(Advance(s, c), first)
  {
    var r := Advance(s, c);
    var e := r.log[|s.log|];
    assert CallExact(s, c);
    DoKeepsShape(s, Step(c));
    ChargeKeepsEntries(s, r, e, first);
    ChargeKeepsCalls(s, r, e, first);
  }

  lemma DoKeepsExact(s: State, a: Action, first: seq<int>)
    requires Exact(s, first)
    ensures Exact(Do(s, a), first)
  {
    var r := Do(s, a);
    DoKeepsShape(s, a);
    if (a.Step? || a.Cancel?) && a.c < |s.calls| {
      var k := s.calls[a.c];
      assert CallExact(s, a.c);
      if a.Step? && k.phase.Swap? && k.next < |k.limits| && s.tats[k.limits[k.next]] == k.phase.seen {
        ChargeKeepsExact(s, a.c, first);
      } else if r != s {
        OneCallKeepsExact(s, a.c, r.calls[a.c], first);
      }
    } else {
      forall c | 0 <= c < |r.calls| ensures CallExact(r, c) {
        if c < |s.calls| {
          assert CallExact(s, c);
        } else {
          NewCallExact(s, c, |s.log|, first);
        }
      }
      QuietKeepsExact(s, r, first);
    }
  }

  /** A call that is new has charged nothing. */
  lemma {:induction false} NewCallExact(s: State, c: nat, k: nat, first: seq<int>)
    requires Exact(s, first) && |s.calls| <= c && k <= |s.log|
    ensures ChargedBy(s.log, c, k) == [] && Longest(s.limits, s.log, c, k) == 0
    decreases k
  {
    if k > 0 {
      NewCallExact(s, c, k - 1, first);
      assert EntryExact(s, first, k - 1);
    }
  }

  lemma {:induction false} EveryExactRun(s: State, actions: seq<Action>, first: seq<int>)
    requires Exact(s, first)
    ensures Exact(Execute(s, actions), first)
    decreases |actions|
  {
    if actions != [] {
      DoKeepsExact(s, actions[0], first);
      EveryExactRun(Do(s, actions[0]), actions[1..], first);
    }
  }

  lemma FreshExact(rates: seq<real>, bufferSize: nat, tats: seq<int>, elapsed: nat, ahead: int)
    requires (forall i :: 0 <= i < |rates| ==> rates[i] > 0.0) && |rates| == |tats|
    ensures Exact(Fresh(rates, bufferSize, tats, elapsed, ahead), tats)
  {
  }

  /**
   In every run a call charges its limiters in order, each exactly once, before it waits; and it is told to
   wait for the greatest excess among those charges, not at all if none exceeds its limiter's burst.
   */
  lemma WaitsForTheWorst(
      rates: seq<real>, bufferSize: nat, tats: seq<int>, elapsed: nat, ahead: int, actions: seq<Action>, c: nat)
    requires (forall i :: 0 <= i < |rates| ==> rates[i] > 0.0) && |rates| == |tats|
    ensures var s := Execute(Fresh(rates, bufferSize, tats, elapsed, ahead), actions);
      c < |s.calls| && (s.calls[c].phase.Arm? || s.calls[c].phase.Waiting? || s.calls[c].phase.Released?) ==>
        ChargedBy(s.log, c, |s.log|) == s.calls[c].limits && s.calls[c].d == Longest(s.limits, s.log, c, |s.log|)
  {
    var start := Fresh(rates, bufferSize, tats, elapsed, ahead);
    FreshExact(rates, bufferSize, tats, elapsed, ahead);
    EveryExactRun(start, actions, tats);
    var s := Execute(start, actions);
    if c < |s.calls| {
      assert CallExact(s, c);
    }
  }

  /** The longest wait is that of one of the call's charges, and no shorter than that of any. */
  lemma {:induction false} LongestIsOne(limits: seq<Limit>, log: seq<Charge>, c: nat, k: nat)
    requires k <= |log|
    ensures var d := Longest(limits, log, c, k);
      (forall i :: 0 <= i < k && log[i].call == c ==> d >= Excess(limits, log[i])) &&
      (d > 0 ==> exists i :: 0 <= i < k && log[i].call == c && d == Excess(limits, log[i]))
    decreases k
  {
    if k > 0 {
      LongestIsOne(limits, log, c, k - 1);
    }
  }

  // ----- Who has to wait -----

  /** What limiter l was charged from charge j up to charge k. */
  function CostFrom(log: seq<Charge>, l: nat, j: nat, k: nat): nat
    requires j <= k <= |log|
  {
    if k == j then 0 else CostFrom(log, l, j, k - 1) + if log[k - 1].limit == l then log[k - 1].cost else 0
  }

  ghost predicate Continues(log: seq<Charge>, l: nat, first: int) {
    forall i: nat :: i < |log| && log[i].limit == l ==> log[i].tat == Max(TatAt(log, l, i, first), log[i].now) + log[i].cost
  }

  /** What the charges since j come to, from the reading of charge j. */
  function FromReading(log: seq<Charge>, l: nat, j: nat, k: nat): int
    requires j < k <= |log|
  {
    log[j].now + CostFrom(log, l, j, k)
  }

  /**
   A limiter's number is what its charges since some start come to: since the beginning, or since the reading
   of one of them; and no such start gives more.
   */
  lemma {:induction false} TatIsLatestStart(log: seq<Charge>, l: nat, k: nat, first: int)
    requires Continues(log, l, first) && k <= |log|
    ensures var tat := TatAt(log, l, k, first);
      tat >= first + CostFrom(log, l, 0, k) &&
      (forall j :: 0 <= j < k && log[j].limit == l ==> tat >= FromReading(log, l, j, k)) &&
      (tat == first + CostFrom(log, l, 0, k) ||
       exists j :: 0 <= j < k && log[j].limit == l && tat == FromReading(log, l, j, k))
    decreases k
  {
    if k > 0 {
      TatIsLatestStart(log, l, k - 1, first);
      var before := TatAt(log, l, k - 1, first);
      forall j | 0 <= j < k && log[j].limit == l ensures TatAt(log, l, k, first) >= FromReading(log, l, j, k) {
        if j < k - 1 {
          assert before >= FromReading(log, l, j, k - 1);
        }
      }
      if TatAt(log, l, k, first) != first + CostFrom(log, l, 0, k) {
        if log[k - 1].limit == l && log[k - 1].now >= before {
          assert CostFrom(log, l, k - 1, k - 1) == 0;
          assert TatAt(log, l, k, first) == FromReading(log, l, k - 1, k);
        } else {
          var j :| 0 <= j < k - 1 && log[j].limit == l && before == FromReading(log, l, j, k - 1);
          assert TatAt(log, l, k, first) == FromReading(log, l, j, k);
        }
      }
    }
  }

  /**
   Charge i is within the burst: what its limiter was charged since any earlier charge's reading, and since
   it was new, is at most the time from there to this reading and the burst.
   */
  ghost predicate Conforms(limits: seq<Limit>, log: seq<Charge>, i: nat, first: seq<int>)
    requires i < |log| && log[i].limit < |limits| && log[i].limit < |first|
  {
    var l, allowed := log[i].limit, log[i].now + limits[log[i].limit].burstDur;
    first[l] + CostFrom(log, l, 0, i + 1) <= allowed &&
    forall j :: 0 <= j <= i && log[j].limit == l ==> FromReading(log, l, j, i + 1) <= allowed
  }

  lemma NoExcessConforms(limits: seq<Limit>, log: seq<Charge>, i: nat, first: seq<int>)
    requires i < |log| && log[i].limit < |limits| && log[i].limit < |first|
    requires Continues(log, log[i].limit, first[log[i].limit])
    ensures Excess(limits, log[i]) <= 0 <==> Conforms(limits, log, i, first)
  {
    TatIsLatestStart(log, log[i].limit, i + 1, first[log[i].limit]);
  }

  /** The limiters of the charges of call c. */
  ghost predicate AllConform(s: State, c: nat, first: seq<int>) {
    forall i :: 0 <= i < |s.log| && s.log[i].call == c ==>
      s.log[i].limit < |s.limits| && s.log[i].limit < |first| && Conforms(s.limits, s.log, i, first)
  }

  lemma ExactMeansConforms(s: State, c: nat, first: seq<int>)
    requires Exact(s, first)
    ensures Longest(s.limits, s.log, c, |s.log|) == 0 <==> AllConform(s, c, first)
  {
    LongestIsOne(s.limits, s.log, c, |s.log|);
    forall i | 0 <= i < |s.log|
      ensures s.log[i].limit < |s.limits| && s.log[i].limit < |first|
      ensures Excess(s.limits, s.log[i]) <= 0 <==> Conforms(s.limits, s.log, i, first)
    {
      assert EntryExact(s, first, i);
      forall j: nat | j < |s.log| && s.log[j].limit == s.log[i].limit
        ensures s.log[j].tat == Max(TatAt(s.log, s.log[i].limit, j, first[s.log[i].limit]), s.log[j].now) + s.log[j].cost
      {
        assert EntryExact(s, first, j);
      }
      NoExcessConforms(s.limits, s.log, i, first);
    }
  }

  /**
   In every run a call that has charged its limiters is let through at once exactly if all its charges are
   within the burst: traffic within the limits is never delayed, and other traffic always is.
   */
  lemma WithinTheBurst(
      rates: seq<real>, bufferSize: nat, tats: seq<int>, elapsed: nat, ahead: int, actions: seq<Action>, c: nat)
    requires (forall i :: 0 <= i < |rates| ==> rates[i] > 0.0) && |rates| == |tats|
    ensures var s := Execute(Fresh(rates, bufferSize, tats, elapsed, ahead), actions);
      c < |s.calls| && s.calls[c].phase.Arm? ==>
        (Do(s, Step(c)).calls[c].phase.Released? <==> AllConform(s, c, tats))
  {
    var start := Fresh(rates, bufferSize, tats, elapsed, ahead);
    FreshExact(rates, bufferSize, tats, elapsed, ahead);
    EveryExactRun(start, actions, tats);
    var s := Execute(start, actions);
    if c < |s.calls| {
      assert CallExact(s, c);
      ExactMeansConforms(s, c, tats);
    }
  }

  /** A call that has to wait is let go as soon as the wait it was told has passed, and no sooner. */
  lemma ReleasedOnTime(s: State, c: nat, dt: nat)
    requires s.Shaped() && c < |s.calls| && s.calls[c].phase.Arm?
    ensures var r := Do(Do(Do(s, Step(c)), Tick(dt)), Step(c));
      c < |r.calls| && (r.calls[c].phase.Released? <==> dt >= s.calls[c].d || s.calls[c].d <= 0) &&
      (r.calls[c].phase.Released? || r.calls[c].phase.Waiting?) && r.tats == s.tats && r.log == s.log
  {
  }

  // ----- One call at a time -----

  /**
   A call by itself charges its next limiter: from where that is, or from now if that is later, for its bytes.
   Then it charges the one after that, or waits when there is none.
   */
  lemma ChargeByItself(s: State, c: nat)
    requires s.Shaped() && c < |s.calls| && s.calls[c].phase.Clock? && s.calls[c].next < |s.calls[c].limits|
    ensures var k := s.calls[c];
      var l := k.limits[k.next];
      var cost := s.limits[l].cost(k.n);
      var e := Charge(c, l, s.Wall(), s.elapsed, cost, Max(s.tats[l], s.Wall()) + cost);
      Do(Do(Do(s, Step(c)), Step(c)), Step(c)) ==
        s.With(c, k.(next := k.next + 1, d := Max(k.d, Excess(s.limits, e))))
         .(tats := s.tats[l := e.tat], log := s.log + [e])
  {
    var k := s.calls[c];
    var a := s.With(c, k.(phase := Load(s.Wall(), s.elapsed)));
    assert Do(s, Step(c)) == a;
    var b := s.With(c, k.(phase := Swap(s.Wall(), s.elapsed, s.tats[k.limits[k.next]])));
    assert Do(a, Step(c)) == b;
    assert k.d == Max(k.d, 0);
  }

  /** No call is stuck: each step goes on, save that a timer waits until it is time; a lost race starts over. */
  lemma CallGoesOn(s: State, c: nat)
    requires s.Shaped() && c < |s.calls| && !s.calls[c].phase.Released? && !s.calls[c].phase.Cancelled?
    requires (s.calls[c].phase.Load? || s.calls[c].phase.Swap?) ==> s.calls[c].next < |s.calls[c].limits|
    ensures var r := Do(s, Step(c)).calls[c];
      if s.calls[c].phase.Waiting? && s.elapsed < s.calls[c].phase.until then r == s.calls[c]
      else r.phase != s.calls[c].phase && !r.phase.Cancelled?
    ensures s.calls[c].phase.Clock? ==> Do(s, Step(c)).calls[c].phase.Arm? == (s.calls[c].next >= |s.calls[c].limits|)
  {
  }

  /** Only a call that waits can be cancelled, and then it is over, not released. */
  lemma CancelEnds(s: State, c: nat)
    requires s.Shaped() && c < |s.calls|
    ensures Do(s, Cancel(c)) ==
      if s.calls[c].phase.Waiting? then s.With(c, s.calls[c].(phase := Cancelled)) else s
    ensures s.calls[c].phase.Cancelled? ==> Do(s, Step(c)) == s
  {
  }

  /** The whole of waitAll for one limiter: n bytes from now on, and the wait for what exceeds the burst. */
  lemma WaitAllByItself(s: State, n: nat, l: nat)
    requires s.Shaped() && l < |s.limits|
    ensures var c := |s.calls|;
      var charged := Do(Do(Do(Do(s, Start(n, [l])), Step(c)), Step(c)), Step(c));
      var r := Do(Do(charged, Step(c)), Step(c));
      var tat := Max(s.tats[l], s.Wall()) + s.limits[l].cost(n);
      var wait := Max(0, tat - s.Wall() - s.limits[l].burstDur);
      r.tats == s.tats[l := tat] && r.calls[..c] == s.calls && |r.calls| == c + 1 &&
      r.calls[c].phase == if wait == 0 then Released(s.elapsed) else Waiting(s.elapsed + wait)
  {
    var c := |s.calls|;
    var a := s.(calls := s.calls + [Call(n, [l], 0, 0, Clock)]);
    assert Do(s, Start(n, [l])) == a;
    ChargeByItself(a, c);
  }

  /** The wall clock shows the time that passes and what it has been set ahead or back. */
  lemma ClockShows(s: State, step: int, dt: nat)
    requires s.Shaped()
    ensures var r := Do(Do(s, Adjust(step)), Tick(dt));
      r.Wall() == s.Wall() + step + dt && r.elapsed == s.elapsed + dt && r.(elapsed := s.elapsed, ahead := s.ahead) == s
  {
  }
}
