/**
 Stopping a rule while connections come and go (proxy.go setRuleStopped and the end of handle, stats.go
 stop and setKill, lockfree.go connTable), as a transition system. No lock spans the whole exchange:
 the console publishes the stopped set, scans the registry and kills; a connection registers,
 publishes its rule key, registers how to end it, and then checks the stopped set again.
 A critical section of c.mu or stoppedMu is one action, and so is every atomic operation.
 */
module StopRule {
  import opened Bits
  import opened Wrappers

  type Key = string

  const SEGMENT: nat := 1024

  /** Where a connection's goroutine stands. The Add phases are inside connTable.add. */
  datatype Phase =
    | New
    | AddLoad
    | AddCheck(segs: nat)
    | AddGrow(have: nat)
    | AddSwap(have: nat, seen: nat)
    | AddProbe(segs: nat, i: nat)
    | AddClaim(segs: nat, i: nat)
    | AddCount
    | Registered
    | Routed
    | KillSet(pending: bool)
    | Recheck
    | Rechecked(stop: bool)
    | Relaying
    | Removing
    | Gone

  /**
   stopDone is history: some call of stop on this connection has returned.
   closed: closeAll has run (or the kill function of a connection served here).
   */
  datatype Conn = Conn(
    id: nat, phase: Phase, slot: nat, ruleKey: Option<Key>, killSet: bool, killReason: bool, closed: bool, stopDone: bool)

  /**
   A console request: stop a rule, start one again, or stop one connection.
   Kill works through the victims: it is about to enter stop's critical section for the first one.
   */
  datatype Task =
    | Publish
    | LoadDir
    | Scan(limit: nat, i: nat, victims: seq<nat>)
    | Examine(limit: nat, i: nat, c: nat, victims: seq<nat>)
    | Kill(victims: seq<nat>)
    | CallKill(c: nat, victims: seq<nat>)
    | Done

  /** intact is history: nothing to the contrary was published since this request published its change. */
  datatype Request = Request(key: Key, stop: bool, task: Task, intact: bool)

  datatype State = State(stopped: set<Key>, slots: seq<Option<nat>>, segs: nat, count: int, conns: seq<Conn>, requests: seq<Request>)
  {
    ghost predicate Shaped() { |slots| == segs * SEGMENT }

    function WithConn(c: nat, k: Conn): State
      requires c < |conns|
    {
      this.(conns := conns[c := k])
    }

    function WithTask(r: nat, t: Task): State
      requires r < |requests|
    {
      this.(requests := requests[r := requests[r].(task := t)])
    }
  }

  /** What a connection does next where it has a choice. */
  datatype Action =
    | Accept(id: nat)
    | Advance(c: nat)
    | RouteTo(c: nat, key: Key)
    | Connected(c: nat)
    | Leave(c: nat)
    | AskStop(key: Key)
    | AskStart(key: Key)
    | AskKill(c: nat)
    | Work(r: nat)

  /** The next atomic step of connection c. */
  function Step(s: State, c: nat): (r: State)
    requires s.Shaped() && c < |s.conns|
    ensures r.Shaped()
  {
    var k := s.conns[c];
    match k.phase
    case New => s.WithConn(c, k.(phase := AddLoad))
    case AddLoad => s.WithConn(c, k.(phase := AddCheck(s.segs)))
    case AddCheck(segs) =>
      var n := segs * SEGMENT;
      s.WithConn(c, k.(phase := if n == 0 || s.count + 1 > n / 2 then AddGrow(segs) else AddProbe(segs, 0)))
    case AddGrow(have) => s.WithConn(c, k.(phase := if s.segs > have then AddLoad else AddSwap(have, s.segs)))
    case AddSwap(have, seen) =>
      if s.segs == seen then
        s.WithConn(c, k.(phase := AddLoad)).(segs := s.segs + 1, slots := s.slots + seq(SEGMENT, _ => None))
      else s.WithConn(c, k.(phase := AddGrow(have)))
    case AddProbe(segs, i) =>
      var n := segs * SEGMENT;
      if i >= n then s.WithConn(c, k.(phase := AddGrow(segs)))
      else
        var j := Rem(Rem(k.id, n) + i, n);
        s.WithConn(c, k.(phase := if j < |s.slots| && s.slots[j].None? then AddClaim(segs, i) else AddProbe(segs, i + 1)))
    case AddClaim(segs, i) =>
      var n := segs * SEGMENT;
      var j := if n > 0 then Rem(Rem(k.id, n) + i, n) else 0;
      if j < |s.slots| && s.slots[j].None? then
        s.WithConn(c, k.(phase := AddCount, slot := j)).(slots := s.slots[j := Some(c)])
      else s.WithConn(c, k.(phase := AddProbe(segs, i + 1)))
    case AddCount => s.WithConn(c, k.(phase := Registered)).(count := s.count + 1)
    case Registered => s
    case Routed => s
    case KillSet(pending) => s.WithConn(c, k.(phase := Recheck, closed := k.closed || pending))
    case Recheck => s.WithConn(c, k.(phase := Rechecked(k.ruleKey.Some? && k.ruleKey.value in s.stopped)))
    case Rechecked(stop) => s.WithConn(c, k.(phase := Relaying, closed := k.closed || stop))
    case Relaying => s
    case Removing => s.WithConn(c, k.(phase := Gone)).(count := s.count - 1)
    case Gone => s
  }

  /** The published requests once q is published too. */
  function Published(requests: seq<Request>, q: Request): (r: seq<Request>)
    ensures |r| == |requests|
  {
    seq(|requests|, i requires 0 <= i < |requests| =>
      var p := requests[i];
      if p.key == q.key && p.stop != q.stop && !p.task.Publish? then p.(intact := false) else p)
  }

  /** The next atomic step of request r. */
  function Serve(s: State, r: nat): (n: State)
    requires s.Shaped() && r < |s.requests|
    ensures n.Shaped()
  {
    var q := s.requests[r];
    match q.task
    case Publish =>
      s.(stopped := if q.stop then s.stopped + {q.key} else s.stopped - {q.key},
         requests := Published(s.requests, q)[r := q.(task := if q.stop then LoadDir else Done)])
    case LoadDir => s.WithTask(r, Scan(|s.slots|, 0, []))
    case Scan(limit, i, victims) =>
      if i >= limit then s.WithTask(r, Kill(victims))
      else if i < |s.slots| && s.slots[i].Some? then s.WithTask(r, Examine(limit, i, s.slots[i].value, victims))
      else s.WithTask(r, Scan(limit, i + 1, victims))
    case Examine(limit, i, c, victims) =>
      var hit := c < |s.conns| && s.conns[c].ruleKey == Some(q.key);
      s.WithTask(r, Scan(limit, i + 1, if hit then victims + [c] else victims))
    case Kill(victims) =>
      if victims == [] then s.WithTask(r, Done)
      else
        var c := victims[0];
        if c >= |s.conns| then s.WithTask(r, Kill(victims[1..]))
        else if s.conns[c].killSet then s.WithTask(r, CallKill(c, victims[1..]))
        else s.WithTask(r, Kill(victims[1..])).WithConn(c, s.conns[c].(killReason := true, stopDone := true))
    case CallKill(c, victims) =>
      if c >= |s.conns| then s.WithTask(r, Kill(victims))
      else s.WithTask(r, Kill(victims)).WithConn(c, s.conns[c].(closed := true, stopDone := true))
    case Done => s
  }

  predicate InTable(p: Phase) {
    p.AddCount? || p.Registered? || p.Routed? || p.KillSet? || p.Recheck? || p.Rechecked? || p.Relaying?
  }

  function Do(s: State, a: Action): (r: State)
    requires s.Shaped()
    ensures r.Shaped()
  {
    match a
    case Accept(id) => s.(conns := s.conns + [Conn(id, New, 0, None, false, false, false, false)])
    case Advance(c) => if c < |s.conns| then Step(s, c) else s
    case RouteTo(c, key) =>
      if c < |s.conns| && s.conns[c].phase.Registered? then
        s.WithConn(c, s.conns[c].(phase := Routed, ruleKey := Some(key)))
      else s
    case Connected(c) =>
      if c < |s.conns| && s.conns[c].phase.Routed? then
        s.WithConn(c, s.conns[c].(phase := KillSet(s.conns[c].killReason), killSet := true))
      else s
    case Leave(c) => // before routing, when something fails, or when the relay has ended
      if c < |s.conns| && (s.conns[c].phase.Registered? || s.conns[c].phase.Routed? || s.conns[c].phase.Relaying?) then
        var k := s.conns[c];
        s.WithConn(c, k.(phase := Removing)).(slots := if k.slot < |s.slots| then s.slots[k.slot := None] else s.slots)
      else s
    case AskStop(key) => s.(requests := s.requests + [Request(key, true, Publish, true)])
    case AskStart(key) => s.(requests := s.requests + [Request(key, false, Publish, true)])
    case AskKill(c) => if c < |s.conns| then s.(requests := s.requests + [Request("", false, Kill([c]), false)]) else s
    case Work(r) => if r < |s.requests| then Serve(s, r) else s
  }

  const START := State({}, [], 0, 0, [], [])

  function Execute(s: State, actions: seq<Action>): (r: State)
    requires s.Shaped()
    ensures r.Shaped()
    decreases |actions|
  {
    if actions == [] then s else Execute(Do(s, actions[0]), actions[1..])
  }

  // ----- The invariant -----

  predicate AfterKillSet(p: Phase) { p.Recheck? || p.Rechecked? || p.Relaying? }

  ghost predicate ConnOk(s: State, c: nat)
    requires c < |s.conns|
  {
    var k := s.conns[c];
    (InTable(k.phase) ==> k.slot < |s.slots| && s.slots[k.slot] == Some(c)) &&
    (k.phase.Routed? || k.phase.KillSet? || AfterKillSet(k.phase) ==> k.ruleKey.Some?) &&
    (k.phase.KillSet? || AfterKillSet(k.phase) ==> k.killSet) &&
    (k.killSet ==> k.phase.KillSet? || AfterKillSet(k.phase) || k.phase.Removing? || k.phase.Gone?) &&
    // A stop that has returned has closed the connection, or is remembered and still to be applied.
    (k.stopDone ==>
      k.closed || (k.killReason && !AfterKillSet(k.phase) && (k.phase.KillSet? ==> k.phase.pending)))
  }

  /** The connection has checked the stopped set, found its rule running, and is open. */
  predicate Passed(k: Conn, key: Key) {
    k.ruleKey == Some(key) && (k.phase == Rechecked(false) || k.phase.Relaying?) && !k.closed
  }

  /** Request q has still to come across connection c. */
  ghost predicate Ahead(s: State, q: Request, c: nat)
    requires c < |s.conns|
  {
    match q.task
    case Publish => true
    case LoadDir => true
    case Scan(limit, i, victims) => i <= s.conns[c].slot < limit || c in victims
    case Examine(limit, i, d, victims) => i < s.conns[c].slot < limit || d == c || c in victims
    case Kill(victims) => c in victims
    case CallKill(d, victims) => d == c || c in victims
    case Done => false
  }

  ghost predicate RequestOk(s: State, q: Request) {
    (q.intact && !q.task.Publish? ==> (q.key in s.stopped <==> q.stop)) &&
    (q.task.CallKill? ==> q.task.c < |s.conns|) &&
    (q.stop && q.intact ==>
      forall c: nat :: c < |s.conns| && Passed(s.conns[c], q.key) ==> Ahead(s, q, c))
  }

  ghost predicate Inv(s: State) {
    s.Shaped() &&
    (forall c: nat :: c < |s.conns| ==> ConnOk(s, c)) &&
    (forall r :: 0 <= r < |s.requests| ==> RequestOk(s, s.requests[r]))
  }

  // ----- Every action keeps the invariant -----

  /** A step of connection c alone: the other connections, the requests and the stopped set stay. */
  ghost predicate OnlyConn(s: State, r: State, c: nat)
    requires c < |s.conns|
  {
    r.Shaped() && |s.slots| <= |r.slots| && r.stopped == s.stopped && r.requests == s.requests &&
    |r.conns| == |s.conns| &&
    (forall d: nat :: d < |s.conns| && d != c ==> r.conns[d] == s.conns[d]) &&
    (forall j: nat :: j < |s.slots| && s.slots[j].Some? && s.slots[j] != Some(c) ==> r.slots[j] == s.slots[j])
  }

  lemma OnlyConnKeepsInv(s: State, r: State, c: nat)
    requires Inv(s) && c < |s.conns| && OnlyConn(s, r, c) && ConnOk(r, c)
    requires forall q: Request ::
      RequestOk(s, q) && q.stop && q.intact && Passed(r.conns[c], q.key) ==> Ahead(r, q, c)
    ensures Inv(r)
  {
    forall d: nat | d < |r.conns| ensures ConnOk(r, d) {
      assert ConnOk(s, d);
    }
    forall i | 0 <= i < |r.requests| ensures RequestOk(r, r.requests[i]) {
      assert RequestOk(s, s.requests[i]);
    }
  }

  lemma StepKeepsInv(s: State, c: nat)
    requires Inv(s) && c < |s.conns|
    ensures Inv(Step(s, c))
  {
    var r := Step(s, c);
    assert ConnOk(s, c);
    StepOnlyConn(s, c);
    forall q: Request | RequestOk(s, q) && q.stop && q.intact && Passed(r.conns[c], q.key) ensures Ahead(r, q, c) {
      StepPasses(s, c, q);
    }
    OnlyConnKeepsInv(s, r, c);
  }

  /** Who passes its check of the stopped set now is open only if the rule is running. */
  lemma StepPasses(s: State, c: nat, q: Request)
    requires s.Shaped() && c < |s.conns| && ConnOk(s, c) && RequestOk(s, q) && q.stop && q.intact
    requires Passed(Step(s, c).conns[c], q.key)
    ensures Ahead(Step(s, c), q, c)
  {
    OnlyChecksPass(s, c, q.key);
    if s.conns[c].phase.Recheck? {
      assert q.key !in s.stopped;
    } else {
      assert Passed(s.conns[c], q.key) && Ahead(s, q, c);
    }
  }

  /** To pass, a connection has passed before, or has just found its rule running. */
  lemma OnlyChecksPass(s: State, c: nat, key: Key)
    requires s.Shaped() && c < |s.conns| && ConnOk(s, c) && Passed(Step(s, c).conns[c], key)
    ensures Step(s, c).conns[c].slot == s.conns[c].slot
    ensures if s.conns[c].phase.Recheck? then key !in s.stopped else Passed(s.conns[c], key)
  {
    var p := s.conns[c].phase;
    assert p.Recheck? || p.Rechecked? || p.Relaying?;
  }

  lemma StepOnlyConn(s: State, c: nat)
    requires s.Shaped() && c < |s.conns| && ConnOk(s, c)
    ensures OnlyConn(s, Step(s, c), c) && ConnOk(Step(s, c), c)
  {
    var k := s.conns[c];
    if k.phase.AddSwap? {
      SwapOnlyConn(s, c);
    } else if k.phase.AddClaim? {
      ClaimOnlyConn(s, c);
    } else if k.phase.New? || k.phase.AddLoad? || k.phase.AddCheck? || k.phase.AddGrow? || k.phase.AddProbe? {
      AddingStep(s, c);
    } else if k.phase.Registered? || k.phase.Routed? || k.phase.Relaying? || k.phase.Gone? {
      assert Step(s, c) == s;
    } else {
      LaterStep(s, c);
    }
  }

  lemma SwapOnlyConn(s: State, c: nat)
    requires s.Shaped() && c < |s.conns| && ConnOk(s, c) && s.conns[c].phase.AddSwap?
    ensures OnlyConn(s, Step(s, c), c) && ConnOk(Step(s, c), c)
  {
  }

  lemma ClaimOnlyConn(s: State, c: nat)
    requires s.Shaped() && c < |s.conns| && ConnOk(s, c) && s.conns[c].phase.AddClaim?
    ensures OnlyConn(s, Step(s, c), c) && ConnOk(Step(s, c), c)
  {
  }

  /** Connection c and the count change, nothing else. */
  lemma MovedOnlyConn(s: State, c: nat, k: Conn, count: int)
    requires s.Shaped() && c < |s.conns|
    ensures OnlyConn(s, s.WithConn(c, k).(count := count), c)
  {
  }

  /** A step on the way into the table. */
  lemma AddingStep(s: State, c: nat)
    requires s.Shaped() && c < |s.conns| && ConnOk(s, c)
    requires var p := s.conns[c].phase; p.New? || p.AddLoad? || p.AddCheck? || p.AddGrow? || p.AddProbe?
    ensures OnlyConn(s, Step(s, c), c) && ConnOk(Step(s, c), c)
  {
    var r := Step(s, c);
    MovedOnlyConn(s, c, r.conns[c], s.count);
    assert r == s.WithConn(c, r.conns[c]).(count := s.count);
  }

  /** A step of a connection that is in the table, or on its way out. */
  lemma LaterStep(s: State, c: nat)
    requires s.Shaped() && c < |s.conns| && ConnOk(s, c)
    requires var p := s.conns[c].phase;
      p.AddCount? || p.KillSet? || p.Recheck? || p.Rechecked? || p.Removing?
    ensures OnlyConn(s, Step(s, c), c) && ConnOk(Step(s, c), c)
  {
    var r := Step(s, c);
    MovedOnlyConn(s, c, r.conns[c], r.count);
    assert r == s.WithConn(c, r.conns[c]).(count := r.count);
  }

  lemma ChoiceKeepsInv(s: State, a: Action)
    requires Inv(s) && (a.RouteTo? || a.Connected? || a.Leave?)
    ensures Inv(Do(s, a))
  {
    var r := Do(s, a);
    if a.c < |s.conns| && r != s {
      assert ConnOk(s, a.c);
      OnlyConnKeepsInv(s, r, a.c);
    }
  }

  lemma ArrivalKeepsInv(s: State, a: Action)
    requires Inv(s) && (a.Accept? || a.AskStop? || a.AskStart? || a.AskKill?)
    ensures Inv(Do(s, a))
  {
    var r := Do(s, a);
    forall c: nat | c < |r.conns| ensures ConnOk(r, c) {
      assert c < |s.conns| ==> ConnOk(s, c);
    }
    forall i | 0 <= i < |r.requests| ensures RequestOk(r, r.requests[i]) {
      assert i < |s.requests| ==> RequestOk(s, s.requests[i]);
    }
  }

  lemma PublishKeepsInv(s: State, i: nat)
    requires Inv(s) && i < |s.requests| && s.requests[i].task.Publish?
    ensures Inv(Serve(s, i))
  {
    var r := Serve(s, i);
    forall c: nat | c < |r.conns| ensures ConnOk(r, c) {
      assert ConnOk(s, c);
    }
    forall j | 0 <= j < |r.requests| ensures RequestOk(r, r.requests[j]) {
      assert RequestOk(s, s.requests[j]);
    }
  }

  /** The request moves on and neither the table nor any connection changes. */
  lemma MoveKeepsInv(s: State, i: nat, t: Task)
    requires Inv(s) && i < |s.requests| && !s.requests[i].task.Publish?
    requires RequestOk(s, s.requests[i].(task := t))
    ensures Inv(s.WithTask(i, t))
  {
    var r := s.WithTask(i, t);
    forall c: nat | c < |r.conns| ensures ConnOk(r, c) {
      assert ConnOk(s, c);
    }
    forall j | 0 <= j < |r.requests| ensures RequestOk(r, r.requests[j]) {
      assert RequestOk(s, s.requests[j]);
    }
  }

  lemma ScanKeepsInv(s: State, i: nat)
    requires Inv(s) && i < |s.requests|
    requires s.requests[i].task.LoadDir? || s.requests[i].task.Scan? || s.requests[i].task.Examine?
    ensures Inv(Serve(s, i))
  {
    var q := s.requests[i];
    var t := Serve(s, i).requests[i].task;
    assert RequestOk(s, q);
    forall c: nat | q.stop && q.intact && c < |s.conns| && Passed(s.conns[c], q.key)
      ensures Ahead(s, q.(task := t), c)
    {
      assert ConnOk(s, c) && Ahead(s, q, c);
    }
    MoveKeepsInv(s, i, t);
  }

  /** A call of stop on connection d changes nothing else about it than that it may be closed. */
  lemma StopKeepsInv(s: State, i: nat)
    requires Inv(s) && i < |s.requests| && (s.requests[i].task.Kill? || s.requests[i].task.CallKill?)
    ensures Inv(Serve(s, i))
  {
    var q := s.requests[i];
    var r := Serve(s, i);
    forall c: nat | c < |r.conns| ensures ConnOk(r, c) {
      assert ConnOk(s, c);
    }
    forall j | 0 <= j < |r.requests| ensures RequestOk(r, r.requests[j]) {
      assert RequestOk(s, s.requests[j]);
      forall c: nat | r.requests[j].stop && r.requests[j].intact && c < |r.conns| && Passed(r.conns[c], r.requests[j].key)
        ensures Ahead(r, r.requests[j], c)
      {
        assert ConnOk(s, c) && Ahead(s, s.requests[j], c);
      }
    }
  }

  lemma DoKeepsInv(s: State, a: Action)
    requires Inv(s)
    ensures Inv(Do(s, a))
  {
    match a {
      case Advance(c) =>
        if c < |s.conns| {
          StepKeepsInv(s, c);
        }
      case RouteTo(_, _) => ChoiceKeepsInv(s, a);
      case Connected(_) => ChoiceKeepsInv(s, a);
      case Leave(_) => ChoiceKeepsInv(s, a);
      case Work(i) =>
        if i < |s.requests| {
          match s.requests[i].task {
            case Publish => PublishKeepsInv(s, i);
            case Kill(_) => StopKeepsInv(s, i);
            case CallKill(_, _) => StopKeepsInv(s, i);
            case Done =>
            case _ => ScanKeepsInv(s, i);
          }
        }
      case _ => ArrivalKeepsInv(s, a);
    }
  }

  lemma {:induction false} EveryRun(s: State, actions: seq<Action>)
    requires Inv(s)
    ensures Inv(Execute(s, actions))
    decreases |actions|
  {
    if actions != [] {
      DoKeepsInv(s, actions[0]);
      EveryRun(Do(s, actions[0]), actions[1..]);
    }
  }

  // ----- What stopping a rule guarantees -----

  /**
   In every run: once a request that stopped a rule is done, and while the rule has not been started
   again, every connection of that rule that has passed its own check of the stopped set is closed.
   */
  lemma StoppedMeansClosed(actions: seq<Action>, i: nat, c: nat)
    ensures var s := Execute(START, actions);
      i < |s.requests| && s.requests[i].stop && s.requests[i].task.Done? && s.requests[i].intact &&
      c < |s.conns| && s.conns[c].phase.Relaying? && s.conns[c].ruleKey == Some(s.requests[i].key) ==>
        s.conns[c].closed
  {
    EveryRun(START, actions);
    var s := Execute(START, actions);
    if i < |s.requests| {
      assert RequestOk(s, s.requests[i]);
    }
  }

  /** No stop request is lost: once stop has returned, a connection past its own check is closed. */
  lemma StopIsNotLost(actions: seq<Action>, c: nat)
    ensures var s := Execute(START, actions);
      c < |s.conns| && s.conns[c].stopDone && AfterKillSet(s.conns[c].phase) ==> s.conns[c].closed
  {
    EveryRun(START, actions);
    var s := Execute(START, actions);
    if c < |s.conns| {
      assert ConnOk(s, c);
    }
  }

  /** Two registered connections never share a slot, whatever races to claim it or grow the table. */
  lemma OneSlotEach(actions: seq<Action>, c: nat, d: nat)
    ensures var s := Execute(START, actions);
      c < |s.conns| && d < |s.conns| && c != d && InTable(s.conns[c].phase) && InTable(s.conns[d].phase) ==>
        s.conns[c].slot != s.conns[d].slot
  {
    EveryRun(START, actions);
    var s := Execute(START, actions);
    if c < |s.conns| && d < |s.conns| {
      assert ConnOk(s, c) && ConnOk(s, d);
    }
  }

  /**
   In every run: once a request to stop or start a rule has published its change, the rule is in the stopped
   set exactly if the request was to stop it, until a request to the contrary publishes.
   */
  lemma LastRequestDecides(actions: seq<Action>, i: nat)
    ensures var s := Execute(START, actions);
      i < |s.requests| && s.requests[i].intact && !s.requests[i].task.Publish? ==>
        (s.requests[i].key in s.stopped <==> s.requests[i].stop)
  {
    EveryRun(START, actions);
    var s := Execute(START, actions);
    if i < |s.requests| {
      assert RequestOk(s, s.requests[i]);
    }
  }

  /**
   A connection's own check lets it be exactly if the last request for its rule to publish was a start (or
   there was none, see NobodyAsked), and closes it exactly if that was a stop.
   */
  lemma CheckObeys(actions: seq<Action>, i: nat, c: nat)
    ensures var s := Execute(START, actions);
      i < |s.requests| && s.requests[i].intact && !s.requests[i].task.Publish? &&
      c < |s.conns| && s.conns[c].phase.Recheck? && s.conns[c].ruleKey == Some(s.requests[i].key) ==>
        Do(s, Advance(c)).conns[c] == s.conns[c].(phase := Rechecked(s.requests[i].stop))
  {
    LastRequestDecides(actions, i);
  }

  /** After the check: it relays, closed if the check found its rule stopped or if it was closed before. */
  lemma CheckCloses(actions: seq<Action>, c: nat)
    ensures var s := Execute(START, actions);
      c < |s.conns| && s.conns[c].phase.Rechecked? ==>
        var k := Do(s, Advance(c)).conns[c];
        k.phase.Relaying? && (k.closed <==> s.conns[c].closed || s.conns[c].phase.stop) &&
        k.killReason == s.conns[c].killReason
  {
  }

  // ----- What stopping a rule leaves alone -----

  /** Whom a request is about to stop. */
  predicate After(t: Task, c: nat) {
    match t
    case Scan(_, _, victims) => c in victims
    case Examine(_, _, _, victims) => c in victims
    case Kill(victims) => c in victims
    case CallKill(d, victims) => d == c || c in victims
    case _ => false
  }

  predicate HasOtherRule(s: State, c: nat, key: Key) {
    c < |s.conns| && s.conns[c].ruleKey.Some? && s.conns[c].ruleKey.value != key
  }

  /** The request is no stop of the rule, and is not after connection c unless that has another rule. */
  predicate RequestSpares(s: State, q: Request, c: nat, key: Key) {
    (q.stop ==> q.key != key) && (q.task.LoadDir? || q.task.Scan? || q.task.Examine? ==> q.stop) &&
    (After(q.task, c) ==> HasOtherRule(s, c, key))
  }

  predicate ConnSpared(k: Conn) {
    !k.closed && !k.killReason && k.phase != Rechecked(true) && k.phase != KillSet(true)
  }

  predicate Unrouted(p: Phase) { Adding(p) || p.AddCount? || p.Registered? }

  /** A connection has no rule before it is routed. */
  predicate RuleFits(k: Conn) { Unrouted(k.phase) ==> k.ruleKey.None? }

  ghost predicate Spared(s: State, c: nat, key: Key) {
    key !in s.stopped && (forall r :: 0 <= r < |s.requests| ==> RequestSpares(s, s.requests[r], c, key)) &&
    (c < |s.conns| ==> RuleFits(s.conns[c]) && (HasOtherRule(s, c, key) || ConnSpared(s.conns[c])))
  }

  predicate Counts(p: Phase) { (InTable(p) && !p.AddCount?) || p.Removing? }

  predicate Adding(p: Phase) {
    p.New? || p.AddLoad? || p.AddCheck? || p.AddGrow? || p.AddSwap? || p.AddProbe? || p.AddClaim?
  }

  lemma StepKeepsRule(s: State, c: nat)
    requires s.Shaped() && c < |s.conns|
    ensures Step(s, c).conns[c].ruleKey == s.conns[c].ruleKey
  {
  }

  /** A connection on its way into the table is neither routed nor counted there. */
  lemma AddingStays(s: State, c: nat)
    requires s.Shaped() && c < |s.conns| && Adding(s.conns[c].phase)
    ensures var r := Step(s, c); (Adding(r.conns[c].phase) || r.conns[c].phase.AddCount?) && r.count == s.count
  {
  }

  lemma LaterStays(s: State, c: nat)
    requires s.Shaped() && c < |s.conns| && !Adding(s.conns[c].phase)
    ensures var r := Step(s, c);
      !Adding(r.conns[c].phase) && (Unrouted(r.conns[c].phase) ==> Unrouted(s.conns[c].phase)) &&
      r.count == s.count - (if Counts(s.conns[c].phase) then 1 else 0) + if Counts(r.conns[c].phase) then 1 else 0
  {
  }

  lemma StepFitsRule(s: State, c: nat)
    requires s.Shaped() && c < |s.conns| && RuleFits(s.conns[c])
    ensures RuleFits(Step(s, c).conns[c])
  {
    StepKeepsRule(s, c);
    if Adding(s.conns[c].phase) {
      AddingStays(s, c);
    } else {
      LaterStays(s, c);
    }
  }

  lemma StepKeepsOthers(s: State, c: nat)
    requires s.Shaped() && c < |s.conns|
    ensures Step(s, c).conns == s.conns[c := Step(s, c).conns[c]]
  {
  }

  /** Only a stop that is pending, or a rule that is stopped, closes a connection in a step of its own. */
  lemma StepSparesConn(s: State, c: nat, key: Key)
    requires s.Shaped() && c < |s.conns| && ConnSpared(s.conns[c])
    requires s.conns[c].ruleKey.Some? ==> s.conns[c].ruleKey.value == key
    requires key !in s.stopped
    ensures ConnSpared(Step(s, c).conns[c])
  {
  }

  lemma SameRulesSpare(s: State, r: State, c: nat, key: Key)
    requires Spared(s, c, key) && r.requests == s.requests && r.stopped == s.stopped
    requires HasOtherRule(s, c, key) ==> HasOtherRule(r, c, key)
    requires c < |r.conns| ==> RuleFits(r.conns[c]) && (HasOtherRule(r, c, key) || ConnSpared(r.conns[c]))
    ensures Spared(r, c, key)
  {
    forall i | 0 <= i < |r.requests| ensures RequestSpares(r, r.requests[i], c, key) {
      assert RequestSpares(s, s.requests[i], c, key);
    }
  }

  lemma StepSpares(s: State, d: nat, c: nat, key: Key)
    requires s.Shaped() && Spared(s, c, key) && d < |s.conns|
    ensures Spared(Step(s, d), c, key)
  {
    StepKeepsOthers(s, d);
    StepTouchesNothingElse(s, d);
    if c == d {
      StepKeepsRule(s, c);
      StepFitsRule(s, c);
      if !HasOtherRule(s, c, key) {
        StepSparesConn(s, c, key);
      }
    }
    SameRulesSpare(s, Step(s, d), c, key);
  }

  lemma StepTouchesNothingElse(s: State, c: nat)
    requires s.Shaped() && c < |s.conns|
    ensures Step(s, c).requests == s.requests && Step(s, c).stopped == s.stopped
  {
  }

  lemma ChoiceSpares(s: State, a: Action, c: nat, key: Key)
    requires s.Shaped() && Spared(s, c, key) && (a.RouteTo? || a.Connected? || a.Leave?)
    ensures Spared(Do(s, a), c, key)
  {
    SameRulesSpare(s, Do(s, a), c, key);
  }

  lemma PublishSpares(s: State, i: nat, c: nat, key: Key)
    requires s.Shaped() && Spared(s, c, key) && i < |s.requests| && s.requests[i].task.Publish?
    ensures Spared(Serve(s, i), c, key)
  {
    var r := Serve(s, i);
    assert RequestSpares(s, s.requests[i], c, key);
    forall j | 0 <= j < |r.requests| ensures RequestSpares(r, r.requests[j], c, key) {
      assert RequestSpares(s, s.requests[j], c, key);
    }
  }

  lemma ServeSpares(s: State, i: nat, c: nat, key: Key)
    requires s.Shaped() && Spared(s, c, key) && i < |s.requests| && !s.requests[i].task.Publish?
    ensures Spared(Serve(s, i), c, key)
  {
    var r := Serve(s, i);
    assert RequestSpares(s, s.requests[i], c, key);
    forall j | 0 <= j < |r.requests| ensures RequestSpares(r, r.requests[j], c, key) {
      assert RequestSpares(s, s.requests[j], c, key);
    }
  }

  lemma DoSpares(s: State, a: Action, c: nat, key: Key)
    requires s.Shaped() && Spared(s, c, key) && a != AskKill(c) && a != AskStop(key)
    ensures Spared(Do(s, a), c, key)
  {
    var r := Do(s, a);
    if a.Advance? && a.c < |s.conns| {
      StepSpares(s, a.c, c, key);
    } else if a.Work? && a.r < |s.requests| {
      if s.requests[a.r].task.Publish? {
        PublishSpares(s, a.r, c, key);
      } else {
        ServeSpares(s, a.r, c, key);
      }
    } else if a.RouteTo? || a.Connected? || a.Leave? {
      ChoiceSpares(s, a, c, key);
    } else {
      forall j | 0 <= j < |r.requests| ensures RequestSpares(r, r.requests[j], c, key) {
        assert j < |s.requests| ==> RequestSpares(s, s.requests[j], c, key);
      }
    }
  }

  lemma {:induction false} NobodyAskedIn(s: State, actions: seq<Action>, c: nat, key: Key)
    requires s.Shaped() && Spared(s, c, key)
    requires forall i :: 0 <= i < |actions| ==> actions[i] != AskKill(c) && actions[i] != AskStop(key)
    ensures Spared(Execute(s, actions), c, key)
    decreases |actions|
  {
    if actions != [] {
      DoSpares(s, actions[0], c, key);
      NobodyAskedIn(Do(s, actions[0]), actions[1..], c, key);
    }
  }

  /**
   In every run in which nobody asks to stop connection c, or the rule it is routed by, c is not closed from
   outside and no stop is pending for it, whatever other rules and connections are stopped.
   */
  lemma NobodyAsked(actions: seq<Action>, c: nat, key: Key)
    requires forall i :: 0 <= i < |actions| ==> actions[i] != AskKill(c) && actions[i] != AskStop(key)
    ensures var s := Execute(START, actions);
      key !in s.stopped &&
      (c < |s.conns| && (s.conns[c].ruleKey == None || s.conns[c].ruleKey == Some(key)) ==>
        !s.conns[c].closed && !s.conns[c].killReason)
  {
    NobodyAskedIn(START, actions, c, key);
  }

  // ----- The table -----

  /** How many connections have been counted and not been taken off again. */
  function Counted(conns: seq<Conn>): nat {
    if conns == [] then 0
    else Counted(conns[..|conns| - 1]) + if Counts(conns[|conns| - 1].phase) then 1 else 0
  }

  lemma {:induction false} CountedWith(conns: seq<Conn>, c: nat, k: Conn)
    requires c < |conns|
    ensures Counted(conns[c := k]) ==
      Counted(conns) - (if Counts(conns[c].phase) then 1 else 0) + if Counts(k.phase) then 1 else 0
    decreases |conns|
  {
    var last := |conns| - 1;
    if c < last {
      assert conns[c := k][..last] == conns[..last][c := k];
      CountedWith(conns[..last], c, k);
    } else {
      assert conns[c := k][..last] == conns[..last];
    }
  }

  /** The slots hold the connections in the table, each in its own slot, and the counter is their number. */
  ghost predicate TableOk(s: State) {
    s.Shaped() && s.count == Counted(s.conns) &&
    (forall j :: 0 <= j < |s.slots| && s.slots[j].Some? ==> SlotOk(s, j))
  }

  ghost predicate SlotOk(s: State, j: nat)
    requires j < |s.slots| && s.slots[j].Some?
  {
    var c := s.slots[j].value;
    c < |s.conns| && InTable(s.conns[c].phase) && s.conns[c].slot == j
  }

  lemma StepCounts(s: State, c: nat)
    requires s.Shaped() && c < |s.conns|
    ensures Step(s, c).count == s.count - (if Counts(s.conns[c].phase) then 1 else 0) +
                                if Counts(Step(s, c).conns[c].phase) then 1 else 0
  {
    if Adding(s.conns[c].phase) {
      AddingStays(s, c);
    } else {
      LaterStays(s, c);
    }
  }

  /** A slot keeps what it holds, or is claimed by the connection that takes the step. */
  lemma StepClaims(s: State, c: nat, j: nat)
    requires s.Shaped() && c < |s.conns| && j < |Step(s, c).slots| && Step(s, c).slots[j].Some?
    ensures if j < |s.slots| && s.slots[j].Some? then Step(s, c).slots[j] == s.slots[j]
            else Step(s, c).slots[j] == Some(c) && SlotOk(Step(s, c), j)
  {
  }

  /** Advancing by itself a connection stays in its slot, once it has one. */
  lemma StepStaysIn(s: State, c: nat)
    requires s.Shaped() && c < |s.conns| && InTable(s.conns[c].phase)
    ensures InTable(Step(s, c).conns[c].phase) && Step(s, c).conns[c].slot == s.conns[c].slot
  {
  }

  lemma StepKeepsTable(s: State, c: nat)
    requires TableOk(s) && c < |s.conns|
    ensures TableOk(Step(s, c))
  {
    var r := Step(s, c);
    StepKeepsOthers(s, c);
    StepCounts(s, c);
    CountedWith(s.conns, c, r.conns[c]);
    forall j | 0 <= j < |r.slots| && r.slots[j].Some? ensures SlotOk(r, j) {
      StepClaims(s, c, j);
      if j < |s.slots| && s.slots[j].Some? {
        assert SlotOk(s, j);
        if s.slots[j].value == c {
          StepStaysIn(s, c);
        }
      }
    }
  }

  lemma ServeKeepsTable(s: State, i: nat)
    requires TableOk(s) && i < |s.requests|
    ensures TableOk(Serve(s, i))
  {
    var r := Serve(s, i);
    var q := s.requests[i];
    if q.task.Kill? && q.task.victims != [] && q.task.victims[0] < |s.conns| {
      CountedWith(s.conns, q.task.victims[0], r.conns[q.task.victims[0]]);
    } else if q.task.CallKill? && q.task.c < |s.conns| {
      CountedWith(s.conns, q.task.c, r.conns[q.task.c]);
    }
    forall j | 0 <= j < |r.slots| && r.slots[j].Some? ensures SlotOk(r, j) {
      assert SlotOk(s, j);
    }
  }

  lemma ChoiceKeepsTable(s: State, a: Action)
    requires TableOk(s) && (a.RouteTo? || a.Connected? || a.Leave?)
    requires a.c < |s.conns| ==> ConnOk(s, a.c)
    ensures TableOk(Do(s, a))
  {
    var r := Do(s, a);
    if r != s {
      CountedWith(s.conns, a.c, r.conns[a.c]);
      forall j | 0 <= j < |r.slots| && r.slots[j].Some? ensures SlotOk(r, j) {
        assert SlotOk(s, j);
      }
    }
  }

  lemma DoKeepsTable(s: State, a: Action)
    requires Inv(s) && TableOk(s)
    ensures TableOk(Do(s, a))
  {
    var r := Do(s, a);
    if a.Advance? && a.c < |s.conns| {
      StepKeepsTable(s, a.c);
    } else if a.Work? && a.r < |s.requests| {
      ServeKeepsTable(s, a.r);
    } else if a.RouteTo? || a.Connected? || a.Leave? {
      assert a.c < |s.conns| ==> ConnOk(s, a.c);
      ChoiceKeepsTable(s, a);
    } else {
      ArrivalKeepsTable(s, a);
    }
  }

  lemma ArrivalKeepsTable(s: State, a: Action)
    requires TableOk(s) && (a.Accept? || a.AskStop? || a.AskStart? || a.AskKill? || Do(s, a) == s)
    ensures TableOk(Do(s, a))
  {
    var r := Do(s, a);
    if a.Accept? {
      CountedOneMore(s.conns, r.conns[|s.conns|]);
    }
    forall j | 0 <= j < |r.slots| && r.slots[j].Some? ensures SlotOk(r, j) {
      assert SlotOk(s, j);
    }
  }

  lemma CountedOneMore(conns: seq<Conn>, k: Conn)
    ensures Counted(conns + [k]) == Counted(conns) + if Counts(k.phase) then 1 else 0
  {
    assert (conns + [k])[..|conns|] == conns;
  }

  lemma {:induction false} EveryTable(s: State, actions: seq<Action>)
    requires Inv(s) && TableOk(s)
    ensures TableOk(Execute(s, actions))
    decreases |actions|
  {
    if actions != [] {
      DoKeepsInv(s, actions[0]);
      DoKeepsTable(s, actions[0]);
      EveryTable(Do(s, actions[0]), actions[1..]);
    }
  }

  /** In every run a slot holds a connection exactly while that is in the table, and the counter counts them. */
  lemma TableHoldsRegistered(actions: seq<Action>, j: nat, c: nat)
    ensures var s := Execute(START, actions);
      s.count == Counted(s.conns) &&
      (j < |s.slots| && s.slots[j] == Some(c) <==> c < |s.conns| && InTable(s.conns[c].phase) && s.conns[c].slot == j)
  {
    EveryRun(START, actions);
    EveryTable(START, actions);
    var s := Execute(START, actions);
    if c < |s.conns| {
      assert ConnOk(s, c);
    }
    if j < |s.slots| && s.slots[j] == Some(c) {
      assert SlotOk(s, j);
    }
  }

  // ----- One request, or one connection, at a time -----

  /** k steps of request r with no other step between them. */
  function Works(s: State, r: nat, k: nat): (n: State)
    requires s.Shaped()
    ensures n.Shaped()
    decreases k
  {
    if k == 0 then s else Works(Do(s, Work(r)), r, k - 1)
  }

  /** Request r by itself comes to its end. */
  ghost predicate Ends(s: State, r: nat)
    requires s.Shaped()
  {
    exists k: nat :: r < |Works(s, r, k).requests| && Works(s, r, k).requests[r].task.Done?
  }

  lemma EndsLater(s: State, r: nat)
    requires s.Shaped() && r < |s.requests| && Ends(Serve(s, r), r)
    ensures Ends(s, r)
  {
    var k: nat :| r < |Works(Serve(s, r), r, k).requests| && Works(Serve(s, r), r, k).requests[r].task.Done?;
    assert Works(s, r, k + 1) == Works(Serve(s, r), r, k);
  }

  lemma EndsNow(s: State, r: nat)
    requires s.Shaped() && r < |s.requests| && s.requests[r].task.Done?
    ensures Ends(s, r)
  {
    assert Works(s, r, 0) == s;
  }

  lemma {:induction false} KillsEnd(s: State, r: nat)
    requires s.Shaped() && r < |s.requests| && s.requests[r].task.Kill?
    ensures Ends(s, r)
    decreases |s.requests[r].task.victims|
  {
    var n := Serve(s, r);
    if s.requests[r].task.victims == [] {
      EndsNow(n, r);
    } else {
      KillStep(s, r);
      if n.requests[r].task.Kill? {
        KillsEnd(n, r);
      } else {
        KillsEnd(Serve(n, r), r);
        EndsLater(n, r);
      }
    }
    EndsLater(s, r);
  }

  /** A victim is stopped: at once if it can be, else it is remembered for its own setKill. */
  lemma KillStep(s: State, r: nat)
    requires s.Shaped() && r < |s.requests| && s.requests[r].task.Kill? && s.requests[r].task.victims != []
    ensures var victims := s.requests[r].task.victims;
      var c, n := victims[0], Serve(s, r);
      n.requests == s.requests[r := n.requests[r]] && n.stopped == s.stopped &&
      if c < |s.conns| && s.conns[c].killSet then
        n.requests[r].task == CallKill(c, victims[1..]) && n.conns == s.conns &&
        Serve(n, r).requests[r].task == Kill(victims[1..]) && |Serve(n, r).requests| == |s.requests| &&
        Serve(n, r).conns == s.conns[c := s.conns[c].(closed := true, stopDone := true)]
      else
        n.requests[r].task == Kill(victims[1..]) &&
        n.conns == if c < |s.conns| then s.conns[c := s.conns[c].(killReason := true, stopDone := true)] else s.conns
  {
  }

  lemma {:induction false} ScansEnd(s: State, r: nat)
    requires s.Shaped() && r < |s.requests| && s.requests[r].task.Scan?
    ensures Ends(s, r)
    decreases if s.requests[r].task.limit < s.requests[r].task.i then 0 else s.requests[r].task.limit + 1 - s.requests[r].task.i
  {
    var n := Serve(s, r);
    var t := s.requests[r].task;
    if t.i >= t.limit {
      KillsEnd(n, r);
    } else if t.i < |s.slots| && s.slots[t.i].Some? {
      ScansEnd(Serve(n, r), r);
      EndsLater(n, r);
    } else {
      ScansEnd(n, r);
    }
    EndsLater(s, r);
  }

  /** Every request comes to its end, whatever the state it finds: nothing it does waits for anybody. */
  lemma RequestEnds(s: State, r: nat)
    requires s.Shaped() && r < |s.requests|
    ensures Ends(s, r)
  {
    match s.requests[r].task {
      case Publish =>
        var n := Serve(s, r);
        if s.requests[r].stop {
          ScansEnd(Serve(n, r), r);
          EndsLater(n, r);
        } else {
          EndsNow(n, r);
        }
        EndsLater(s, r);
      case LoadDir =>
        ScansEnd(Serve(s, r), r);
        EndsLater(s, r);
      case Scan(_, _, _) => ScansEnd(s, r);
      case Examine(_, _, _, _) =>
        ScansEnd(Serve(s, r), r);
        EndsLater(s, r);
      case Kill(_) => KillsEnd(s, r);
      case CallKill(_, _) =>
        KillsEnd(Serve(s, r), r);
        EndsLater(s, r);
      case Done => EndsNow(s, r);
    }
  }

  /** What a request publishes first, and that only a request to the contrary takes another's word back. */
  lemma PublishByItself(s: State, r: nat, i: nat)
    requires s.Shaped() && r < |s.requests| && s.requests[r].task.Publish? && i < |s.requests|
    ensures var q, n := s.requests[r], Serve(s, r);
      n.stopped == (if q.stop then s.stopped + {q.key} else s.stopped - {q.key}) && n.conns == s.conns &&
      n.requests[r].task == (if q.stop then LoadDir else Done) && |n.requests| == |s.requests| &&
      (i != r ==> n.requests[i].task == s.requests[i].task) &&
      n.requests[i].intact == (s.requests[i].intact &&
        (i == r || s.requests[i].task.Publish? || s.requests[i].key != q.key || s.requests[i].stop == q.stop))
  {
  }

  /** A connection by itself goes from its setKill to relaying, closed if a stop is pending or its rule stopped. */
  lemma ConnByItself(s: State, c: nat)
    requires s.Shaped() && c < |s.conns| && s.conns[c].phase.Routed? && s.conns[c].ruleKey.Some?
    ensures var k := s.conns[c];
      var r := Do(Do(Do(Do(s, Connected(c)), Advance(c)), Advance(c)), Advance(c));
      r == s.WithConn(c, k.(phase := Relaying, killSet := true,
                            closed := k.closed || k.killReason || k.ruleKey.value in s.stopped))
  {
    var k := s.conns[c];
    var a := s.WithConn(c, k.(phase := KillSet(k.killReason), killSet := true));
    assert Do(s, Connected(c)) == a;
    var b := s.WithConn(c, k.(phase := Recheck, killSet := true, closed := k.closed || k.killReason));
    assert Do(a, Advance(c)) == b;
    var d := s.WithConn(c, b.conns[c].(phase := Rechecked(k.ruleKey.value in s.stopped)));
    assert Do(b, Advance(c)) == d;
  }

  /** A connection is routed once, and leaves by clearing its slot and being counted off. */
  lemma LeaveByItself(s: State, c: nat, key: Key)
    requires s.Shaped() && c < |s.conns|
    ensures s.conns[c].phase.Registered? ==>
      Do(s, RouteTo(c, key)) == s.WithConn(c, s.conns[c].(phase := Routed, ruleKey := Some(key)))
    ensures var k := s.conns[c];
      (k.phase.Registered? || k.phase.Routed? || k.phase.Relaying?) && k.slot < |s.slots| ==>
        Do(Do(s, Leave(c)), Advance(c)) ==
        s.WithConn(c, k.(phase := Gone)).(slots := s.slots[k.slot := None], count := s.count - 1)
  {
  }

  // ----- Getting into the table -----

  /** k steps of connection c with no other step between them. */
  function Advances(s: State, c: nat, k: nat): (n: State)
    requires s.Shaped()
    ensures n.Shaped()
    decreases k
  {
    if k == 0 then s else Advances(Do(s, Advance(c)), c, k - 1)
  }

  /** The slot that a connection looks at as its i-th. */
  function Looked(id: nat, segs: nat, i: nat): nat
    requires segs > 0
  {
    Rem(Rem(id, segs * SEGMENT) + i, segs * SEGMENT)
  }

  /** A table that is empty, or more than half full with one more, grows by a segment of free slots. */
  lemma GrowByItself(s: State, c: nat)
    requires s.Shaped() && c < |s.conns| && s.conns[c].phase.AddLoad? && 2 * (s.count + 1) > s.segs * SEGMENT
    ensures Do(Do(Do(Do(s, Advance(c)), Advance(c)), Advance(c)), Advance(c)) ==
      s.(segs := s.segs + 1, slots := s.slots + seq(SEGMENT, _ => None))
  {
    var k := s.conns[c];
    assert Do(s, Advance(c)) == s.WithConn(c, k.(phase := AddCheck(s.segs)));
    var b := s.WithConn(c, k.(phase := AddGrow(s.segs)));
    assert Do(s.WithConn(c, k.(phase := AddCheck(s.segs))), Advance(c)) == b;
    var d := s.WithConn(c, k.(phase := AddSwap(s.segs, s.segs)));
    assert Do(b, Advance(c)) == d;
    assert s.conns[c := k] == s.conns;
  }

  /** A registration whose segment another one has added first looks again at how large the table is now. */
  lemma GrowLost(s: State, c: nat)
    requires s.Shaped() && c < |s.conns| && s.conns[c].phase.AddSwap? && s.conns[c].phase.seen != s.segs
    ensures var k := s.conns[c];
      Do(Do(s, Advance(c)), Advance(c)) ==
        s.WithConn(c, k.(phase := if s.segs > k.phase.have then AddLoad else AddSwap(k.phase.have, s.segs)))
  {
    var k := s.conns[c];
    assert Do(s, Advance(c)) == s.WithConn(c, k.(phase := AddGrow(k.phase.have)));
    assert s.WithConn(c, k.(phase := AddGrow(k.phase.have))).conns[c] == k.(phase := AddGrow(k.phase.have));
  }

  /** Otherwise it is probed from the connection's first slot. */
  lemma ProbeByItself(s: State, c: nat)
    requires s.Shaped() && c < |s.conns| && s.conns[c].phase.AddLoad? && 2 * (s.count + 1) <= s.segs * SEGMENT
    requires s.segs > 0
    ensures Do(Do(s, Advance(c)), Advance(c)) == s.WithConn(c, s.conns[c].(phase := AddProbe(s.segs, 0)))
  {
    var k := s.conns[c];
    assert Do(s, Advance(c)) == s.WithConn(c, k.(phase := AddCheck(s.segs)));
  }

  lemma LookedIsSlot(s: State, id: nat, i: nat)
    requires s.Shaped() && s.segs > 0
    ensures Looked(id, s.segs, i) < |s.slots|
  {
  }

  /** A free slot that is looked at is claimed, and the connection counted. */
  lemma ClaimByItself(s: State, c: nat, i: nat)
    requires s.Shaped() && s.segs > 0 && c < |s.conns| && s.conns[c].phase == AddProbe(s.segs, i)
    requires i < s.segs * SEGMENT && Looked(s.conns[c].id, s.segs, i) < |s.slots|
    requires s.slots[Looked(s.conns[c].id, s.segs, i)].None?
    ensures var j := Looked(s.conns[c].id, s.segs, i);
      Do(Do(Do(s, Advance(c)), Advance(c)), Advance(c)) ==
      s.WithConn(c, s.conns[c].(phase := Registered, slot := j)).(slots := s.slots[j := Some(c)], count := s.count + 1)
  {
    var k := s.conns[c];
    var j := Looked(k.id, s.segs, i);
    var a := s.WithConn(c, k.(phase := AddClaim(s.segs, i)));
    assert Do(s, Advance(c)) == a;
    var b := s.WithConn(c, k.(phase := AddCount, slot := j)).(slots := s.slots[j := Some(c)]);
    assert Do(a, Advance(c)) == b;
  }

  /** One that is taken is passed; after the last the table is grown. */
  lemma PassByItself(s: State, c: nat, i: nat)
    requires s.Shaped() && s.segs > 0 && c < |s.conns| && s.conns[c].phase == AddProbe(s.segs, i)
    requires Looked(s.conns[c].id, s.segs, i) < |s.slots|
    ensures i < s.segs * SEGMENT && s.slots[Looked(s.conns[c].id, s.segs, i)].Some? ==>
      Do(s, Advance(c)) == s.WithConn(c, s.conns[c].(phase := AddProbe(s.segs, i + 1)))
    ensures i >= s.segs * SEGMENT ==> Do(s, Advance(c)) == s.WithConn(c, s.conns[c].(phase := AddGrow(s.segs)))
  {
  }

  /** From its i-th look on, a connection by itself gets the first free slot it comes to, the f-th it looks at. */
  lemma {:induction false} ProbingEnds(s: State, c: nat, i: nat, f: nat)
    requires s.Shaped() && s.segs > 0 && c < |s.conns| && s.conns[c].phase == AddProbe(s.segs, i)
    requires i <= f < s.segs * SEGMENT
    requires forall g :: 0 <= g <= f ==> Looked(s.conns[c].id, s.segs, g) < |s.slots|
    requires forall g :: i <= g < f ==> s.slots[Looked(s.conns[c].id, s.segs, g)].Some?
    requires s.slots[Looked(s.conns[c].id, s.segs, f)].None?
    ensures var j := Looked(s.conns[c].id, s.segs, f);
      Advances(s, c, f - i + 3) ==
      s.WithConn(c, s.conns[c].(phase := Registered, slot := j)).(slots := s.slots[j := Some(c)], count := s.count + 1)
    decreases f - i
  {
    if i == f {
      ClaimByItself(s, c, i);
      ThreeAdvances(s, c);
    } else {
      PassByItself(s, c, i);
      var a := s.WithConn(c, s.conns[c].(phase := AddProbe(s.segs, i + 1)));
      ProbingEnds(a, c, i + 1, f);
      assert Advances(s, c, f - i + 3) == Advances(a, c, f - (i + 1) + 3);
    }
  }

  lemma ThreeAdvances(s: State, c: nat)
    requires s.Shaped()
    ensures Advances(s, c, 3) == Do(Do(Do(s, Advance(c)), Advance(c)), Advance(c))
  {
    var a := Do(s, Advance(c));
    var b := Do(a, Advance(c));
    assert Advances(s, c, 3) == Advances(a, c, 2) && Advances(a, c, 2) == Advances(b, c, 1);
    assert Advances(b, c, 1) == Advances(Do(b, Advance(c)), c, 0);
  }

  /** A connection whose slot another one has taken first goes on to the next. */
  lemma ClaimLost(s: State, c: nat)
    requires s.Shaped() && c < |s.conns| && s.conns[c].phase.AddClaim? && s.conns[c].phase.segs > 0
    requires var j := Looked(s.conns[c].id, s.conns[c].phase.segs, s.conns[c].phase.i); j >= |s.slots| || s.slots[j].Some?
    ensures var k := s.conns[c];
      Do(s, Advance(c)) == s.WithConn(c, k.(phase := AddProbe(k.phase.segs, k.phase.i + 1)))
  {
  }

  /** Every slot is looked at: if one is free, there is a first free one among those looked at. */
  lemma FreeIsLookedAt(s: State, id: nat, j: nat) returns (f: nat)
    requires s.Shaped() && s.segs > 0 && j < |s.slots| && s.slots[j].None?
    ensures f < s.segs * SEGMENT
    ensures forall g :: 0 <= g <= f ==> Looked(id, s.segs, g) < |s.slots|
    ensures forall g :: 0 <= g < f ==> s.slots[Looked(id, s.segs, g)].Some?
    ensures s.slots[Looked(id, s.segs, f)].None?
  {
    var n := s.segs * SEGMENT;
    var k := RemReaches(Rem(id, n), j, n);
    forall g: nat ensures Looked(id, s.segs, g) < |s.slots| {
      LookedIsSlot(s, id, g);
    }
    assert Looked(id, s.segs, k) == j;
    f := 0;
    while s.slots[Looked(id, s.segs, f)].Some?
      invariant f <= k && forall g :: 0 <= g < f ==> s.slots[Looked(id, s.segs, g)].Some?
      decreases k - f
    {
      f := f + 1;
    }
  }

  /** A connection by itself is registered, in a free slot, whenever the table has one and is not more than half full. */
  lemma AddByItself(s: State, c: nat, free: nat) returns (k: nat, j: nat)
    requires s.Shaped() && s.segs > 0 && c < |s.conns| && s.conns[c].phase.AddLoad?
    requires 2 * (s.count + 1) <= s.segs * SEGMENT && free < |s.slots| && s.slots[free].None?
    ensures j < |s.slots| && s.slots[j].None?
    ensures Advances(s, c, k) ==
      s.WithConn(c, s.conns[c].(phase := Registered, slot := j)).(slots := s.slots[j := Some(c)], count := s.count + 1)
  {
    var f := FreeIsLookedAt(s, s.conns[c].id, free);
    ProbeByItself(s, c);
    var a := s.WithConn(c, s.conns[c].(phase := AddProbe(s.segs, 0)));
    ProbingEnds(a, c, 0, f);
    k, j := f + 5, Looked(s.conns[c].id, s.segs, f);
    var b := Do(s, Advance(c));
    assert Advances(s, c, k) == Advances(b, c, f + 4) && Advances(b, c, f + 4) == Advances(a, c, f + 3);
  }

  /** A connection, or a request to stop a rule, to start it again, or to stop one connection, that comes in. */
  lemma ComesIn(s: State, id: nat, key: Key, c: nat)
    requires s.Shaped()
    ensures Do(Do(s, Accept(id)), Advance(|s.conns|)) ==
      s.(conns := s.conns + [Conn(id, AddLoad, 0, None, false, false, false, false)])
    ensures Do(s, AskStop(key)).requests == s.requests + [Request(key, true, Publish, true)]
    ensures Do(s, AskStart(key)).requests == s.requests + [Request(key, false, Publish, true)]
    ensures c < |s.conns| ==> Do(s, AskKill(c)).requests == s.requests + [Request("", false, Kill([c]), false)]
  {
    var k := Conn(id, New, 0, None, false, false, false, false);
    assert (s.conns + [k])[|s.conns| := k.(phase := AddLoad)] == s.conns + [k.(phase := AddLoad)];
  }
}
