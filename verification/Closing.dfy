/**
 How a relayed connection closes (proxy.go endDirection, closeAll and finish), as a transition system: two
 pumps, the half-close timer and any number of kills from outside share the state under the connection's
 mutex. A critical section is one action, and so is every atomic operation outside of one.
 */
module Closing {
  import opened Wrappers

  /** Why the connection closed: both ends did, or somebody called closeAll. */
  datatype Reason = Then(first: string, how: string) | Both(how: string) | By(reason: string)

  /** Where a call of closeAll stands: before its critical section, closing done, closing the sockets. */
  datatype Call = Enter(reason: string) | CloseDone | CloseSockets | Over

  datatype Progress =
    | Copying
    | Ending(how: string, forward: bool)
    | Marked(how: string, forward: bool)
    | Recorded(forward: bool)
    | Calling(call: Call)
    | Returned

  /** over: the direction's state is dirHalfClosed. closed is history: its own call of closeAll has returned. */
  datatype Pump = Pump(at: Progress, over: bool, halfCloses: nat, closed: bool)

  /** A timer with no limit set is one that never fires. */
  datatype Timer = Unset | Armed(how: string) | Off

  datatype State = State(
    closed: bool, reason: Option<Reason>, first: Option<string>, timer: Timer, done: bool, socketsClosed: bool,
    up: Pump, down: Pump, calls: seq<Call>, finished: bool)
  {
    /** Direction 0 is client to upstream. */
    function Pump(d: nat): Pump { if d == 0 then up else down }

    function With(d: nat, p: Pump): State { if d == 0 then this.(up := p) else this.(down := p) }
  }

  datatype Action =
    | End(d: nat, how: string, forward: bool)
    | Break(d: nat, reason: string)
    | SeeClosed(d: nat)
    | LimitWoken(d: nat)
    | Advance(d: nat)
    | Kill(reason: string)
    | Fire
    | AdvanceCall(i: nat)
    | Finish

  /** The next step of closeAll; the first reason wins. */
  function Close(s: State, c: Call): (r: (State, Call)) {
    match c
    case Enter(reason) =>
      (if s.closed then s else s.(closed := true, reason := Some(By(reason))), CloseDone)
    case CloseDone => (s.(done := true), CloseSockets)
    case CloseSockets => (s.(socketsClosed := true), Over)
    case Over => (s, Over)
  }

  /** The critical section of endDirection. */
  function Record(s: State, d: nat, how: string): State
    requires d < 2
  {
    if s.closed then s
    else if s.Pump(1 - d).over then
      s.(closed := true, reason := Some(if s.first.Some? then Then(s.first.value, how) else Both(how)))
    else s.(first := Some(how), timer := Armed(how))
  }

  /** A pump's own call of closeAll goes on; then the pump returns. */
  function Called(p: Pump, next: Call): Pump {
    if next.Over? then p.(at := Returned, closed := true) else p.(at := Calling(next))
  }

  function Step(s: State, d: nat): (r: State)
    requires d < 2
  {
    var p := s.Pump(d);
    match p.at
    case Copying => s
    case Ending(how, forward) => s.With(d, p.(at := Marked(how, forward), over := true))
    case Marked(how, forward) => Record(s, d, how).With(d, p.(at := Recorded(forward)))
    case Recorded(forward) => s.With(d, p.(at := Returned, halfCloses := p.halfCloses + if forward then 1 else 0))
    case Calling(c) =>
      var (t, next) := Close(s, c);
      t.With(d, Called(p, next))
    case Returned => s
  }

  function Do(s: State, a: Action): (r: State)
  {
    match a
    case End(d, how, forward) =>
      if d < 2 && s.Pump(d).at.Copying? then s.With(d, s.Pump(d).(at := Ending(how, forward))) else s
    case Break(d, reason) =>
      if d < 2 && s.Pump(d).at.Copying? then s.With(d, s.Pump(d).(at := Calling(Enter(reason)))) else s
    case SeeClosed(d) =>
      if d < 2 && s.Pump(d).at.Copying? && s.closed then s.With(d, s.Pump(d).(at := Returned)) else s
    case LimitWoken(d) =>
      if d < 2 && s.Pump(d).at.Copying? && s.done then s.With(d, s.Pump(d).(at := Returned)) else s
    case Advance(d) => if d < 2 then Step(s, d) else s
    case Kill(reason) => s.(calls := s.calls + [Enter(reason)])
    case Fire =>
      if s.timer.Armed? then s.(timer := Off, calls := s.calls + [Enter(s.timer.how)]) else s
    case AdvanceCall(i) =>
      if i < |s.calls| then
        var (t, next) := Close(s, s.calls[i]);
        t.(calls := s.calls[i := next])
      else s
    case Finish =>
      if s.Pump(0).at.Returned? && s.Pump(1).at.Returned? then
        s.(finished := true, closed := true, timer := if s.timer.Armed? then Off else s.timer)
      else s
  }

  function Execute(s: State, actions: seq<Action>): (r: State)
    decreases |actions|
  {
    if actions == [] then s else Execute(Do(s, actions[0]), actions[1..])
  }

  const IDLE := Pump(Copying, false, 0, false)

  const START := State(false, None, None, Unset, false, false, IDLE, IDLE, [], false)

  // ----- What every run keeps -----

  predicate PastEntry(c: Call) { !c.Enter? }

  /** Past its critical section the connection is closed, or this end is on record as the first. */
  ghost predicate PumpOk(s: State, p: Pump) {
    (p.at.Copying? || p.at.Ending? ==> !p.over) && (p.at.Marked? || p.at.Recorded? ==> p.over) &&
    (!p.at.Returned? ==> p.halfCloses == 0) && p.halfCloses <= 1 && (p.halfCloses == 1 ==> p.over) &&
    (p.at.Recorded? || p.at.Returned? ==> s.closed || (p.over && s.first.Some?)) &&
    (p.at.Calling? ==> CallOk(s, p.at.call)) && (p.closed ==> CallOk(s, Over))
  }

  /** What the reason says is what happened. */
  ghost predicate ReasonOk(s: State, r: Reason)
  {
    match r
    case Then(first, _) => s.first == Some(first) && s.Pump(0).over && s.Pump(1).over
    case Both(_) => s.first == None && s.Pump(0).over && s.Pump(1).over
    case By(_) => true
  }

  predicate PastRecord(p: Pump) { p.at.Recorded? || p.at.Returned? }

  ghost predicate Inv(s: State) {
    (s.closed <==> s.reason.Some?) && (s.done ==> s.closed) &&
    PumpOk(s, s.up) && PumpOk(s, s.down) && (PastRecord(s.Pump(0)) && PastRecord(s.Pump(1)) ==> s.closed) &&
    (s.first.Some? ==> s.Pump(0).over || s.Pump(1).over) &&
    (s.first.Some? && !s.closed ==> PastRecord(s.Pump(0)) || PastRecord(s.Pump(1))) &&
    (s.timer.Armed? ==> s.first.Some?) && (s.reason.Some? ==> ReasonOk(s, s.reason.value)) &&
    forall i :: 0 <= i < |s.calls| ==> CallOk(s, s.calls[i])
  }

  /** How far a call of closeAll has come. */
  ghost predicate CallOk(s: State, c: Call) {
    (PastEntry(c) ==> s.closed) && (c.CloseSockets? || c.Over? ==> s.done) && (c.Over? ==> s.socketsClosed)
  }

  /** What never changes once it is there. */
  ghost predicate Keeps(s: State, t: State) {
    (s.closed ==> t.closed) && (s.reason.Some? ==> t.reason == s.reason) && (s.first.Some? ==> t.first == s.first)
  }

  /** Pump d moves on by itself. */
  lemma MoveKeepsInv(s: State, d: nat, p: Pump)
    requires Inv(s) && d < 2 && PumpOk(s, p)
    requires (s.Pump(d).over ==> p.over) && (PastRecord(s.Pump(d)) ==> PastRecord(p))
    requires PastRecord(p) && PastRecord(s.Pump(1 - d)) ==> s.closed
    ensures Inv(s.With(d, p)) && Keeps(s, s.With(d, p))
  {
    var t := s.With(d, p);
    assert PumpOk(t, p) && PumpOk(t, s.Pump(1 - d));
    MoveKeepsReason(s, d, p);
    forall i | 0 <= i < |t.calls| ensures CallOk(t, t.calls[i]) {
      assert CallOk(s, s.calls[i]);
    }
  }

  lemma MoveKeepsReason(s: State, d: nat, p: Pump)
    requires d < 2 && (s.Pump(d).over ==> p.over) && (s.reason.Some? ==> ReasonOk(s, s.reason.value))
    ensures s.reason.Some? ==> ReasonOk(s.With(d, p), s.reason.value)
  {
  }

  /** Both ends are over: a mutual close. */
  lemma MutualKeepsInv(s: State, d: nat, how: string)
    requires Inv(s) && d < 2 && !s.closed && s.Pump(d).over && s.Pump(1 - d).over
    ensures Inv(Record(s, d, how)) && Keeps(s, Record(s, d, how)) && Record(s, d, how).closed
  {
    var t := Record(s, d, how);
    forall i | 0 <= i < |t.calls| ensures CallOk(t, t.calls[i]) {
      assert CallOk(s, s.calls[i]);
    }
  }

  /** The first end goes on record. */
  lemma FirstKeepsInv(s: State, d: nat, how: string, p: Pump)
    requires Inv(s) && d < 2 && !s.closed && !s.Pump(1 - d).over && s.Pump(d).at.Marked?
    requires p.at.Recorded? && p.over && p.halfCloses == 0 && p.closed == s.Pump(d).closed
    ensures Inv(Record(s, d, how).With(d, p)) && Keeps(s, Record(s, d, how))
  {
    assert PumpOk(s, s.Pump(1 - d)) && PumpOk(s, s.Pump(d));
    var t := Record(s, d, how).With(d, p);
    assert PumpOk(t, t.Pump(1 - d)) && PumpOk(t, t.Pump(d));
    forall i | 0 <= i < |t.calls| ensures CallOk(t, t.calls[i]) {
      assert CallOk(s, s.calls[i]);
    }
  }

  lemma RecordKeepsInv(s: State, d: nat)
    requires Inv(s) && d < 2 && s.Pump(d).at.Marked?
    ensures Inv(Step(s, d)) && Keeps(s, Step(s, d))
  {
    assert PumpOk(s, s.Pump(d));
    var how, p := s.Pump(d).at.how, s.Pump(d).(at := Recorded(s.Pump(d).at.forward));
    if s.closed {
      MoveKeepsInv(s, d, p);
    } else if s.Pump(1 - d).over {
      MutualKeepsInv(s, d, how);
      MoveKeepsInv(Record(s, d, how), d, p);
    } else {
      FirstKeepsInv(s, d, how, p);
    }
  }

  /** closeAll, whoever calls it. */
  lemma CloseKeepsInv(s: State, c: Call)
    requires Inv(s) && CallOk(s, c)
    ensures var (t, next) := Close(s, c);
      Inv(t) && Keeps(s, t) && t.closed && PastEntry(next) && CallOk(t, next) &&
      t.up == s.up && t.down == s.down && t.calls == s.calls
  {
    var (t, next) := Close(s, c);
    forall i | 0 <= i < |t.calls| ensures CallOk(t, t.calls[i]) {
      assert CallOk(s, s.calls[i]);
    }
  }

  lemma CallingKeepsInv(s: State, d: nat)
    requires Inv(s) && d < 2 && s.Pump(d).at.Calling?
    ensures Inv(Step(s, d)) && Keeps(s, Step(s, d))
  {
    assert PumpOk(s, s.Pump(d));
    var c := s.Pump(d).at.call;
    CloseKeepsInv(s, c);
    var (t, next) := Close(s, c);
    MoveKeepsInv(t, d, Called(s.Pump(d), next));
  }

  lemma MarkKeepsInv(s: State, d: nat)
    requires Inv(s) && d < 2 && s.Pump(d).at.Ending?
    ensures Inv(Step(s, d)) && Keeps(s, Step(s, d))
  {
    assert PumpOk(s, s.Pump(d));
    MoveKeepsInv(s, d, s.Pump(d).(at := Marked(s.Pump(d).at.how, s.Pump(d).at.forward), over := true));
  }

  lemma ForwardKeepsInv(s: State, d: nat)
    requires Inv(s) && d < 2 && s.Pump(d).at.Recorded?
    ensures Inv(Step(s, d)) && Keeps(s, Step(s, d))
  {
    var p := s.Pump(d);
    assert PumpOk(s, p);
    var q := p.(at := Returned, halfCloses := p.halfCloses + if p.at.forward then 1 else 0);
    assert PumpOk(s, q);
    MoveKeepsInv(s, d, q);
  }

  /** A pump stops copying: its direction ends or breaks, or it is woken by the close. */
  lemma LeaveKeepsInv(s: State, d: nat, at: Progress)
    requires Inv(s) && d < 2 && s.Pump(d).at.Copying?
    requires at.Ending? || (at.Calling? && CallOk(s, at.call)) || (at.Returned? && s.closed)
    ensures Inv(s.With(d, s.Pump(d).(at := at))) && Keeps(s, s.With(d, s.Pump(d).(at := at)))
  {
    assert PumpOk(s, s.Pump(d));
    MoveKeepsInv(s, d, s.Pump(d).(at := at));
  }

  lemma ChoiceKeepsInv(s: State, a: Action)
    requires Inv(s) && (a.End? || a.Break? || a.SeeClosed? || a.LimitWoken?)
    ensures Inv(Do(s, a)) && Keeps(s, Do(s, a))
  {
    if a.d < 2 && s.Pump(a.d).at.Copying? {
      match a {
        case End(d, how, forward) => LeaveKeepsInv(s, d, Ending(how, forward));
        case Break(d, reason) => LeaveKeepsInv(s, d, Calling(Enter(reason)));
        case SeeClosed(d) =>
          if s.closed {
            LeaveKeepsInv(s, d, Returned);
          }
        case LimitWoken(d) =>
          if s.done {
            LeaveKeepsInv(s, d, Returned);
          }
      }
    }
  }

  /** The calls from outside change, each as far as it may be. */
  lemma CallsKeepInv(s: State, timer: Timer, calls: seq<Call>)
    requires Inv(s) && (timer == s.timer || !timer.Armed?) && forall i :: 0 <= i < |calls| ==> CallOk(s, calls[i])
    ensures Inv(s.(timer := timer, calls := calls)) && Keeps(s, s.(timer := timer, calls := calls))
  {
    var t := s.(timer := timer, calls := calls);
    assert PumpOk(t, t.up) && PumpOk(t, t.down);
    forall i | 0 <= i < |t.calls| ensures CallOk(t, t.calls[i]) {
      assert CallOk(s, calls[i]);
    }
  }

  lemma OutsideKeepsInv(s: State, a: Action)
    requires Inv(s) && (a.Kill? || a.Fire? || a.AdvanceCall?)
    ensures Inv(Do(s, a)) && Keeps(s, Do(s, a))
  {
    if a.Kill? {
      CallsKeepInv(s, s.timer, s.calls + [Enter(a.reason)]);
    } else if a.Fire? && s.timer.Armed? {
      CallsKeepInv(s, Off, s.calls + [Enter(s.timer.how)]);
    } else if a.AdvanceCall? && a.i < |s.calls| {
      CloseKeepsInv(s, s.calls[a.i]);
      var (t, next) := Close(s, s.calls[a.i]);
      CallsKeepInv(t, t.timer, s.calls[a.i := next]);
    }
  }

  /** finish comes when both pumps have returned, and so after the close. */
  lemma FinishKeepsInv(s: State)
    requires Inv(s) && s.Pump(0).at.Returned? && s.Pump(1).at.Returned?
    ensures s.closed && Inv(Do(s, Finish)) && Keeps(s, Do(s, Finish))
  {
    var timer := if s.timer.Armed? then Off else s.timer;
    CallsKeepInv(s, timer, s.calls);
    var t := s.(timer := timer);
    assert Do(s, Finish) == t.(finished := true);
    assert PumpOk(Do(s, Finish), s.up) && PumpOk(Do(s, Finish), s.down);
    forall i | 0 <= i < |t.calls| ensures CallOk(Do(s, Finish), t.calls[i]) {
      assert CallOk(t, t.calls[i]);
    }
  }

  lemma DoKeepsInv(s: State, a: Action)
    requires Inv(s)
    ensures Inv(Do(s, a)) && Keeps(s, Do(s, a))
  {
    if a.End? || a.Break? || a.SeeClosed? || a.LimitWoken? {
      ChoiceKeepsInv(s, a);
    } else if a.Finish? {
      if s.Pump(0).at.Returned? && s.Pump(1).at.Returned? {
        FinishKeepsInv(s);
      }
    } else if !a.Advance? {
      OutsideKeepsInv(s, a);
    } else if a.d < 2 {
      if s.Pump(a.d).at.Marked? {
        RecordKeepsInv(s, a.d);
      } else if s.Pump(a.d).at.Calling? {
        CallingKeepsInv(s, a.d);
      } else if s.Pump(a.d).at.Ending? {
        MarkKeepsInv(s, a.d);
      } else if s.Pump(a.d).at.Recorded? {
        ForwardKeepsInv(s, a.d);
      }
    }
  }

  lemma {:induction false} EveryRun(s: State, actions: seq<Action>)
    requires Inv(s)
    ensures Inv(Execute(s, actions)) && Keeps(s, Execute(s, actions))
    decreases |actions|
  {
    if actions != [] {
      DoKeepsInv(s, actions[0]);
      EveryRun(Do(s, actions[0]), actions[1..]);
    }
  }

  /** The reason is recorded once: whatever happens next, it stays, and so does which end closed first. */
  lemma ReasonIsFinal(before: seq<Action>, after: seq<Action>)
    ensures var s := Execute(START, before);
      Keeps(s, Execute(s, after))
  {
    EveryRun(START, before);
    EveryRun(Execute(START, before), after);
  }

  /** A mutual close names the end that was first; with no first on record, both ended at once. */
  lemma ReasonSaysWhatHappened(actions: seq<Action>)
    ensures var s := Execute(START, actions);
      s.reason.Some? ==> ReasonOk(s, s.reason.value)
  {
    EveryRun(START, actions);
  }

  /** When both pumps have returned there is a reason, without the help of finish. */
  lemma ReturnedMeansReason(actions: seq<Action>)
    ensures var s := Execute(START, actions);
      s.Pump(0).at.Returned? && s.Pump(1).at.Returned? ==> s.closed && s.reason.Some?
  {
    EveryRun(START, actions);
  }

  /**
   Once a call of closeAll has returned, one from outside or a pump's own, the connection is closed, its
   pumps are woken and its sockets closed.
   */
  lemma CloseAllCloses(actions: seq<Action>, i: nat, d: nat)
    ensures var s := Execute(START, actions);
      (i < |s.calls| && s.calls[i].Over?) || s.Pump(d).closed ==>
        s.closed && s.reason.Some? && s.done && s.socketsClosed
  {
    EveryRun(START, actions);
    var s := Execute(START, actions);
    assert PumpOk(s, s.Pump(d));
  }

  lemma StepHalfClose(s: State, e: nat, d: nat)
    requires d < 2 && e < 2
    ensures Step(s, e).Pump(d).halfCloses > s.Pump(d).halfCloses ==> e == d && s.Pump(d).at.Recorded?
    ensures Step(s, e).Pump(d).halfCloses <= s.Pump(d).halfCloses + 1
  {
  }

  lemma OthersForwardNothing(s: State, a: Action, d: nat)
    requires d < 2 && !a.Advance?
    ensures Do(s, a).Pump(d).halfCloses == s.Pump(d).halfCloses
  {
  }

  /** Only the last step of a direction that ended forwards a half-close. */
  lemma HalfCloseStep(s: State, a: Action, d: nat)
    requires d < 2
    ensures Do(s, a).Pump(d).halfCloses > s.Pump(d).halfCloses ==> a == Advance(d) && s.Pump(d).at.Recorded?
    ensures Do(s, a).Pump(d).halfCloses <= s.Pump(d).halfCloses + 1
  {
    if !a.Advance? {
      OthersForwardNothing(s, a, d);
    } else if a.d < 2 {
      StepHalfClose(s, a.d, d);
    }
  }

  /** A direction's half-close is forwarded at most once, and only when its end is on record. */
  lemma HalfCloseOnce(actions: seq<Action>, a: Action, d: nat)
    requires d < 2
    ensures var s := Execute(START, actions);
      var t := Do(s, a);
      s.Pump(d).halfCloses <= 1 &&
      (t.Pump(d).halfCloses > s.Pump(d).halfCloses ==>
        t.Pump(d).halfCloses == 1 && s.Pump(d).over && (s.closed || s.first.Some?))
  {
    EveryRun(START, actions);
    var s := Execute(START, actions);
    assert PumpOk(s, s.Pump(d));
    HalfCloseStep(s, a, d);
  }

  // ----- One call at a time -----

  /** Goroutine steps: pump d, or the i-th call from outside, goes on to its end. */
  function Ended(s: State, d: nat, how: string, forward: bool): State {
    Do(Do(Do(Do(s, End(d, how, forward)), Advance(d)), Advance(d)), Advance(d))
  }

  function Broken(s: State, d: nat, reason: string): State {
    Do(Do(Do(Do(s, Break(d, reason)), Advance(d)), Advance(d)), Advance(d))
  }

  function CallDone(s: State, i: nat): State { Do(Do(Do(s, AdvanceCall(i)), AdvanceCall(i)), AdvanceCall(i)) }

  /** What the state says apart from the pumps and the calls. */
  ghost predicate Says(s: State, closed: bool, reason: Option<Reason>, first: Option<string>, timer: Timer) {
    s.closed == closed && s.reason == reason && s.first == first && s.timer == timer
  }

  /** A pump with p in place of its state; one step of it. */
  lemma WithIs(s: State, d: nat, p: Pump, q: Pump)
    requires d < 2
    ensures s.With(d, p).Pump(d) == p && s.With(d, p).Pump(1 - d) == s.Pump(1 - d)
    ensures s.With(d, p).With(d, q) == s.With(d, q)
  {
  }

  lemma EndingStep(s: State, d: nat, p: Pump)
    requires d < 2 && p.at.Ending?
    ensures Do(s.With(d, p), Advance(d)) == s.With(d, p.(at := Marked(p.at.how, p.at.forward), over := true))
  {
    WithIs(s, d, p, p.(at := Marked(p.at.how, p.at.forward), over := true));
  }

  lemma RecordWith(s: State, d: nat, p: Pump, how: string)
    requires d < 2
    ensures Record(s.With(d, p), d, how) == Record(s, d, how).With(d, p)
  {
  }

  lemma MarkedStep(s: State, d: nat, p: Pump)
    requires d < 2 && p.at.Marked?
    ensures Do(s.With(d, p), Advance(d)) == Record(s, d, p.at.how).With(d, p.(at := Recorded(p.at.forward)))
  {
    WithIs(s, d, p, p);
    RecordWith(s, d, p, p.at.how);
    WithIs(Record(s, d, p.at.how), d, p, p.(at := Recorded(p.at.forward)));
  }

  lemma RecordedStep(s: State, d: nat, p: Pump)
    requires d < 2 && p.at.Recorded?
    ensures Do(s.With(d, p), Advance(d)) ==
      s.With(d, p.(at := Returned, halfCloses := p.halfCloses + if p.at.forward then 1 else 0))
  {
    WithIs(s, d, p, p.(at := Returned, halfCloses := p.halfCloses + if p.at.forward then 1 else 0));
  }

  /** What the critical section of endDirection puts on record. */
  lemma RecordSays(s: State, d: nat, how: string, p: Pump)
    requires d < 2
    ensures var r := Record(s, d, how).With(d, p);
      r.Pump(d) == p && r.Pump(1 - d) == s.Pump(1 - d) && r.calls == s.calls && r.done == s.done &&
      r.socketsClosed == s.socketsClosed && r.finished == s.finished &&
      if s.closed then Says(r, true, s.reason, s.first, s.timer)
      else if s.Pump(1 - d).over then
        Says(r, true, Some(if s.first.Some? then Then(s.first.value, how) else Both(how)), s.first, s.timer)
      else Says(r, false, s.reason, Some(how), Armed(how))
  {
  }

  lemma EndedIs(s: State, d: nat, how: string, forward: bool)
    requires d < 2 && s.Pump(d).at.Copying?
    ensures var p := s.Pump(d);
      Ended(s, d, how, forward) == Record(s, d, how).With(d,
        p.(at := Returned, over := true, halfCloses := p.halfCloses + if forward then 1 else 0))
  {
    var p := s.Pump(d);
    EndingStep(s, d, p.(at := Ending(how, forward)));
    MarkedStep(s, d, p.(at := Marked(how, forward), over := true));
    RecordedStep(Record(s, d, how), d, p.(at := Recorded(forward), over := true));
  }

  /**
   endDirection by itself: the direction is over, its half-close is forwarded if it was to be, and it is the
   first end on record, with the timer set, or the second, which closes the connection and names both.
   */
  lemma EndByItself(s: State, d: nat, how: string, forward: bool)
    requires d < 2 && s.Pump(d).at.Copying?
    ensures var r, p := Ended(s, d, how, forward), s.Pump(d);
      r.Pump(d) == p.(at := Returned, over := true, halfCloses := p.halfCloses + if forward then 1 else 0) &&
      r.Pump(1 - d) == s.Pump(1 - d) && r.calls == s.calls && r.done == s.done &&
      r.socketsClosed == s.socketsClosed && r.finished == s.finished &&
      if s.closed then Says(r, true, s.reason, s.first, s.timer)
      else if s.Pump(1 - d).over then
        Says(r, true, Some(if s.first.Some? then Then(s.first.value, how) else Both(how)), s.first, s.timer)
      else Says(r, false, s.reason, Some(how), Armed(how))
  {
    var p := s.Pump(d);
    EndedIs(s, d, how, forward);
    RecordSays(s, d, how, p.(at := Returned, over := true, halfCloses := p.halfCloses + if forward then 1 else 0));
  }

  /** closeAll by itself: the connection is closed with this reason unless it was, and everything is woken. */
  ghost predicate ClosedBy(s: State, r: State, reason: string) {
    Says(r, true, if s.closed then s.reason else Some(By(reason)), s.first, r.timer) &&
    r.done && r.socketsClosed && r.finished == s.finished
  }

  lemma KillByItself(s: State, reason: string)
    ensures var r := CallDone(Do(s, Kill(reason)), |s.calls|);
      ClosedBy(s, r, reason) && r.timer == s.timer && r.up == s.up && r.down == s.down && r.calls == s.calls + [Over]
  {
    CallByItself(Do(s, Kill(reason)), |s.calls|, reason);
    assert (s.calls + [Enter(reason)])[|s.calls| := Over] == s.calls + [Over];
  }

  lemma CallByItself(s: State, i: nat, reason: string)
    requires i < |s.calls| && s.calls[i] == Enter(reason)
    ensures var r := CallDone(s, i);
      ClosedBy(s, r, reason) && r.timer == s.timer && r.up == s.up && r.down == s.down && r.calls == s.calls[i := Over]
  {
    var a := Do(s, AdvanceCall(i));
    var b := Do(a, AdvanceCall(i));
    assert a.calls == s.calls[i := CloseDone] && b.calls == s.calls[i := CloseSockets];
    assert Do(b, AdvanceCall(i)).calls == s.calls[i := Over];
  }

  /** The timer fires once, if it is set, and closes like a kill; otherwise nothing happens. */
  lemma TimerByItself(s: State)
    ensures s.timer.Armed? ==>
      var r := CallDone(Do(s, Fire), |s.calls|);
      ClosedBy(s, r, s.timer.how) && r.timer == Off && r.up == s.up && r.down == s.down
    ensures !s.timer.Armed? ==> Do(s, Fire) == s
  {
    if s.timer.Armed? {
      CallByItself(Do(s, Fire), |s.calls|, s.timer.how);
    }
  }

  /** A pump whose copy breaks closes the connection before it returns. */
  lemma BreakByItself(s: State, d: nat, reason: string)
    requires d < 2 && s.Pump(d).at.Copying?
    ensures var r := Broken(s, d, reason);
      ClosedBy(s, r, reason) && r.timer == s.timer && r.calls == s.calls &&
      r.Pump(d) == s.Pump(d).(at := Returned, closed := true) && r.Pump(1 - d) == s.Pump(1 - d)
  {
    var p := s.Pump(d);
    var t := Close(s, Enter(reason)).0;
    CallingStep(s, d, p.(at := Calling(Enter(reason))));
    CallingStep(t, d, p.(at := Calling(CloseDone)));
    CallingStep(Close(t, CloseDone).0, d, p.(at := Calling(CloseSockets)));
    WithIs(Close(Close(t, CloseDone).0, CloseSockets).0, d, p.(at := Returned, closed := true), p);
  }

  lemma CallingStep(s: State, d: nat, p: Pump)
    requires d < 2 && p.at.Calling?
    ensures var (t, next) := Close(s, p.at.call);
      Do(s.With(d, p), Advance(d)) == t.With(d, Called(p, next))
  {
    var (t, next) := Close(s, p.at.call);
    WithIs(s, d, p, p);
    WithIs(t, d, p, Called(p, next));
    assert Close(s.With(d, p), p.at.call) == (t.With(d, p), next);
  }

  /** A copying pump notices that the connection is closed, or that a wait of its was cut short, only then. */
  lemma PumpIsWoken(s: State, d: nat)
    requires d < 2 && s.Pump(d).at.Copying?
    ensures Do(s, SeeClosed(d)) == if s.closed then s.With(d, s.Pump(d).(at := Returned)) else s
    ensures Do(s, LimitWoken(d)) == if s.done then s.With(d, s.Pump(d).(at := Returned)) else s
  {
  }

  /** A pump that is not copying any more has its own end or call of closeAll to finish, whatever else happens. */
  lemma OnlyCopyingIsWoken(s: State, d: nat, how: string, forward: bool)
    requires d >= 2 || !s.Pump(d).at.Copying?
    ensures Do(s, End(d, how, forward)) == Do(s, Break(d, how)) == Do(s, SeeClosed(d)) == Do(s, LimitWoken(d)) == s
  {
  }

  /** Whatever else is under way, closeAll leaves both pumps able to return. */
  lemma KillWakesBoth(s: State, reason: string, d: nat)
    requires d < 2 && s.Pump(d).at.Copying?
    ensures var r := CallDone(Do(s, Kill(reason)), |s.calls|);
      Do(r, SeeClosed(d)).Pump(d).at.Returned? && Do(r, LimitWoken(d)).Pump(d).at.Returned?
  {
    KillByItself(s, reason);
    PumpIsWoken(CallDone(Do(s, Kill(reason)), |s.calls|), d);
  }

  /** finish waits for both pumps, stops the timer, and leaves what is on record. */
  lemma FinishByItself(s: State)
    ensures var r := Do(s, Finish);
      if s.up.at.Returned? && s.down.at.Returned? then
        r.finished && !r.timer.Armed? && r.closed && r.reason == s.reason && r.first == s.first &&
        r.calls == s.calls && r.up == s.up && r.down == s.down
      else r == s
  {
  }
}
