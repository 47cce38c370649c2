/**
 Connecting to a target of two address families (dial.go, RFC 8305 section 5): the preferred family first,
 the other one a little later or when the first has failed, the first success wins. As a transition
 system: Dial's select loop, a goroutine per family that meets it at an unbuffered channel, the lag timer
 and the two contexts.
 */
module DialRace {
  import opened Wrappers

  /** open: somebody must still close it; handed over: Dial returned it. */
  datatype Conn = Open | Closed | HandedOver

  /** A family's goroutine: dialling its i-th address, offering its result, or through. */
  datatype Runner = Unborn | Dialing(i: nat) | Offering(conn: Option<nat>) | Through

  /** Whose error is reported. */
  datatype Blame = Nobody | Preferred | Other

  datatype Main = Selecting | Returned(conn: Option<nat>, blame: Blame)

  /**
   expired: the overall deadline has passed. stopped: Dial's deferred stop has run. starts, lagged and
   failed are history: how often the fallback was started, that the lag passed, that the preferred
   family failed.
   */
  datatype State = State(
    conns: seq<Conn>, preferred: Runner, fallback: Runner, main: Main, fallbackStarted: bool, failures: nat,
    firstErr: Blame, expired: bool, stopped: bool, starts: nat, lagged: bool, failed: bool)
  {
    function Runner(first: bool): Runner { if first then preferred else fallback }

    function With(first: bool, r: Runner): State {
      if first then this.(preferred := r) else this.(fallback := r)
    }

    /** The context the runners see. */
    predicate RaceOver() { expired || stopped }
  }

  /** How many addresses each family has. */
  datatype Targets = Targets(preferred: nat, fallback: nat)
  {
    function Count(first: bool): nat { if first then preferred else fallback }
  }

  datatype Action =
    | Dial(first: bool, ok: bool)
    | Meet(first: bool)
    | GiveUp(first: bool)
    | Lag
    | TimeOut
    | Expire
    | Unwind

  function StartFallback(s: State): State {
    if s.fallbackStarted then s
    else s.(fallbackStarted := true, fallback := Dialing(0), starts := s.starts + 1)
  }

  /** A turn of dialSerial: the next address, unless this one connected, was the last, or time is up. */
  function Attempt(t: Targets, s: State, first: bool, ok: bool): State {
    var r := s.Runner(first);
    if !r.Dialing? then s
    else if ok then s.(conns := s.conns + [Open]).With(first, Offering(Some(|s.conns|)))
    else if s.RaceOver() || r.i + 1 >= t.Count(first) then s.With(first, Offering(None))
    else s.With(first, Dialing(r.i + 1))
  }

  /** The runner's result reaches the select loop. */
  function Receive(s: State, first: bool): State
    requires s.Runner(first).Offering?
  {
    var r := s.Runner(first);
    var t := s.With(first, Through);
    if r.conn.Some? then
      t.(main := Returned(r.conn, Nobody), conns := if r.conn.value < |s.conns| then s.conns[r.conn.value := HandedOver] else s.conns)
    else
      var blame := if first || s.firstErr.Nobody? then (if first then Preferred else Other) else s.firstErr;
      var u := t.(firstErr := blame, failures := s.failures + 1, failed := s.failed || first);
      if u.failures == 2 then u.(main := Returned(None, blame)) else StartFallback(u)
  }

  function Do(t: Targets, s: State, a: Action): State {
    match a
    case Dial(first, ok) => Attempt(t, s, first, ok)
    case Meet(first) => if s.main.Selecting? && s.Runner(first).Offering? then Receive(s, first) else s
    case GiveUp(first) =>
      var r := s.Runner(first);
      if !r.Offering? || !s.RaceOver() then s
      else if r.conn.Some? && r.conn.value < |s.conns| then
        s.With(first, Through).(conns := s.conns[r.conn.value := Closed])
      else s.With(first, Through)
    case Lag => if s.main.Selecting? && !s.lagged then StartFallback(s.(lagged := true)) else s
    case TimeOut => if s.main.Selecting? && s.expired then s.(main := Returned(None, s.firstErr)) else s
    case Expire => s.(expired := true)
    case Unwind => if s.main.Returned? then s.(stopped := true) else s
  }

  function Execute(t: Targets, s: State, actions: seq<Action>): State
    decreases |actions|
  {
    if actions == [] then s else Execute(t, Do(t, s, actions[0]), actions[1..])
  }

  const START := State([], Dialing(0), Unborn, Selecting, false, 0, Nobody, false, false, 0, false, false)

  // ----- What every run keeps -----

  /** Runner first offers connection c. */
  predicate Offers(s: State, first: bool, c: nat) { s.Runner(first) == Offering(Some(c)) }

  /** An open connection is in the hands of one family, and one handed over is what Dial returned. */
  ghost predicate ConnOk(s: State, c: nat)
    requires c < |s.conns|
  {
    (s.conns[c].Open? <==> Offers(s, true, c) || Offers(s, false, c)) && !(Offers(s, true, c) && Offers(s, false, c)) &&
    (s.conns[c].HandedOver? <==> s.main.Returned? && s.main.conn == Some(c))
  }

  predicate RunnerOk(s: State, first: bool) {
    s.Runner(first).Offering? && s.Runner(first).conn.Some? ==> s.Runner(first).conn.value < |s.conns|
  }

  /** Who is started, and who has failed. */
  ghost predicate RaceOk(s: State) {
    !s.preferred.Unborn? && (s.fallback.Unborn? <==> !s.fallbackStarted) &&
    s.starts == (if s.fallbackStarted then 1 else 0) && (s.fallbackStarted ==> s.lagged || s.failed) &&
    (s.stopped ==> s.main.Returned?) &&
    (s.main.Selecting? && !s.expired ==>
      s.failures == (if s.preferred.Through? then 1 else 0) + (if s.fallback.Through? then 1 else 0)) &&
    (s.main.Selecting? ==> s.failures < 2) && (s.failed ==> s.preferred.Through? && s.fallbackStarted) &&
    s.failures <= 2 && (s.failures == 2 ==> s.failed && s.main == Returned(None, Preferred)) &&
    (s.failed ==> s.firstErr.Preferred? && s.failures > 0) &&
    (s.failures > 0 && !s.failed ==> s.fallback.Through? && s.firstErr.Other?) &&
    (s.failures == 0 ==> s.firstErr.Nobody?) && ReturnOk(s)
  }

  /** Dial gives up when time is up, with the error it has, or when both families have failed. */
  ghost predicate ReturnOk(s: State) {
    s.main.Returned? && s.main.conn.None? ==> s.main.blame == s.firstErr && (s.failures < 2 ==> s.expired)
  }

  ghost predicate Inv(s: State) {
    RaceOk(s) && RunnerOk(s, true) && RunnerOk(s, false) &&
    (s.main.Returned? && s.main.conn.Some? ==> s.main.conn.value < |s.conns|) &&
    forall c: nat :: c < |s.conns| ==> ConnOk(s, c)
  }

  /** An address connects: a new connection, in the hands of its family. */
  lemma OpenKeepsInv(s: State, first: bool)
    requires Inv(s) && s.Runner(first).Dialing?
    ensures Inv(s.(conns := s.conns + [Open]).With(first, Offering(Some(|s.conns|))))
  {
    var u := s.(conns := s.conns + [Open]).With(first, Offering(Some(|s.conns|)));
    assert RunnerOk(s, !first);
    forall c: nat | c < |u.conns| ensures ConnOk(u, c) {
      if c < |s.conns| {
        assert ConnOk(s, c);
      }
    }
  }

  /** An address fails: the next one, or nothing to offer. */
  lemma NextKeepsInv(s: State, first: bool, r: Runner)
    requires Inv(s) && s.Runner(first).Dialing? && (r.Dialing? || r == Offering(None))
    ensures Inv(s.With(first, r))
  {
    var u := s.With(first, r);
    forall c: nat | c < |u.conns| ensures ConnOk(u, c) {
      assert ConnOk(s, c);
    }
  }

  lemma DialKeepsInv(t: Targets, s: State, first: bool, ok: bool)
    requires Inv(s)
    ensures Inv(Attempt(t, s, first, ok))
  {
    var r := s.Runner(first);
    if r.Dialing? {
      if ok {
        OpenKeepsInv(s, first);
      } else if s.RaceOver() || r.i + 1 >= t.Count(first) {
        NextKeepsInv(s, first, Offering(None));
      } else {
        NextKeepsInv(s, first, Dialing(r.i + 1));
      }
    }
  }

  lemma ConnectKeepsInv(s: State, first: bool)
    requires Inv(s) && s.main.Selecting? && s.Runner(first).Offering? && s.Runner(first).conn.Some?
    ensures Inv(Receive(s, first))
  {
    var u := Receive(s, first);
    assert ConnOk(s, s.Runner(first).conn.value);
    forall c: nat | c < |u.conns| ensures ConnOk(u, c) {
      assert ConnOk(s, c);
    }
  }

  lemma FailureKeepsInv(s: State, first: bool)
    requires Inv(s) && s.main.Selecting? && s.Runner(first) == Offering(None)
    ensures Inv(Receive(s, first))
  {
    var u := Receive(s, first);
    forall c: nat | c < |u.conns| ensures ConnOk(u, c) {
      assert ConnOk(s, c);
    }
  }

  /** The race is over, so who leaves is not counted. */
  lemma LeavingKeepsRace(s: State, first: bool, conns: seq<Conn>)
    requires RaceOk(s) && s.RaceOver() && s.Runner(first).Offering?
    ensures RaceOk(s.With(first, Through).(conns := conns))
  {
  }

  lemma ClosingKeepsInv(s: State, first: bool, v: nat)
    requires Inv(s) && s.RaceOver() && Offers(s, first, v)
    ensures v < |s.conns| && Inv(s.With(first, Through).(conns := s.conns[v := Closed]))
  {
    assert RunnerOk(s, first);
    var u := s.With(first, Through).(conns := s.conns[v := Closed]);
    LeavingKeepsRace(s, first, u.conns);
    assert ConnOk(s, v);
    forall c: nat | c < |u.conns| ensures ConnOk(u, c) {
      assert ConnOk(s, c);
    }
  }

  lemma GiveUpKeepsInv(t: Targets, s: State, first: bool)
    requires Inv(s) && s.RaceOver() && s.Runner(first).Offering?
    ensures Inv(Do(t, s, GiveUp(first)))
  {
    var r := s.Runner(first);
    if r.conn.Some? {
      ClosingKeepsInv(s, first, r.conn.value);
    } else {
      var u := s.With(first, Through);
      LeavingKeepsRace(s, first, s.conns);
      forall c: nat | c < |u.conns| ensures ConnOk(u, c) {
        assert ConnOk(s, c);
      }
    }
  }

  lemma TimeKeepsInv(t: Targets, s: State, a: Action)
    requires Inv(s) && (a.Lag? || a.TimeOut? || a.Expire? || a.Unwind?)
    ensures Inv(Do(t, s, a))
  {
    var u := Do(t, s, a);
    forall c: nat | c < |u.conns| ensures ConnOk(u, c) {
      assert ConnOk(s, c);
    }
  }

  lemma DoKeepsInv(t: Targets, s: State, a: Action)
    requires Inv(s)
    ensures Inv(Do(t, s, a))
  {
    match a {
      case Dial(first, ok) => DialKeepsInv(t, s, first, ok);
      case Meet(first) =>
        if s.main.Selecting? && s.Runner(first).Offering? {
          if s.Runner(first).conn.Some? {
            ConnectKeepsInv(s, first);
          } else {
            FailureKeepsInv(s, first);
          }
        }
      case GiveUp(first) =>
        if s.RaceOver() && s.Runner(first).Offering? {
          GiveUpKeepsInv(t, s, first);
        }
      case _ => TimeKeepsInv(t, s, a);
    }
  }

  lemma {:induction false} EveryRun(t: Targets, s: State, actions: seq<Action>)
    requires Inv(s)
    ensures Inv(Execute(t, s, actions))
    decreases |actions|
  {
    if actions != [] {
      DoKeepsInv(t, s, actions[0]);
      EveryRun(t, Do(t, s, actions[0]), actions[1..]);
    }
  }

  // ----- What the race guarantees -----

  /**
   In every run, a connection is either in the hands of exactly one family, or closed, or the one that
   Dial returned; so at most one is returned.
   */
  lemma OneConnectionEach(t: Targets, actions: seq<Action>, c: nat, d: nat)
    ensures var s := Execute(t, START, actions);
      c < |s.conns| && d < |s.conns| ==>
        (s.conns[c].Open? <==> Offers(s, true, c) != Offers(s, false, c)) &&
        (s.conns[c].HandedOver? <==> s.main.Returned? && s.main.conn == Some(c)) &&
        (s.conns[c].HandedOver? && s.conns[d].HandedOver? ==> c == d)
  {
    EveryRun(t, START, actions);
    var s := Execute(t, START, actions);
    if c < |s.conns| && d < |s.conns| {
      assert ConnOk(s, c) && ConnOk(s, d);
    }
  }

  /** Nothing leaks: when no family is at work any more, every connection but the returned one is closed. */
  lemma NoConnectionLeaks(t: Targets, actions: seq<Action>, c: nat)
    ensures var s := Execute(t, START, actions);
      !s.preferred.Offering? && !s.fallback.Offering? && c < |s.conns| ==>
        s.conns[c].Closed? || (s.main.Returned? && s.main.conn == Some(c))
  {
    EveryRun(t, START, actions);
    var s := Execute(t, START, actions);
    if c < |s.conns| {
      assert ConnOk(s, c);
    }
  }

  /** No sender stays blocked: once Dial has returned, a family with a result can close it and leave. */
  lemma NoSenderStaysBlocked(t: Targets, actions: seq<Action>, first: bool)
    ensures var s := Execute(t, START, actions);
      var u := Do(t, s, GiveUp(first));
      s.stopped && s.Runner(first).Offering? ==>
        u.Runner(first).Through? && u.main == s.main &&
        (s.Runner(first).conn.Some? ==>
          s.Runner(first).conn.value < |u.conns| && u.conns[s.Runner(first).conn.value].Closed?)
  {
    EveryRun(t, START, actions);
  }

  /** The fallback starts at most once, and not before the lag has passed or the preferred family failed. */
  lemma FallbackStartsOnce(t: Targets, actions: seq<Action>)
    ensures var s := Execute(t, START, actions);
      s.starts <= 1 && (s.starts == 1 ==> s.lagged || s.failed)
  {
    EveryRun(t, START, actions);
  }

  /** Until its time is up Dial never waits for nobody: some family is at work. */
  lemma SomebodyIsAtWork(t: Targets, actions: seq<Action>)
    ensures var s := Execute(t, START, actions);
      s.main.Selecting? && !s.expired ==>
        s.preferred.Dialing? || s.preferred.Offering? || s.fallback.Dialing? || s.fallback.Offering?
  {
    EveryRun(t, START, actions);
  }

  /** When both families failed, Dial returns the preferred family's error. */
  lemma PreferredErrorIsReported(t: Targets, actions: seq<Action>)
    ensures var s := Execute(t, START, actions);
      s.failures == 2 ==> s.main == Returned(None, Preferred)
  {
    EveryRun(t, START, actions);
  }

  /**
   Dial fails only because both families have, or because its time is up: then with the preferred family's
   error if that has failed, else the other's, else that of the deadline.
   */
  lemma WhyDialFails(t: Targets, actions: seq<Action>)
    ensures var s := Execute(t, START, actions);
      s.main.Returned? && s.main.conn.None? ==>
        (s.failures == 2 || s.expired) &&
        s.main.blame == if s.failed then Preferred else if s.failures > 0 then Other else Nobody
  {
    EveryRun(t, START, actions);
  }

  // ----- One step of the race at a time -----

  /** Some addresses fail, one after the other. */
  function Failing(t: Targets, s: State, first: bool, n: nat): State
    decreases n
  {
    if n == 0 then s else Failing(t, Do(t, s, Dial(first, false)), first, n - 1)
  }

  lemma {:induction false} FailingGoesOn(t: Targets, s: State, first: bool, i: nat, n: nat)
    requires s.Runner(first) == Dialing(i) && !s.RaceOver() && i + n < t.Count(first)
    ensures Failing(t, s, first, n) == s.With(first, Dialing(i + n))
    decreases n
  {
    if n == 0 {
      assert s.With(first, Dialing(i)) == s;
    } else {
      FailingGoesOn(t, s.With(first, Dialing(i + 1)), first, i + 1, n - 1);
    }
  }

  /**
   A family dials its addresses in order: the first that connects is offered, and with none, or once the race
   is over, it offers its failure.
   */
  lemma FamilyByItself(t: Targets, s: State, first: bool, n: nat)
    requires s.Runner(first) == Dialing(0) && !s.RaceOver() && n < t.Count(first)
    ensures var u := Failing(t, s, first, n);
      Do(t, u, Dial(first, true)) == s.(conns := s.conns + [Open]).With(first, Offering(Some(|s.conns|))) &&
      (n + 1 == t.Count(first) ==> Do(t, u, Dial(first, false)) == s.With(first, Offering(None))) &&
      Do(t, u.(expired := true), Dial(first, false)).Runner(first) == Offering(None) &&
      Do(t, u.(stopped := true), Dial(first, false)).Runner(first) == Offering(None)
  {
    FailingGoesOn(t, s, first, 0, n);
  }

  /** The first connection that reaches Dial is what it returns. */
  lemma SuccessIsReturned(t: Targets, s: State, first: bool, c: nat)
    requires s.main.Selecting? && s.Runner(first) == Offering(Some(c)) && c < |s.conns|
    ensures var u := Do(t, s, Meet(first));
      u == s.With(first, Through).(main := Returned(Some(c), Nobody), conns := s.conns[c := HandedOver])
  {
  }

  /** A failure that reaches Dial starts the other family, from its first address, or is the second and ends it. */
  lemma FailureIsCounted(t: Targets, s: State, first: bool)
    requires Inv(s) && s.main.Selecting? && s.Runner(first) == Offering(None)
    ensures var u := Do(t, s, Meet(first));
      u.Runner(first).Through? && u.conns == s.conns && u.failures == s.failures + 1 &&
      (s.failures == 1 ==> u.main == Returned(None, Preferred)) &&
      (s.failures == 0 ==>
        u.main.Selecting? && u.firstErr == (if first then Preferred else Other) && u.fallbackStarted &&
        (!s.fallbackStarted ==> first && u.fallback == Dialing(0)))
  {
  }

  /** The lag starts the other family, from its first address, unless it has been started. */
  lemma LagStartsFallback(t: Targets, s: State)
    requires s.main.Selecting? && !s.lagged
    ensures var u := Do(t, s, Lag);
      u == if s.fallbackStarted then s.(lagged := true)
           else s.(lagged := true, fallbackStarted := true, fallback := Dialing(0), starts := s.starts + 1)
  {
  }

  /** When its time is up Dial returns with the error it has, and not by the clock before. */
  lemma TimeIsUp(t: Targets, s: State)
    requires s.main.Selecting?
    ensures Do(t, Do(t, s, Expire), TimeOut) == s.(expired := true, main := Returned(None, s.firstErr))
    ensures !s.expired ==> Do(t, s, TimeOut) == s
  {
  }

  /** Once Dial has returned, its result stays, and it starts nobody. */
  lemma NothingAfterReturn(t: Targets, s: State, a: Action)
    requires Inv(s) && s.main.Returned?
    ensures Do(t, s, a).main == s.main && Do(t, s, a).starts == s.starts
  {
  }

  /** Its leaving lets the other family go, which closes what it has. */
  lemma LoserLeaves(t: Targets, s: State, first: bool)
    requires Inv(s) && s.main.Returned? && s.Runner(first).Offering?
    ensures var u := Do(t, Do(t, s, Unwind), GiveUp(first));
      var c := s.Runner(first).conn;
      u.Runner(first).Through? && u.main == s.main && (c.Some? ==> c.value < |u.conns| && u.conns[c.value].Closed?)
  {
    assert RunnerOk(s, first);
  }

  // ----- dialSerial -----

  /** The error of attempt i, or the one for no addresses at all. */
  datatype DialError = Failed(i: nat) | NoAddresses

  /**
   One family alone: ok says which attempts connect, over whether time is up after the attempt. Nothing
   is dialled after the first that connects, or once time is up.
   */
  method DialSerial(ok: seq<bool>, over: seq<bool>) returns (r: Result<nat, DialError>, dialled: nat)
    requires |over| == |ok|
    ensures dialled <= |ok| && forall i :: 0 <= i < dialled - 1 ==> !ok[i] && !over[i]
    ensures match r
      case Ok(i) => dialled == i + 1 && ok[i]
      case Err(NoAddresses) => ok == []
      case Err(Failed(i)) => i == 0 < dialled && !ok[dialled - 1] && (dialled == |ok| || over[dialled - 1])
  {
    var firstErr: Option<DialError> := None;
    dialled := 0;
    while dialled < |ok|
      invariant dialled <= |ok| && forall i :: 0 <= i < dialled ==> !ok[i] && !over[i]
      invariant firstErr == if dialled == 0 then None else Some(Failed(0))
    {
      dialled := dialled + 1;
      if ok[dialled - 1] {
        return Ok(dialled - 1), dialled;
      }
      if firstErr.None? {
        firstErr := Some(Failed(dialled - 1));
      }
      if over[dialled - 1] {
        break;
      }
    }
    r := Err(if firstErr.Some? then firstErr.value else NoAddresses);
  }
}
