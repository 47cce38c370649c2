/**
 Route caches while rules are stopped and started and configurations are reloaded (proxy.go setRuleStopped,
 the reload and the routing step of handle), as a transition system. The stopped set and the runtime are
 two separate atomic pointers: a rule is stopped by storing a new set first, and then swapping in a
 runtime with empty caches, however often a reload gets in between.
 */
module Publication {
  import opened Wrappers
  import Routing

  type Rules = seq<Routing.Rule>
  type Key = Routing.Key
  type Decision = Routing.Decision

  /** The decision the rules of a listener give for a name under a stopped set. */
  type Router = (Rules, string, string, set<Key>) -> Decision

  /** version is history: the decision was made under that stopped set, for that listener and name. */
  datatype Entry = Entry(key: string, decision: Decision, version: nat, listener: string, sni: string)

  /**
   allow and deny: what was ever put into each of the two caches. birth is history: the stopped set of the
   moment the runtime was published.
   */
  datatype Runtime = Runtime(rules: Rules, birth: nat, allow: seq<Entry>, deny: seq<Entry>)

  datatype Progress =
    | Arrived
    | Loaded(rt: nat)
    | NotAllowed(rt: nat)
    | Missed(rt: nat)
    | Looked(rt: nat, version: nat)
    | Decided(rt: nat, version: nat, decision: Decision)
    | Served(rt: nat, version: nat, decision: Decision)

  datatype Handler = Handler(listener: string, sni: string, at: Progress)

  datatype Stage = Asked | Stored(version: nat) | Copied(version: nat, rt: nat) | Done(version: nat)

  datatype Request = Request(key: Key, stop: bool, at: Stage)

  /** versions: every stopped set published so far; runtimes likewise. The last ones are current. */
  datatype State = State(versions: seq<set<Key>>, runtimes: seq<Runtime>, handlers: seq<Handler>, requests: seq<Request>)
  {
    ghost predicate Shaped() { |versions| > 0 && |runtimes| > 0 }

    function Live(): nat
      requires Shaped()
    {
      |runtimes| - 1
    }

    function Now(): nat
      requires Shaped()
    {
      |versions| - 1
    }

    function WithHandler(h: nat, at: Progress): State
      requires h < |handlers|
    {
      this.(handlers := handlers[h := handlers[h].(at := at)])
    }

    function WithRequest(q: nat, at: Stage): State
      requires q < |requests|
    {
      this.(requests := requests[q := requests[q].(at := at)])
    }

    function Publishing(rules: Rules): State
      requires Shaped()
    {
      this.(runtimes := runtimes + [Runtime(rules, Now(), [], [])])
    }
  }

  /** pick: which of the decisions put under its key a lookup answers, if any (see Answer). */
  datatype Action =
    | Arrive(listener: string, sni: string)
    | Advance(h: nat, pick: Option<nat>)
    | Ask(key: Key, stop: bool)
    | Work(q: nat)
    | Reload(rules: Rules)

  function CacheKey(listener: string, sni: string): string { listener + "\0" + sni }

  /** A name holds no NUL, so the cache key gives back the listener and the name. */
  lemma CacheKeyParts(l1: string, s1: string, l2: string, s2: string)
    requires '\0' !in s1 && '\0' !in s2 && CacheKey(l1, s1) == CacheKey(l2, s2)
    ensures l1 == l2 && s1 == s2
  {
    var k := CacheKey(l1, s1);
    assert k[|l1|] == '\0' && k[|l2|] == '\0';
    assert |l1| == |l2|;
    assert k[..|l1|] == l1 && k[..|l2|] == l2 && k[|l1| + 1..] == s1 && k[|l2| + 1..] == s2;
  }

  /**
   What a lookup answers while others insert, replace and evict: any decision ever put under the key, be it
   evicted or replaced meanwhile, or none. That it is no other is ClockRuns.AnswersWereStored.
   */
  function Answer(puts: seq<Entry>, key: string, pick: Option<nat>): (e: Option<Entry>)
    ensures e.Some? ==> e.value in puts && e.value.key == key
  {
    if pick.Some? && pick.value < |puts| && puts[pick.value].key == key then Some(puts[pick.value]) else None
  }

  /** The decision is put into the cache of its side, which may keep it or not. */
  function Put(r: Runtime, e: Entry): Runtime {
    if e.decision.allow then r.(allow := r.allow + [e]) else r.(deny := r.deny + [e])
  }

  /** The next atomic step of handler h in routing its connection. */
  function Step(route: Router, s: State, h: nat, pick: Option<nat>): (r: State)
    requires s.Shaped() && h < |s.handlers|
    ensures r.Shaped()
  {
    var k := s.handlers[h];
    var key := CacheKey(k.listener, k.sni);
    match k.at
    case Arrived => s.WithHandler(h, Loaded(s.Live()))
    case Loaded(rt) =>
      var hit := if rt < |s.runtimes| then Answer(s.runtimes[rt].allow, key, pick) else None;
      s.WithHandler(h, if hit.Some? then Served(rt, hit.value.version, hit.value.decision) else NotAllowed(rt))
    case NotAllowed(rt) =>
      var hit := if rt < |s.runtimes| then Answer(s.runtimes[rt].deny, key, pick) else None;
      s.WithHandler(h, if hit.Some? then Served(rt, hit.value.version, hit.value.decision) else Missed(rt))
    case Missed(rt) => s.WithHandler(h, Looked(rt, s.Now()))
    case Looked(rt, v) =>
      if rt < |s.runtimes| && v < |s.versions| then
        s.WithHandler(h, Decided(rt, v, route(s.runtimes[rt].rules, k.listener, k.sni, s.versions[v])))
      else s
    case Decided(rt, v, d) =>
      if rt < |s.runtimes| then
        s.WithHandler(h, Served(rt, v, d)).(
          runtimes := s.runtimes[rt := Put(s.runtimes[rt], Entry(key, d, v, k.listener, k.sni))])
      else s
    case Served(_, _, _) => s
  }

  function Toggled(stopped: set<Key>, key: Key, stop: bool): set<Key> {
    if stop then stopped + {key} else stopped - {key}
  }

  /** The next step of setRuleStopped. */
  function Serve(s: State, q: nat): (r: State)
    requires s.Shaped() && q < |s.requests|
    ensures r.Shaped()
  {
    var k := s.requests[q];
    match k.at
    case Asked =>
      s.WithRequest(q, Stored(|s.versions|)).(versions := s.versions + [Toggled(s.versions[s.Now()], k.key, k.stop)])
    case Stored(v) => s.WithRequest(q, Copied(v, s.Live()))
    case Copied(v, rt) =>
      if rt == s.Live() then s.WithRequest(q, Done(v)).Publishing(s.runtimes[rt].rules)
      else s.WithRequest(q, Stored(v))
    case Done(_) => s
  }

  function Do(route: Router, s: State, a: Action): (r: State)
    requires s.Shaped()
    ensures r.Shaped()
  {
    match a
    case Arrive(l, n) => if '\0' in n then s else s.(handlers := s.handlers + [Handler(l, n, Arrived)])
    case Advance(h, pick) => if h < |s.handlers| then Step(route, s, h, pick) else s
    case Ask(key, stop) => s.(requests := s.requests + [Request(key, stop, Asked)])
    case Work(q) => if q < |s.requests| then Serve(s, q) else s
    case Reload(rules) => s.Publishing(rules)
  }

  function Execute(route: Router, s: State, actions: seq<Action>): (r: State)
    requires s.Shaped()
    ensures r.Shaped()
    decreases |actions|
  {
    if actions == [] then s else Execute(route, Do(route, s, actions[0]), actions[1..])
  }

  function Start(rules: Rules): (s: State)
    ensures s.Shaped()
  {
    State([{}], [Runtime(rules, 0, [], [])], [], [])
  }

  // ----- What every run keeps -----

  /** A decision for the name, under a stopped set no older than the runtime's publication. */
  ghost predicate Current(route: Router, versions: seq<set<Key>>, r: Runtime, listener: string, sni: string, v: nat, d: Decision) {
    r.birth <= v < |versions| && d == route(r.rules, listener, sni, versions[v])
  }

  ghost predicate EntryOk(route: Router, versions: seq<set<Key>>, r: Runtime, e: Entry) {
    '\0' !in e.sni && e.key == CacheKey(e.listener, e.sni) &&
    Current(route, versions, r, e.listener, e.sni, e.version, e.decision)
  }

  ghost predicate RuntimeOk(route: Router, versions: seq<set<Key>>, r: Runtime) {
    r.birth < |versions| &&
    (forall e :: e in r.allow ==> EntryOk(route, versions, r, e) && e.decision.allow) &&
    (forall e :: e in r.deny ==> EntryOk(route, versions, r, e) && !e.decision.allow)
  }

  ghost predicate HandlerOk(route: Router, versions: seq<set<Key>>, runtimes: seq<Runtime>, k: Handler) {
    '\0' !in k.sni && (k.at.Arrived? || k.at.rt < |runtimes|) &&
    (k.at.Looked? ==> runtimes[k.at.rt].birth <= k.at.version < |versions|) &&
    (k.at.Decided? || k.at.Served? ==>
      Current(route, versions, runtimes[k.at.rt], k.listener, k.sni, k.at.version, k.at.decision))
  }

  /** A request that is done published a runtime that knows its stopped set, and so is the live one. */
  ghost predicate RequestOk(versions: seq<set<Key>>, live: Runtime, q: Request) {
    (!q.at.Asked? ==> q.at.version < |versions|) && (q.at.Done? ==> q.at.version <= live.birth)
  }

  ghost predicate Inv(route: Router, s: State) {
    s.Shaped() &&
    (forall i :: 0 <= i < |s.runtimes| ==> RuntimeOk(route, s.versions, s.runtimes[i])) &&
    (forall h :: 0 <= h < |s.handlers| ==> HandlerOk(route, s.versions, s.runtimes, s.handlers[h])) &&
    forall q :: 0 <= q < |s.requests| ==> RequestOk(s.versions, s.runtimes[s.Live()], s.requests[q])
  }

  /** Nothing published is forgotten, and later runtimes know later stopped sets. */
  ghost predicate Extends(s: State, t: State) {
    s.Shaped() && t.Shaped() && s.versions <= t.versions && |s.runtimes| <= |t.runtimes| &&
    (forall i :: 0 <= i < |s.runtimes| ==>
      t.runtimes[i].birth == s.runtimes[i].birth && t.runtimes[i].rules == s.runtimes[i].rules) &&
    forall i :: |s.runtimes| <= i < |t.runtimes| ==> t.runtimes[i].birth >= s.Now()
  }

  /** Handlers keep what they know when more is published and caches change otherwise. */
  lemma OthersKeepOk(route: Router, s: State, t: State)
    requires Inv(route, s) && Extends(s, t)
    ensures forall h :: 0 <= h < |s.handlers| ==> HandlerOk(route, t.versions, t.runtimes, s.handlers[h])
    ensures forall q :: 0 <= q < |s.requests| ==> RequestOk(t.versions, t.runtimes[t.Live()], s.requests[q])
  {
    assert RuntimeOk(route, s.versions, s.runtimes[s.Live()]);
    forall q | 0 <= q < |s.requests| ensures RequestOk(t.versions, t.runtimes[t.Live()], s.requests[q]) {
      assert RequestOk(s.versions, s.runtimes[s.Live()], s.requests[q]);
    }
    forall h | 0 <= h < |s.handlers| ensures HandlerOk(route, t.versions, t.runtimes, s.handlers[h]) {
      assert HandlerOk(route, s.versions, s.runtimes, s.handlers[h]);
    }
  }

  lemma RuntimeKeepsOk(route: Router, versions: seq<set<Key>>, more: seq<set<Key>>, r: Runtime)
    requires RuntimeOk(route, versions, r) && versions <= more
    ensures RuntimeOk(route, more, r)
  {
    forall e | e in r.allow || e in r.deny ensures EntryOk(route, more, r, e) {
      assert EntryOk(route, versions, r, e);
    }
  }

  /** A hit gives a decision for the handler's own name, made under a stopped set the cache may use. */
  lemma HitIsCurrent(route: Router, versions: seq<set<Key>>, r: Runtime, listener: string, sni: string, e: Entry)
    requires RuntimeOk(route, versions, r) && '\0' !in sni
    requires (e in r.allow || e in r.deny) && e.key == CacheKey(listener, sni)
    ensures Current(route, versions, r, listener, sni, e.version, e.decision)
  {
    assert EntryOk(route, versions, r, e);
    CacheKeyParts(listener, sni, e.listener, e.sni);
  }

  lemma PutKeepsOk(route: Router, versions: seq<set<Key>>, r: Runtime, e: Entry)
    requires RuntimeOk(route, versions, r) && EntryOk(route, versions, r, e)
    ensures RuntimeOk(route, versions, Put(r, e))
  {
    forall x | x in Put(r, e).allow || x in Put(r, e).deny ensures EntryOk(route, versions, Put(r, e), x) {
      assert x == e || x in r.allow || x in r.deny;
    }
  }

  lemma StepKeepsInv(route: Router, s: State, h: nat, pick: Option<nat>)
    requires Inv(route, s) && h < |s.handlers|
    ensures Inv(route, Step(route, s, h, pick)) && Extends(s, Step(route, s, h, pick))
  {
    var t := Step(route, s, h, pick);
    var k := s.handlers[h];
    assert HandlerOk(route, s.versions, s.runtimes, k);
    var rt := if k.at.Arrived? then s.Live() else k.at.rt;
    assert RuntimeOk(route, s.versions, s.runtimes[rt]);
    if (k.at.Loaded? || k.at.NotAllowed?) && t.handlers[h].at.Served? {
      var puts := if k.at.Loaded? then s.runtimes[rt].allow else s.runtimes[rt].deny;
      HitIsCurrent(route, s.versions, s.runtimes[rt], k.listener, k.sni, puts[pick.value]);
    }
    if k.at.Decided? {
      PutKeepsOk(route, s.versions, s.runtimes[rt],
        Entry(CacheKey(k.listener, k.sni), k.at.decision, k.at.version, k.listener, k.sni));
    }
    assert Extends(s, t);
    OthersKeepOk(route, s, t);
    assert HandlerOk(route, t.versions, t.runtimes, t.handlers[h]);
  }

  lemma ServeKeepsInv(route: Router, s: State, q: nat)
    requires Inv(route, s) && q < |s.requests|
    ensures Inv(route, Serve(s, q)) && Extends(s, Serve(s, q))
  {
    var t := Serve(s, q);
    assert RequestOk(s.versions, s.runtimes[s.Live()], s.requests[q]);
    OthersKeepOk(route, s, t);
    forall i | 0 <= i < |t.runtimes| ensures RuntimeOk(route, t.versions, t.runtimes[i]) {
      if i < |s.runtimes| {
        RuntimeKeepsOk(route, s.versions, t.versions, s.runtimes[i]);
      }
    }
  }

  lemma DoKeepsInv(route: Router, s: State, a: Action)
    requires Inv(route, s)
    ensures Inv(route, Do(route, s, a)) && Extends(s, Do(route, s, a))
  {
    if a.Advance? && a.h < |s.handlers| {
      StepKeepsInv(route, s, a.h, a.pick);
    } else if a.Work? && a.q < |s.requests| {
      ServeKeepsInv(route, s, a.q);
    } else {
      OthersKeepOk(route, s, Do(route, s, a));
    }
  }

  lemma {:induction false} EveryRun(route: Router, s: State, actions: seq<Action>)
    requires Inv(route, s)
    ensures Inv(route, Execute(route, s, actions)) && Extends(s, Execute(route, s, actions))
    decreases |actions|
  {
    if actions != [] {
      var t := Do(route, s, actions[0]);
      DoKeepsInv(route, s, actions[0]);
      EveryRun(route, t, actions[1..]);
      var u := Execute(route, t, actions[1..]);
      forall i | |s.runtimes| <= i < |u.runtimes| ensures u.runtimes[i].birth >= s.Now() {
        if i < |t.runtimes| {
          assert u.runtimes[i].birth == t.runtimes[i].birth;
        }
      }
    }
  }

  // ----- What a connection gets -----

  function Reference(isAddr: Routing.AddrCheck): Router {
    (rules, listener, sni, stopped) => Routing.Reference(isAddr, rules, listener, sni, stopped)
  }

  /**
   In every run, cached or not, a connection is routed as RouteExcept would with the rules of its
   runtime and a stopped set that was current at or after the runtime's publication.
   */
  lemma RoutedUnderACurrentSet(isAddr: Routing.AddrCheck, rules: Rules, actions: seq<Action>, h: nat)
    ensures var s := Execute(Reference(isAddr), Start(rules), actions);
      h < |s.handlers| && s.handlers[h].at.Served? ==>
        var k := s.handlers[h];
        k.at.rt < |s.runtimes| && s.runtimes[k.at.rt].birth <= k.at.version < |s.versions| &&
        k.at.decision == Routing.Reference(isAddr, s.runtimes[k.at.rt].rules, k.listener, k.sni, s.versions[k.at.version])
  {
    EveryRun(Reference(isAddr), Start(rules), actions);
    var s := Execute(Reference(isAddr), Start(rules), actions);
    if h < |s.handlers| {
      assert HandlerOk(Reference(isAddr), s.versions, s.runtimes, s.handlers[h]);
    }
  }

  /** Whether handler h has not loaded its runtime yet, or loaded one published no earlier than `from`. */
  ghost predicate NoEarlier(s: State, h: nat, from: nat) {
    h < |s.handlers| && (s.handlers[h].at.Arrived? || s.handlers[h].at.rt >= from)
  }

  lemma StepStaysNoEarlier(route: Router, s: State, a: Action, h: nat, from: nat)
    requires s.Shaped() && NoEarlier(s, h, from) && from <= s.Live()
    ensures NoEarlier(Do(route, s, a), h, from)
  {
  }

  lemma {:induction false} StaysNoEarlier(route: Router, s: State, actions: seq<Action>, h: nat, from: nat)
    requires Inv(route, s) && NoEarlier(s, h, from) && from <= s.Live()
    ensures NoEarlier(Execute(route, s, actions), h, from)
    decreases |actions|
  {
    if actions != [] {
      DoKeepsInv(route, s, actions[0]);
      StepStaysNoEarlier(route, s, actions[0], h, from);
      StaysNoEarlier(route, Do(route, s, actions[0]), actions[1..], h, from);
    }
  }

  /** A runtime that is live, or published later, knows every stopped set that was published by then. */
  lemma LaterKnows(s: State, t: State, rt: nat, v: nat)
    requires Extends(s, t) && s.Live() <= rt < |t.runtimes| && v <= s.runtimes[s.Live()].birth < |s.versions|
    ensures v <= t.runtimes[rt].birth
  {
  }

  /** Whoever starts routing after a request is done uses that request's stopped set, or a newer one. */
  lemma NoStopBefore(route: Router, s: State, after: seq<Action>, q: nat, h: nat)
    requires Inv(route, s) && q < |s.requests| && s.requests[q].at.Done?
    requires h < |s.handlers| && s.handlers[h].at.Arrived?
    ensures var t := Execute(route, s, after);
      h < |t.handlers| && (t.handlers[h].at.Served? ==> s.requests[q].at.version <= t.handlers[h].at.version)
  {
    EveryRun(route, s, after);
    StaysNoEarlier(route, s, after, h, s.Live());
    ServedKnows(route, s, Execute(route, s, after), q, h);
  }

  lemma ServedKnows(route: Router, s: State, t: State, q: nat, h: nat)
    requires Inv(route, s) && Inv(route, t) && Extends(s, t) && q < |s.requests| && s.requests[q].at.Done?
    requires NoEarlier(t, h, s.Live())
    ensures t.handlers[h].at.Served? ==> s.requests[q].at.version <= t.handlers[h].at.version
  {
    assert RequestOk(s.versions, s.runtimes[s.Live()], s.requests[q]);
    assert RuntimeOk(route, s.versions, s.runtimes[s.Live()]);
    assert HandlerOk(route, t.versions, t.runtimes, t.handlers[h]);
    if t.handlers[h].at.Served? {
      LaterKnows(s, t, t.handlers[h].at.rt, s.requests[q].at.version);
    }
  }

  /**
   A connection that starts routing after a rule has been stopped is never routed by that rule, from
   whatever cache the decision comes and however reloads and other requests interleave, as long as the
   rule is not started again.
   */
  lemma StoppedRuleIsNotUsed(
      isAddr: Routing.AddrCheck, rules: Rules, before: seq<Action>, after: seq<Action>, q: nat, h: nat)
    ensures var s := Execute(Reference(isAddr), Start(rules), before);
      var t := Execute(Reference(isAddr), s, after);
      q < |s.requests| && s.requests[q].at.Done? && h < |s.handlers| && s.handlers[h].at.Arrived? &&
      (forall v :: s.requests[q].at.version <= v < |t.versions| ==> s.requests[q].key in t.versions[v]) &&
      h < |t.handlers| && t.handlers[h].at.Served? && t.handlers[h].at.decision.rule.Some? ==>
        t.handlers[h].at.rt < |t.runtimes| &&
        var w, used := t.handlers[h].at.decision.rule.value, t.runtimes[t.handlers[h].at.rt].rules;
        w < |used| && Routing.KeyOf(used[w]) != s.requests[q].key
  {
    var route := Reference(isAddr);
    var s := Execute(route, Start(rules), before);
    var t := Execute(route, s, after);
    EveryRun(route, Start(rules), before);
    EveryRun(route, s, after);
    if q < |s.requests| && s.requests[q].at.Done? && h < |s.handlers| && s.handlers[h].at.Arrived? {
      NoStopBefore(route, s, after, q, h);
    }
    if h < |t.handlers| && t.handlers[h].at.Served? {
      assert HandlerOk(route, t.versions, t.runtimes, t.handlers[h]);
    }
  }

  // ----- One goroutine at a time -----

  /** A handler whose lookups answer nothing, from its first step to its last. */
  function Missing(route: Router, s: State, h: nat, k: nat): (r: State)
    requires s.Shaped()
    ensures r.Shaped()
    decreases k
  {
    if k == 0 then s else Missing(route, Do(route, s, Advance(h, None)), h, k - 1)
  }

  lemma SixSteps(route: Router, s: State, h: nat)
    requires s.Shaped()
    ensures var a := Do(route, Do(route, Do(route, s, Advance(h, None)), Advance(h, None)), Advance(h, None));
      Missing(route, s, h, 6) ==
      Do(route, Do(route, Do(route, a, Advance(h, None)), Advance(h, None)), Advance(h, None))
  {
    var a := Do(route, s, Advance(h, None));
    var b := Do(route, a, Advance(h, None));
    var c := Do(route, b, Advance(h, None));
    var d := Do(route, c, Advance(h, None));
    var e := Do(route, d, Advance(h, None));
    assert Missing(route, s, h, 6) == Missing(route, a, h, 5) && Missing(route, a, h, 5) == Missing(route, b, h, 4);
    assert Missing(route, b, h, 4) == Missing(route, c, h, 3) && Missing(route, c, h, 3) == Missing(route, d, h, 2);
    assert Missing(route, d, h, 2) == Missing(route, e, h, 1);
    assert Missing(route, e, h, 1) == Missing(route, Do(route, e, Advance(h, None)), h, 0);
  }

  /** A step that only moves the handler on. */
  lemma Moves(route: Router, s: State, h: nat, at: Progress, next: Progress)
    requires s.Shaped() && h < |s.handlers|
    requires match at
      case Arrived => next == Loaded(s.Live())
      case Loaded(rt) => next == NotAllowed(rt)
      case NotAllowed(rt) => next == Missed(rt)
      case Missed(rt) => next == Looked(rt, s.Now())
      case _ => false
    ensures Do(route, s.WithHandler(h, at), Advance(h, None)) == s.WithHandler(h, next)
  {
  }

  /**
   A connection by itself that finds nothing cached is routed by the live runtime's rules under the current
   stopped set, and its decision is put into the cache of its side, for its listener and name.
   */
  lemma HandlerByItself(route: Router, s: State, h: nat)
    requires s.Shaped() && h < |s.handlers| && s.handlers[h].at.Arrived?
    ensures var k, rt := s.handlers[h], s.Live();
      var d := route(s.runtimes[rt].rules, k.listener, k.sni, s.versions[s.Now()]);
      var e := Entry(CacheKey(k.listener, k.sni), d, s.Now(), k.listener, k.sni);
      var was := s.runtimes[rt];
      Missing(route, s, h, 6) == s.(
        handlers := s.handlers[h := k.(at := Served(rt, s.Now(), d))],
        runtimes := s.runtimes[rt :=
          if d.allow then was.(allow := was.allow + [e]) else was.(deny := was.deny + [e])])
  {
    var k, rt := s.handlers[h], s.Live();
    var d := route(s.runtimes[rt].rules, k.listener, k.sni, s.versions[s.Now()]);
    assert s.WithHandler(h, Arrived) == s;
    Moves(route, s, h, Arrived, Loaded(rt));
    Moves(route, s, h, Loaded(rt), NotAllowed(rt));
    Moves(route, s, h, NotAllowed(rt), Missed(rt));
    Moves(route, s, h, Missed(rt), Looked(rt, s.Now()));
    var a := s.WithHandler(h, Looked(rt, s.Now()));
    var b := s.WithHandler(h, Decided(rt, s.Now(), d));
    assert Do(route, a, Advance(h, None)) == b;
    SixSteps(route, s, h);
  }

  /** A hit serves the decision it answers, allowed names before denied ones. */
  lemma HitByItself(route: Router, s: State, h: nat, i: nat)
    requires s.Shaped() && h < |s.handlers| && (s.handlers[h].at.Loaded? || s.handlers[h].at.NotAllowed?)
    requires s.handlers[h].at.rt < |s.runtimes|
    ensures var k, rt := s.handlers[h], s.handlers[h].at.rt;
      var puts := if k.at.Loaded? then s.runtimes[rt].allow else s.runtimes[rt].deny;
      i < |puts| && puts[i].key == CacheKey(k.listener, k.sni) ==>
        Do(route, s, Advance(h, Some(i))) == s.WithHandler(h, Served(rt, puts[i].version, puts[i].decision))
  {
  }

  /**
   A request by itself publishes the stopped set with its rule in or out, and then a runtime with the same
   rules and empty caches; nothing else changes.
   */
  lemma RequestByItself(route: Router, s: State, q: nat)
    requires s.Shaped() && q < |s.requests| && s.requests[q].at.Asked?
    ensures var k, now := s.requests[q], s.versions[s.Now()];
      Do(route, Do(route, Do(route, s, Work(q)), Work(q)), Work(q)) == s.(
        requests := s.requests[q := k.(at := Done(|s.versions|))],
        versions := s.versions + [if k.stop then now + {k.key} else now - {k.key}],
        runtimes := s.runtimes + [Runtime(s.runtimes[s.Live()].rules, |s.versions|, [], [])])
  {
    var k := s.requests[q];
    var a := s.WithRequest(q, Stored(|s.versions|)).(versions := s.versions + [Toggled(s.versions[s.Now()], k.key, k.stop)]);
    assert Do(route, s, Work(q)) == a;
    var b := a.WithRequest(q, Copied(|s.versions|, s.Live()));
    assert Do(route, a, Work(q)) == b;
    assert b.requests == s.requests[q := k.(at := Copied(|s.versions|, s.Live()))];
    assert Do(route, b, Work(q)) == b.WithRequest(q, Done(|s.versions|)).Publishing(s.runtimes[s.Live()].rules);
  }

  /** A reload publishes its rules with empty caches; a request it overtakes starts its second half again. */
  lemma ReloadByItself(route: Router, s: State, rules: Rules, q: nat)
    requires s.Shaped()
    ensures Do(route, s, Reload(rules)) == s.(runtimes := s.runtimes + [Runtime(rules, s.Now(), [], [])])
    ensures q < |s.requests| && s.requests[q].at.Copied? && s.requests[q].at.rt != s.Live() ==>
      Do(route, s, Work(q)) == s.WithRequest(q, Stored(s.requests[q].at.version))
  {
  }

  /** A connection or a request that comes in; a name with a NUL never gets this far. */
  lemma ComesIn(route: Router, s: State, listener: string, sni: string, key: Key, stop: bool)
    requires s.Shaped()
    ensures Do(route, s, Arrive(listener, sni)) ==
      if '\0' in sni then s else s.(handlers := s.handlers + [Handler(listener, sni, Arrived)])
    ensures Do(route, s, Ask(key, stop)) == s.(requests := s.requests + [Request(key, stop, Asked)])
  {
  }
}
