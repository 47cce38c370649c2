/**
 The insert-only open-addressing tables of lockfree.go (hostTable) and localca.go (localCA.slot): a
 name claims the first empty slot of its probe sequence with a compare-and-swap, and nothing is ever
 deleted. One action per atomic load, compare-and-swap or counter update; a run is any sequence of
 actions of any number of goroutines. The keyed hash is an arbitrary function.
 */
module ProbeTable {
  import opened Bits
  import opened Wrappers

  const OTHER := "(other)"

  /**
   What a search is for: a lookup that never adds (localCA.find), localCA.entry, which adds while
   fewer than the maximum are in use, and the searches hostTable.get makes: for a name when the
   maximum is reached (GetKnown), for a name it may add (GetAdd), and for "(other)" (GetOther).
   */
  datatype Mode = Lookup | InsertUpTo | GetKnown | GetAdd | GetOther

  predicate Adds(m: Mode) { m != Lookup && m != GetKnown }

  /** A search: the name looked for, and the name the caller asked for (they differ for "(other)"). */
  datatype Query = Query(name: string, asked: string, mode: Mode)

  datatype Pc =
    | Idle
    | GetLoadCount(name: string)
    | Probe(q: Query, i: nat)
    | CheckRoom(q: Query, i: nat)
    | Claim(q: Query, i: nat)
    | Reread(q: Query, i: nat)
    | Count(q: Query, slot: nat)
    | Found(q: Query, slot: nat)
    | Missing(q: Query)
    | NoRoom(q: Query)

  /** probe is history: how many slots the name's probe sequence had passed when it was added. */
  datatype Entry = Entry(name: string, probe: nat)

  datatype Table = Table(hash: string -> nat, max: nat, slots: seq<Option<Entry>>, n: nat)
  {
    function Home(name: string, i: nat): (j: nat)
      requires |slots| >= 1
      ensures j < |slots|
    {
      Rem(hash(name) + i, |slots|)
    }
  }

  datatype State = State(tab: Table, threads: seq<Pc>)

  datatype Action = StartFind(t: nat, name: string, mode: Mode) | StartGet(t: nat, name: string) | Advance(t: nat)

  /** One atomic step of a goroutine at pc. */
  function Step(tab: Table, pc: Pc): (Table, Pc)
    requires |tab.slots| >= 1
  {
    match pc
    case Idle => (tab, pc)
    case GetLoadCount(name) =>
      if name != OTHER && tab.n >= tab.max then (tab, Probe(Query(name, name, GetKnown), 0))
      else (tab, Probe(Query(name, name, if name == OTHER then GetOther else GetAdd), 0))
    case Probe(q, i) =>
      if i >= |tab.slots| then (tab, Missing(q))
      else
        (match tab.slots[tab.Home(q.name, i)]
         case None =>
           (tab, if !Adds(q.mode) then Missing(q) else if q.mode == InsertUpTo then CheckRoom(q, i) else Claim(q, i))
         case Some(e) =>
           (tab, if e.name == q.name then Found(q, tab.Home(q.name, i)) else Probe(q, i + 1)))
    case CheckRoom(q, i) => (tab, if tab.n >= tab.max then NoRoom(q) else Claim(q, i))
    case Claim(q, i) =>
      var j := tab.Home(q.name, i);
      if tab.slots[j].None? then (tab.(slots := tab.slots[j := Some(Entry(q.name, i))]), Count(q, j))
      else (tab, Reread(q, i))
    case Reread(q, i) =>
      var j := tab.Home(q.name, i);
      (tab, if tab.slots[j].Some? && tab.slots[j].value.name == q.name then Found(q, j) else Probe(q, i + 1))
    case Count(q, j) => (tab.(n := tab.n + 1), Found(q, j))
    case Missing(q) =>
      if q.mode == GetKnown || q.mode == GetAdd then (tab, Probe(Query(OTHER, q.asked, GetOther), 0))
      else (tab, Idle)
    case _ => (tab, Idle)
  }

  function Do(s: State, a: Action): (r: State)
    requires |s.tab.slots| >= 1
    ensures |r.tab.slots| == |s.tab.slots| && |r.threads| == |s.threads|
  {
    if a.t >= |s.threads| then s
    else
      match a
      case StartFind(t, name, mode) =>
        if s.threads[t].Idle? && (mode == Lookup || mode == InsertUpTo) then
          s.(threads := s.threads[t := Probe(Query(name, name, mode), 0)])
        else s
      case StartGet(t, name) =>
        if s.threads[t].Idle? then s.(threads := s.threads[t := GetLoadCount(name)]) else s
      case Advance(t) =>
        var (tab, pc) := Step(s.tab, s.threads[t]);
        State(tab, s.threads[t := pc])
  }

  function Execute(s: State, actions: seq<Action>): (r: State)
    requires |s.tab.slots| >= 1
    ensures |r.tab.slots| == |s.tab.slots| && |r.threads| == |s.threads|
    decreases |actions|
  {
    if actions == [] then s else Execute(Do(s, actions[0]), actions[1..])
  }

  function Init(hash: string -> nat, max: nat, size: nat, threads: nat): State {
    State(Table(hash, max, seq(size, _ => None), 0), seq(threads, _ => Idle))
  }

  // ----- The invariant -----

  /** The first i slots of name's probe sequence are taken by other names. */
  ghost predicate Passed(tab: Table, name: string, i: nat)
    requires |tab.slots| >= 1
  {
    forall k: nat :: k < i ==> tab.slots[tab.Home(name, k)].Some? && tab.slots[tab.Home(name, k)].value.name != name
  }

  ghost predicate EntryOk(tab: Table, j: nat)
    requires j < |tab.slots|
  {
    tab.slots[j].Some? ==>
      var e := tab.slots[j].value;
      e.probe < |tab.slots| && tab.Home(e.name, e.probe) == j && Passed(tab, e.name, e.probe)
  }

  ghost predicate TableOk(tab: Table) {
    |tab.slots| >= 1 && forall j :: 0 <= j < |tab.slots| ==> EntryOk(tab, j)
  }

  ghost predicate QueryOk(q: Query) {
    if q.mode == GetOther then q.name == OTHER else q.name == q.asked && (q.mode == GetAdd ==> q.name != OTHER)
  }

  ghost predicate PcOk(tab: Table, pc: Pc)
    requires |tab.slots| >= 1
  {
    match pc
    case Idle => true
    case GetLoadCount(_) => true
    case Probe(q, i) => QueryOk(q) && i <= |tab.slots| && Passed(tab, q.name, i)
    case CheckRoom(q, i) => QueryOk(q) && i < |tab.slots| && Passed(tab, q.name, i) && q.mode == InsertUpTo
    case Claim(q, i) => QueryOk(q) && i < |tab.slots| && Passed(tab, q.name, i) && Adds(q.mode)
    case Reread(q, i) =>
      QueryOk(q) && i < |tab.slots| && Passed(tab, q.name, i) && tab.slots[tab.Home(q.name, i)].Some?
    case Count(q, j) => QueryOk(q) && Holds(tab, j, q.name)
    case Found(q, j) => QueryOk(q) && Holds(tab, j, q.name)
    case Missing(q) => QueryOk(q)
    case NoRoom(q) => QueryOk(q)
  }

  ghost predicate Holds(tab: Table, j: nat, name: string) {
    j < |tab.slots| && tab.slots[j].Some? && tab.slots[j].value.name == name
  }

  ghost predicate Contains(tab: Table, name: string) {
    exists j: nat :: Holds(tab, j, name)
  }

  /** Entries are never changed or removed. */
  ghost predicate Extends(a: Table, b: Table) {
    |a.slots| == |b.slots| && a.hash == b.hash && a.max == b.max && a.n <= b.n &&
    forall j :: 0 <= j < |a.slots| && a.slots[j].Some? ==> b.slots[j] == a.slots[j]
  }

  ghost predicate Inv(s: State) {
    TableOk(s.tab) && forall t :: 0 <= t < |s.threads| ==> PcOk(s.tab, s.threads[t])
  }

  lemma PassedStays(a: Table, b: Table, name: string, i: nat)
    requires |a.slots| >= 1 && Extends(a, b) && Passed(a, name, i)
    ensures Passed(b, name, i)
  {
    forall k: nat | k < i
      ensures b.slots[b.Home(name, k)].Some? && b.slots[b.Home(name, k)].value.name != name
    {
      assert b.Home(name, k) == a.Home(name, k);
    }
  }

  lemma StepTable(tab: Table, pc: Pc)
    requires TableOk(tab) && PcOk(tab, pc)
    ensures Extends(tab, Step(tab, pc).0) && TableOk(Step(tab, pc).0)
  {
    var r := Step(tab, pc).0;
    forall j | 0 <= j < |r.slots| ensures EntryOk(r, j) {
      assert EntryOk(tab, j);
      if r.slots[j].Some? {
        var e := r.slots[j].value;
        PassedStays(tab, r, e.name, e.probe);
        assert r.Home(e.name, e.probe) == tab.Home(e.name, e.probe);
      }
    }
  }

  lemma StepSelf(tab: Table, pc: Pc)
    requires TableOk(tab) && PcOk(tab, pc)
    ensures PcOk(Step(tab, pc).0, Step(tab, pc).1)
  {
  }

  lemma StepOther(a: Table, b: Table, other: Pc)
    requires |a.slots| >= 1 && Extends(a, b) && PcOk(a, other)
    ensures PcOk(b, other)
  {
    if other.Probe? || other.CheckRoom? || other.Claim? || other.Reread? {
      PassedStays(a, b, other.q.name, other.i);
      assert other.i < |a.slots| ==> b.Home(other.q.name, other.i) == a.Home(other.q.name, other.i);
    }
  }

  lemma DoKeepsInv(s: State, a: Action)
    requires Inv(s)
    ensures Inv(Do(s, a)) && Extends(s.tab, Do(s, a).tab)
  {
    var r := Do(s, a);
    if a.t < |s.threads| && a.Advance? {
      StepTable(s.tab, s.threads[a.t]);
      StepSelf(s.tab, s.threads[a.t]);
      forall u | 0 <= u < |s.threads| && u != a.t ensures PcOk(r.tab, r.threads[u]) {
        StepOther(s.tab, r.tab, s.threads[u]);
      }
    }
  }

  lemma {:induction false} EveryRun(s: State, actions: seq<Action>)
    requires Inv(s)
    ensures Inv(Execute(s, actions)) && Extends(s.tab, Execute(s, actions).tab)
    decreases |actions|
  {
    if actions != [] {
      DoKeepsInv(s, actions[0]);
      EveryRun(Do(s, actions[0]), actions[1..]);
    }
  }

  lemma InitOk(hash: string -> nat, max: nat, size: nat, threads: nat)
    requires size >= 1
    ensures Inv(Init(hash, max, size, threads))
  {
  }

  // ----- What it means for the callers -----

  /** A name has at most one entry. */
  lemma OneEntryPerName(tab: Table, j: nat, k: nat, name: string)
    requires TableOk(tab) && Holds(tab, j, name) && Holds(tab, k, name)
    ensures j == k
  {
    assert EntryOk(tab, j) && EntryOk(tab, k);
    var a, b := tab.slots[j].value.probe, tab.slots[k].value.probe;
    assert tab.Home(name, a) == j && tab.Home(name, b) == k;
  }

  /**
   Every caller that finds a name, now or in any later state of any run, gets the same entry, which
   is still that name's.
   */
  lemma SameEntryForever(s: State, actions: seq<Action>, t: nat, u: nat)
    requires Inv(s) && t < |s.threads| && u < |s.threads| && s.threads[t].Found?
    ensures var r := Execute(s, actions);
      r.threads[u].Found? && r.threads[u].q.name == s.threads[t].q.name ==>
        r.threads[u].slot == s.threads[t].slot && r.tab.slots[r.threads[u].slot] == s.tab.slots[s.threads[t].slot]
  {
    EveryRun(s, actions);
    var r := Execute(s, actions);
    assert PcOk(s.tab, s.threads[t]) && PcOk(r.tab, r.threads[u]);
    if r.threads[u].Found? && r.threads[u].q.name == s.threads[t].q.name {
      OneEntryPerName(r.tab, r.threads[u].slot, s.threads[t].slot, s.threads[t].q.name);
    }
  }

  /** The slots before an entry stay taken, so an empty one shows that the name is not there. */
  lemma EmptyMeansAbsent(tab: Table, name: string, i: nat)
    requires TableOk(tab) && Passed(tab, name, i)
    requires i < |tab.slots| ==> tab.slots[tab.Home(name, i)].None?
    ensures !Contains(tab, name)
  {
    forall j: nat ensures !Holds(tab, j, name) {
      assert j < |tab.slots| ==> EntryOk(tab, j);
    }
  }

  /** A search that ends without an entry ends at a moment when the name is not in the table. */
  lemma MissingMeansAbsent(s: State, t: nat)
    requires Inv(s) && t < |s.threads| && s.threads[t].Probe? && Do(s, Advance(t)).threads[t].Missing?
    ensures !Contains(s.tab, s.threads[t].q.name)
  {
    assert PcOk(s.tab, s.threads[t]);
    EmptyMeansAbsent(s.tab, s.threads[t].q.name, s.threads[t].i);
  }

  /**
   Once a name has its entry, no search for it ends without: a lookup that only reads finds every
   completed insertion, and hostTable.get never sends a known name to "(other)".
   */
  lemma KnownNamesAreFound(s: State, actions: seq<Action>, t: nat, name: string)
    requires Inv(s) && Contains(s.tab, name)
    ensures var r := Execute(s, actions);
      t < |r.threads| && r.threads[t].Probe? && r.threads[t].q.name == name ==>
        !Do(r, Advance(t)).threads[t].Missing? && !Do(r, Advance(t)).threads[t].CheckRoom? && !Do(r, Advance(t)).threads[t].Claim?
  {
    EveryRun(s, actions);
    var r := Execute(s, actions);
    var j: nat :| Holds(s.tab, j, name);
    assert Holds(r.tab, j, name);
    if t < |r.threads| && r.threads[t].Probe? && r.threads[t].q.name == name {
      assert PcOk(r.tab, r.threads[t]);
      var i := r.threads[t].i;
      if i >= |r.tab.slots| || r.tab.slots[r.tab.Home(name, i)].None? {
        EmptyMeansAbsent(r.tab, name, i);
      }
    }
  }

  // ----- The cap keeps the table from filling up -----

  function Total(threads: seq<Pc>, w: Pc -> nat): nat {
    if threads == [] then 0 else w(threads[0]) + Total(threads[1..], w)
  }

  /** How many slots hold an entry that counts. */
  function Entries(slots: seq<Option<Entry>>, counts: Entry -> bool): (r: nat)
    ensures r <= |slots|
  {
    if slots == [] then 0
    else (if slots[0].Some? && counts(slots[0].value) then 1 else 0) + Entries(slots[1..], counts)
  }

  /** The entry is made, its count is not. */
  function Uncounted(pc: Pc): nat { if pc.Count? then 1 else 0 }

  /** The goroutine saw room and may still add its name. */
  function Admitted(pc: Pc): nat {
    if (pc.Probe? || pc.Claim? || pc.Reread?) && pc.q.mode == GetAdd then 1
    else if pc.Claim? && pc.q.mode == InsertUpTo then 1
    else 0
  }

  predicate Any(e: Entry) { true }

  predicate Named(e: Entry) { e.name != OTHER }

  predicate Shared(e: Entry) { e.name == OTHER }

  lemma {:induction false} TotalUpdate(threads: seq<Pc>, t: nat, pc: Pc, w: Pc -> nat)
    requires t < |threads|
    ensures Total(threads[t := pc], w) + w(threads[t]) == Total(threads, w) + w(pc)
  {
    if t == 0 {
      assert threads[t := pc][1..] == threads[1..];
    } else {
      TotalUpdate(threads[1..], t - 1, pc, w);
      assert threads[t := pc][1..] == threads[1..][t - 1 := pc];
    }
  }

  /** Goroutine t counts in neither total, so the others bound the sum. */
  lemma {:induction false} TotalsBound(threads: seq<Pc>, t: nat)
    requires t < |threads| ==> Uncounted(threads[t]) == 0 && Admitted(threads[t]) == 0
    ensures Total(threads, Uncounted) + Total(threads, Admitted) <= |threads| - (if t < |threads| then 1 else 0)
  {
    if threads != [] {
      if t == 0 {
        TotalsBound(threads[1..], |threads|);
      } else {
        TotalsBound(threads[1..], t - 1);
      }
    }
  }

  lemma {:induction false} EntriesAdd(slots: seq<Option<Entry>>, j: nat, e: Entry, counts: Entry -> bool)
    requires j < |slots| && slots[j].None?
    ensures Entries(slots[j := Some(e)], counts) == Entries(slots, counts) + if counts(e) then 1 else 0
  {
    if j == 0 {
      assert slots[j := Some(e)][1..] == slots[1..];
    } else {
      EntriesAdd(slots[1..], j - 1, e, counts);
      assert slots[j := Some(e)][1..] == slots[1..][j - 1 := Some(e)];
    }
  }

  ghost predicate CapInv(s: State) {
    s.tab.n + Total(s.threads, Uncounted) == Entries(s.tab.slots, Any) &&
    Entries(s.tab.slots, Named) + Total(s.threads, Admitted) + 1 <= s.tab.max + |s.threads|
  }

  lemma {:induction false} EntriesSplit(slots: seq<Option<Entry>>)
    ensures Entries(slots, Any) == Entries(slots, Named) + Entries(slots, Shared)
  {
    if slots != [] {
      EntriesSplit(slots[1..]);
    }
  }

  /** The claim that adds an entry turns an admission into an entry that is not counted yet. */
  lemma AddKeepsCap(s: State, t: nat)
    requires Inv(s) && CapInv(s) && t < |s.threads| && s.threads[t].Claim?
    requires s.tab.slots[s.tab.Home(s.threads[t].q.name, s.threads[t].i)].None?
    ensures CapInv(Do(s, Advance(t)))
  {
    var q, i := s.threads[t].q, s.threads[t].i;
    assert PcOk(s.tab, s.threads[t]);
    TotalUpdate(s.threads, t, Count(q, s.tab.Home(q.name, i)), Uncounted);
    TotalUpdate(s.threads, t, Count(q, s.tab.Home(q.name, i)), Admitted);
    EntriesAdd(s.tab.slots, s.tab.Home(q.name, i), Entry(q.name, i), Any);
    EntriesAdd(s.tab.slots, s.tab.Home(q.name, i), Entry(q.name, i), Named);
  }

  /** Every other step counts what it made, and admits a goroutine only while there is room. */
  lemma StepWeights(tab: Table, pc: Pc)
    requires |tab.slots| >= 1
    requires pc.Claim? ==> tab.slots[tab.Home(pc.q.name, pc.i)].Some?
    ensures var (r, next) := Step(tab, pc);
      r.slots == tab.slots && r.max == tab.max && r.n + Uncounted(next) == tab.n + Uncounted(pc) &&
      (Admitted(next) > Admitted(pc) ==> tab.n < tab.max && Uncounted(pc) == 0)
  {
  }

  lemma DoKeepsCap(s: State, a: Action)
    requires Inv(s) && CapInv(s)
    ensures CapInv(Do(s, a))
  {
    if a.t < |s.threads| && Do(s, a) != s {
      var pc, next := s.threads[a.t], Do(s, a).threads[a.t];
      if a.Advance? && pc.Claim? && s.tab.slots[s.tab.Home(pc.q.name, pc.i)].None? {
        AddKeepsCap(s, a.t);
      } else {
        if a.Advance? {
          StepWeights(s.tab, pc);
        }
        OtherKeepsCap(s, a.t, next, Do(s, a));
      }
    }
  }

  lemma OtherKeepsCap(s: State, t: nat, next: Pc, r: State)
    requires CapInv(s) && t < |s.threads| && r.threads == s.threads[t := next]
    requires r.tab.slots == s.tab.slots && r.tab.max == s.tab.max
    requires r.tab.n + Uncounted(next) == s.tab.n + Uncounted(s.threads[t])
    requires Admitted(next) > Admitted(s.threads[t]) ==> s.tab.n < s.tab.max && Uncounted(s.threads[t]) == 0
    ensures CapInv(r)
  {
    TotalUpdate(s.threads, t, next, Uncounted);
    TotalUpdate(s.threads, t, next, Admitted);
    EntriesSplit(s.tab.slots);
    if Admitted(next) > Admitted(s.threads[t]) {
      TotalsBound(s.threads, t);
    }
  }

  lemma {:induction false} EveryRunKeepsCap(s: State, actions: seq<Action>)
    requires Inv(s) && CapInv(s)
    ensures Inv(Execute(s, actions)) && CapInv(Execute(s, actions))
    decreases |actions|
  {
    if actions != [] {
      DoKeepsInv(s, actions[0]);
      DoKeepsCap(s, actions[0]);
      EveryRunKeepsCap(Do(s, actions[0]), actions[1..]);
    }
  }

  lemma {:induction false} NoEntries(size: nat, counts: Entry -> bool, threads: nat, w: Pc -> nat)
    requires w(Idle) == 0
    ensures Entries(seq(size, _ => None), counts) == 0 && Total(seq(threads, _ => Idle), w) == 0
    decreases size + threads
  {
    if size > 0 {
      assert seq<Option<Entry>>(size, _ => None)[1..] == seq(size - 1, _ => None);
      NoEntries(size - 1, counts, threads, w);
    } else if threads > 0 {
      assert seq(threads, _ => Idle)[1..] == seq(threads - 1, _ => Idle);
      NoEntries(size, counts, threads - 1, w);
    }
  }

  /** At most one slot holds "(other)". */
  lemma {:induction false} FewShared(slots: seq<Option<Entry>>)
    requires forall j, k :: 0 <= j < k < |slots| ==>
      !(slots[j].Some? && slots[j].value.name == OTHER && slots[k].Some? && slots[k].value.name == OTHER)
    ensures Entries(slots, Shared) <= 1
    ensures Entries(slots, Shared) == 1 ==> exists j :: 0 <= j < |slots| && slots[j].Some? && slots[j].value.name == OTHER
  {
    if slots != [] {
      FewShared(slots[1..]);
    }
  }

  lemma {:induction false} FullMeansAll(slots: seq<Option<Entry>>)
    requires forall j :: 0 <= j < |slots| ==> slots[j].Some?
    ensures Entries(slots, Any) == |slots|
  {
    if slots != [] {
      FullMeansAll(slots[1..]);
    }
  }

  /** A probe sequence visits every slot. */
  lemma ProbeReaches(tab: Table, name: string, j: nat) returns (k: nat)
    requires j < |tab.slots|
    ensures k < |tab.slots| && tab.Home(name, k) == j
  {
    k := RemReaches(tab.hash(name), j, |tab.slots|);
  }

  /**
   Started empty, the table never holds more than the maximum of names plus one for each goroutine
   that raced past the check, plus "(other)"; so while fewer than size - max goroutines are inside
   at once no search of hostTable.get runs out of slots.
   */
  lemma CapPreventsFull(hash: string -> nat, max: nat, size: nat, threads: nat, actions: seq<Action>, t: nat)
    requires max + threads < size && max >= 1
    ensures var r := Execute(Init(hash, max, size, threads), actions);
      Entries(r.tab.slots, Named) < max + threads && Entries(r.tab.slots, Any) <= max + threads &&
      (t < threads && r.threads[t].Probe? ==> r.threads[t].i < size)
  {
    var s := Init(hash, max, size, threads);
    InitOk(hash, max, size, threads);
    NoEntries(size, Any, threads, Uncounted);
    NoEntries(size, Named, threads, Admitted);
    EveryRunKeepsCap(s, actions);
    EveryRun(s, actions);
    var r := Execute(s, actions);
    EntriesSplit(r.tab.slots);
    forall j, k | 0 <= j < k < |r.tab.slots|
      ensures !(r.tab.slots[j].Some? && r.tab.slots[j].value.name == OTHER &&
                r.tab.slots[k].Some? && r.tab.slots[k].value.name == OTHER)
    {
      if Holds(r.tab, j, OTHER) && Holds(r.tab, k, OTHER) {
        OneEntryPerName(r.tab, j, k, OTHER);
      }
    }
    FewShared(r.tab.slots);
    if t < threads && r.threads[t].Probe? && r.threads[t].i == size {
      assert PcOk(r.tab, r.threads[t]);
      forall j | 0 <= j < size ensures r.tab.slots[j].Some? {
        var k := ProbeReaches(r.tab, r.threads[t].q.name, j);
      }
      FullMeansAll(r.tab.slots);
    }
    assert t < threads ==> PcOk(r.tab, r.threads[t]);
  }

  // ----- One search at a time -----

  /** k steps of one goroutine with no other step between them. */
  function Steps(tab: Table, pc: Pc, k: nat): (r: (Table, Pc))
    requires |tab.slots| >= 1
    ensures |r.0.slots| >= 1
    decreases k
  {
    if k == 0 then (tab, pc)
    else var (more, next) := Step(tab, pc); Steps(more, next, k - 1)
  }

  lemma {:induction false} MoreSteps(tab: Table, pc: Pc, a: nat, b: nat)
    requires |tab.slots| >= 1
    ensures var (more, next) := Steps(tab, pc, a); Steps(tab, pc, a + b) == Steps(more, next, b)
    decreases a
  {
    if a > 0 {
      var (more, next) := Step(tab, pc);
      MoreSteps(more, next, a - 1, b);
    }
  }

  /** Slots taken by other names are passed one after the other. */
  lemma {:induction false} PassesOthers(tab: Table, q: Query, i: nat, f: nat)
    requires |tab.slots| >= 1 && i <= f <= |tab.slots| && Passed(tab, q.name, f)
    ensures Steps(tab, Probe(q, i), f - i) == (tab, Probe(q, f))
    decreases f - i
  {
    if i < f {
      assert Step(tab, Probe(q, i)) == (tab, Probe(q, i + 1));
      PassesOthers(tab, q, i + 1, f);
    }
  }

  /** A name that is in the table is found, in the slot that has it, and nothing changes. */
  lemma FoundByItself(tab: Table, q: Query, f: nat)
    requires |tab.slots| >= 1 && f < |tab.slots| && Passed(tab, q.name, f)
    requires tab.slots[tab.Home(q.name, f)].Some? && tab.slots[tab.Home(q.name, f)].value.name == q.name
    ensures Steps(tab, Probe(q, 0), f + 1) == (tab, Found(q, tab.Home(q.name, f)))
  {
    PassesOthers(tab, q, 0, f);
    MoreSteps(tab, Probe(q, 0), f, 1);
    assert Step(tab, Probe(q, f)) == (tab, Found(q, tab.Home(q.name, f)));
  }

  /** The table with the name in the slot its search came to, and counted. */
  function WithName(tab: Table, name: string, f: nat): Table
    requires |tab.slots| >= 1
  {
    tab.(slots := tab.slots[tab.Home(name, f) := Some(Entry(name, f))], n := tab.n + 1)
  }

  /**
   A name that is not in the table: a search that only looks says so; one that adds puts it into the first
   empty slot of its sequence and counts it, localCA's only while there is room.
   */
  lemma AbsentByItself(tab: Table, q: Query, f: nat)
    requires |tab.slots| >= 1 && f < |tab.slots| && Passed(tab, q.name, f)
    requires tab.slots[tab.Home(q.name, f)].None?
    ensures q.mode == Lookup || q.mode == GetKnown ==> Steps(tab, Probe(q, 0), f + 1) == (tab, Missing(q))
    ensures q.mode == GetAdd || q.mode == GetOther ==>
      Steps(tab, Probe(q, 0), f + 3) == (WithName(tab, q.name, f), Found(q, tab.Home(q.name, f)))
    ensures q.mode == InsertUpTo && tab.n < tab.max ==>
      Steps(tab, Probe(q, 0), f + 4) == (WithName(tab, q.name, f), Found(q, tab.Home(q.name, f)))
    ensures q.mode == InsertUpTo && tab.n >= tab.max ==> Steps(tab, Probe(q, 0), f + 2) == (tab, NoRoom(q))
  {
    PassesOthers(tab, q, 0, f);
    match q.mode {
      case GetAdd =>
        MoreSteps(tab, Probe(q, 0), f, 3);
        ClaimAlone(tab, q, f);
        assert Steps(tab, Probe(q, f), 3) == Steps(tab, Claim(q, f), 2);
      case GetOther =>
        MoreSteps(tab, Probe(q, 0), f, 3);
        ClaimAlone(tab, q, f);
        assert Steps(tab, Probe(q, f), 3) == Steps(tab, Claim(q, f), 2);
      case InsertUpTo =>
        ClaimAlone(tab, q, f);
        if tab.n < tab.max {
          MoreSteps(tab, Probe(q, 0), f, 4);
          assert Steps(tab, Probe(q, f), 4) == Steps(tab, CheckRoom(q, f), 3);
          assert Steps(tab, CheckRoom(q, f), 3) == Steps(tab, Claim(q, f), 2);
        } else {
          MoreSteps(tab, Probe(q, 0), f, 2);
          assert Steps(tab, Probe(q, f), 2) == Steps(tab, CheckRoom(q, f), 1);
        }
      case _ =>
        MoreSteps(tab, Probe(q, 0), f, 1);
        assert Steps(tab, Probe(q, f), 1) == Step(tab, Probe(q, f));
    }
  }

  lemma ClaimAlone(tab: Table, q: Query, f: nat)
    requires |tab.slots| >= 1 && tab.slots[tab.Home(q.name, f)].None?
    ensures Steps(tab, Claim(q, f), 2) == (WithName(tab, q.name, f), Found(q, tab.Home(q.name, f)))
  {
    var j := tab.Home(q.name, f);
    var claimed := tab.(slots := tab.slots[j := Some(Entry(q.name, f))]);
    assert Step(tab, Claim(q, f)) == (claimed, Count(q, j));
    assert Steps(tab, Claim(q, f), 2) == Steps(claimed, Count(q, j), 1);
  }

  /**
   hostTable.get looks for its name, adding it only below the maximum, and takes the shared entry when that
   ends with nothing; localCA.find and entry begin with their own name.
   */
  lemma SearchBegins(s: State, t: nat, name: string, mode: Mode)
    requires |s.tab.slots| >= 1 && t < |s.threads| && s.threads[t].Idle?
    ensures Do(Do(s, StartGet(t, name)), Advance(t)) == s.(threads := s.threads[t := Probe(Query(name, name,
      if name == OTHER then GetOther else if s.tab.n >= s.tab.max then GetKnown else GetAdd), 0)])
    ensures mode == Lookup || mode == InsertUpTo ==>
      Do(s, StartFind(t, name, mode)) == s.(threads := s.threads[t := Probe(Query(name, name, mode), 0)])
  {
  }

  /** A search that found its slot taken meanwhile looks at who has it, and goes on if it is another name. */
  lemma LostClaim(tab: Table, q: Query, i: nat)
    requires |tab.slots| >= 1 && tab.slots[tab.Home(q.name, i)].Some?
    ensures var e := tab.slots[tab.Home(q.name, i)].value;
      Steps(tab, Claim(q, i), 2) == (tab, if e.name == q.name then Found(q, tab.Home(q.name, i)) else Probe(q, i + 1))
  {
    assert Steps(tab, Claim(q, i), 2) == Steps(tab, Reread(q, i), 1);
    assert Steps(tab, Reread(q, i), 1) == Step(tab, Reread(q, i));
  }

  /** What a search that ends without its name goes on to. */
  lemma MissingGoesOn(tab: Table, q: Query)
    requires |tab.slots| >= 1
    ensures Step(tab, Missing(q)) == (tab,
      if q.mode == GetKnown || q.mode == GetAdd then Probe(Query(OTHER, q.asked, GetOther), 0) else Idle)
    ensures Step(tab, Probe(q, |tab.slots|)) == (tab, Missing(q))
  {
  }
}
