/**
 The capped map of cache.go used by many goroutines at once, as a transition system: one action per load,
 store or delete of the index, per access of an entry's value or flag, and per TryLock and Unlock of the
 insert lock. What the lock guards (the slots and the hand) changes together with the access next to it. A
 hit takes no lock, so flags may be set at any moment, also between the looks of a sweep.
 */
module ClockRuns {
  import opened Wrappers
  import Clock

  /** who: the call that stored the value (history). */
  datatype Value<V> = Value(val: V, who: nat)

  datatype Entry<V> = Entry(key: string, value: Value<V>, used: bool)

  /** entries: all entries there ever were. index and slots refer to them by number. */
  datatype Table<V> = Table(entries: seq<Entry<V>>, index: map<string, nat>, slots: seq<nat>, hand: nat)

  datatype Job<V> = Get(key: string) | Put(key: string, val: V)

  /** What a call does next. From LookAgain on, an insertion holds the lock. */
  datatype Next<V> =
    | Look
    | CheckUsed(e: nat)
    | SetUsed(e: nat)
    | ReadValue(e: nat)
    | Answered(r: Option<Value<V>>)
    | Replace(e: nat)
    | Lock
    | LookAgain
    | ReplaceLocked(e: nat)
    | Choose
    | LookAtHand
    | ClearHand
    | Drop
    | Publish(e: nat)
    | Unlock
    | Done

  datatype Call<V> = Call(job: Job<V>, next: Next<V>)

  /**
   holder: the call that holds the insert lock. looks and marks are history of the last sweep: how many
   entries it looked at, and how many flags hits have set since it began.
   */
  datatype State<V> = State(
    cap: int, table: Table<V>, calls: seq<Call<V>>, holder: Option<nat>, looks: nat, marks: nat)
  {
    function Goes(t: nat, next: Next<V>): State<V>
      requires t < |calls|
    {
      this.(calls := calls[t := calls[t].(next := next)])
    }
  }

  datatype Action<V> = Start(job: Job<V>) | Step(t: nat)

  // ----- The steps -----

  predicate Locked<V>(next: Next<V>) {
    next.LookAgain? || next.ReplaceLocked? || next.Choose? || next.LookAtHand? || next.ClearHand? || next.Drop? ||
    next.Publish? || next.Unlock?
  }

  function Bit(b: bool): nat { if b then 1 else 0 }

  function WithFlag<V>(b: Table<V>, e: nat, used: bool): Table<V>
    requires e < |b.entries|
  {
    b.(entries := b.entries[e := b.entries[e].(used := used)])
  }

  function WithValue<V>(b: Table<V>, e: nat, v: Value<V>): Table<V>
    requires e < |b.entries|
  {
    b.(entries := b.entries[e := b.entries[e].(value := v)])
  }

  /** A new entry in a new slot, not in the index yet. */
  function Appended<V>(b: Table<V>, key: string, v: Value<V>): Table<V> {
    b.(entries := b.entries + [Entry(key, v, false)], slots := b.slots + [|b.entries|])
  }

  /** A new entry in place of the one under the hand, which leaves the index. */
  function Evicted<V>(b: Table<V>, key: string, v: Value<V>): Table<V>
    requires b.hand < |b.slots| && b.slots[b.hand] < |b.entries|
  {
    Table(b.entries + [Entry(key, v, false)], b.index - {b.entries[b.slots[b.hand]].key},
          b.slots[b.hand := |b.entries|], Clock.Next(b.hand, |b.slots|))
  }

  /** The table after the hand has cleared an entry and moved past it. */
  function Cleared<V>(b: Table<V>): Table<V>
    requires b.hand < |b.slots| && b.slots[b.hand] < |b.entries|
  {
    WithFlag(b, b.slots[b.hand], false).(hand := Clock.Next(b.hand, |b.slots|))
  }

  /** Where a step goes that takes no lock and changes nothing. */
  function After<V>(s: State<V>, k: Call<V>): Next<V>
    requires CallOk(s, k)
  {
    match k.next
    case Look =>
      if k.job.Put? && s.cap <= 0 then Done
      else if k.job.key in s.table.index then
        if k.job.Get? then CheckUsed(s.table.index[k.job.key]) else Replace(s.table.index[k.job.key])
      else if k.job.Get? then Answered(None) else Lock
    case CheckUsed(e) => if s.table.entries[e].used then ReadValue(e) else SetUsed(e)
    case ReadValue(e) => Answered(Some(s.table.entries[e].value))
    case Lock => Done
    case other => other
  }

  /** The steps that change something; Put's value is stored by call t. */
  function Marking<V>(s: State<V>, t: nat, e: nat): State<V>
    requires t < |s.calls| && e < |s.table.entries|
  {
    s.Goes(t, ReadValue(e)).(
      table := WithFlag(s.table, e, true), marks := s.marks + 1 - Bit(s.table.entries[e].used))
  }

  function Replacing<V>(s: State<V>, t: nat, e: nat, next: Next<V>): State<V>
    requires t < |s.calls| && s.calls[t].job.Put? && e < |s.table.entries|
  {
    s.Goes(t, next).(table := WithValue(s.table, e, Value(s.calls[t].job.val, t)))
  }

  function Appending<V>(s: State<V>, t: nat): State<V>
    requires t < |s.calls| && s.calls[t].job.Put?
  {
    s.Goes(t, Publish(|s.table.entries|)).(
      table := Appended(s.table, s.calls[t].job.key, Value(s.calls[t].job.val, t)))
  }

  function Looking<V>(s: State<V>, t: nat): State<V>
    requires t < |s.calls| && Sweeping(s, s.calls[t])
  {
    var used := s.table.entries[s.table.slots[s.table.hand]].used;
    s.Goes(t, if used then ClearHand else Drop).(looks := s.looks + 1)
  }

  function Clearing<V>(s: State<V>, t: nat): State<V>
    requires t < |s.calls| && Sweeping(s, s.calls[t])
  {
    s.Goes(t, LookAtHand).(table := Cleared(s.table))
  }

  function Dropping<V>(s: State<V>, t: nat): State<V>
    requires t < |s.calls| && Sweeping(s, s.calls[t])
  {
    s.Goes(t, Publish(|s.table.entries|)).(
      table := Evicted(s.table, s.calls[t].job.key, Value(s.calls[t].job.val, t)))
  }

  function Publishing<V>(s: State<V>, t: nat, e: nat): State<V>
    requires t < |s.calls|
  {
    s.Goes(t, Unlock).(table := s.table.(index := s.table.index[s.calls[t].job.key := e]))
  }

  /** Get, and Put up to the lock: what call t does without it. */
  function Unlocked<V>(s: State<V>, t: nat): State<V>
    requires t < |s.calls| && CallOk(s, s.calls[t]) && !Locked(s.calls[t].next)
  {
    var k := s.calls[t];
    match k.next
    case SetUsed(e) => Marking(s, t, e)
    case Replace(e) => Replacing(s, t, e, Done)
    case _ =>
      if k.next.Lock? && s.holder.None? then s.Goes(t, LookAgain).(holder := Some(t)) else s.Goes(t, After(s, k))
  }

  /** Put with the lock held by call t. */
  function Inserting<V>(s: State<V>, t: nat): State<V>
    requires t < |s.calls| && CallOk(s, s.calls[t]) && Locked(s.calls[t].next)
  {
    var k, b := s.calls[t], s.table;
    match k.next
    case LookAgain => s.Goes(t, if k.job.key in b.index then ReplaceLocked(b.index[k.job.key]) else Choose)
    case ReplaceLocked(e) => Replacing(s, t, e, Unlock)
    case Choose =>
      if |b.slots| < s.cap then Appending(s, t) else s.Goes(t, LookAtHand).(looks := 0, marks := 0)
    case LookAtHand => Looking(s, t)
    case ClearHand => Clearing(s, t)
    case Drop => Dropping(s, t)
    case Publish(e) => Publishing(s, t, e)
    case Unlock => s.Goes(t, Done).(holder := None)
  }

  function Do<V>(s: State<V>, a: Action<V>): State<V>
    requires Inv(s)
  {
    match a
    case Start(job) => s.(calls := s.calls + [Call(job, Look)])
    case Step(t) =>
      if t >= |s.calls| then s
      else
        assert CallOk(s, s.calls[t]);
        if Locked(s.calls[t].next) then Inserting(s, t) else Unlocked(s, t)
  }

  function Empty<V>(cap: int): State<V> { State(cap, Table([], map[], [], 0), [], None, 0, 0) }

  // ----- The invariant -----

  function Room(cap: int): nat { if cap > 0 then cap else 0 }

  /** How many entries in the slots are marked as used. */
  function Used<V>(entries: seq<Entry<V>>, slots: seq<nat>): nat {
    if slots == [] then 0
    else
      var last := slots[|slots| - 1];
      Used(entries, slots[..|slots| - 1]) + if last < |entries| && entries[last].used then 1 else 0
  }

  ghost predicate Indexed<V>(b: Table<V>, e: nat) {
    e < |b.entries| && b.entries[e].key in b.index && b.index[b.entries[e].key] == e
  }

  /**
   The index and the slots hold the same entries, each under its own key, in one slot; pending is the entry
   that an insertion has put in its slot and not yet in the index.
   */
  ghost predicate TableOk<V>(b: Table<V>, cap: int, pending: Option<nat>) {
    (forall k :: k in b.index ==> b.index[k] in b.slots && b.index[k] < |b.entries| && b.entries[b.index[k]].key == k) &&
    (forall i :: 0 <= i < |b.slots| ==>
      b.slots[i] < |b.entries| && (pending == Some(b.slots[i]) || Indexed(b, b.slots[i]))) &&
    (forall i, j :: 0 <= i < j < |b.slots| ==> b.slots[i] != b.slots[j]) &&
    |b.slots| <= Room(cap) && (cap > 0 ==> b.hand < cap) && (|b.slots| < cap ==> b.hand == 0)
  }

  function PendingOf<V>(next: Next<V>): Option<nat> { if next.Publish? then Some(next.e) else None }

  /** The insertion under way, if any, may have an entry pending. */
  function Pending<V>(s: State<V>): Option<nat> {
    if s.holder.Some? && s.holder.value < |s.calls| then PendingOf(s.calls[s.holder.value].next) else None
  }

  /** The value was stored under this key, by the call it names. */
  ghost predicate StoredBy<V>(s: State<V>, key: string, v: Value<V>) {
    v.who < |s.calls| && s.calls[v.who].job == Put(key, v.val)
  }

  ghost predicate EntriesOk<V>(s: State<V>) {
    forall e :: 0 <= e < |s.table.entries| ==> StoredBy(s, s.table.entries[e].key, s.table.entries[e].value)
  }

  ghost predicate HolderOk<V>(s: State<V>) {
    (s.holder.Some? ==> s.holder.value < |s.calls|) &&
    forall t :: 0 <= t < |s.calls| ==> (Locked(s.calls[t].next) <==> s.holder == Some(t))
  }

  /** A call at this step holds an entry of its key. */
  ghost predicate Has<V>(s: State<V>, k: Call<V>, e: nat) {
    e < |s.table.entries| && s.table.entries[e].key == k.job.key
  }

  /** The sweep goes on: every slot is taken, and there is no entry of the key. */
  ghost predicate Sweeping<V>(s: State<V>, k: Call<V>) {
    k.job.Put? && k.job.key !in s.table.index && |s.table.slots| == s.cap &&
    s.table.hand < |s.table.slots| && s.table.slots[s.table.hand] < |s.table.entries|
  }

  ghost predicate CallOk<V>(s: State<V>, k: Call<V>) {
    var b := s.table;
    match k.next
    case Look => true
    case CheckUsed(e) => k.job.Get? && Has(s, k, e)
    case SetUsed(e) => k.job.Get? && Has(s, k, e)
    case ReadValue(e) => k.job.Get? && Has(s, k, e)
    case Answered(r) => k.job.Get? && (r.Some? ==> StoredBy(s, k.job.key, r.value))
    case Replace(e) => k.job.Put? && Has(s, k, e)
    case Lock => k.job.Put? && s.cap > 0
    case LookAgain => k.job.Put? && s.cap > 0
    case ReplaceLocked(e) => k.job.Put? && Has(s, k, e) && k.job.key in b.index
    case Choose => k.job.Put? && s.cap > 0 && k.job.key !in b.index
    case LookAtHand => Sweeping(s, k) && s.looks + Used(b.entries, b.slots) <= s.cap + s.marks
    case ClearHand =>
      Sweeping(s, k) && s.looks + Used(b.entries, b.slots) <= s.cap + s.marks + 1 &&
      b.entries[b.slots[b.hand]].used
    case Drop => Sweeping(s, k)
    case Publish(e) => k.job.Put? && Has(s, k, e) && k.job.key !in b.index && e in b.slots
    case Unlock => k.job.Put? && k.job.key in b.index
    case Done => k.job.Put?
  }

  ghost predicate Inv<V>(s: State<V>) {
    TableOk(s.table, s.cap, Pending(s)) && EntriesOk(s) && HolderOk(s) &&
    (forall t :: 0 <= t < |s.calls| ==> CallOk(s, s.calls[t])) && s.looks <= Room(s.cap) + s.marks + 1
  }

  lemma EmptyOk<V>(cap: int)
    ensures Inv(Empty<V>(cap))
  {
  }

  // ----- Flags -----

  lemma {:induction false} UsedAtMost<V>(entries: seq<Entry<V>>, slots: seq<nat>)
    ensures Used(entries, slots) <= |slots|
    decreases |slots|
  {
    if slots != [] {
      UsedAtMost(entries, slots[..|slots| - 1]);
    }
  }

  /** Setting a flag changes the number of used entries by that one flag, if its entry is in a slot. */
  lemma {:induction false} UsedWithFlag<V>(b: Table<V>, slots: seq<nat>, e: nat, used: bool)
    requires e < |b.entries| && forall i, j :: 0 <= i < j < |slots| ==> slots[i] != slots[j]
    ensures Used(WithFlag(b, e, used).entries, slots) ==
      Used(b.entries, slots) + if e in slots then Bit(used) - Bit(b.entries[e].used) else 0
    decreases |slots|
  {
    if slots != [] {
      UsedWithFlag(b, slots[..|slots| - 1], e, used);
    }
  }

  lemma {:induction false} UsedWithValue<V>(b: Table<V>, slots: seq<nat>, e: nat, v: Value<V>)
    requires e < |b.entries|
    ensures Used(WithValue(b, e, v).entries, slots) == Used(b.entries, slots)
    decreases |slots|
  {
    if slots != [] {
      UsedWithValue(b, slots[..|slots| - 1], e, v);
    }
  }

  // ----- What the steps do to the table -----

  /** Entry e changes, but not its key. */
  lemma EntryChangeOk<V>(b: Table<V>, cap: int, pending: Option<nat>, e: nat, x: Entry<V>)
    requires TableOk(b, cap, pending) && e < |b.entries| && x.key == b.entries[e].key
    ensures TableOk(b.(entries := b.entries[e := x]), cap, pending)
  {
    var c := b.(entries := b.entries[e := x]);
    forall i | 0 <= i < |c.slots| ensures pending == Some(c.slots[i]) || Indexed(c, c.slots[i]) {
      assert pending == Some(b.slots[i]) || Indexed(b, b.slots[i]);
    }
  }

  lemma AppendedOk<V>(b: Table<V>, cap: int, key: string, v: Value<V>)
    requires TableOk(b, cap, None) && |b.slots| < cap && key !in b.index
    ensures TableOk(Appended(b, key, v), cap, Some(|b.entries|))
    ensures |b.entries| in Appended(b, key, v).slots
  {
    var c := Appended(b, key, v);
    assert c.slots[|b.slots|] == |b.entries|;
    forall k | k in c.index ensures c.index[k] in c.slots {
      InPlace(b.slots, c.slots, b.index[k]);
    }
    forall i | 0 <= i < |c.slots| ensures Some(|b.entries|) == Some(c.slots[i]) || Indexed(c, c.slots[i]) {
      assert i < |b.slots| ==> Indexed(b, b.slots[i]);
    }
  }

  lemma EvictedOk<V>(b: Table<V>, cap: int, key: string, v: Value<V>)
    requires TableOk(b, cap, None) && |b.slots| == cap && b.hand < |b.slots| && key !in b.index
    ensures TableOk(Evicted(b, key, v), cap, Some(|b.entries|))
    ensures |b.entries| in Evicted(b, key, v).slots
  {
    var c := Evicted(b, key, v);
    assert c.slots[b.hand] == |b.entries|;
    assert Indexed(b, b.slots[b.hand]);
    forall k | k in c.index ensures c.index[k] in c.slots {
      InPlace(b.slots, c.slots, b.index[k]);
    }
    forall i | 0 <= i < |c.slots| ensures Some(|b.entries|) == Some(c.slots[i]) || Indexed(c, c.slots[i]) {
      assert Indexed(b, b.slots[i]);
    }
  }

  lemma PublishedOk<V>(b: Table<V>, cap: int, key: string, e: nat)
    requires TableOk(b, cap, Some(e)) && e < |b.entries| && b.entries[e].key == key && key !in b.index && e in b.slots
    ensures TableOk(b.(index := b.index[key := e]), cap, None)
  {
    var c := b.(index := b.index[key := e]);
    forall i | 0 <= i < |c.slots| ensures Indexed(c, c.slots[i]) {
      assert e == b.slots[i] || Indexed(b, b.slots[i]);
    }
  }

  /** A slot that keeps its entry still holds it. */
  lemma InPlace(a: seq<nat>, b: seq<nat>, e: nat)
    requires e in a && |a| <= |b| && forall i :: 0 <= i < |a| && a[i] == e ==> b[i] == e
    ensures e in b
  {
    var i :| 0 <= i < |a| && a[i] == e;
    assert b[i] == e;
  }

  // ----- Every step keeps the invariant -----

  /** Nothing that calls without the lock rely on is lost: jobs, and the keys of entries. */
  ghost predicate Grows<V>(s: State<V>, r: State<V>) {
    r.cap == s.cap && |r.calls| >= |s.calls| && |r.table.entries| >= |s.table.entries| &&
    (forall t :: 0 <= t < |s.calls| ==> r.calls[t].job == s.calls[t].job) &&
    forall e :: 0 <= e < |s.table.entries| ==> r.table.entries[e].key == s.table.entries[e].key
  }

  lemma UnlockedStaysOk<V>(s: State<V>, r: State<V>, k: Call<V>)
    requires Grows(s, r) && CallOk(s, k) && !Locked(k.next)
    ensures CallOk(r, k)
  {
  }

  /** While the holder of the lock takes a step the other calls do not rely on anything it changes. */
  lemma OthersStayOk<V>(s: State<V>, r: State<V>, t: nat)
    requires Inv(s) && t < |s.calls| && Locked(s.calls[t].next) && Grows(s, r)
    requires |r.calls| == |s.calls| && forall u :: 0 <= u < |s.calls| && u != t ==> r.calls[u] == s.calls[u]
    requires CallOk(r, r.calls[t])
    ensures forall u :: 0 <= u < |r.calls| ==> CallOk(r, r.calls[u])
  {
    forall u | 0 <= u < |r.calls| ensures CallOk(r, r.calls[u]) {
      if u != t {
        assert CallOk(s, s.calls[u]);
        UnlockedStaysOk(s, r, s.calls[u]);
      }
    }
  }

  /** A step without the lock that only moves its own call on. */
  lemma MovesOn<V>(s: State<V>, t: nat, next: Next<V>)
    requires Inv(s) && t < |s.calls| && !Locked(s.calls[t].next) && !Locked(next)
    requires CallOk(s, s.calls[t].(next := next))
    ensures Inv(s.Goes(t, next))
  {
    var r := s.Goes(t, next);
    forall u | 0 <= u < |r.calls| ensures CallOk(r, r.calls[u]) {
      assert CallOk(s, s.calls[u]);
      SameTableSameCall(s, r, r.calls[u]);
    }
  }

  lemma SameTableSameCall<V>(s: State<V>, r: State<V>, k: Call<V>)
    requires Grows(s, r) && r.table == s.table && r.looks == s.looks && r.marks == s.marks && CallOk(s, k)
    ensures CallOk(r, k)
  {
  }

  /** Hits and replacements change a flag or a value, and move their own call on without the lock. */
  ghost predicate SamePlaces<V>(s: State<V>, r: State<V>, t: nat) {
    r.cap == s.cap && r.holder == s.holder && r.looks == s.looks && |r.calls| == |s.calls| &&
    r.table == s.table.(entries := r.table.entries) && Grows(s, r) && |r.table.entries| == |s.table.entries| &&
    (forall u :: 0 <= u < |s.calls| && u != t ==> r.calls[u] == s.calls[u]) &&
    t < |s.calls| && !Locked(s.calls[t].next) && !Locked(r.calls[t].next)
  }

  /** The other calls do not notice, if the account of the sweep still holds. */
  lemma OtherCallStaysOk<V>(s: State<V>, r: State<V>, t: nat, u: nat)
    requires SamePlaces(s, r, t) && u < |s.calls| && u != t && CallOk(s, s.calls[u])
    requires Used(r.table.entries, r.table.slots) + s.marks <= Used(s.table.entries, s.table.slots) + r.marks
    requires forall e :: 0 <= e < |s.table.entries| && s.table.entries[e].used ==> r.table.entries[e].used
    ensures CallOk(r, r.calls[u])
  {
    if !Locked(s.calls[u].next) {
      UnlockedStaysOk(s, r, s.calls[u]);
    }
  }

  lemma MarkedOk<V>(b: Table<V>, cap: int, pending: Option<nat>, e: nat)
    requires TableOk(b, cap, pending) && e < |b.entries|
    ensures TableOk(WithFlag(b, e, true), cap, pending)
    ensures Used(WithFlag(b, e, true).entries, b.slots) + Bit(b.entries[e].used) <= Used(b.entries, b.slots) + 1
  {
    UsedWithFlag(b, b.slots, e, true);
    EntryChangeOk(b, cap, pending, e, b.entries[e].(used := true));
  }

  lemma MarkKeepsInv<V>(s: State<V>, t: nat, e: nat)
    requires Inv(s) && t < |s.calls| && s.calls[t].next == SetUsed(e) && CallOk(s, s.calls[t])
    ensures Inv(Marking(s, t, e))
  {
    var r := Marking(s, t, e);
    MarkedOk(s.table, s.cap, Pending(s), e);
    EntriesStayOk(s, r, t, e);
    EntryStepKeepsInv(s, r, t);
  }

  lemma ReplacedOk<V>(b: Table<V>, cap: int, pending: Option<nat>, e: nat, v: Value<V>)
    requires TableOk(b, cap, pending) && e < |b.entries|
    ensures TableOk(WithValue(b, e, v), cap, pending)
    ensures Used(WithValue(b, e, v).entries, b.slots) == Used(b.entries, b.slots)
  {
    UsedWithValue(b, b.slots, e, v);
    EntryChangeOk(b, cap, pending, e, b.entries[e].(value := v));
  }

  lemma ReplaceKeepsInv<V>(s: State<V>, t: nat, e: nat)
    requires Inv(s) && t < |s.calls| && s.calls[t].next == Replace(e) && CallOk(s, s.calls[t])
    ensures Inv(Replacing(s, t, e, Done))
  {
    var r := Replacing(s, t, e, Done);
    ReplacedOk(s.table, s.cap, Pending(s), e, Value(s.calls[t].job.val, t));
    EntriesStayOk(s, r, t, e);
    EntryStepKeepsInv(s, r, t);
  }

  /** One entry has changed: its value, if at all, to that of call t. */
  lemma EntriesStayOk<V>(s: State<V>, r: State<V>, t: nat, e: nat)
    requires EntriesOk(s) && SamePlaces(s, r, t) && e < |s.table.entries|
    requires forall i :: 0 <= i < |s.table.entries| && i != e ==> r.table.entries[i] == s.table.entries[i]
    requires var v := r.table.entries[e].value;
      v == s.table.entries[e].value || StoredBy(s, s.table.entries[e].key, v)
    ensures EntriesOk(r)
  {
    forall i | 0 <= i < |r.table.entries| ensures StoredBy(r, r.table.entries[i].key, r.table.entries[i].value) {
      assert StoredBy(s, s.table.entries[i].key, s.table.entries[i].value);
    }
  }

  lemma EntryStepKeepsInv<V>(s: State<V>, r: State<V>, t: nat)
    requires Inv(s) && SamePlaces(s, r, t) && CallOk(r, r.calls[t]) && EntriesOk(r) && s.marks <= r.marks
    requires TableOk(r.table, s.cap, Pending(s))
    requires Used(r.table.entries, r.table.slots) + s.marks <= Used(s.table.entries, s.table.slots) + r.marks
    requires forall e :: 0 <= e < |s.table.entries| && s.table.entries[e].used ==> r.table.entries[e].used
    ensures Inv(r)
  {
    forall u | 0 <= u < |r.calls| ensures CallOk(r, r.calls[u]) {
      if u != t {
        OtherCallStaysOk(s, r, t, u);
      }
    }
  }

  lemma LockKeepsInv<V>(s: State<V>, t: nat)
    requires Inv(s) && t < |s.calls| && s.calls[t].next.Lock? && s.holder.None?
    ensures Inv(s.Goes(t, LookAgain).(holder := Some(t)))
  {
    var r := s.Goes(t, LookAgain).(holder := Some(t));
    assert CallOk(s, s.calls[t]);
    forall u | 0 <= u < |r.calls| ensures CallOk(r, r.calls[u]) {
      assert CallOk(s, s.calls[u]);
      if u != t {
        SameTableSameCall(s, r, s.calls[u]);
      }
    }
  }

  lemma AfterOk<V>(s: State<V>, k: Call<V>)
    requires TableOk(s.table, s.cap, Pending(s)) && EntriesOk(s) && CallOk(s, k) && !Locked(k.next)
    ensures CallOk(s, k.(next := After(s, k))) && !Locked(After(s, k))
  {
    if k.next.ReadValue? {
      assert StoredBy(s, k.job.key, s.table.entries[k.next.e].value);
    }
  }

  /** The steps of hits and replacements that change an entry. */
  lemma EntryKeepsInv<V>(s: State<V>, t: nat)
    requires Inv(s) && t < |s.calls| && CallOk(s, s.calls[t]) && (s.calls[t].next.SetUsed? || s.calls[t].next.Replace?)
    ensures Inv(Unlocked(s, t))
  {
    if s.calls[t].next.SetUsed? {
      MarkKeepsInv(s, t, s.calls[t].next.e);
    } else {
      ReplaceKeepsInv(s, t, s.calls[t].next.e);
    }
  }

  lemma UnlockedKeepsInv<V>(s: State<V>, t: nat)
    requires Inv(s) && t < |s.calls| && CallOk(s, s.calls[t]) && !Locked(s.calls[t].next)
    ensures Inv(Unlocked(s, t))
  {
    var k := s.calls[t];
    if k.next.SetUsed? || k.next.Replace? {
      EntryKeepsInv(s, t);
    } else if k.next.Lock? && s.holder.None? {
      LockKeepsInv(s, t);
    } else {
      AfterOk(s, k);
      MovesOn(s, t, After(s, k));
    }
  }

  // ----- With the lock -----

  /** What a step of the lock's holder has to keep for the invariant. */
  lemma HolderMoves<V>(s: State<V>, r: State<V>, t: nat)
    requires Inv(s) && t < |s.calls| && Locked(s.calls[t].next) && r.holder == s.holder && Grows(s, r)
    requires |r.calls| == |s.calls| && forall u :: 0 <= u < |s.calls| && u != t ==> r.calls[u] == s.calls[u]
    requires Locked(r.calls[t].next) && CallOk(r, r.calls[t])
    requires TableOk(r.table, s.cap, PendingOf(r.calls[t].next)) && EntriesOk(r)
    requires r.looks <= Room(r.cap) + r.marks + 1
    ensures Inv(r)
  {
    OthersStayOk(s, r, t);
  }

  /** The lock's holder stores its value in a new entry or an old one. */
  lemma StoringKeepsInv<V>(s: State<V>, t: nat, next: Next<V>, b: Table<V>)
    requires Inv(s) && t < |s.calls| && Locked(s.calls[t].next) && s.calls[t].job.Put?
    requires |b.entries| >= |s.table.entries|
    requires forall e :: 0 <= e < |s.table.entries| ==> b.entries[e].key == s.table.entries[e].key
    requires forall e :: 0 <= e < |b.entries| ==>
      (e < |s.table.entries| && b.entries[e].value == s.table.entries[e].value) ||
      (b.entries[e].key == s.calls[t].job.key && b.entries[e].value == Value(s.calls[t].job.val, t))
    requires TableOk(b, s.cap, PendingOf(next)) && (next.Publish? || next.Unlock?)
    requires CallOk(s.(table := b), s.calls[t].(next := next))
    ensures Inv(s.Goes(t, next).(table := b))
  {
    var r := s.Goes(t, next).(table := b);
    forall e | 0 <= e < |b.entries| ensures StoredBy(r, b.entries[e].key, b.entries[e].value) {
      assert e < |s.table.entries| ==> StoredBy(s, s.table.entries[e].key, s.table.entries[e].value);
    }
    HolderMoves(s, r, t);
  }

  lemma LookAgainKeepsInv<V>(s: State<V>, t: nat)
    requires Inv(s) && t < |s.calls| && s.calls[t].next.LookAgain?
    ensures var k := s.calls[t].job.key;
      Inv(s.Goes(t, if k in s.table.index then ReplaceLocked(s.table.index[k]) else Choose))
  {
    var k := s.calls[t].job.key;
    assert CallOk(s, s.calls[t]);
    HolderMoves(s, s.Goes(t, if k in s.table.index then ReplaceLocked(s.table.index[k]) else Choose), t);
  }

  lemma ReplaceLockedKeepsInv<V>(s: State<V>, t: nat, e: nat)
    requires Inv(s) && t < |s.calls| && s.calls[t].next == ReplaceLocked(e) && CallOk(s, s.calls[t])
    ensures Inv(Replacing(s, t, e, Unlock))
  {
    var v := Value(s.calls[t].job.val, t);
    EntryChangeOk(s.table, s.cap, None, e, s.table.entries[e].(value := v));
    StoringKeepsInv(s, t, Unlock, WithValue(s.table, e, v));
  }

  lemma AppendKeepsInv<V>(s: State<V>, t: nat)
    requires Inv(s) && t < |s.calls| && s.calls[t].next.Choose? && CallOk(s, s.calls[t]) && |s.table.slots| < s.cap
    ensures Inv(Appending(s, t))
  {
    var k := s.calls[t].job;
    AppendedOk(s.table, s.cap, k.key, Value(k.val, t));
    StoringKeepsInv(s, t, Publish(|s.table.entries|), Appended(s.table, k.key, Value(k.val, t)));
  }

  lemma BeginSweep<V>(s: State<V>, t: nat)
    requires Inv(s) && t < |s.calls| && s.calls[t].next.Choose? && |s.table.slots| >= s.cap
    ensures Inv(s.Goes(t, LookAtHand).(looks := 0, marks := 0))
  {
    assert CallOk(s, s.calls[t]);
    UsedAtMost(s.table.entries, s.table.slots);
    HolderMoves(s, s.Goes(t, LookAtHand).(looks := 0, marks := 0), t);
  }

  lemma LookAtHandKeepsInv<V>(s: State<V>, t: nat)
    requires Inv(s) && t < |s.calls| && s.calls[t].next.LookAtHand? && Sweeping(s, s.calls[t])
    ensures Inv(Looking(s, t))
  {
    assert CallOk(s, s.calls[t]);
    HolderMoves(s, Looking(s, t), t);
  }

  lemma ClearedOk<V>(b: Table<V>, cap: int)
    requires TableOk(b, cap, None) && b.hand < |b.slots| == cap && b.entries[b.slots[b.hand]].used
    ensures TableOk(Cleared(b), cap, None)
    ensures Used(Cleared(b).entries, b.slots) == Used(b.entries, b.slots) - 1
  {
    UsedWithFlag(b, b.slots, b.slots[b.hand], false);
    UnmarkedOk(b, cap, b.slots[b.hand]);
  }

  lemma UnmarkedOk<V>(b: Table<V>, cap: int, e: nat)
    requires TableOk(b, cap, None) && e < |b.entries|
    ensures TableOk(WithFlag(b, e, false), cap, None)
  {
    EntryChangeOk(b, cap, None, e, b.entries[e].(used := false));
  }

  lemma ClearKeepsInv<V>(s: State<V>, t: nat)
    requires Inv(s) && t < |s.calls| && s.calls[t].next.ClearHand? && CallOk(s, s.calls[t])
    ensures Inv(Clearing(s, t))
  {
    ClearedOk(s.table, s.cap);
    HolderMoves(s, Clearing(s, t), t);
  }

  lemma DropKeepsInv<V>(s: State<V>, t: nat)
    requires Inv(s) && t < |s.calls| && s.calls[t].next.Drop? && CallOk(s, s.calls[t])
    ensures Inv(Dropping(s, t))
  {
    var k := s.calls[t].job;
    EvictedOk(s.table, s.cap, k.key, Value(k.val, t));
    StoringKeepsInv(s, t, Publish(|s.table.entries|), Evicted(s.table, k.key, Value(k.val, t)));
  }

  lemma PublishKeepsInv<V>(s: State<V>, t: nat, e: nat)
    requires Inv(s) && t < |s.calls| && s.calls[t].next == Publish(e) && CallOk(s, s.calls[t])
    ensures Inv(Publishing(s, t, e))
  {
    PublishedOk(s.table, s.cap, s.calls[t].job.key, e);
    StoringKeepsInv(s, t, Unlock, s.table.(index := s.table.index[s.calls[t].job.key := e]));
  }

  lemma UnlockKeepsInv<V>(s: State<V>, t: nat)
    requires Inv(s) && t < |s.calls| && s.calls[t].next.Unlock? && s.calls[t].job.Put?
    ensures Inv(s.Goes(t, Done).(holder := None))
  {
    OthersStayOk(s, s.Goes(t, Done).(holder := None), t);
  }

  /** Inserting apart from choosing a slot. */
  lemma NoSweepKeepsInv<V>(s: State<V>, t: nat)
    requires Inv(s) && t < |s.calls| && CallOk(s, s.calls[t]) && Locked(s.calls[t].next)
    requires var n := s.calls[t].next; n.LookAgain? || n.ReplaceLocked? || n.Publish? || n.Unlock?
    ensures Inv(Inserting(s, t))
  {
    match s.calls[t].next {
      case LookAgain => LookAgainKeepsInv(s, t);
      case ReplaceLocked(e) => ReplaceLockedKeepsInv(s, t, e);
      case Publish(e) => PublishKeepsInv(s, t, e);
      case Unlock => UnlockKeepsInv(s, t);
    }
  }

  lemma ChooseKeepsInv<V>(s: State<V>, t: nat)
    requires Inv(s) && t < |s.calls| && CallOk(s, s.calls[t]) && s.calls[t].next.Choose?
    ensures Inv(Inserting(s, t))
  {
    if |s.table.slots| < s.cap {
      AppendKeepsInv(s, t);
    } else {
      BeginSweep(s, t);
    }
  }

  lemma SweepKeepsInv<V>(s: State<V>, t: nat)
    requires Inv(s) && t < |s.calls| && CallOk(s, s.calls[t])
    requires var n := s.calls[t].next; n.LookAtHand? || n.ClearHand? || n.Drop?
    ensures Inv(Inserting(s, t))
  {
    match s.calls[t].next {
      case LookAtHand => LookAtHandKeepsInv(s, t);
      case ClearHand => ClearKeepsInv(s, t);
      case Drop => DropKeepsInv(s, t);
    }
  }

  lemma InsertingKeepsInv<V>(s: State<V>, t: nat)
    requires Inv(s) && t < |s.calls| && CallOk(s, s.calls[t]) && Locked(s.calls[t].next)
    ensures Inv(Inserting(s, t))
  {
    match s.calls[t].next {
      case Choose => ChooseKeepsInv(s, t);
      case LookAtHand => SweepKeepsInv(s, t);
      case ClearHand => SweepKeepsInv(s, t);
      case Drop => SweepKeepsInv(s, t);
      case _ => NoSweepKeepsInv(s, t);
    }
  }

  lemma StartKeepsInv<V>(s: State<V>, job: Job<V>)
    requires Inv(s)
    ensures Inv(Do(s, Start(job)))
  {
    var r := Do(s, Start(job));
    forall u | 0 <= u < |r.calls| ensures CallOk(r, r.calls[u]) {
      if u < |s.calls| {
        assert CallOk(s, s.calls[u]);
        SameTableSameCall(s, r, s.calls[u]);
      }
    }
  }

  lemma DoKeepsInv<V>(s: State<V>, a: Action<V>)
    requires Inv(s)
    ensures Inv(Do(s, a))
  {
    match a {
      case Start(job) => StartKeepsInv(s, job);
      case Step(t) =>
        if t < |s.calls| {
          assert CallOk(s, s.calls[t]);
          if Locked(s.calls[t].next) {
            InsertingKeepsInv(s, t);
          } else {
            UnlockedKeepsInv(s, t);
          }
        }
    }
  }

  /**
   Every state that calls can reach, however their steps interleave. A sweep looks at most once at each
   slot and once more, and once more for each flag that a hit has set since it began.
   */
  function Execute<V>(s: State<V>, actions: seq<Action<V>>): (r: State<V>)
    requires Inv(s)
    ensures Inv(r) && r.cap == s.cap && r.looks <= Room(s.cap) + 1 + r.marks
    decreases |actions|
  {
    if actions == [] then s
    else
      DoKeepsInv(s, actions[0]);
      Execute(Do(s, actions[0]), actions[1..])
  }

  /** The states of a new map. */
  function Reached<V>(cap: int, actions: seq<Action<V>>): (r: State<V>)
    ensures Inv(r) && r.cap == cap && r.looks <= Room(cap) + 1 + r.marks
  {
    EmptyOk<V>(cap);
    Execute(Empty(cap), actions)
  }

  // ----- What callers rely on -----

  /** In every run what a lookup answers was stored, under the key it asked for. */
  lemma AnswersWereStored<V>(cap: int, actions: seq<Action<V>>, t: nat)
    ensures var s := Reached(cap, actions);
      t < |s.calls| && s.calls[t].next.Answered? && s.calls[t].next.r.Some? ==>
        StoredBy(s, s.calls[t].job.key, s.calls[t].next.r.value)
  {
    var s := Reached(cap, actions);
    if t < |s.calls| {
      assert CallOk(s, s.calls[t]);
    }
  }

  /** In every run a key is in one slot at most, also while an insertion is under way. */
  lemma OneSlotPerKey<V>(cap: int, actions: seq<Action<V>>, i: nat, j: nat)
    ensures var b := Reached(cap, actions).table;
      i < j < |b.slots| ==>
        b.slots[i] < |b.entries| && b.slots[j] < |b.entries| && b.entries[b.slots[i]].key != b.entries[b.slots[j]].key
  {
    var s := Reached(cap, actions);
    if i < j < |s.table.slots| {
      SlotsDiffer(s, i, j);
    }
  }

  lemma SlotsDiffer<V>(s: State<V>, i: nat, j: nat)
    requires Inv(s) && i < j < |s.table.slots|
    ensures s.table.slots[i] < |s.table.entries| && s.table.slots[j] < |s.table.entries|
    ensures s.table.entries[s.table.slots[i]].key != s.table.entries[s.table.slots[j]].key
  {
    var b := s.table;
    assert Pending(s) == Some(b.slots[i]) || Indexed(b, b.slots[i]);
    assert Pending(s) == Some(b.slots[j]) || Indexed(b, b.slots[j]);
    if Pending(s).Some? {
      assert CallOk(s, s.calls[s.holder.value]);
    }
  }

  /** In every run an insertion that got the lock has its key in the index when it releases it. */
  lemma InsertedIsThere<V>(cap: int, actions: seq<Action<V>>, t: nat)
    ensures var s := Reached(cap, actions);
      t < |s.calls| && s.calls[t].next.Unlock? ==> s.calls[t].job.key in s.table.index
  {
    var s := Reached(cap, actions);
    if t < |s.calls| {
      assert CallOk(s, s.calls[t]);
    }
  }

  /** Nobody ever waits: every call that is not over moves on with its next step, whoever holds the lock. */
  lemma NobodyWaits<V>(cap: int, actions: seq<Action<V>>, t: nat)
    ensures var s := Reached(cap, actions);
      t < |s.calls| && !s.calls[t].next.Answered? && !s.calls[t].next.Done? ==>
        t < |Do(s, Step(t)).calls| && Do(s, Step(t)).calls[t].next != s.calls[t].next
  {
    var s := Reached(cap, actions);
    if t < |s.calls| {
      assert CallOk(s, s.calls[t]);
    }
  }

  // ----- One call at a time -----

  /** What the slots hold, as Clock has it. */
  function ViewOf<V>(b: Table<V>): (r: Clock.View<V>)
    requires forall i :: 0 <= i < |b.slots| ==> b.slots[i] < |b.entries|
    ensures |r.slots| == |b.slots| && r.hand == b.hand
    ensures forall i :: 0 <= i < |b.slots| ==>
      var e := b.entries[b.slots[i]]; r.slots[i] == Clock.Slot(e.key, e.value.val, e.used)
  {
    Clock.View(seq(|b.slots|, i requires 0 <= i < |b.slots| =>
      var e := b.entries[b.slots[i]]; Clock.Slot(e.key, e.value.val, e.used)), b.hand)
  }

  /** With no entry pending the index finds exactly what the slots hold. */
  lemma IndexFinds<V>(b: Table<V>, cap: int, key: string)
    requires TableOk(b, cap, None)
    ensures var w := Clock.Where(ViewOf(b).slots, key);
      if key in b.index then w.Some? && b.slots[w.value] == b.index[key] else w.None?
  {
    var w := Clock.Where(ViewOf(b).slots, key);
    if w.Some? {
      assert Indexed(b, b.slots[w.value]);
    }
    if key in b.index {
      var i :| 0 <= i < |b.slots| && b.slots[i] == b.index[key];
      assert ViewOf(b).slots[i].key == key;
    }
  }

  lemma FlagShows<V>(b: Table<V>, cap: int, key: string)
    requires TableOk(b, cap, None) && key in b.index
    ensures ViewOf(WithFlag(b, b.index[key], true)) == Clock.Hit(ViewOf(b), key)
  {
    IndexFinds(b, cap, key);
    assert ViewOf(WithFlag(b, b.index[key], true)).slots == Clock.Hit(ViewOf(b), key).slots;
  }

  lemma ValueShows<V>(b: Table<V>, cap: int, key: string, v: Value<V>)
    requires TableOk(b, cap, None) && key in b.index
    ensures ViewOf(WithValue(b, b.index[key], v)) == Clock.Replace(ViewOf(b), key, v.val)
  {
    IndexFinds(b, cap, key);
    assert ViewOf(WithValue(b, b.index[key], v)).slots == Clock.Replace(ViewOf(b), key, v.val).slots;
  }

  lemma ClearShows<V>(b: Table<V>, cap: int)
    requires TableOk(b, cap, None) && b.hand < |b.slots|
    ensures ViewOf(Cleared(b)) == Clock.PassOne(ViewOf(b))
  {
    assert ViewOf(Cleared(b)).slots == Clock.PassOne(ViewOf(b)).slots;
  }

  lemma AppendShows<V>(b: Table<V>, cap: int, key: string, v: Value<V>)
    requires TableOk(b, cap, None)
    ensures ViewOf(Appended(b, key, v)) == ViewOf(b).(slots := ViewOf(b).slots + [Clock.Slot(key, v.val, false)])
  {
    assert ViewOf(Appended(b, key, v)).slots == ViewOf(b).slots + [Clock.Slot(key, v.val, false)];
  }

  lemma EvictShows<V>(b: Table<V>, cap: int, key: string, v: Value<V>)
    requires TableOk(b, cap, None) && b.hand < |b.slots|
    ensures ViewOf(Evicted(b, key, v)) ==
      Clock.View(ViewOf(b).slots[b.hand := Clock.Slot(key, v.val, false)], Clock.Next(b.hand, |b.slots|))
  {
    assert ViewOf(Evicted(b, key, v)).slots == ViewOf(b).slots[b.hand := Clock.Slot(key, v.val, false)];
  }

  /** n steps of call t, with no step of another call between them. */
  function Alone<V>(s: State<V>, t: nat, n: nat): (r: State<V>)
    requires Inv(s)
    ensures Inv(r)
    decreases n
  {
    if n == 0 then s
    else
      DoKeepsInv(s, Step(t));
      Alone(Do(s, Step(t)), t, n - 1)
  }

  /** Call t has come to this step, and leaves the slots like this. */
  ghost predicate At<V>(s: State<V>, t: nat, next: Next<V>, view: Clock.View<V>) {
    Inv(s) && t < |s.calls| && s.calls[t].next == next && ViewOf(s.table) == view
  }

  /** By itself call t comes to this step, and leaves the slots like this. */
  ghost predicate Comes<V>(s: State<V>, t: nat, next: Next<V>, view: Clock.View<V>)
    requires Inv(s)
  {
    exists n: nat :: At(Alone(s, t, n), t, next, view)
  }

  lemma Arrived<V>(s: State<V>, t: nat, next: Next<V>, view: Clock.View<V>)
    requires At(s, t, next, view)
    ensures Comes(s, t, next, view)
  {
    assert At(Alone(s, t, 0), t, next, view);
  }

  lemma OneStepMore<V>(s: State<V>, r: State<V>, t: nat, next: Next<V>, view: Clock.View<V>)
    requires Inv(s) && r == Do(s, Step(t)) && Inv(r) && Comes(r, t, next, view)
    ensures Comes(s, t, next, view)
  {
    var n: nat :| At(Alone(r, t, n), t, next, view);
    assert Alone(s, t, n + 1) == Alone(r, t, n);
  }

  /** The last step. */
  lemma Finally<V>(s: State<V>, r: State<V>, t: nat, next: Next<V>, view: Clock.View<V>)
    requires Inv(s) && r == Do(s, Step(t)) && t < |r.calls| && r.calls[t].next == next
    requires Inv(r) ==> ViewOf(r.table) == view
    ensures Comes(s, t, next, view)
  {
    DoKeepsInv(s, Step(t));
    Arrived(r, t, next, view);
    OneStepMore(s, r, t, next, view);
  }

  lemma GetFromRead<V>(s: State<V>, t: nat, e: nat)
    requires Inv(s) && t < |s.calls| && s.calls[t].next == ReadValue(e) && e < |s.table.entries|
    ensures Comes(s, t, Answered(Some(s.table.entries[e].value)), ViewOf(s.table))
  {
    Finally(s, Do(s, Step(t)), t, Answered(Some(s.table.entries[e].value)), ViewOf(s.table));
  }

  lemma SetsFlag<V>(s: State<V>, t: nat, e: nat) returns (r: State<V>)
    requires Inv(s) && t < |s.calls| && s.calls[t].next == SetUsed(e) && e < |s.table.entries|
    ensures Inv(r) && r == Do(s, Step(t)) && |r.calls| == |s.calls| && r.calls[t].next == ReadValue(e)
    ensures r.table == WithFlag(s.table, e, true)
  {
    r := Do(s, Step(t));
    DoKeepsInv(s, Step(t));
  }

  lemma GetFromSet<V>(s: State<V>, t: nat, key: string)
    requires Inv(s) && Pending(s).None? && key in s.table.index
    requires t < |s.calls| && s.calls[t].next == SetUsed(s.table.index[key])
    ensures Comes(s, t, Answered(Some(s.table.entries[s.table.index[key]].value)), Clock.Hit(ViewOf(s.table), key))
  {
    var e := s.table.index[key];
    FlagShows(s.table, s.cap, key);
    var r := SetsFlag(s, t, e);
    GetFromRead(r, t, e);
    OneStepMore(s, r, t, Answered(Some(s.table.entries[e].value)), ViewOf(r.table));
  }

  lemma GetFromCheck<V>(s: State<V>, t: nat, key: string)
    requires Inv(s) && Pending(s).None? && key in s.table.index
    requires t < |s.calls| && s.calls[t].next == CheckUsed(s.table.index[key])
    ensures Comes(s, t, Answered(Some(s.table.entries[s.table.index[key]].value)), Clock.Hit(ViewOf(s.table), key))
  {
    var e := s.table.index[key];
    var r := Do(s, Step(t));
    DoKeepsInv(s, Step(t));
    if s.table.entries[e].used {
      assert WithFlag(s.table, e, true) == s.table;
      FlagShows(s.table, s.cap, key);
      GetFromRead(r, t, e);
    } else {
      StillQuiet(s, r, t);
      GetFromSet(r, t, key);
    }
    OneStepMore(s, r, t, Answered(Some(s.table.entries[e].value)), Clock.Hit(ViewOf(s.table), key));
  }

  lemma StillQuiet<V>(s: State<V>, r: State<V>, t: nat)
    requires Inv(s) && t < |s.calls| && Pending(s).None? && r.holder == s.holder && |r.calls| == |s.calls|
    requires forall u :: 0 <= u < |s.calls| && u != t ==> r.calls[u] == s.calls[u]
    requires !r.calls[t].next.Publish?
    ensures Pending(r).None?
  {
  }

  lemma GetKnown<V>(s: State<V>, t: nat)
    requires Inv(s) && Pending(s).None? && t < |s.calls| && s.calls[t].next.Look? && s.calls[t].job.Get?
    requires s.calls[t].job.key in s.table.index
    ensures var key := s.calls[t].job.key;
      Comes(s, t, Answered(Some(s.table.entries[s.table.index[key]].value)), Clock.Hit(ViewOf(s.table), key))
  {
    var key := s.calls[t].job.key;
    var r := Do(s, Step(t));
    DoKeepsInv(s, Step(t));
    StillQuiet(s, r, t);
    GetFromCheck(r, t, key);
    OneStepMore(s, r, t, Answered(Some(s.table.entries[s.table.index[key]].value)), Clock.Hit(ViewOf(s.table), key));
  }

  /** By itself, with no entry pending, Get answers what Clock says and marks what Clock marks. */
  lemma GetByItself<V>(s: State<V>, t: nat) returns (a: Option<Value<V>>)
    requires Inv(s) && Pending(s).None? && t < |s.calls| && s.calls[t].next.Look? && s.calls[t].job.Get?
    ensures Comes(s, t, Answered(a), Clock.Hit(ViewOf(s.table), s.calls[t].job.key))
    ensures Clock.Lookup(ViewOf(s.table), s.calls[t].job.key) == if a.Some? then Some(a.value.val) else None
  {
    var key := s.calls[t].job.key;
    IndexFinds(s.table, s.cap, key);
    if key in s.table.index {
      a := Some(s.table.entries[s.table.index[key]].value);
      GetKnown(s, t);
    } else {
      a := None;
      Finally(s, Do(s, Step(t)), t, Answered(None), ViewOf(s.table));
    }
  }

  // ----- One insertion at a time -----

  lemma ViewFits<V>(b: Table<V>, cap: int)
    requires TableOk(b, cap, None)
    ensures Clock.Fits(ViewOf(b), cap)
  {
    forall i, j | 0 <= i < j < |b.slots| ensures b.entries[b.slots[i]].key != b.entries[b.slots[j]].key {
      assert Indexed(b, b.slots[i]) && Indexed(b, b.slots[j]);
    }
  }

  lemma PutFromUnlock<V>(s: State<V>, t: nat)
    requires Inv(s) && t < |s.calls| && s.calls[t].next.Unlock?
    ensures Comes(s, t, Done, ViewOf(s.table))
  {
    Finally(s, Do(s, Step(t)), t, Done, ViewOf(s.table));
  }

  lemma PutFromPublish<V>(s: State<V>, t: nat)
    requires Inv(s) && t < |s.calls| && s.calls[t].next.Publish?
    ensures Comes(s, t, Done, ViewOf(s.table))
  {
    var r := Do(s, Step(t));
    DoKeepsInv(s, Step(t));
    PutFromUnlock(r, t);
    assert ViewOf(r.table).slots == ViewOf(s.table).slots;
    OneStepMore(s, r, t, Done, ViewOf(s.table));
  }

  /** What an insertion makes of the slots once the hand is at the entry that makes room. */
  function Placed<V>(job: Job<V>, v: Clock.View<V>): Clock.View<V>
    requires job.Put? && v.hand < |v.slots|
  {
    Clock.View(v.slots[v.hand := Clock.Slot(job.key, job.val, false)], Clock.Next(v.hand, |v.slots|))
  }

  lemma PutFromDrop<V>(s: State<V>, t: nat)
    requires Inv(s) && t < |s.calls| && s.calls[t].next.Drop? && Sweeping(s, s.calls[t])
    ensures Comes(s, t, Done, Placed(s.calls[t].job, ViewOf(s.table)))
  {
    var r := Do(s, Step(t));
    DoKeepsInv(s, Step(t));
    assert CallOk(s, s.calls[t]);
    EvictShows(s.table, s.cap, s.calls[t].job.key, Value(s.calls[t].job.val, t));
    PutFromPublish(r, t);
    OneStepMore(s, r, t, Done, ViewOf(r.table));
  }

  /** The hand looks at an unused entry. */
  lemma PutFromLastLook<V>(s: State<V>, t: nat, done: Clock.View<V>)
    requires Inv(s) && t < |s.calls| && s.calls[t].next.LookAtHand? && Sweeping(s, s.calls[t])
    requires !s.table.entries[s.table.slots[s.table.hand]].used
    requires done == Placed(s.calls[t].job, ViewOf(s.table))
    ensures Comes(s, t, Done, done)
  {
    var r := Do(s, Step(t));
    DoKeepsInv(s, Step(t));
    assert CallOk(s, s.calls[t]);
    PutFromDrop(r, t);
    OneStepMore(s, r, t, Done, done);
  }

  lemma PassesClearing<V>(s: State<V>, t: nat) returns (r: State<V>)
    requires Inv(s) && t < |s.calls| && s.calls[t].next.ClearHand? && Sweeping(s, s.calls[t])
    ensures Inv(r) && r == Do(s, Step(t)) && |r.calls| == |s.calls| && ViewOf(r.table) == Clock.PassOne(ViewOf(s.table))
    ensures r.calls[t] == s.calls[t].(next := LookAtHand) && Sweeping(r, r.calls[t])
  {
    r := Do(s, Step(t));
    DoKeepsInv(s, Step(t));
    assert CallOk(s, s.calls[t]) && CallOk(r, r.calls[t]);
    ClearShows(s.table, s.cap);
  }

  lemma PassesLooking<V>(s: State<V>, t: nat) returns (r: State<V>)
    requires Inv(s) && t < |s.calls| && s.calls[t].next.LookAtHand? && Sweeping(s, s.calls[t])
    requires s.table.entries[s.table.slots[s.table.hand]].used
    ensures Inv(r) && r == Do(s, Step(t)) && |r.calls| == |s.calls| && r.table == s.table
    ensures r.calls[t] == s.calls[t].(next := ClearHand) && Sweeping(r, r.calls[t])
  {
    r := Do(s, Step(t));
    DoKeepsInv(s, Step(t));
    assert CallOk(s, s.calls[t]);
  }

  /** The insertion of job is about to look at the hand, and this is what the slots hold. */
  ghost predicate AtHand<V>(s: State<V>, t: nat, job: Job<V>, v: Clock.View<V>) {
    At(s, t, LookAtHand, v) && s.calls[t].job == job && Sweeping(s, s.calls[t])
  }

  /** The hand passes a used entry, and nothing else comes of it. */
  lemma Passes<V>(s: State<V>, t: nat, job: Job<V>, v: Clock.View<V>, done: Clock.View<V>) returns (r: State<V>)
    requires AtHand(s, t, job, v) && v.slots[v.hand].used
    ensures AtHand(r, t, job, Clock.PassOne(v))
    ensures Comes(r, t, Done, done) ==> Comes(s, t, Done, done)
  {
    var q := PassesLooking(s, t);
    r := PassesClearing(q, t);
    if Comes(r, t, Done, done) {
      OneStepMore(q, r, t, Done, done);
      OneStepMore(s, q, t, Done, done);
    }
  }

  /** Passing a used entry keeps way, and the first unused one is the end of it. */
  ghost predicate TurnsTo<V(!new)>(way: (Clock.View<V>, nat) -> bool, end: Clock.View<V>) {
    forall v: Clock.View<V>, l: nat :: way(v, l) ==>
      Clock.Turning(v, l, way) && (v.hand < |v.slots| && !v.slots[v.hand].used ==> v == end)
  }

  lemma Onward<V(!new)>(v: Clock.View<V>, left: nat, way: (Clock.View<V>, nat) -> bool, end: Clock.View<V>)
    requires TurnsTo(way, end) && way(v, left)
    ensures v.hand < |v.slots|
    ensures if v.slots[v.hand].used then left > 0 && way(Clock.PassOne(v), left - 1) else v == end
  {
    assert Clock.Turning(v, left, way);
  }

  /** The rest of a sweep, for any way that passing an entry keeps and that leads to this end. */
  lemma {:induction false} PutFromSweep<V(!new)>(
      s: State<V>, t: nat, job: Job<V>, v: Clock.View<V>, left: nat, way: (Clock.View<V>, nat) -> bool,
      end: Clock.View<V>, done: Clock.View<V>)
    requires AtHand(s, t, job, v) && TurnsTo(way, end) && way(v, left)
    requires job.Put? && end.hand < |end.slots| && done == Placed(job, end)
    ensures Comes(s, t, Done, done)
    decreases left
  {
    Onward(v, left, way, end);
    if v.slots[v.hand].used {
      var r := Passes(s, t, job, v, done);
      PutFromSweep(r, t, job, Clock.PassOne(v), left - 1, way, end, done);
    } else {
      PutFromLastLook(s, t, done);
    }
  }

  ghost function WayFrom<V>(was: Clock.View<V>): (Clock.View<V>, nat) -> bool {
    (v: Clock.View<V>, l: nat) => Clock.OnTheWay(was, v, l)
  }

  lemma SweepTurns<V(!new)>(was: Clock.View<V>)
    requires was.hand < |was.slots|
    ensures TurnsTo(WayFrom(was), Clock.Sweep(was.slots, was.hand, |was.slots|))
  {
    forall v: Clock.View<V>, l: nat | WayFrom(was)(v, l)
      ensures Clock.Turning(v, l, WayFrom(was))
      ensures v.hand < |v.slots| && !v.slots[v.hand].used ==> v == Clock.Sweep(was.slots, was.hand, |was.slots|)
    {
      Clock.MoreToPass(was, v, l);
    }
  }

  lemma PutFromFirstLook<V(!new)>(s: State<V>, t: nat)
    requires Inv(s) && t < |s.calls| && s.calls[t].next.LookAtHand? && Sweeping(s, s.calls[t])
    ensures var was := ViewOf(s.table);
      Comes(s, t, Done, Placed(s.calls[t].job, Clock.Sweep(was.slots, was.hand, |was.slots|)))
  {
    var was := ViewOf(s.table);
    var end := Clock.Sweep(was.slots, was.hand, |was.slots|);
    SweepTurns(was);
    PutFromSweep(s, t, s.calls[t].job, was, |was.slots|, WayFrom(was), end, Placed(s.calls[t].job, end));
  }

  lemma PutFromChoose<V(!new)>(s: State<V>, t: nat)
    requires Inv(s) && t < |s.calls| && s.calls[t].next.Choose? && s.calls[t].job.Put?
    requires |s.table.slots| < s.cap || s.table.hand < |s.table.slots|
    ensures Comes(s, t, Done, Clock.Insert(ViewOf(s.table), s.cap, s.calls[t].job.key, s.calls[t].job.val))
  {
    var r := Do(s, Step(t));
    DoKeepsInv(s, Step(t));
    assert CallOk(s, s.calls[t]) && CallOk(r, r.calls[t]);
    if |s.table.slots| < s.cap {
      AppendShows(s.table, s.cap, s.calls[t].job.key, Value(s.calls[t].job.val, t));
      PutFromPublish(r, t);
    } else {
      PutFromFirstLook(r, t);
    }
    OneStepMore(s, r, t, Done, Clock.Insert(ViewOf(s.table), s.cap, s.calls[t].job.key, s.calls[t].job.val));
  }

  lemma PutFromLookAgain<V(!new)>(s: State<V>, t: nat)
    requires Inv(s) && t < |s.calls| && s.calls[t].next.LookAgain? && s.calls[t].job.Put?
    requires s.calls[t].job.key !in s.table.index && (|s.table.slots| < s.cap || s.table.hand < |s.table.slots|)
    ensures Comes(s, t, Done, Clock.Insert(ViewOf(s.table), s.cap, s.calls[t].job.key, s.calls[t].job.val))
  {
    var r := Do(s, Step(t));
    DoKeepsInv(s, Step(t));
    PutFromChoose(r, t);
    OneStepMore(s, r, t, Done, Clock.Insert(ViewOf(s.table), s.cap, s.calls[t].job.key, s.calls[t].job.val));
  }

  lemma PutFromLock<V(!new)>(s: State<V>, t: nat)
    requires Inv(s) && t < |s.calls| && s.calls[t].next.Lock? && s.calls[t].job.Put? && s.holder.None?
    requires s.calls[t].job.key !in s.table.index && (|s.table.slots| < s.cap || s.table.hand < |s.table.slots|)
    ensures Comes(s, t, Done, Clock.Insert(ViewOf(s.table), s.cap, s.calls[t].job.key, s.calls[t].job.val))
  {
    var r := Do(s, Step(t));
    DoKeepsInv(s, Step(t));
    PutFromLookAgain(r, t);
    OneStepMore(s, r, t, Done, Clock.Insert(ViewOf(s.table), s.cap, s.calls[t].job.key, s.calls[t].job.val));
  }

  /** Put finds no entry of its key. */
  lemma PutNew<V(!new)>(s: State<V>, t: nat)
    requires Inv(s) && t < |s.calls| && s.calls[t].next.Look? && s.calls[t].job.Put? && s.cap > 0
    requires s.calls[t].job.key !in s.table.index && (|s.table.slots| < s.cap || s.table.hand < |s.table.slots|)
    ensures Comes(s, t, Done,
      if s.holder.None? then Clock.Insert(ViewOf(s.table), s.cap, s.calls[t].job.key, s.calls[t].job.val)
      else ViewOf(s.table))
  {
    var r := Do(s, Step(t));
    DoKeepsInv(s, Step(t));
    if s.holder.None? {
      PutFromLock(r, t);
      OneStepMore(s, r, t, Done, Clock.Insert(ViewOf(s.table), s.cap, s.calls[t].job.key, s.calls[t].job.val));
    } else {
      Finally(r, Do(r, Step(t)), t, Done, ViewOf(s.table));
      OneStepMore(s, r, t, Done, ViewOf(s.table));
    }
  }

  /** By itself, with no entry pending, Put does to the slots what Clock says. */
  lemma PutByItself<V(!new)>(s: State<V>, t: nat)
    requires Inv(s) && Pending(s).None? && t < |s.calls| && s.calls[t].next.Look? && s.calls[t].job.Put?
    ensures Clock.Fits(ViewOf(s.table), s.cap)
    ensures Comes(s, t, Done,
      Clock.Stored(ViewOf(s.table), s.cap, s.holder.None?, s.calls[t].job.key, s.calls[t].job.val))
  {
    var key, val := s.calls[t].job.key, s.calls[t].job.val;
    ViewFits(s.table, s.cap);
    IndexFinds(s.table, s.cap, key);
    if s.cap <= 0 {
      Finally(s, Do(s, Step(t)), t, Done, ViewOf(s.table));
    } else if key in s.table.index {
      PutOld(s, t);
    } else {
      PutNew(s, t);
    }
  }

  lemma PutOld<V>(s: State<V>, t: nat)
    requires Inv(s) && Pending(s).None? && t < |s.calls| && s.calls[t].next.Look? && s.calls[t].job.Put? && s.cap > 0
    requires s.calls[t].job.key in s.table.index
    ensures Comes(s, t, Done, Clock.Replace(ViewOf(s.table), s.calls[t].job.key, s.calls[t].job.val))
  {
    var key, val := s.calls[t].job.key, s.calls[t].job.val;
    var r := Do(s, Step(t));
    DoKeepsInv(s, Step(t));
    StillQuiet(s, r, t);
    PutFromReplace(r, t, key);
    OneStepMore(s, r, t, Done, Clock.Replace(ViewOf(s.table), key, val));
  }

  lemma PutFromReplace<V>(s: State<V>, t: nat, key: string)
    requires Inv(s) && Pending(s).None? && key in s.table.index
    requires t < |s.calls| && s.calls[t].next == Replace(s.table.index[key]) && s.calls[t].job.Put?
    ensures Comes(s, t, Done, Clock.Replace(ViewOf(s.table), key, s.calls[t].job.val))
  {
    var e := s.table.index[key];
    ValueShows(s.table, s.cap, key, Value(s.calls[t].job.val, t));
    Finally(s, Do(s, Step(t)), t, Done, Clock.Replace(ViewOf(s.table), key, s.calls[t].job.val));
  }

  /**
   What the bound on a sweep counts: every look at the entry under the hand, and every flag that a hit sets
   and that was not set, both from the moment the sweep begins.
   */
  lemma LooksAndMarksAreCounted<V>(s: State<V>, t: nat)
    requires Inv(s) && t < |s.calls|
    ensures var r, next := Do(s, Step(t)), s.calls[t].next;
      var begins := next.Choose? && r.calls[t].next.LookAtHand?;
      r.looks == (if begins then 0 else s.looks + Bit(next.LookAtHand?)) &&
      r.marks == (if begins then 0 else s.marks + Bit(next.SetUsed? && !s.table.entries[next.e].used))
  {
    assert CallOk(s, s.calls[t]);
    if Locked(s.calls[t].next) {
      assert Do(s, Step(t)) == Inserting(s, t);
    } else {
      assert Do(s, Step(t)) == Unlocked(s, t);
    }
  }
}
