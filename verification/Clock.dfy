/**
 The capped map of the route cache (cache.go), which evicts with the CLOCK algorithm. The class works on
 shared entries as the source does; View is what it holds, and the functions on views say what each
 operation does to it. The pair of such maps that keeps allowed and denied names apart is in RouteCache.
 */
module Clock {
  import opened Wrappers

  datatype Slot<V> = Slot(key: string, val: V, used: bool)

  datatype View<V> = View(slots: seq<Slot<V>>, hand: nat)

  /** The slot that holds a key. */
  function Where<V>(slots: seq<Slot<V>>, key: string): (r: Option<nat>)
    ensures match r
      case None => forall i :: 0 <= i < |slots| ==> slots[i].key != key
      case Some(i) => i < |slots| && slots[i].key == key
  {
    if slots == [] then None
    else
      var last := |slots| - 1;
      if slots[last].key == key then Some(last) else Where(slots[..last], key)
  }

  ghost predicate Distinct<V>(slots: seq<Slot<V>>) {
    forall i, j :: 0 <= i < j < |slots| ==> slots[i].key != slots[j].key
  }

  /** What the cache answers for a key. */
  function Lookup<V>(v: View<V>, key: string): Option<V> {
    match Where(v.slots, key)
    case None => None
    case Some(i) => Some(v.slots[i].val)
  }

  function Hit<V>(v: View<V>, key: string): View<V> {
    match Where(v.slots, key)
    case None => v
    case Some(i) => v.(slots := v.slots[i := v.slots[i].(used := true)])
  }

  function Replace<V>(v: View<V>, key: string, val: V): View<V> {
    match Where(v.slots, key)
    case None => v
    case Some(i) => v.(slots := v.slots[i := v.slots[i].(val := val)])
  }

  function Next(hand: nat, n: nat): (r: nat)
    requires hand < n
    ensures r < n
  {
    if hand + 1 == n then 0 else hand + 1
  }

  /** The second chance: how many used entries the hand passes. */
  function Steps<V>(slots: seq<Slot<V>>, hand: nat, left: nat): nat
    requires hand < |slots|
    decreases left
  {
    if left == 0 || !slots[hand].used then 0
    else 1 + Steps(slots[hand := slots[hand].(used := false)], Next(hand, |slots|), left - 1)
  }

  /** The slots and the hand after the sweep. */
  function Sweep<V>(slots: seq<Slot<V>>, hand: nat, left: nat): (r: View<V>)
    requires hand < |slots|
    ensures |r.slots| == |slots| && r.hand < |slots|
    decreases left
  {
    if left == 0 || !slots[hand].used then View(slots, hand)
    else Sweep(slots[hand := slots[hand].(used := false)], Next(hand, |slots|), left - 1)
  }

  /** Adding a key that is not there. */
  function Insert<V>(v: View<V>, cap: int, key: string, val: V): View<V>
    requires |v.slots| < cap || v.hand < |v.slots|
  {
    if |v.slots| < cap then v.(slots := v.slots + [Slot(key, val, false)])
    else
      var w := Sweep(v.slots, v.hand, |v.slots|);
      View(w.slots[w.hand := Slot(key, val, false)], Next(w.hand, |v.slots|))
  }

  /** Put; free says whether TryLock gets the insert lock. */
  function Stored<V>(v: View<V>, cap: int, free: bool, key: string, val: V): View<V>
    requires Fits(v, cap)
  {
    if cap <= 0 then v
    else if Where(v.slots, key).Some? then Replace(v, key, val)
    else if !free then v
    else Insert(v, cap, key, val)
  }

  ghost predicate Fits<V>(v: View<V>, cap: int) {
    Distinct(v.slots) && |v.slots| <= (if cap > 0 then cap else 0) && (cap > 0 ==> v.hand < cap) &&
    (|v.slots| < cap ==> v.hand == 0)
  }

  // ----- What the sweep does -----

  /** The hand has passed slot j on its way of `steps` from `hand`. */
  predicate Passed(hand: nat, steps: nat, n: nat, j: nat) { hand <= j < hand + steps || j + n < hand + steps }

  /**
   The sweep clears exactly the entries it passes, all of them used, and stops at the first unused one,
   after one full turn at the latest.
   */
  lemma {:induction false} SweepMeaning<V>(slots: seq<Slot<V>>, hand: nat, left: nat)
    requires hand < |slots| && left <= |slots|
    ensures var n, steps, w := |slots|, Steps(slots, hand, left), Sweep(slots, hand, left);
      steps <= left && w.hand == (if hand + steps < n then hand + steps else hand + steps - n) &&
      (steps < left ==> !w.slots[w.hand].used) &&
      forall j :: 0 <= j < n ==>
        w.slots[j] == (if Passed(hand, steps, n, j) then slots[j].(used := false) else slots[j]) &&
        (Passed(hand, steps, n, j) ==> slots[j].used)
    decreases left
  {
    if left > 0 && slots[hand].used {
      var rest := slots[hand := slots[hand].(used := false)];
      var h := Next(hand, |slots|);
      SweepMeaning(rest, h, left - 1);
      var n, steps := |slots|, Steps(rest, h, left - 1);
      forall j | 0 <= j < n ensures Passed(hand, steps + 1, n, j) <==> j == hand || Passed(h, steps, n, j) {
      }
    }
  }

  /** The sweep needs at most cap + 1 looks, and evicts only an entry not used since the hand last passed. */
  lemma VictimIsUnused<V>(v: View<V>)
    requires v.hand < |v.slots|
    ensures var n, w, steps := |v.slots|, Sweep(v.slots, v.hand, |v.slots|), Steps(v.slots, v.hand, |v.slots|);
      steps + 1 <= n + 1 && !w.slots[w.hand].used && w.slots[w.hand].key == v.slots[w.hand].key &&
      (v.slots[w.hand].used ==> w.hand == v.hand && forall j :: 0 <= j < n ==> v.slots[j].used)
  {
    SweepMeaning(v.slots, v.hand, |v.slots|);
  }

  /** A sweep that began at was has come to now, with no more than left entries to pass. */
  ghost predicate OnTheWay<V>(was: View<V>, now: View<V>, left: nat) {
    was.hand < |was.slots| == |now.slots| && now.hand < |now.slots| && left <= |now.slots| &&
    Sweep(now.slots, now.hand, left) == Sweep(was.slots, was.hand, |was.slots|) &&
    Steps(now.slots, now.hand, left) + |was.slots| - left == Steps(was.slots, was.hand, |was.slots|)
  }

  function PassOne<V>(v: View<V>): View<V>
    requires v.hand < |v.slots|
  {
    View(v.slots[v.hand := v.slots[v.hand].(used := false)], Next(v.hand, |v.slots|))
  }

  /** Passing a used entry keeps way, and takes one of the entries left. */
  ghost predicate Turning<V>(v: View<V>, left: nat, way: (View<V>, nat) -> bool) {
    v.hand < |v.slots| && (v.slots[v.hand].used ==> left > 0 && way(PassOne(v), left - 1))
  }

  lemma MoreToPass<V>(was: View<V>, now: View<V>, left: nat)
    requires OnTheWay(was, now, left)
    ensures now.slots[now.hand].used ==> left > 0 && OnTheWay(was, PassOne(now), left - 1)
    ensures !now.slots[now.hand].used ==> now == Sweep(was.slots, was.hand, |was.slots|)
  {
    SweepMeaning(was.slots, was.hand, |was.slots|);
  }

  // ----- What the cache answers afterwards -----

  lemma WhereDistinct<V>(slots: seq<Slot<V>>, i: nat)
    requires Distinct(slots) && i < |slots|
    ensures Where(slots, slots[i].key) == Some(i)
  {
  }

  /** Put keeps the keys distinct, the size within cap and the hand in place. */
  lemma StoredFits<V>(v: View<V>, cap: int, free: bool, key: string, val: V)
    requires Fits(v, cap)
    ensures Fits(Stored(v, cap, free, key, val), cap)
  {
    if cap > 0 && Where(v.slots, key).None? && free && |v.slots| == cap {
      SweepMeaning(v.slots, v.hand, |v.slots|);
    }
  }

  /** The key Put would drop to make room. */
  function Victim<V>(v: View<V>): string
    requires v.hand < |v.slots|
  {
    v.slots[Sweep(v.slots, v.hand, |v.slots|).hand].key
  }

  /** Inserting makes the key answer its value, drops the victim if there was no room, and nothing else. */
  lemma InsertMeaning<V>(v: View<V>, cap: int, key: string, val: V, other: string)
    requires Fits(v, cap) && cap > 0 && Where(v.slots, key).None?
    ensures var r := Insert(v, cap, key, val);
      Lookup(r, other) ==
        if other == key then Some(val)
        else if |v.slots| == cap && other == Victim(v) then None
        else Lookup(v, other)
  {
    StoredFits(v, cap, true, key, val);
    if |v.slots| == cap {
      EvictMeaning(v, key, val, other);
    } else if other != key {
      assert Insert(v, cap, key, val).slots[..|v.slots|] == v.slots;
    }
  }

  lemma EvictMeaning<V>(v: View<V>, key: string, val: V, other: string)
    requires Distinct(v.slots) && v.hand < |v.slots| && Where(v.slots, key).None?
    ensures var w := Sweep(v.slots, v.hand, |v.slots|);
      Lookup(View(w.slots[w.hand := Slot(key, val, false)], Next(w.hand, |v.slots|)), other) ==
        if other == key then Some(val) else if other == Victim(v) then None else Lookup(v, other)
  {
    SweepMeaning(v.slots, v.hand, |v.slots|);
    var w := Sweep(v.slots, v.hand, |v.slots|);
    var slots := w.slots[w.hand := Slot(key, val, false)];
    forall j | 0 <= j < |v.slots|
      ensures slots[j].key == if j == w.hand then key else v.slots[j].key
      ensures j != w.hand ==> slots[j].val == v.slots[j].val
    {
    }
    SameAnswer(v.slots, slots, other, w.hand);
  }

  /** Changing the key of slot h only changes the answers for the two keys. */
  lemma SameAnswer<V>(a: seq<Slot<V>>, b: seq<Slot<V>>, other: string, h: nat)
    requires |a| == |b| && h < |a| && Distinct(a) && Distinct(b)
    requires forall j :: 0 <= j < |a| && j != h ==> a[j].key == b[j].key && a[j].val == b[j].val
    requires Where(a, b[h].key).None?
    ensures Lookup(View(b, 0), b[h].key) == Some(b[h].val)
    ensures other != b[h].key ==>
      Lookup(View(b, 0), other) == if other == a[h].key then None else Lookup(View(a, 0), other)
  {
    WhereDistinct(b, h);
    if other != b[h].key && Where(a, other).Some? && Where(a, other).value != h {
      WhereDistinct(b, Where(a, other).value);
    }
  }

  /** Put answers for its key and changes no other key's answer except the victim's. */
  lemma StoredMeaning<V>(v: View<V>, cap: int, free: bool, key: string, val: V, other: string)
    requires Fits(v, cap)
    ensures var r := Stored(v, cap, free, key, val);
      var room := Where(v.slots, key).None? && |v.slots| == cap;
      Lookup(r, other) ==
        if cap <= 0 || (Where(v.slots, key).None? && !free) then Lookup(v, other)
        else if other == key then Some(val)
        else if room && other == Victim(v) then None
        else Lookup(v, other)
  {
    if cap > 0 && Where(v.slots, key).Some? {
      var i := Where(v.slots, key).value;
      var r := Replace(v, key, val);
      if Where(v.slots, other).Some? {
        WhereDistinct(r.slots, Where(v.slots, other).value);
      }
    } else if cap > 0 && free {
      InsertMeaning(v, cap, key, val, other);
    }
  }

  /** A used entry is only dropped when every entry is used. */
  lemma UsedSurvives<V>(v: View<V>, cap: int, free: bool, key: string, val: V, i: nat, j: nat)
    requires Fits(v, cap) && i < |v.slots| && j < |v.slots| && v.slots[i].used && !v.slots[j].used
    ensures Lookup(Stored(v, cap, free, key, val), v.slots[i].key).Some?
  {
    StoredMeaning(v, cap, free, key, val, v.slots[i].key);
    WhereDistinct(v.slots, i);
    if |v.slots| == cap {
      VictimIsUnused(v);
      var h := Sweep(v.slots, v.hand, |v.slots|).hand;
      assert h != i;
    }
  }

  /** A key that was looked up outlives the next insertion, while some other entry is unused. */
  lemma HitSurvives<V>(v: View<V>, cap: int, free: bool, hit: string, key: string, val: V, j: nat)
    requires Fits(v, cap) && Where(v.slots, hit).Some? && j < |v.slots| && !v.slots[j].used && v.slots[j].key != hit
    ensures Fits(Hit(v, hit), cap) && Lookup(Stored(Hit(v, hit), cap, free, key, val), hit).Some?
  {
    var i := Where(v.slots, hit).value;
    UsedSurvives(Hit(v, hit), cap, free, key, val, i, j);
  }

  /** A key that was only stored has no such protection: its entry begins unused. */
  lemma NewIsUnused<V>(v: View<V>, cap: int, key: string, val: V)
    requires Fits(v, cap) && cap > 0 && Where(v.slots, key).None?
    ensures var r := Stored(v, cap, true, key, val);
      exists i :: 0 <= i < |r.slots| && r.slots[i] == Slot(key, val, false)
  {
    var r := Stored(v, cap, true, key, val);
    if |v.slots| < cap {
      assert r.slots[|v.slots|] == Slot(key, val, false);
    } else {
      assert r.slots[Sweep(v.slots, v.hand, |v.slots|).hand] == Slot(key, val, false);
    }
  }

  // ----- The cache itself -----

  class Entry<V> {
    const key: string
    var val: V
    var used: bool

    constructor (key: string, val: V)
      ensures this.key == key && this.val == val && !used
    {
      this.key := key;
      this.val := val;
      used := false;
    }
  }

  /** The index and the slots hold the same entries, each under its own key. */
  ghost predicate Indexes<V>(index: map<string, Entry<V>>, slots: seq<Entry<V>>) {
    (forall i, j :: 0 <= i < j < |slots| ==> slots[i].key != slots[j].key) &&
    (forall k :: k in index ==> index[k] in slots && index[k].key == k) &&
    (forall i :: 0 <= i < |slots| ==> slots[i].key in index && index[slots[i].key] == slots[i])
  }

  lemma IndexesAppend<V>(index: map<string, Entry<V>>, slots: seq<Entry<V>>, e: Entry<V>)
    requires Indexes(index, slots) && e.key !in index
    ensures Indexes(index[e.key := e], slots + [e])
  {
    var more := slots + [e];
    var longer := index[e.key := e];
    forall k | k in longer ensures longer[k] in more {
      if k == e.key {
        assert more[|slots|] == e;
      } else {
        var i :| 0 <= i < |slots| && slots[i] == index[k];
        assert more[i] == index[k];
      }
    }
  }

  lemma IndexesEvict<V>(index: map<string, Entry<V>>, slots: seq<Entry<V>>, h: nat, e: Entry<V>)
    requires Indexes(index, slots) && e.key !in index && h < |slots|
    ensures Indexes((index - {slots[h].key})[e.key := e], slots[h := e])
  {
    var fewer, other := (index - {slots[h].key})[e.key := e], slots[h := e];
    forall k | k in fewer ensures fewer[k] in other && fewer[k].key == k {
      if k == e.key {
        assert other[h] == e;
      } else {
        var i :| 0 <= i < |slots| && slots[i] == index[k];
        assert other[i] == index[k];
      }
    }
    forall i | 0 <= i < |other| ensures other[i].key in fewer && fewer[other[i].key] == other[i] {
      if i != h {
        assert other[i] == slots[i];
      }
    }
  }

  /** What is in the slots now. */
  ghost function Held<V>(slots: seq<Entry<V>>): (r: seq<Slot<V>>)
    reads slots
    ensures |r| == |slots|
    ensures forall i :: 0 <= i < |r| ==> r[i] == Slot(slots[i].key, slots[i].val, slots[i].used)
  {
    seq(|slots|, i requires 0 <= i < |slots| reads slots => Slot(slots[i].key, slots[i].val, slots[i].used))
  }

  class Cache<V(!new)> {
    const cap: int
    var index: map<string, Entry<V>>
    var n: nat
    var slots: seq<Entry<V>>
    var hand: nat

    ghost function State(): View<V>
      reads this, slots
    {
      View(Held(slots), hand)
    }

    ghost predicate Valid()
      reads this
    {
      Indexes(index, slots) && n == |slots| <= (if cap > 0 then cap else 0) && (cap > 0 ==> hand < cap) &&
      (n < cap ==> hand == 0)
    }

    constructor (capacity: int)
      ensures Valid() && slots == [] && hand == 0 && cap == capacity
    {
      cap := capacity;
      index := map[];
      n := 0;
      slots := [];
      hand := 0;
    }

    /** The index finds the slot that holds the key. */
    lemma Indexed(key: string)
      requires Valid()
      ensures Fits(State(), cap)
      ensures key in index <==> Where(Held(slots), key).Some?
      ensures key in index ==> slots[Where(Held(slots), key).value] == index[key]
    {
      if key in index {
        var i :| 0 <= i < |slots| && slots[i] == index[key];
        WhereDistinct(Held(slots), i);
      }
    }

    /** A hit marks the entry as used. */
    method Get(key: string) returns (r: Option<V>)
      requires Valid()
      modifies slots
      ensures Valid() && slots == old(slots)
      ensures r == Lookup(old(State()), key)
      ensures State() == Hit(old(State()), key)
    {
      Indexed(key);
      if key in index {
        var e := index[key];
        if !e.used {
          e.used := true;
        }
        assert Held(slots) == Hit(old(State()), key).slots;
        return Some(e.val);
      }
      return None;
    }

    /** Stores val under key, or not if another insert holds the lock. */
    method Put(key: string, val: V, free: bool)
      requires Valid()
      modifies this, slots
      ensures Valid() && Fits(old(State()), cap) && State() == Stored(old(State()), cap, free, key, val)
      ensures forall e :: e in slots ==> e in old(slots) || fresh(e)
    {
      Indexed(key);
      if cap <= 0 {
        return;
      }
      if key in index {
        var e := index[key];
        e.val := val;
        assert Held(slots) == Replace(old(State()), key, val).slots;
        return;
      }
      if free {
        Add(key, val);
      }
    }

    /** The part of Put under the insert lock, when nobody added the key meanwhile. */
    method Add(key: string, val: V)
      requires Valid() && cap > 0 && key !in index
      modifies this, slots
      ensures Valid() && State() == Insert(old(State()), cap, key, val)
      ensures forall e :: e in slots ==> e in old(slots) || fresh(e)
    {
      if |slots| < cap {
        Append(key, val);
      } else {
        SecondChance();
        Evict(key, val);
      }
    }

    /** There is room for another entry. */
    method Append(key: string, val: V)
      requires Valid() && |slots| < cap && key !in index
      modifies this
      ensures Valid() && hand == old(hand)
      ensures Held(slots) == old(Held(slots)) + [Slot(key, val, false)]
      ensures forall e :: e in slots ==> e in old(slots) || fresh(e)
    {
      var e := new Entry(key, val);
      IndexesAppend(index, slots, e);
      slots := slots + [e];
      n := n + 1;
      index := index[key := e];
    }

    /** The hand passes used entries and clears them, until it finds one unused. */
    method SecondChance()
      requires Valid() && |slots| == cap > 0
      modifies `hand, slots
      ensures Valid() && slots == old(slots) && State() == Sweep(old(State()).slots, old(hand), |slots|)
    {
      ghost var was := State();
      ghost var way := (v: View<V>, l: nat) => OnTheWay(was, v, l);
      forall v: View<V>, l: nat | way(v, l) ensures Turning(v, l, way) {
        MoreToPass(was, v, l);
      }
      ghost var left := Turn(way);
      MoreToPass(was, State(), left);
    }

    /** The loop of the sweep, for any invariant way that passing an entry keeps. */
    method Turn(ghost way: (View<V>, nat) -> bool) returns (ghost left: nat)
      requires Valid() && |slots| == cap > 0 && way(State(), |slots|)
      requires forall v: View<V>, l: nat :: way(v, l) ==> Turning(v, l, way)
      modifies `hand, slots
      ensures Valid() && slots == old(slots) && way(State(), left) && !slots[hand].used
    {
      left := |slots|;
      while slots[hand].used
        invariant Valid() && way(State(), left)
        decreases left
      {
        assert Turning(State(), left, way);
        Pass();
        left := left - 1;
      }
    }

    method Pass()
      requires Valid() && |slots| == cap > 0
      modifies `hand, slots[hand]
      ensures Valid() && State() == PassOne(old(State()))
    {
      slots[hand].used := false;
      assert Held(slots) == PassOne(old(State())).slots;
      hand := if hand + 1 == cap then 0 else hand + 1;
    }

    /** The entry under the hand makes room. */
    method Evict(key: string, val: V)
      requires Valid() && |slots| == cap > 0 && key !in index
      modifies this
      ensures Valid() && hand == Next(old(hand), cap)
      ensures Held(slots) == old(Held(slots))[old(hand) := Slot(key, val, false)]
      ensures forall e :: e in slots ==> e in old(slots) || fresh(e)
    {
      var e := new Entry(key, val);
      IndexesEvict(index, slots, hand, e);
      index := index - {slots[hand].key};
      slots := slots[hand := e];
      hand := if hand + 1 == cap then 0 else hand + 1;
      index := index[key := e];
    }
  }
}
