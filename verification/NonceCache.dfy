/**
 Loop detection (nonce.go): a table of words, each holding the upper bits of a ClientHello's hash and
 a cyclic time stamp. Storing is one atomic store and looking up one atomic load, so any interleaving
 is an order of these two operations.
 */
module NonceCache {
  import opened Wrappers

  const SLOTS: nat := 0x10_0000
  const STAMPS: nat := 0xF_FFFF
  const TICK: nat := 62_500_000 // nanoseconds, a sixteenth of a second
  const TTL_TICKS: nat := 160 // ten seconds

  type Digest = d: nat | d < 0x1_0000_0000_0000_0000

  /** A hash that was stored, and when (nanoseconds since the start). */
  datatype Write = Write(digest: Digest, at: nat)

  function Ticks(at: nat): nat { at / TICK }

  /** 1 .. STAMPS, never 0: 0 is an empty slot. */
  function Stamp(at: nat): (s: nat)
    ensures 1 <= s <= STAMPS
  {
    Ticks(at) % STAMPS + 1
  }

  /** digest & (SLOTS-1) */
  function SlotOf(d: Digest): (i: nat)
    ensures i < SLOTS
  {
    d % SLOTS
  }

  /** digest>>20<<20 | stamp: the stamp fits the bits the shifts cleared. */
  function Word(w: Write): nat {
    w.digest / SLOTS * SLOTS + Stamp(w.at)
  }

  /** The last write to slot i. */
  function Last(log: seq<Write>, i: nat): (r: Option<Write>)
    ensures r.Some? ==> SlotOf(r.value.digest) == i && r.value in log
  {
    if log == [] then None
    else
      var w := log[|log| - 1];
      if SlotOf(w.digest) == i then Some(w) else Last(log[..|log| - 1], i)
  }

  /** How many ticks ago a write was, modulo the cycle of stamps. */
  function Age(now: nat, w: Write): nat {
    (Ticks(now) - Ticks(w.at)) % STAMPS
  }

  class Cache {
    var slots: array<nat>
    ghost var log: seq<Write>

    ghost predicate Valid()
      reads this, slots
    {
      slots.Length == SLOTS &&
      forall i: nat :: i < SLOTS ==>
        slots[i] == match Last(log, i) case None => 0 case Some(w) => Word(w)
    }

    constructor ()
      ensures Valid() && fresh(slots) && log == []
    {
      slots := new nat[SLOTS](_ => 0);
      log := [];
    }

    method Remember(digest: Digest, now: nat)
      requires Valid()
      modifies this, slots
      ensures Valid() && slots == old(slots) && log == old(log) + [Write(digest, now)]
    {
      slots[SlotOf(digest)] := digest / SLOTS * SLOTS + Stamp(now);
      log := log + [Write(digest, now)];
      assert log[..|log| - 1] == old(log);
    }

    /** True exactly when the last write to the slot was this very hash, and recent in cyclic time. */
    method Seen(digest: Digest, now: nat) returns (seen: bool)
      requires Valid()
      ensures seen <==> Last(log, SlotOf(digest)).Some? &&
                        Last(log, SlotOf(digest)).value.digest == digest &&
                        Age(now, Last(log, SlotOf(digest)).value) < TTL_TICKS
    {
      var v := slots[SlotOf(digest)];
      ghost var last := Last(log, SlotOf(digest));
      if last.Some? {
        WordParts(last.value);
        SameDigest(last.value.digest, digest);
        AgeOfStamps(now, last.value);
      }
      var stored := v % SLOTS;
      if stored == 0 || v / SLOTS != digest / SLOTS {
        return false;
      }
      seen := (Stamp(now) + STAMPS - stored) % STAMPS < TTL_TICKS;
    }
  }

  /** A word gives back its stamp and the hash's upper bits. */
  lemma WordParts(w: Write)
    ensures Word(w) % SLOTS == Stamp(w.at) && Word(w) / SLOTS == w.digest / SLOTS
  {
  }

  lemma SameDigest(a: Digest, b: Digest)
    ensures SlotOf(a) == SlotOf(b) && a / SLOTS == b / SLOTS ==> a == b
  {
  }

  lemma AgeOfStamps(now: nat, w: Write)
    ensures (Stamp(now) + STAMPS - Stamp(w.at)) % STAMPS == Age(now, w)
  {
    var a, b := Ticks(now), Ticks(w.at);
    assert (a % STAMPS + STAMPS - b % STAMPS) % STAMPS == (a - b) % STAMPS;
  }

  /**
   As long as it is not overwritten a hash is seen for 160 ticks after it was stored, not for the rest
   of the stamps' cycle, and then again for 160 ticks, and so on: exactly when the ticks passed leave a
   remainder below 160.
   */
  lemma SeenInCycles(w: Write, now: nat, cycles: nat, extra: nat)
    requires Ticks(now) == Ticks(w.at) + cycles * STAMPS + extra && extra < STAMPS
    ensures Age(now, w) < TTL_TICKS <==> extra < TTL_TICKS
  {
  }

  /** In particular, within the time to live it is always seen, and after it not before a whole cycle. */
  lemma SeenFor160Ticks(log: seq<Write>, d: Digest, now: nat)
    requires Last(log, SlotOf(d)).Some? && Last(log, SlotOf(d)).value.digest == d
    requires var w := Last(log, SlotOf(d)).value; Ticks(w.at) <= Ticks(now) < Ticks(w.at) + STAMPS
    ensures var w := Last(log, SlotOf(d)).value;
      Age(now, w) < TTL_TICKS <==> Ticks(now) <= Ticks(w.at) + 159
  {
    SeenInCycles(Last(log, SlotOf(d)).value, now, 0, Ticks(now) - Ticks(Last(log, SlotOf(d)).value.at));
  }

  /** Only a write to the same slot makes a table forget. */
  lemma {:induction false} OthersDoNotEvict(log: seq<Write>, more: seq<Write>, i: nat)
    requires forall w :: w in more ==> SlotOf(w.digest) != i
    ensures Last(log + more, i) == Last(log, i)
  {
    if more == [] {
      assert log + more == log;
    } else {
      assert (log + more)[..|log + more| - 1] == log + more[..|more| - 1];
      OthersDoNotEvict(log, more[..|more| - 1], i);
    }
  }
}
