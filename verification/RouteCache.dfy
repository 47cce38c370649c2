/**
 The pair of route caches (cache.go RouteCache): allowed and denied names apart, so that a flood of
 denied names cannot push out an allowed one.
 */
module RouteCache {
  import opened Wrappers
  import opened Clock
  import Routing

  type Decision = Routing.Decision

  /** Every value the cache can answer satisfies p. */
  ghost predicate All(v: View<Decision>, p: Decision -> bool) {
    forall i :: 0 <= i < |v.slots| ==> p(v.slots[i].val)
  }

  /** Put adds no value but its own. */
  lemma StoredAll(v: View<Decision>, cap: int, free: bool, key: string, d: Decision, p: Decision -> bool)
    requires Fits(v, cap) && All(v, p) && p(d)
    ensures All(Stored(v, cap, free, key, d), p)
  {
    if cap > 0 && Where(v.slots, key).None? && free && |v.slots| == cap {
      SweepMeaning(v.slots, v.hand, |v.slots|);
    }
  }

  lemma HitAll(v: View<Decision>, key: string, p: Decision -> bool)
    requires All(v, p)
    ensures All(Hit(v, key), p)
    ensures Lookup(v, key).Some? ==> p(Lookup(v, key).value)
  {
  }

  function Allows(d: Decision): bool { d.allow }

  function Denies(d: Decision): bool { !d.allow }

  /** One side after a new decision: with it put in if it is of that side, else as it was. */
  ghost predicate KeptAs(v: View<Decision>, w: View<Decision>, cap: int, free: bool, key: string, d: Decision, mine: bool) {
    if mine then Fits(v, cap) && w == Stored(v, cap, free, key, d) else w == v
  }

  class RouteCache {
    const allow: Cache<Decision>
    const deny: Cache<Decision>

    /** Allowed decisions on one side, denials and errors on the other. */
    ghost predicate Valid()
      reads this, allow, deny, allow.slots, deny.slots
    {
      allow != deny && allow.Valid() && deny.Valid() &&
      (forall e :: e in allow.slots ==> e !in deny.slots) &&
      All(allow.State(), Allows) && All(deny.State(), Denies)
    }

    constructor (allowCap: int, denyCap: int)
      ensures Valid() && fresh(allow) && fresh(deny)
      ensures allow.State() == View([], 0) && deny.State() == View([], 0)
      ensures allow.cap == allowCap && deny.cap == denyCap
    {
      allow := new Cache(allowCap);
      deny := new Cache(denyCap);
    }

    ghost function Cached(sni: string): Option<Decision>
      reads this, allow, deny, allow.slots, deny.slots
    {
      var a := Lookup(allow.State(), sni);
      if a.Some? then a else Lookup(deny.State(), sni)
    }

    /** A cached decision, marked as used on its side. */
    method Find(sni: string) returns (r: Option<Decision>)
      requires Valid()
      modifies allow.slots, deny.slots
      ensures Valid() && allow.slots == old(allow.slots) && deny.slots == old(deny.slots)
      ensures r == old(Cached(sni))
      ensures allow.State() == Hit(old(allow.State()), sni)
      ensures Lookup(old(allow.State()), sni).Some? ==> deny.State() == old(deny.State())
      ensures Lookup(old(allow.State()), sni).None? ==> deny.State() == Hit(old(deny.State()), sni)
      ensures r.None? ==> allow.State() == old(allow.State()) && deny.State() == old(deny.State())
    {
      r := GetAllowed(sni);
      if r.None? {
        r := GetDenied(sni);
      }
    }

    method GetAllowed(sni: string) returns (r: Option<Decision>)
      requires Valid()
      modifies allow.slots
      ensures Valid() && allow.slots == old(allow.slots)
      ensures r == Lookup(old(allow.State()), sni)
      ensures allow.State() == Hit(old(allow.State()), sni) && deny.State() == old(deny.State())
    {
      HitAll(allow.State(), sni, Allows);
      r := allow.Get(sni);
    }

    method GetDenied(sni: string) returns (r: Option<Decision>)
      requires Valid()
      modifies deny.slots
      ensures Valid() && deny.slots == old(deny.slots)
      ensures r == Lookup(old(deny.State()), sni)
      ensures deny.State() == Hit(old(deny.State()), sni) && allow.State() == old(allow.State())
    {
      HitAll(deny.State(), sni, Denies);
      r := deny.Get(sni);
    }

    method KeepAllowed(sni: string, d: Decision, free: bool)
      requires Valid() && d.allow
      modifies allow, allow.slots
      ensures Valid() && Fits(old(allow.State()), allow.cap)
      ensures allow.State() == Stored(old(allow.State()), allow.cap, free, sni, d) && deny.State() == old(deny.State())
    {
      allow.Indexed(sni);
      StoredAll(allow.State(), allow.cap, free, sni, d, Allows);
      allow.Put(sni, d, free);
    }

    method KeepDenied(sni: string, d: Decision, free: bool)
      requires Valid() && !d.allow
      modifies deny, deny.slots
      ensures Valid() && Fits(old(deny.State()), deny.cap)
      ensures deny.State() == Stored(old(deny.State()), deny.cap, free, sni, d) && allow.State() == old(allow.State())
    {
      deny.Indexed(sni);
      StoredAll(deny.State(), deny.cap, free, sni, d, Denies);
      deny.Put(sni, d, free);
    }

    /**
     The cached decision, or else the one route gives now, kept on its side. A new denial leaves every
     allowed name where it is.
     */
    method GetOrRoute(sni: string, route: () -> Decision, free: bool) returns (d: Decision, hit: bool)
      requires Valid()
      modifies allow, deny, allow.slots, deny.slots
      ensures Valid()
      ensures hit == old(Cached(sni)).Some? && d == if hit then old(Cached(sni)).value else route()
      ensures hit ==> allow.State() == Hit(old(allow.State()), sni)
      ensures hit && Lookup(old(allow.State()), sni).Some? ==> deny.State() == old(deny.State())
      ensures hit && Lookup(old(allow.State()), sni).None? ==> deny.State() == Hit(old(deny.State()), sni)
      ensures !hit ==> KeptAs(old(allow.State()), allow.State(), allow.cap, free, sni, d, d.allow)
      ensures !hit ==> KeptAs(old(deny.State()), deny.State(), deny.cap, free, sni, d, !d.allow)
    {
      var cached := Find(sni);
      if cached.Some? {
        return cached.value, true;
      }
      d := route();
      hit := false;
      Keep(sni, d, free);
    }

    /** A new decision goes to its side, and leaves the other as it is. */
    method Keep(sni: string, d: Decision, free: bool)
      requires Valid()
      modifies allow, deny, allow.slots, deny.slots
      ensures Valid()
      ensures KeptAs(old(allow.State()), allow.State(), allow.cap, free, sni, d, d.allow)
      ensures KeptAs(old(deny.State()), deny.State(), deny.cap, free, sni, d, !d.allow)
    {
      if d.allow {
        KeepAllowed(sni, d, free);
      } else {
        KeepDenied(sni, d, free);
      }
    }
  }
}
