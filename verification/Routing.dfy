/**
 Choosing the rule for a name: the lookup structures prioritiseListener builds and RouteExcept with
 decide (config.go), and the order the console shows (console_rules.go evaluationOrder), both held to
 a plain scan of all the rules.
 */
module Routing {
  import opened Wrappers
  import opened Pattern
  import Classify
  import Template

  datatype Rule = Rule(
    listener: string, source: string, kind: Kind, literalChars: nat, expr: seq<Atom>,
    allow: bool, serves: bool, targetHost: string, targetPort: nat)

  /** Rule.Key: the listener and the pattern, or what stands for one. */
  datatype Key = Key(listener: string, kind: Kind, expr: seq<Atom>)

  function KeyOf(r: Rule): Key {
    match r.kind
    case NoSni => Key(r.listener, NoSni, [])
    case CatchAll => Key(r.listener, CatchAll, [])
    case _ => Key(r.listener, Literal, r.expr)
  }

  function Groups(r: Rule): nat {
    if r.kind == Wildcard then 1 + Stars(LiteralName(r.source)) else 1
  }

  /** What loading a rule establishes: its pattern was classified and its target probed. */
  ghost predicate Loaded(r: Rule) {
    PatternRead(r) &&
    (r.allow && !r.serves ==>
      Template.Evaluate(Template.Parse(r.targetHost), Template.Probe(Groups(r))).Text?)
  }

  ghost predicate PatternRead(r: Rule) {
    match r.kind
    case NoSni => r.expr == [] && r.literalChars == 0
    case CatchAll => r.expr == [Anything] && r.literalChars == 0
    case _ =>
      var name := LiteralName(r.source);
      ValidName(name) && !HasPair(name, '*', '*') && (r.kind == Literal <==> '*' !in name) &&
      r.expr == Compiled(Split(name)) && r.literalChars == Literals(name)
  }

  /** A rule as the configuration has it, once its settings were read. */
  datatype Raw = Raw(listener: string, pattern: string, allow: bool, serves: bool, targetHost: string, targetPort: nat)

  /** Why a rule is not loaded; Crash is the panic of a probe that is none of expand's errors. */
  datatype RuleError = BadPattern(error: Error) | BadTarget(target: Template.Error) | Crash

  /** What the probe of the target gives. */
  function Probed(raw: Raw): Template.Outcome {
    Template.Evaluate(Template.Parse(raw.targetHost), Template.Probe(RawGroups(raw.pattern)))
  }

  predicate Loads(raw: Raw) {
    Classify.Acceptable(raw.pattern) && (raw.allow && !raw.serves ==> Probed(raw).Text?)
  }

  /** How many groups a match of the pattern has. */
  function RawGroups(pattern: string): nat {
    if pattern == NO_SNI || pattern == ANYTHING_ELSE then 1 else 1 + Stars(LiteralName(pattern))
  }

  /** The rule is what the configuration says. */
  ghost predicate Says(r: Rule, raw: Raw) {
    r.listener == raw.listener && r.source == raw.pattern && r.allow == raw.allow && r.serves == raw.serves &&
    r.targetHost == raw.targetHost && r.targetPort == raw.targetPort
  }

  lemma {:induction false} NoStars(name: string)
    requires '*' !in name
    ensures Stars(name) == 0
  {
    if name != "" {
      assert name[0] in name;
      NoStars(name[1..]);
    }
  }

  /** The rule of a pattern, its target not yet probed. */
  method ReadPattern(raw: Raw) returns (r: Result<Rule, RuleError>)
    ensures r.Ok? <==> Classify.Acceptable(raw.pattern)
    ensures r.Ok? ==> PatternRead(r.value) && Says(r.value, raw) && Groups(r.value) == RawGroups(raw.pattern)
    ensures r.Err? ==> r.error.BadPattern?
  {
    var c := Classify.ClassifyDomain(raw.pattern);
    if c.Err? {
      return Err(BadPattern(c.error));
    }
    if c.value.kind == Literal {
      NoStars(LiteralName(raw.pattern));
    }
    return Ok(Rule(raw.listener, raw.pattern, c.value.kind, c.value.literalChars, c.value.expr,
                   raw.allow, raw.serves, raw.targetHost, raw.targetPort));
  }

  /** buildRule: classify the pattern, and probe the target with as many empty groups as it has stars. */
  method Load(raw: Raw) returns (r: Result<Rule, RuleError>)
    ensures r.Ok? <==> Loads(raw)
    ensures r.Ok? ==> Loaded(r.value) && Says(r.value, raw)
    ensures r.Err? ==> match r.error
      case BadPattern(_) => !Classify.Acceptable(raw.pattern)
      case BadTarget(e) => Probed(raw) == Template.Bad(e)
      case Crash => Probed(raw) == Template.Panic
  {
    r := ReadPattern(raw);
    if r.Ok? && raw.allow && !raw.serves {
      var o := Template.Expand(raw.targetHost, Template.Probe(Groups(r.value)));
      if o.Bad? {
        r := Err(BadTarget(o.error));
      } else if o.Panic? {
        r := Err(Crash);
      }
    }
  }

  /** All the rules of a configuration, in file order, or the first error. */
  method LoadAll(raws: seq<Raw>) returns (r: Result<seq<Rule>, RuleError>)
    ensures r.Ok? <==> forall i :: 0 <= i < |raws| ==> Loads(raws[i])
    ensures r.Ok? ==> |r.value| == |raws| && forall i :: 0 <= i < |raws| ==> Loaded(r.value[i]) && Says(r.value[i], raws[i])
  {
    var rules: seq<Rule> := [];
    for n := 0 to |raws|
      invariant |rules| == n
      invariant forall i :: 0 <= i < n ==> Loads(raws[i]) && Loaded(rules[i]) && Says(rules[i], raws[i])
    {
      var loaded := Load(raws[n]);
      if loaded.Err? {
        return Err(loaded.error);
      }
      rules := rules + [loaded.value];
    }
    return Ok(rules);
  }

  // ----- Which rule wins: the reference -----

  /** The groups of the match of rule r for sni, if it matches. */
  function MatchOf(r: Rule, sni: string): Option<seq<string>> {
    if r.kind == NoSni then (if sni == "" then Some([]) else None) else Find(r.expr, sni)
  }

  predicate Eligible(r: Rule, listener: string, sni: string, stopped: set<Key>) {
    r.listener == listener && KeyOf(r) !in stopped && MatchOf(r, sni).Some?
  }

  function KindRank(k: Kind): nat {
    match k
    case NoSni => 0
    case Literal => 1
    case Wildcard => 2
    case CatchAll => 3
  }

  /** More specific: by kind, then by literal characters. */
  predicate Outranks(a: Rule, b: Rule) {
    KindRank(a.kind) < KindRank(b.kind) || (a.kind == b.kind && a.literalChars > b.literalChars)
  }

  /** Scan all rules in file order; a later rule wins only if it is more specific. */
  function Best(rules: seq<Rule>, listener: string, sni: string, stopped: set<Key>): (b: Option<nat>)
    ensures b.Some? ==> b.value < |rules| && Eligible(rules[b.value], listener, sni, stopped)
  {
    if rules == [] then None
    else
      var i := |rules| - 1;
      var before := Best(rules[..i], listener, sni, stopped);
      if Eligible(rules[i], listener, sni, stopped) && (before.Some? ==> Outranks(rules[i], rules[before.value]))
      then Some(i) else before
  }

  /** Rule w matches, and beats every other rule that does. */
  ghost predicate Wins(rules: seq<Rule>, listener: string, sni: string, stopped: set<Key>, w: nat) {
    w < |rules| && Eligible(rules[w], listener, sni, stopped) &&
    forall i :: 0 <= i < |rules| && Eligible(rules[i], listener, sni, stopped) && i != w ==>
      Outranks(rules[w], rules[i]) || (!Outranks(rules[i], rules[w]) && w < i)
  }

  /** The winner beats every other eligible rule: it is more specific, or as specific and earlier. */
  lemma {:induction false} BestBeatsAll(rules: seq<Rule>, listener: string, sni: string, stopped: set<Key>)
    ensures var b := Best(rules, listener, sni, stopped);
      match b
      case None => forall i :: 0 <= i < |rules| ==> !Eligible(rules[i], listener, sni, stopped)
      case Some(w) => Wins(rules, listener, sni, stopped, w)
  {
    if rules != [] {
      var i := |rules| - 1;
      BestBeatsAll(rules[..i], listener, sni, stopped);
      assert forall k :: 0 <= k < i ==> rules[..i][k] == rules[k];
    }
  }

  /** Only one rule can beat all others. */
  lemma BestIsUnique(rules: seq<Rule>, listener: string, sni: string, stopped: set<Key>, w: nat)
    requires Wins(rules, listener, sni, stopped, w)
    ensures Best(rules, listener, sni, stopped) == Some(w)
  {
    BestBeatsAll(rules, listener, sni, stopped);
  }

  /** The rules without the stopped ones. */
  function Without(rules: seq<Rule>, stopped: set<Key>): seq<Rule> {
    if rules == [] then []
    else
      var i := |rules| - 1;
      Without(rules[..i], stopped) + if KeyOf(rules[i]) in stopped then [] else [rules[i]]
  }

  /** A stopped rule acts as if it were not configured. */
  lemma {:induction false} StoppedActsAbsent(rules: seq<Rule>, listener: string, sni: string, stopped: set<Key>)
    ensures var a, b := Best(rules, listener, sni, stopped), Best(Without(rules, stopped), listener, sni, {});
      (a.Some? <==> b.Some?) && (a.Some? ==> rules[a.value] == Without(rules, stopped)[b.value])
    decreases |rules|
  {
    if rules != [] {
      var i := |rules| - 1;
      StoppedActsAbsent(rules[..i], listener, sni, stopped);
      var w := Without(rules[..i], stopped);
      if KeyOf(rules[i]) in stopped {
        assert w + [] == w;
      } else {
        assert (w + [rules[i]])[..|w|] == w;
      }
    }
  }

  // ----- A stable sort -----

  /** How a sort compares rules: by two numbers, the first one first. */
  type Rank = Rule -> (int, int)

  predicate Below(x: (int, int), y: (int, int)) { x.0 < y.0 || (x.0 == y.0 && x.1 < y.1) }

  /** a comes before b: it ranks lower, or no higher and is earlier in the file. */
  predicate Ahead(rules: seq<Rule>, rank: Rank, a: nat, b: nat)
    requires a < |rules| && b < |rules|
  {
    Below(rank(rules[a]), rank(rules[b])) || (!Below(rank(rules[b]), rank(rules[a])) && a < b)
  }

  ghost predicate Sorted(rules: seq<Rule>, rank: Rank, order: seq<nat>) {
    (forall i :: 0 <= i < |order| ==> order[i] < |rules|) &&
    forall i, j :: 0 <= i < j < |order| ==> Ahead(rules, rank, order[i], order[j])
  }

  /** sort.SliceStable on rules in file order. */
  method SortStable(rules: seq<Rule>, rank: Rank, input: seq<nat>) returns (order: seq<nat>)
    requires forall i :: 0 <= i < |input| ==> input[i] < |rules|
    requires forall i, j :: 0 <= i < j < |input| ==> input[i] < input[j]
    ensures Sorted(rules, rank, order)
    ensures forall x :: x in order <==> x in input
  {
    order := [];
    for k := 0 to |input|
      invariant Sorted(rules, rank, order)
      invariant forall x :: x in order <==> x in input[..k]
    {
      var x := input[k];
      var p := |order|;
      while p > 0 && Below(rank(rules[x]), rank(rules[order[p - 1]]))
        invariant 0 <= p <= |order|
        invariant forall q :: p <= q < |order| ==> order[q] < |rules| && Below(rank(rules[x]), rank(rules[order[q]]))
      {
        p := p - 1;
      }
      Inserted(rules, rank, order, p, x, input[..k]);
      order := order[..p] + [x] + order[p..];
      assert input[..k + 1] == input[..k] + [x];
    }
    assert input[..|input|] == input;
  }

  lemma Inserted(rules: seq<Rule>, rank: Rank, order: seq<nat>, p: nat, x: nat, before: seq<nat>)
    requires Sorted(rules, rank, order) && p <= |order| && x < |rules|
    requires forall y :: y in order <==> y in before
    requires forall i :: 0 <= i < |before| ==> before[i] < x
    requires forall q :: p <= q < |order| ==> order[q] < |rules| && Below(rank(rules[x]), rank(rules[order[q]]))
    requires p > 0 ==> !Below(rank(rules[x]), rank(rules[order[p - 1]]))
    ensures Sorted(rules, rank, order[..p] + [x] + order[p..])
    ensures forall y :: y in order[..p] + [x] + order[p..] <==> y in before + [x]
  {
    var r := order[..p] + [x] + order[p..];
    forall i | 0 <= i < |order| ensures order[i] < x {
      assert order[i] in order;
    }
    forall i, j | 0 <= i < j < |r| ensures r[j] < |rules| && r[i] < |rules| && Ahead(rules, rank, r[i], r[j]) {
      if j == p {
        assert i < p && r[i] == order[i];
        if i < p - 1 {
          assert Ahead(rules, rank, order[i], order[p - 1]);
        }
      } else if i != p {
        var a, b := if i < p then i else i - 1, if j < p then j else j - 1;
        assert r[i] == order[a] && r[j] == order[b] && Ahead(rules, rank, order[a], order[b]);
      }
    }
    assert order == order[..p] + order[p..];
  }

  // ----- prioritiseListener -----

  /**
   What a listener's routing looks up: a rule by its literal name, and the other rules in the order
   they are tried. Wildcards are remembered under a name that no client can send.
   */
  datatype Index = Index(literals: map<string, nat>, byPriority: seq<nat>)

  datatype LoadError = DuplicateName(rule: nat, previous: nat) | NeverMatches(rule: nat, previous: nat)

  function Hidden(name: string): string { "\0" + name }

  /** Two rules of a listener of which only one could ever match. */
  predicate Duplicates(a: Rule, b: Rule) {
    a.kind == b.kind && (a.kind == Literal || a.kind == Wildcard ==> LiteralName(a.source) == LiteralName(b.source))
  }

  ghost predicate NoDuplicates(rules: seq<Rule>, listener: string, n: nat)
    requires n <= |rules|
  {
    forall i, j :: 0 <= i < j < n && rules[i].listener == listener && rules[j].listener == listener ==>
      !Duplicates(rules[i], rules[j])
  }

  /** Where the map remembers a rule's name. */
  function MapKey(r: Rule): string {
    if r.kind == Literal then LiteralName(r.source) else Hidden(LiteralName(r.source))
  }

  predicate Named(r: Rule) { r.kind == Literal || r.kind == Wildcard }

  /** An entry of the map is a rule of that name; a hidden name is a wildcard's. */
  ghost predicate EntryOk(rules: seq<Rule>, listener: string, keyOf: Rule -> string, name: string, i: nat, n: nat)
    requires n <= |rules|
  {
    i < n && rules[i].listener == listener && Named(rules[i]) && keyOf(rules[i]) == name &&
    (rules[i].kind == Wildcard <==> name != "" && name[0] == '\0')
  }

  /** The map after the first n rules. */
  ghost predicate LiteralsOk(rules: seq<Rule>, listener: string, keyOf: Rule -> string, literals: map<string, nat>, n: nat)
    requires n <= |rules|
  {
    (forall name :: name in literals ==> EntryOk(rules, listener, keyOf, name, literals[name], n)) &&
    (forall i :: 0 <= i < n && rules[i].listener == listener && Named(rules[i]) ==> keyOf(rules[i]) in literals)
  }

  ghost predicate IndexOk(rules: seq<Rule>, listener: string, index: Index) {
    LiteralsOk(rules, listener, MapKey, index.literals, |rules|) && Sorted(rules, PriorityRank, index.byPriority) &&
    forall i: nat :: i in index.byPriority <==> i < |rules| && rules[i].listener == listener && rules[i].kind != Literal
  }

  /** How byPriority is sorted: by kind, then more literal characters first. */
  function PriorityRank(r: Rule): (int, int) { (KindRank(r.kind), 0 - r.literalChars) }

  /** The listener's rules so far that are not literals, in file order. */
  ghost predicate OthersOk(rules: seq<Rule>, listener: string, others: seq<nat>, n: nat)
    requires n <= |rules|
  {
    (forall j, k :: 0 <= j < k < |others| ==> others[j] < others[k]) &&
    forall j: nat :: j in others <==> j < n && rules[j].listener == listener && rules[j].kind != Literal
  }

  /** The first rule so far of a kind of which there can be only one. */
  ghost predicate FirstOf(rules: seq<Rule>, listener: string, k: Kind, first: Option<nat>, n: nat)
    requires n <= |rules|
  {
    match first
    case None => forall i :: 0 <= i < n ==> !(rules[i].listener == listener && rules[i].kind == k)
    case Some(f) => f < n && rules[f].listener == listener && rules[f].kind == k
  }

  /** What the loop over the rules has built. */
  datatype Building = Building(literals: map<string, nat>, others: seq<nat>, none: Option<nat>, catchAll: Option<nat>)

  ghost predicate Built(rules: seq<Rule>, listener: string, b: Building, n: nat)
    requires n <= |rules|
  {
    LiteralsOk(rules, listener, MapKey, b.literals, n) && OthersOk(rules, listener, b.others, n) &&
    FirstOf(rules, listener, NoSni, b.none, n) && FirstOf(rules, listener, CatchAll, b.catchAll, n) &&
    NoDuplicates(rules, listener, n)
  }

  lemma MoreOthers(rules: seq<Rule>, listener: string, others: seq<nat>, n: nat)
    requires n < |rules| && OthersOk(rules, listener, others, n)
    ensures OthersOk(rules, listener,
      if rules[n].listener == listener && rules[n].kind != Literal then others + [n] else others, n + 1)
  {
    forall j | 0 <= j < |others| ensures others[j] < n {
      assert others[j] in others;
    }
  }

  /** Literal and wildcard keys are told apart by their first character, and give back the name. */
  lemma MapKeyMeaning(r: Rule)
    requires Loaded(r) && (r.kind == Literal || r.kind == Wildcard)
    ensures MapKey(r) != "" && (MapKey(r)[0] == '\0' <==> r.kind == Wildcard)
    ensures r.kind == Wildcard ==> MapKey(r)[1..] == LiteralName(r.source)
  {
    var name := LiteralName(r.source);
    assert IsHostChar(name[0]) || name[0] == '*';
  }

  lemma SameNameSameKey(a: Rule, b: Rule)
    requires Named(a) && a.kind == b.kind
    ensures Duplicates(a, b) ==> MapKey(a) == MapKey(b)
    ensures Loaded(a) && Loaded(b) && MapKey(a) == MapKey(b) ==> Duplicates(a, b)
  {
    if Loaded(a) && Loaded(b) {
      MapKeyMeaning(a);
      MapKeyMeaning(b);
    }
  }

  /** A remembered name belongs to an earlier rule of the kind. */
  lemma KnownName(rules: seq<Rule>, listener: string, literals: map<string, nat>, n: nat)
    requires n < |rules| && rules[n].listener == listener && Named(rules[n])
    requires forall i :: 0 <= i < |rules| ==> Loaded(rules[i])
    requires LiteralsOk(rules, listener, MapKey, literals, n) && MapKey(rules[n]) in literals
    ensures literals[MapKey(rules[n])] < n && !NoDuplicates(rules, listener, n + 1)
  {
    var key := MapKey(rules[n]);
    MapKeyMeaning(rules[n]);
    var p := literals[key];
    assert EntryOk(rules, listener, MapKey, key, p, n);
    SameNameSameKey(rules[p], rules[n]);
    assert Duplicates(rules[p], rules[n]);
  }

  lemma NewName(rules: seq<Rule>, listener: string, literals: map<string, nat>, n: nat)
    requires n < |rules| && rules[n].listener == listener && Named(rules[n])
    requires LiteralsOk(rules, listener, MapKey, literals, n) && NoDuplicates(rules, listener, n)
    requires MapKey(rules[n]) !in literals
    ensures NoDuplicates(rules, listener, n + 1)
  {
    forall i | 0 <= i < n && rules[i].listener == listener && rules[i].kind == rules[n].kind
      ensures !Duplicates(rules[i], rules[n])
    {
      SameNameSameKey(rules[i], rules[n]);
    }
  }

  lemma RememberName(rules: seq<Rule>, listener: string, keyOf: Rule -> string, literals: map<string, nat>, n: nat)
    requires n < |rules| && EntryOk(rules, listener, keyOf, keyOf(rules[n]), n, n + 1)
    requires LiteralsOk(rules, listener, keyOf, literals, n)
    ensures LiteralsOk(rules, listener, keyOf, literals[keyOf(rules[n]) := n], n + 1)
  {
    forall name | name in literals ensures EntryOk(rules, listener, keyOf, name, literals[name], n + 1) {
      assert EntryOk(rules, listener, keyOf, name, literals[name], n);
    }
  }

  /** The rule is the first of its kind. */
  lemma FreshKind(rules: seq<Rule>, listener: string, k: Kind, first: Option<nat>, n: nat)
    requires n < |rules| && rules[n].listener == listener && rules[n].kind == k && (k == NoSni || k == CatchAll)
    requires FirstOf(rules, listener, k, first, n) && NoDuplicates(rules, listener, n)
    ensures if first.Some? then !NoDuplicates(rules, listener, n + 1)
            else NoDuplicates(rules, listener, n + 1) && FirstOf(rules, listener, k, Some(n), n + 1)
  {
    if first.Some? {
      assert Duplicates(rules[first.value], rules[n]);
    }
  }

  lemma OtherListener(rules: seq<Rule>, listener: string, n: nat)
    requires n < |rules| && NoDuplicates(rules, listener, n) && rules[n].listener != listener
    ensures NoDuplicates(rules, listener, n + 1)
  {
  }

  lemma SameNames(rules: seq<Rule>, listener: string, keyOf: Rule -> string, literals: map<string, nat>, n: nat)
    requires n < |rules| && LiteralsOk(rules, listener, keyOf, literals, n)
    requires rules[n].listener != listener || (rules[n].kind != Literal && rules[n].kind != Wildcard)
    ensures LiteralsOk(rules, listener, keyOf, literals, n + 1)
  {
    forall name | name in literals ensures EntryOk(rules, listener, keyOf, name, literals[name], n + 1) {
      assert EntryOk(rules, listener, keyOf, name, literals[name], n);
    }
  }

  lemma SameFirst(rules: seq<Rule>, listener: string, k: Kind, first: Option<nat>, n: nat)
    requires n < |rules| && FirstOf(rules, listener, k, first, n)
    requires rules[n].listener != listener || rules[n].kind != k
    ensures FirstOf(rules, listener, k, first, n + 1)
  {
  }

  /** One turn of the loop: rule n is entered, or it duplicates an earlier one. */
  method AddRule(rules: seq<Rule>, listener: string, b: Building, n: nat) returns (r: Result<Building, LoadError>)
    requires n < |rules| && Built(rules, listener, b, n)
    requires forall i :: 0 <= i < |rules| ==> Loaded(rules[i])
    ensures match r
      case Ok(c) => Built(rules, listener, c, n + 1)
      case Err(_) => !NoDuplicates(rules, listener, n + 1)
  {
    var rule := rules[n];
    MoreOthers(rules, listener, b.others, n);
    if rule.listener != listener || rule.kind != NoSni {
      SameFirst(rules, listener, NoSni, b.none, n);
    }
    if rule.listener != listener || rule.kind != CatchAll {
      SameFirst(rules, listener, CatchAll, b.catchAll, n);
    }
    if rule.listener != listener {
      OtherListener(rules, listener, n);
      SameNames(rules, listener, MapKey, b.literals, n);
      return Ok(b);
    }
    var name := LiteralName(rule.source);
    match rule.kind {
      case Literal =>
        if name in b.literals {
          KnownName(rules, listener, b.literals, n);
          return Err(DuplicateName(n, b.literals[name]));
        }
        NewName(rules, listener, b.literals, n);
        MapKeyMeaning(rule);
        RememberName(rules, listener, MapKey, b.literals, n);
        return Ok(b.(literals := b.literals[name := n]));
      case Wildcard =>
        if Hidden(name) in b.literals {
          KnownName(rules, listener, b.literals, n);
          return Err(DuplicateName(n, b.literals[Hidden(name)]));
        }
        NewName(rules, listener, b.literals, n);
        MapKeyMeaning(rule);
        RememberName(rules, listener, MapKey, b.literals, n);
        return Ok(b.(literals := b.literals[Hidden(name) := n], others := b.others + [n]));
      case NoSni =>
        FreshKind(rules, listener, NoSni, b.none, n);
        if b.none.Some? {
          return Err(NeverMatches(n, b.none.value));
        }
        SameNames(rules, listener, MapKey, b.literals, n);
        return Ok(b.(none := Some(n), others := b.others + [n]));
      case CatchAll =>
        FreshKind(rules, listener, CatchAll, b.catchAll, n);
        if b.catchAll.Some? {
          return Err(NeverMatches(n, b.catchAll.value));
        }
        SameNames(rules, listener, MapKey, b.literals, n);
        return Ok(b.(catchAll := Some(n), others := b.others + [n]));
    }
  }

  method Prioritise(rules: seq<Rule>, listener: string) returns (r: Result<Index, LoadError>)
    requires forall i :: 0 <= i < |rules| ==> Loaded(rules[i])
    ensures r.Ok? <==> NoDuplicates(rules, listener, |rules|)
    ensures r.Ok? ==> IndexOk(rules, listener, r.value)
  {
    var b := Building(map[], [], None, None);
    for n := 0 to |rules|
      invariant Built(rules, listener, b, n)
    {
      var next := AddRule(rules, listener, b, n);
      match next {
        case Ok(c) => b := c;
        case Err(e) => return Err(e);
      }
    }
    forall i | 0 <= i < |b.others| ensures b.others[i] < |rules| {
      assert b.others[i] in b.others;
    }
    var byPriority := SortStable(rules, PriorityRank, b.others);
    r := Ok(Index(b.literals, byPriority));
  }

  // ----- decide -----

  datatype DecideError = BadTemplate | InvalidHost(host: string)

  datatype Decision = Decision(allow: bool, host: string, port: nat, rule: Option<nat>, err: Option<DecideError>)

  const NO_RULE := Decision(false, "", 0, None, None)

  /** netip.ParseAddr accepts the text. */
  type AddrCheck = string -> bool

  predicate ValidHost(isAddr: AddrCheck, host: string) {
    host != "" && (if ':' in host then isAddr(host) else forall i :: 0 <= i < |host| ==> IsHostChar(host[i]))
  }

  /** A target is an address if it has a colon, and else a name of letters, digits, dots, hyphens and underscores. */
  lemma HostsAllowed(isAddr: AddrCheck, host: string)
    ensures host == "" ==> !ValidHost(isAddr, host)
    ensures ':' in host ==> (ValidHost(isAddr, host) <==> isAddr(host))
    ensures host != "" && ':' !in host ==> (ValidHost(isAddr, host) <==> forall c :: c in host ==> IsHostChar(c))
  {
  }

  function WithName(sni: string, caps: seq<string>): (g: seq<Option<string>>)
    ensures |g| == |caps| + 1 && g[0] == Some(sni) && forall i :: 0 <= i < |caps| ==> g[i + 1] == Some(caps[i])
  {
    [Some(sni)] + seq(|caps|, i requires 0 <= i < |caps| => Some(caps[i]))
  }

  /**
   The outcome of rule i (r) for a match. A loaded rule's target always expands; what it expands to may
   still not be a host, which denies the connection.
   */
  function Decide(isAddr: AddrCheck, r: Rule, i: nat, groups: seq<Option<string>>): (d: Decision)
    ensures d.rule == Some(i) && (d.err.Some? ==> !d.allow)
    ensures !d.allow || r.serves ==> d.host == "" && d.port == 0
    ensures Loaded(r) && |groups| == Groups(r) ==>
      var host := Template.Rendered(Template.Parse(r.targetHost).segments, groups);
      (d.allow <==> r.allow && (r.serves || ValidHost(isAddr, host))) &&
      (d.allow && !r.serves ==> d.host == host && d.port == r.targetPort) &&
      (d.err == if r.allow && !d.allow then Some(InvalidHost(host)) else None)
  {
    if !r.allow then Decision(false, "", 0, Some(i), None)
    else if r.serves then Decision(true, "", 0, Some(i), None)
    else
      var o := Template.Evaluate(Template.Parse(r.targetHost), groups);
      Template.ProbeDecides(r.targetHost, groups);
      if !o.Text? then Decision(false, "", 0, Some(i), Some(BadTemplate))
      else if ValidHost(isAddr, o.s) then Decision(true, o.s, r.targetPort, Some(i), None)
      else Decision(false, "", 0, Some(i), Some(InvalidHost(o.s)))
  }

  // ----- RouteExcept -----

  lemma LowerTwice(s: string)
    ensures IsLower(Lower(s))
  {
  }

  lemma FindChar(c: char, e: seq<Atom>, s: string)
    ensures Find([Char(c)] + e, s) ==
      if s != "" && LowerChar(s[0]) == LowerChar(c) then Find(e, s[1..]) else None
  {
    assert ([Char(c)] + e)[1..] == e;
  }

  lemma {:induction false} QuotedMatches(name: string, s: string)
    requires '*' !in name && IsLower(name) && IsLower(s)
    ensures Find(PartExpr(name), s) == if s == name then Some([]) else None
    decreases |name|
  {
    if name != "" {
      assert name[0] in name;
      FindChar(name[0], PartExpr(name[1..]), s);
      if s != "" {
        QuotedMatches(name[1..], s[1..]);
        assert s == [s[0]] + s[1..] && name == [name[0]] + name[1..];
      }
    }
  }

  /** A literal rule matches its own name only, without captures. */
  lemma LiteralMatch(r: Rule, sni: string)
    requires Loaded(r) && r.kind == Literal && IsLower(sni)
    ensures MatchOf(r, sni) == if sni == LiteralName(r.source) then Some([]) else None
  {
    var name := LiteralName(r.source);
    LowerTwice(UnescapeDots(TrimSuffix(TrimPrefix(r.source, '^'), '$')));
    Classify.QuotedIsCompiled(name);
    QuotedMatches(name, sni);
  }

  /** At most one literal, one $no_sni and one $anything_else rule matches a name. */
  lemma OneOfAKind(rules: seq<Rule>, listener: string, sni: string, stopped: set<Key>, i: nat, j: nat)
    requires i < |rules| && j < |rules| && Loaded(rules[i]) && Loaded(rules[j])
    requires NoDuplicates(rules, listener, |rules|) && IsLower(sni)
    requires Eligible(rules[i], listener, sni, stopped) && Eligible(rules[j], listener, sni, stopped)
    requires rules[i].kind == rules[j].kind != Wildcard
    ensures i == j
  {
    if rules[i].kind == Literal {
      LiteralMatch(rules[i], sni);
      LiteralMatch(rules[j], sni);
    }
    assert Duplicates(rules[i], rules[j]) && Duplicates(rules[j], rules[i]);
  }

  /** The rule found by name wins. */
  lemma LiteralWins(rules: seq<Rule>, listener: string, sni: string, stopped: set<Key>, w: nat)
    requires forall i :: 0 <= i < |rules| ==> Loaded(rules[i])
    requires NoDuplicates(rules, listener, |rules|) && IsLower(sni)
    requires w < |rules| && rules[w].listener == listener && rules[w].kind == Literal
    requires LiteralName(rules[w].source) == sni && KeyOf(rules[w]) !in stopped
    ensures Best(rules, listener, sni, stopped) == Some(w) && MatchOf(rules[w], sni) == Some([])
  {
    LiteralMatch(rules[w], sni);
    forall i | 0 <= i < |rules| && Eligible(rules[i], listener, sni, stopped) && i != w
      ensures Outranks(rules[w], rules[i])
    {
      if rules[i].kind == Literal {
        OneOfAKind(rules, listener, sni, stopped, w, i);
      }
      assert rules[i].kind != NoSni;
    }
    BestIsUnique(rules, listener, sni, stopped, w);
  }

  /** Without a running rule of that very name, the first match in priority order wins. */
  lemma FirstInOrderWins(rules: seq<Rule>, listener: string, order: seq<nat>, sni: string, stopped: set<Key>, k: nat)
    requires Sorted(rules, PriorityRank, order) && k < |order|
    requires Eligible(rules[order[k]], listener, sni, stopped)
    requires forall p :: 0 <= p < k ==> !Eligible(rules[order[p]], listener, sni, stopped)
    requires forall i: nat :: i < |rules| && Eligible(rules[i], listener, sni, stopped) ==> i in order
    ensures Best(rules, listener, sni, stopped) == Some(order[k])
  {
    var w := order[k];
    forall i | 0 <= i < |rules| && Eligible(rules[i], listener, sni, stopped) && i != w
      ensures Outranks(rules[w], rules[i]) || (!Outranks(rules[i], rules[w]) && w < i)
    {
      assert i in order;
      var p :| 0 <= p < |order| && order[p] == i;
      assert Ahead(rules, PriorityRank, order[k], order[p]);
    }
    BestIsUnique(rules, listener, sni, stopped, w);
  }

  /** A running literal rule that matches is the one remembered under the name. */
  lemma LiteralKnown(rules: seq<Rule>, listener: string, index: Index, sni: string, stopped: set<Key>, i: nat)
    requires forall j :: 0 <= j < |rules| ==> Loaded(rules[j])
    requires NoDuplicates(rules, listener, |rules|) && IndexOk(rules, listener, index) && IsLower(sni)
    requires i < |rules| && rules[i].kind == Literal && Eligible(rules[i], listener, sni, stopped)
    ensures sni in index.literals && index.literals[sni] == i
  {
    LiteralMatch(rules[i], sni);
    MapKeyMeaning(rules[i]);
    assert MapKey(rules[i]) == sni;
    var p := index.literals[sni];
    assert EntryOk(rules, listener, MapKey, sni, p, |rules|);
    SameNameSameKey(rules[i], rules[p]);
    assert Duplicates(rules[i], rules[p]) && Duplicates(rules[p], rules[i]);
  }

  /** Whoever matches is in byPriority, unless it is the running literal. */
  lemma EligibleInOrder(rules: seq<Rule>, listener: string, index: Index, sni: string, stopped: set<Key>, i: nat)
    requires forall j :: 0 <= j < |rules| ==> Loaded(rules[j])
    requires NoDuplicates(rules, listener, |rules|) && IndexOk(rules, listener, index) && IsLower(sni)
    requires i < |rules| && Eligible(rules[i], listener, sni, stopped)
    ensures i in index.byPriority || (sni in index.literals && index.literals[sni] == i)
  {
    if rules[i].kind == Literal {
      LiteralKnown(rules, listener, index, sni, stopped, i);
    }
  }

  lemma OrderHasTheRest(rules: seq<Rule>, listener: string, index: Index, sni: string, stopped: set<Key>)
    requires forall j :: 0 <= j < |rules| ==> Loaded(rules[j])
    requires NoDuplicates(rules, listener, |rules|) && IndexOk(rules, listener, index) && IsLower(sni)
    requires sni in index.literals ==>
      index.literals[sni] < |rules| && !Eligible(rules[index.literals[sni]], listener, sni, stopped)
    ensures forall i: nat :: i < |rules| && Eligible(rules[i], listener, sni, stopped) ==> i in index.byPriority
  {
    forall i: nat | i < |rules| && Eligible(rules[i], listener, sni, stopped) ensures i in index.byPriority {
      EligibleInOrder(rules, listener, index, sni, stopped, i);
    }
  }

  /** The decision of the winner, if any. */
  function Reference(isAddr: AddrCheck, rules: seq<Rule>, listener: string, sni: string, stopped: set<Key>): Decision {
    var best := Best(rules, listener, sni, stopped);
    if best.None? then NO_RULE
    else
      var w := best.value;
      Decide(isAddr, rules[w], w, WithName(sni, MatchOf(rules[w], sni).value))
  }

  /**
   The literal lookup and the priority scan give the decision of the rule a scan of all running rules by
   kind, literal characters and file order would choose; no rule, no decision.
   */
  method RouteExcept(isAddr: AddrCheck, rules: seq<Rule>, listener: string, index: Index, sni: string, stopped: set<Key>)
    returns (d: Decision)
    requires forall i :: 0 <= i < |rules| ==> Loaded(rules[i])
    requires NoDuplicates(rules, listener, |rules|) && IndexOk(rules, listener, index)
    requires IsLower(sni) && (sni != "" ==> sni[0] != '\0')
    ensures d == Reference(isAddr, rules, listener, sni, stopped)
  {
    if sni in index.literals {
      var i := index.literals[sni];
      assert EntryOk(rules, listener, MapKey, sni, i, |rules|);
      if KeyOf(rules[i]) !in stopped {
        LiteralWins(rules, listener, sni, stopped, i);
        return Decide(isAddr, rules[i], i, WithName(sni, []));
      }
    }
    OrderHasTheRest(rules, listener, index, sni, stopped);
    forall i | 0 <= i < |index.byPriority| ensures rules[index.byPriority[i]].listener == listener {
      assert index.byPriority[i] in index.byPriority;
    }
    d := ScanOrder(isAddr, rules, listener, index.byPriority, sni, stopped);
  }

  /** The first running match in priority order, when the winner is among these rules. */
  method ScanOrder(isAddr: AddrCheck, rules: seq<Rule>, listener: string, order: seq<nat>, sni: string, stopped: set<Key>)
    returns (d: Decision)
    requires Sorted(rules, PriorityRank, order)
    requires forall i :: 0 <= i < |order| ==> order[i] < |rules| && rules[order[i]].listener == listener
    requires forall i: nat :: i < |rules| && Eligible(rules[i], listener, sni, stopped) ==> i in order
    ensures d == Reference(isAddr, rules, listener, sni, stopped)
  {
    for k := 0 to |order|
      invariant forall p :: 0 <= p < k ==> !Eligible(rules[order[p]], listener, sni, stopped)
    {
      var i := order[k];
      if KeyOf(rules[i]) in stopped {
        continue;
      }
      var m := MatchOf(rules[i], sni);
      if m.None? {
        continue;
      }
      FirstInOrderWins(rules, listener, order, sni, stopped, k);
      return Decide(isAddr, rules[i], i, WithName(sni, m.value));
    }
    BestBeatsAll(rules, listener, sni, stopped);
    d := NO_RULE;
  }

  /** A match has as many groups as the rule's pattern, so a loaded rule's target expands for it. */
  lemma MatchGroups(r: Rule, sni: string)
    requires Loaded(r) && MatchOf(r, sni).Some? && IsLower(sni)
    ensures |WithName(sni, MatchOf(r, sni).value)| == Groups(r)
  {
    match r.kind {
      case NoSni =>
      case Literal => LiteralMatch(r, sni);
      case Wildcard => FindMeaning(LiteralName(r.source), sni);
      case CatchAll =>
        assert r.expr[1..] == [];
        AnythingHasNoGroups(sni, |sni|);
    }
  }

  /** What a wildcard rule captured of a name gives it back when put for the stars of its pattern. */
  lemma CapturesGiveBackTheName(r: Rule, sni: string)
    requires Loaded(r) && r.kind == Wildcard && MatchOf(r, sni).Some? && IsLower(sni)
    ensures var name, caps := LiteralName(r.source), MatchOf(r, sni).value;
      |caps| == Stars(name) && Substitute(name, caps) == sni
  {
    var name := LiteralName(r.source);
    LowerTwice(UnescapeDots(TrimSuffix(TrimPrefix(r.source, '^'), '$')));
    FindMeaning(name, sni);
    CapturesRebuildTheName(name, sni, MatchOf(r, sni).value);
  }

  /** caps put for the stars of the rule's pattern give the name, and are the longest that do. */
  ghost predicate LongestFor(r: Rule, sni: string, caps: seq<string>) {
    Fills(LiteralName(r.source), caps, sni) &&
    forall others :: Fills(LiteralName(r.source), others, sni) ==> Greedier(caps, others)
  }

  /** Which names a loaded rule matches, and what it captures of them. */
  lemma MatchMeaning(r: Rule, sni: string)
    requires Loaded(r) && IsLower(sni)
    ensures match r.kind
      case NoSni => MatchOf(r, sni) == if sni == "" then Some([]) else None
      case CatchAll => MatchOf(r, sni) == Some([])
      case Literal => MatchOf(r, sni) == if sni == LiteralName(r.source) then Some([]) else None
      case Wildcard =>
        match MatchOf(r, sni)
        case None => forall caps :: !Fills(LiteralName(r.source), caps, sni)
        case Some(caps) => LongestFor(r, sni, caps)
  {
    if r.kind == Literal {
      LiteralMatch(r, sni);
    } else if r.kind == Wildcard {
      LowerTwice(UnescapeDots(TrimSuffix(TrimPrefix(r.source, '^'), '$')));
      FindsTheLongest(LiteralName(r.source), sni);
    } else if r.kind == CatchAll {
      AnythingMatches(sni);
    }
  }

  lemma AnythingMatches(s: string)
    ensures Find([Anything], s) == Some([])
  {
    AnythingHasNoGroups(s, |s|);
    FindIsComplete([Anything], s, []) by {
      assert [Anything][1..] == [] && Matches([Anything][1..], s[|s|..], []);
    }
  }

  /**
   The host of a decision by a wildcard rule is its target with the stars' text put in for the references:
   the longest text, further left first, that makes the pattern the name.
   */
  lemma HostOfTheLongest(isAddr: AddrCheck, rules: seq<Rule>, listener: string, sni: string, stopped: set<Key>)
    requires forall i :: 0 <= i < |rules| ==> Loaded(rules[i])
    requires IsLower(sni)
    ensures var d := Reference(isAddr, rules, listener, sni, stopped);
      d.allow && d.rule.Some? && d.rule.value < |rules| && rules[d.rule.value].kind == Wildcard &&
      !rules[d.rule.value].serves ==>
        exists caps :: LongestFor(rules[d.rule.value], sni, caps) && d.port == rules[d.rule.value].targetPort &&
          d.host == Template.Rendered(Template.Parse(rules[d.rule.value].targetHost).segments, WithName(sni, caps))
  {
    var best := Best(rules, listener, sni, stopped);
    if best.Some? && rules[best.value].kind == Wildcard {
      var r := rules[best.value];
      MatchMeaning(r, sni);
      MatchGroups(r, sni);
      assert LongestFor(r, sni, MatchOf(r, sni).value);
    }
  }

  lemma {:induction false} AnythingHasNoGroups(s: string, k: nat)
    requires k <= |s|
    ensures FindAny([Anything], s, k).Some? ==> FindAny([Anything], s, k).value == []
    decreases k
  {
    assert [Anything][1..] == [];
    if k > 0 {
      AnythingHasNoGroups(s, k - 1);
    }
  }

  // ----- The console's order -----

  function ConsoleRank(r: Rule): (int, int) {
    (KindRank(r.kind), if r.kind == Wildcard then 0 - r.literalChars else 0)
  }

  method EvaluationOrder(rules: seq<Rule>) returns (out: seq<nat>)
    ensures Sorted(rules, ConsoleRank, out)
    ensures forall i: nat :: i in out <==> i < |rules|
  {
    var all: seq<nat> := [];
    for i := 0 to |rules|
      invariant |all| == i && forall j :: 0 <= j < i ==> all[j] == j
    {
      all := all + [i];
    }
    out := SortStable(rules, ConsoleRank, all);
    forall i: nat ensures i in all <==> i < |rules| {
      assert i < |rules| ==> all[i] == i;
    }
  }

  /** The first rule of an order that matches. */
  function FirstIn(rules: seq<Rule>, order: seq<nat>, listener: string, sni: string, stopped: set<Key>): Option<nat> {
    if order == [] then None
    else if order[0] < |rules| && Eligible(rules[order[0]], listener, sni, stopped) then Some(order[0])
    else FirstIn(rules, order[1..], listener, sni, stopped)
  }

  ghost predicate FirstAt(rules: seq<Rule>, order: seq<nat>, listener: string, sni: string, stopped: set<Key>, k: nat) {
    k < |order| && (forall p :: 0 <= p <= k ==> order[p] < |rules|) &&
    Eligible(rules[order[k]], listener, sni, stopped) &&
    forall p :: 0 <= p < k ==> !Eligible(rules[order[p]], listener, sni, stopped)
  }

  lemma {:induction false} FirstInMeaning(rules: seq<Rule>, order: seq<nat>, listener: string, sni: string, stopped: set<Key>)
    requires forall k :: 0 <= k < |order| ==> order[k] < |rules|
    ensures match FirstIn(rules, order, listener, sni, stopped)
      case None => forall k :: 0 <= k < |order| ==> !Eligible(rules[order[k]], listener, sni, stopped)
      case Some(w) => exists k: nat :: FirstAt(rules, order, listener, sni, stopped, k) && order[k] == w
    decreases |order|
  {
    if order != [] && Eligible(rules[order[0]], listener, sni, stopped) {
      assert FirstAt(rules, order, listener, sni, stopped, 0);
    } else if order != [] {
      FirstInMeaning(rules, order[1..], listener, sni, stopped);
      var f := FirstIn(rules, order[1..], listener, sni, stopped);
      if f.Some? {
        var k: nat :| FirstAt(rules, order[1..], listener, sni, stopped, k) && order[1..][k] == f.value;
        assert order[k + 1] == f.value;
        forall p | 0 <= p < k + 1 ensures !Eligible(rules[order[p]], listener, sni, stopped) {
          assert p > 0 ==> order[1..][p - 1] == order[p];
        }
        assert FirstAt(rules, order, listener, sni, stopped, k + 1);
      } else {
        forall k | 0 <= k < |order| ensures !Eligible(rules[order[k]], listener, sni, stopped) {
          assert k > 0 ==> order[1..][k - 1] == order[k];
        }
      }
    }
  }

  /** The first that matches in the console's order beats every other. */
  lemma ConsoleFirstWins(rules: seq<Rule>, order: seq<nat>, listener: string, sni: string, stopped: set<Key>, k: nat)
    requires forall i :: 0 <= i < |rules| ==> Loaded(rules[i])
    requires NoDuplicates(rules, listener, |rules|) && IsLower(sni)
    requires Sorted(rules, ConsoleRank, order) && forall i: nat :: i in order <==> i < |rules|
    requires FirstAt(rules, order, listener, sni, stopped, k)
    ensures Wins(rules, listener, sni, stopped, order[k])
  {
    var w := order[k];
    forall i | 0 <= i < |rules| && Eligible(rules[i], listener, sni, stopped) && i != w
      ensures Outranks(rules[w], rules[i]) || (!Outranks(rules[i], rules[w]) && w < i)
    {
      assert i in order;
      var p :| 0 <= p < |order| && order[p] == i;
      assert Ahead(rules, ConsoleRank, order[k], order[p]);
      if rules[i].kind == rules[w].kind != Wildcard {
        OneOfAKind(rules, listener, sni, stopped, i, w);
      }
    }
  }

  /** The order the console shows names the winner routing chooses, for every name and stopped set. */
  lemma ConsoleAgrees(rules: seq<Rule>, order: seq<nat>, listener: string, sni: string, stopped: set<Key>)
    requires forall i :: 0 <= i < |rules| ==> Loaded(rules[i])
    requires NoDuplicates(rules, listener, |rules|) && IsLower(sni)
    requires Sorted(rules, ConsoleRank, order) && forall i: nat :: i in order <==> i < |rules|
    ensures FirstIn(rules, order, listener, sni, stopped) == Best(rules, listener, sni, stopped)
  {
    FirstInMeaning(rules, order, listener, sni, stopped);
    var f := FirstIn(rules, order, listener, sni, stopped);
    if f.Some? {
      var k: nat :| FirstAt(rules, order, listener, sni, stopped, k) && order[k] == f.value;
      ConsoleFirstWins(rules, order, listener, sni, stopped, k);
      BestIsUnique(rules, listener, sni, stopped, f.value);
    } else {
      forall i: nat | i < |rules| ensures !Eligible(rules[i], listener, sni, stopped) {
        assert i in order;
      }
    }
  }
}
