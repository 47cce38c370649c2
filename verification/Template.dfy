/** Expanding a rule's target host (config.go expand). */
module Template {
  import opened Wrappers
  import opened Decimal

  datatype Error =
    | BareReference
    | LoneDollar
    | Unterminated
    | UnknownReference(name: string)
    | NoSuchCapture(n: nat)

  /**
   The text, the error, or a run-time panic: for a reference of 2^62 and more 2*n overflows, the check
   against the number of captures passes, and the index is negative.
   */
  datatype Outcome = Text(s: string) | Bad(error: Error) | Panic

  const OVERFLOW: nat := 0x4000_0000_0000_0000

  function IndexOf(s: string, c: char): (i: nat)
    ensures i <= |s| && c !in s[..i] && (i < |s| ==> s[i] == c)
  {
    if s == "" || s[0] == c then 0
    else
      var k := IndexOf(s[1..], c);
      assert s[..1 + k] == [s[0]] + s[1..][..k];
      1 + k
  }

  /** ${host} is ${0}; other names are numbers as Itoa writes them. */
  function Reference(name: string): Option<nat> {
    if name == "host" then Some(0)
    else
      match Atoi(name)
      case None => None
      case Some(n) => if n < 0 || Itoa(n) != name then None else Some(n)
  }

  datatype Segment = Plain(s: string) | Ref(n: nat)

  /** A template as its segments up to the first syntax error, if there is one. */
  datatype Parsed = Parsed(segments: seq<Segment>, error: Option<Error>)

  /** What a template starts with: an error, or a segment of so many characters. */
  datatype Front = Stop(error: Error) | Take(segment: Segment, length: nat)

  function First(t: string): (f: Front)
    requires t != ""
    ensures f.Take? ==> 0 < f.length <= |t|
  {
    if t[0] != '$' then Take(Plain(t[..IndexOf(t, '$')]), IndexOf(t, '$'))
    else if |t| < 2 || t[1] != '{' then Stop(if |t| > 1 && IsDigit(t[1]) then BareReference else LoneDollar)
    else
      var end := IndexOf(t, '}');
      if end == |t| then Stop(Unterminated)
      else
        assert t[0] != '}' && t[1] != '}';
        match Reference(t[2..end])
        case None => Stop(UnknownReference(t[2..end]))
        case Some(n) => Take(Ref(n), end + 1)
  }

  function Parse(t: string): Parsed
    decreases |t|
  {
    if t == "" then Parsed([], None)
    else
      match First(t)
      case Stop(e) => Parsed([], Some(e))
      case Take(segment, k) =>
        var rest := Parse(t[k..]);
        rest.(segments := [segment] + rest.segments)
  }

  function Prepend(s: string, o: Outcome): Outcome {
    match o case Text(t) => Text(s + t) case _ => o
  }

  /** groups[0] is the whole name; None is a group that took no part in the match. */
  function GroupText(g: Option<string>): string {
    match g case Some(s) => s case None => ""
  }

  /** A segment in front of an outcome. */
  function Then(segment: Segment, groups: seq<Option<string>>, rest: Outcome): Outcome {
    match segment
    case Plain(s) => Prepend(s, rest)
    case Ref(n) =>
      if n >= OVERFLOW then Panic
      else if n >= |groups| then Bad(NoSuchCapture(n))
      else Prepend(GroupText(groups[n]), rest)
  }

  function Evaluate(p: Parsed, groups: seq<Option<string>>): Outcome
    decreases |p.segments|
  {
    if p.segments == [] then
      match p.error case None => Text("") case Some(e) => Bad(e)
    else
      Then(p.segments[0], groups, Evaluate(p.(segments := p.segments[1..]), groups))
  }

  /** int64 arithmetic: the value of 2*n + 1. */
  function TwiceAndOne(n: nat): int
    requires n <= INT_MAX
  {
    if n >= OVERFLOW then 2 * n + 1 - 0x1_0000_0000_0000_0000 else 2 * n + 1
  }

  /** The outcome of a template from its first segment and the rest. */
  lemma EvaluateFirst(t: string, groups: seq<Option<string>>)
    requires t != ""
    ensures First(t).Stop? ==> Evaluate(Parse(t), groups) == Bad(First(t).error)
    ensures First(t).Take? ==>
      Evaluate(Parse(t), groups) == Then(First(t).segment, groups, Evaluate(Parse(t[First(t).length..]), groups))
  {
    if First(t).Take? {
      var rest := Parse(t[First(t).length..]);
      assert Parse(t).(segments := Parse(t).segments[1..]) == rest;
    }
  }

  /** Reads what follows a $: a reference in braces, or an error. */
  method ReadReference(t: string) returns (f: Front)
    requires t != "" && t[0] == '$'
    ensures f == First(t)
    ensures f.Take? ==> f.segment.Ref? && f.segment.n <= INT_MAX
  {
    if |t| < 2 || t[1] != '{' {
      if |t| > 1 && IsDigit(t[1]) {
        return Stop(BareReference);
      }
      return Stop(LoneDollar);
    }
    var end := IndexOf(t, '}');
    if end == |t| {
      return Stop(Unterminated);
    }
    assert t[0] != '}' && t[1] != '}';
    var name := t[2..end];
    var n := Reference(name);
    if n.None? {
      return Stop(UnknownReference(name));
    }
    ReferenceRange(name);
    f := Take(Ref(n.value), end + 1);
  }

  method Expand(template: string, groups: seq<Option<string>>) returns (o: Outcome)
    ensures o == Evaluate(Parse(template), groups)
  {
    var out := "";
    var t := template;
    PrependNothing(Evaluate(Parse(t), groups));
    while t != ""
      invariant Evaluate(Parse(template), groups) == Prepend(out, Evaluate(Parse(t), groups))
      decreases |t|
    {
      EvaluateFirst(t, groups);
      ghost var rest := Evaluate(Parse(t[if First(t).Take? then First(t).length else 0..]), groups);
      if t[0] != '$' {
        var j := IndexOf(t, '$');
        PrependTwice(out, t[..j], rest);
        out := out + t[..j];
        t := t[j..];
        continue;
      }
      var f := ReadReference(t);
      if f.Stop? {
        return Bad(f.error);
      }
      var n := f.segment.n;
      t := t[f.length..];
      if TwiceAndOne(n) >= 2 * |groups| {
        return Bad(NoSuchCapture(n));
      }
      if TwiceAndOne(n) < 0 {
        return Panic;
      }
      PrependTwice(out, GroupText(groups[n]), rest);
      out := out + GroupText(groups[n]);
    }
    assert out + "" == out;
    o := Text(out);
  }

  lemma PrependNothing(o: Outcome)
    ensures Prepend("", o) == o
  {
    if o.Text? {
      assert "" + o.s == o.s;
    }
  }

  lemma ReferenceRange(name: string)
    ensures Reference(name).Some? ==> Reference(name).value <= INT_MAX
  {
  }

  lemma PrependTwice(a: string, b: string, o: Outcome)
    ensures Prepend(a, Prepend(b, o)) == Prepend(a + b, o)
  {
    if o.Text? {
      assert a + (b + o.s) == (a + b) + o.s;
    }
  }

  // ----- The load-time probe decides -----

  predicate SameKind(a: Outcome, b: Outcome) {
    match (a, b)
    case (Text(_), Text(_)) => true
    case (Bad(x), Bad(y)) => x == y
    case (Panic, Panic) => true
    case _ => false
  }

  lemma {:induction false} KindIgnoresText(p: Parsed, a: seq<Option<string>>, b: seq<Option<string>>)
    requires |a| == |b|
    ensures SameKind(Evaluate(p, a), Evaluate(p, b))
    decreases |p.segments|
  {
    if p.segments != [] {
      KindIgnoresText(p.(segments := p.segments[1..]), a, b);
    }
  }

  /** What expanding an accepted template gives: its segments, each reference replaced by its group. */
  function Rendered(segments: seq<Segment>, groups: seq<Option<string>>): string {
    if segments == [] then ""
    else
      (match segments[0]
       case Plain(s) => s
       case Ref(n) => if n < |groups| then GroupText(groups[n]) else "") +
      Rendered(segments[1..], groups)
  }

  /** Every reference up to segment k names a group there is. */
  predicate RefsExist(segments: seq<Segment>, groups: nat, k: nat) {
    k <= |segments| && forall i :: 0 <= i < k && segments[i].Ref? ==> segments[i].n < groups && segments[i].n < OVERFLOW
  }

  lemma {:induction false} WhenText(p: Parsed, groups: seq<Option<string>>)
    ensures Evaluate(p, groups).Text? <==> p.error.None? && RefsExist(p.segments, |groups|, |p.segments|)
    ensures Evaluate(p, groups).Text? ==> Evaluate(p, groups).s == Rendered(p.segments, groups)
    decreases |p.segments|
  {
    if p.segments != [] {
      var rest := p.(segments := p.segments[1..]);
      WhenText(rest, groups);
      assert forall i :: 0 <= i < |rest.segments| ==> rest.segments[i] == p.segments[i + 1];
    }
  }

  lemma {:induction false} WhenPanic(p: Parsed, groups: seq<Option<string>>)
    ensures Evaluate(p, groups).Panic? <==>
      exists k :: 0 <= k < |p.segments| && RefsExist(p.segments, |groups|, k) &&
                  p.segments[k].Ref? && p.segments[k].n >= OVERFLOW
    decreases |p.segments|
  {
    if p.segments != [] {
      var rest := p.(segments := p.segments[1..]);
      WhenPanic(rest, groups);
      assert forall i :: 0 <= i < |rest.segments| ==> rest.segments[i] == p.segments[i + 1];
      if Evaluate(p, groups).Panic? && !(p.segments[0].Ref? && p.segments[0].n >= OVERFLOW) {
        var k :| 0 <= k < |rest.segments| && RefsExist(rest.segments, |groups|, k) &&
                 rest.segments[k].Ref? && rest.segments[k].n >= OVERFLOW;
        assert RefsExist(p.segments, |groups|, k + 1) && p.segments[k + 1].Ref?;
      } else if Evaluate(p, groups).Panic? {
        assert RefsExist(p.segments, |groups|, 0);
      }
      if k :| 0 <= k < |p.segments| && RefsExist(p.segments, |groups|, k) &&
              p.segments[k].Ref? && p.segments[k].n >= OVERFLOW {
        if k > 0 {
          assert RefsExist(rest.segments, |groups|, k - 1) && rest.segments[k - 1] == p.segments[k];
        }
      }
    }
  }

  /** The probe made at load time: as many groups as the pattern has, all empty. */
  function Probe(groups: nat): (p: seq<Option<string>>)
    ensures |p| == groups
  {
    seq(groups, _ => Some(""))
  }

  /**
   A target template the probe accepts expands at run time for every match of the pattern, to its
   segments with each reference replaced by its group; one it refuses would be refused, with the same
   error, by every connection.
   */
  lemma ProbeDecides(template: string, groups: seq<Option<string>>)
    ensures SameKind(Evaluate(Parse(template), Probe(|groups|)), Evaluate(Parse(template), groups))
    ensures Evaluate(Parse(template), Probe(|groups|)).Text? ==>
      Evaluate(Parse(template), groups) == Text(Rendered(Parse(template).segments, groups))
  {
    KindIgnoresText(Parse(template), Probe(|groups|), groups);
    WhenText(Parse(template), groups);
  }

  lemma {:induction false} IndexAfter(a: string, c: char, b: string)
    requires c !in a
    ensures IndexOf(a + [c] + b, c) == |a|
    decreases |a|
  {
    var s := a + [c] + b;
    if a != "" {
      assert a[0] in a && s[0] == a[0] && s[1..] == a[1..] + [c] + b;
      assert c !in a[1..];
      IndexAfter(a[1..], c, b);
    }
  }

  /** What the template ${n} gives, for every number: from 2^62 up to the largest 64-bit integer it panics. */
  lemma NumberedReference(n: nat, groups: seq<Option<string>>)
    ensures var t := "${" + Itoa(n) + "}";
      Evaluate(Parse(t), groups) ==
      if n > INT_MAX then Bad(UnknownReference(Itoa(n)))
      else if n >= OVERFLOW then Panic
      else if n >= |groups| then Bad(NoSuchCapture(n))
      else Text(GroupText(groups[n]))
  {
    var name := Itoa(n);
    var t := "${" + name + "}";
    AtoiOfItoa(n);
    assert name[0] != 'h' by { assert IsDigit(name[0]); }
    assert '}' !in "${" + name;
    IndexAfter("${" + name, '}', "");
    assert t == ("${" + name) + ['}'] + "";
    assert t[2..2 + |name|] == name;
    EvaluateFirst(t, groups);
    assert t[3 + |name|..] == "";
    if n < |groups| {
      assert GroupText(groups[n]) + "" == GroupText(groups[n]);
    }
  }

  // ----- Writing a template -----

  /** Exactly host and the numbers as Itoa writes them are references. */
  lemma ReferenceMeaning(name: string, n: nat)
    ensures Reference("host") == Some(0)
    ensures name != "host" ==> (Reference(name) == Some(n) <==> n <= INT_MAX && name == Itoa(n))
  {
    AtoiOfItoa(n);
    if Reference(name) == Some(n) {
      ReferenceRange(name);
    }
    if name == Itoa(n) {
      assert IsDigit(name[0]);
    }
  }

  /** A reference written out: ${n}. */
  function Braces(n: nat): string { "${" + Itoa(n) + "}" }

  function Written(segments: seq<Segment>): string {
    if segments == [] then ""
    else (match segments[0] case Plain(s) => s case Ref(n) => Braces(n)) + Written(segments[1..])
  }

  /** Plain text has no $, and is not cut into pieces. */
  predicate Normal(segments: seq<Segment>) { forall i :: 0 <= i < |segments| ==> NormalAt(segments, i) }

  predicate NormalAt(segments: seq<Segment>, i: nat)
    requires i < |segments|
  {
    match segments[i]
    case Plain(s) => s != "" && '$' !in s && (i + 1 < |segments| ==> segments[i + 1].Ref?)
    case Ref(n) => n <= INT_MAX
  }

  lemma NormalRest(segments: seq<Segment>)
    requires Normal(segments) && segments != []
    ensures Normal(segments[1..])
  {
    forall i | 0 <= i < |segments[1..]| ensures NormalAt(segments[1..], i) {
      assert NormalAt(segments, i + 1);
    }
  }

  lemma FirstOfPlain(s: string, rest: string)
    requires s != "" && '$' !in s && (rest == "" || rest[0] == '$')
    ensures First(s + rest) == Take(Plain(s), |s|)
  {
    assert s[0] in s && (s + rest)[0] == s[0];
    if rest == "" {
      assert s + rest == s;
      assert IndexOf(s, '$') == |s|;
    } else {
      IndexAfter(s, '$', rest[1..]);
      assert s + ['$'] + rest[1..] == s + rest;
    }
    assert (s + rest)[..|s|] == s;
  }

  lemma FirstOfBraces(n: nat, rest: string)
    requires n <= INT_MAX
    ensures First(Braces(n) + rest) == Take(Ref(n), |Braces(n)|)
  {
    var name := Itoa(n);
    var t := Braces(n) + rest;
    ReferenceMeaning(name, n);
    assert name != "host" by { assert IsDigit(name[0]); }
    BracesClose("${" + name, rest, t);
    assert t[2..2 + |name|] == name;
  }

  lemma BracesClose(open: string, rest: string, t: string)
    requires '}' !in open && t == open + "}" + rest
    ensures IndexOf(t, '}') == |open|
  {
    IndexAfter(open, '}', rest);
    assert open + ['}'] + rest == t;
  }

  /** A template that begins with a segment is that and what the rest is. */
  lemma ParseFront(t: string, segment: Segment, k: nat, rest: Parsed)
    requires t != "" && First(t) == Take(segment, k) && Parse(t[k..]) == rest
    ensures Parse(t) == Parsed([segment] + rest.segments, rest.error)
  {
  }

  lemma PlainFront(s: string, rest: string, p: Parsed)
    requires s != "" && '$' !in s && (rest == "" || rest[0] == '$') && Parse(rest) == p
    ensures Parse(s + rest) == Parsed([Plain(s)] + p.segments, p.error)
  {
    FirstOfPlain(s, rest);
    assert (s + rest)[|s|..] == rest;
    ParseFront(s + rest, Plain(s), |s|, p);
  }

  lemma RefFront(n: nat, rest: string, p: Parsed)
    requires n <= INT_MAX && Parse(rest) == p
    ensures Parse(Braces(n) + rest) == Parsed([Ref(n)] + p.segments, p.error)
  {
    FirstOfBraces(n, rest);
    var t := Braces(n) + rest;
    assert t[|Braces(n)|..] == rest;
    ParseFront(t, Ref(n), |Braces(n)|, p);
  }

  /** The error a tail has that cannot be read. */
  function TailError(tail: string): Option<Error> {
    if tail == "" then None else match First(tail) case Stop(e) => Some(e) case Take(_, _) => None
  }

  lemma ParseTail(tail: string)
    requires tail == "" || First(tail).Stop?
    ensures Parse(tail) == Parsed([], TailError(tail))
  {
  }

  /** One segment written in front of the rest. */
  lemma WrittenFront(segments: seq<Segment>, tail: string)
    requires segments != []
    ensures Written(segments) + tail ==
      (match segments[0] case Plain(s) => s case Ref(n) => Braces(n)) + (Written(segments[1..]) + tail)
  {
  }

  /**
   A template that is written out as plain text and references reads back as exactly those, up to a tail that
   begins with a $ and cannot be read, whose error it has.
   */
  lemma {:induction false} WrittenReadsBack(segments: seq<Segment>, tail: string)
    requires Normal(segments) && (tail == "" || (tail[0] == '$' && First(tail).Stop?))
    ensures Parse(Written(segments) + tail) == Parsed(segments, TailError(tail))
    decreases |segments|
  {
    if segments == [] {
      assert Written(segments) + tail == tail;
      ParseTail(tail);
    } else {
      var rest := Written(segments[1..]) + tail;
      NormalRest(segments);
      assert NormalAt(segments, 0);
      WrittenReadsBack(segments[1..], tail);
      WrittenFront(segments, tail);
      assert [segments[0]] + segments[1..] == segments;
      if segments[0].Plain? {
        StartsWithDollar(segments[1..], tail);
        PlainFront(segments[0].s, rest, Parsed(segments[1..], TailError(tail)));
      } else {
        RefFront(segments[0].n, rest, Parsed(segments[1..], TailError(tail)));
      }
    }
  }

  lemma StartsWithDollar(segments: seq<Segment>, tail: string)
    requires (segments != [] ==> segments[0].Ref?) && (tail == "" || tail[0] == '$')
    ensures var t := Written(segments) + tail; t == "" || t[0] == '$'
  {
  }

  /** What cannot be read after a $: a digit without braces, anything else, no closing brace, an unknown name. */
  lemma UnreadableTails(rest: string, name: string)
    requires '}' !in name
    ensures rest == "" || rest[0] != '{' ==>
      First("$" + rest) == Stop(if rest != "" && '0' <= rest[0] <= '9' then BareReference else LoneDollar)
    ensures First("${" + name) == Stop(Unterminated)
    ensures Reference(name).None? ==> First("${" + name + "}" + rest) == Stop(UnknownReference(name))
  {
    var open := "${" + name;
    NoIndex(open, '}');
    BracesClose(open, rest, open + "}" + rest);
    assert (open + "}" + rest)[2..|open|] == name;
  }

  lemma {:induction false} NoIndex(s: string, c: char)
    requires c !in s
    ensures IndexOf(s, c) == |s|
    decreases |s|
  {
    if s != "" {
      assert s[0] in s;
      NoIndex(s[1..], c);
    }
  }
}
