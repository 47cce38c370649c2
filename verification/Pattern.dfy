/**
 Host name patterns (config.go classify and literalName): what a pattern compiles to, and what that
 matches. The regular expressions classify emits are modelled by their atoms, and the engine by the
 leftmost-first, greedy search that FindStringSubmatchIndex makes. Names are ASCII.
 */
module Pattern {
  import opened Wrappers

  datatype Kind = NoSni | Literal | Wildcard | CatchAll

  /** Char(c) is c quoted; Label is ([^.]+), Part is ([^.]*), Anything is .* */
  datatype Atom = Char(c: char) | Label | Part | Anything

  datatype Error = UseNoSni | UseAnythingElse | UnknownSpecial | NotAHostName | DoubleStar

  datatype Classified = Classified(kind: Kind, expr: seq<Atom>, literalChars: nat)

  const NO_SNI := "$no_sni"
  const ANYTHING_ELSE := "$anything_else"

  predicate IsHostChar(c: char) {
    'a' <= c <= 'z' || 'A' <= c <= 'Z' || '0' <= c <= '9' || c == '.' || c == '-' || c == '_'
  }

  function LowerChar(c: char): char {
    if 'A' <= c <= 'Z' then ((c as int) + 32) as char else c
  }

  function Lower(s: string): (r: string)
    ensures |r| == |s| && forall i :: 0 <= i < |s| ==> r[i] == LowerChar(s[i])
  {
    seq(|s|, i requires 0 <= i < |s| => LowerChar(s[i]))
  }

  predicate IsLower(s: string) {
    forall i :: 0 <= i < |s| ==> LowerChar(s[i]) == s[i]
  }

  function TrimPrefix(s: string, c: char): string {
    if s != "" && s[0] == c then s[1..] else s
  }

  function TrimSuffix(s: string, c: char): string {
    if s != "" && s[|s| - 1] == c then s[..|s| - 1] else s
  }

  /** strings.ReplaceAll(s, `\.`, ".") */
  function UnescapeDots(s: string): string {
    if |s| < 2 then s
    else if s[0] == '\\' && s[1] == '.' then "." + UnescapeDots(s[2..])
    else [s[0]] + UnescapeDots(s[1..])
  }

  function LiteralName(pattern: string): string {
    Lower(UnescapeDots(TrimSuffix(TrimPrefix(pattern, '^'), '$')))
  }

  predicate NoDot(s: string) { '.' !in s }

  /** strings.Split(s, ".") */
  function Split(s: string): (r: seq<string>)
    ensures |r| >= 1 && forall i :: 0 <= i < |r| ==> NoDot(r[i])
  {
    if s == "" then [""]
    else if s[0] == '.' then [""] + Split(s[1..])
    else var r := Split(s[1..]); [[s[0]] + r[0]] + r[1..]
  }

  predicate HasPair(s: string, a: char, b: char) {
    exists i :: 0 <= i < |s| - 1 && s[i] == a && s[i + 1] == b
  }

  /** A host name in which each * stands for one label or part of one. */
  predicate ValidName(name: string) {
    (forall i :: 0 <= i < |name| ==> IsHostChar(name[i]) || name[i] == '*') &&
    name != "" && name[0] != '.' && name[|name| - 1] != '.' && !HasPair(name, '.', '.')
  }

  /** What one label compiles to. */
  function LabelExpr(text: string): seq<Atom> {
    if text == "*" then [Label] else PartExpr(text)
  }

  function PartExpr(text: string): seq<Atom> {
    if text == "" then [] else [if text[0] == '*' then Part else Char(text[0])] + PartExpr(text[1..])
  }

  /** What the labels of a name compile to. */
  function Compiled(labels: seq<string>): seq<Atom> {
    if labels == [] then []
    else if |labels| == 1 then LabelExpr(labels[0])
    else LabelExpr(labels[0]) + ([Char('.')] + Compiled(labels[1..]))
  }

  /** How many characters are not a *. */
  function Literals(s: string): nat {
    if s == "" then 0 else (if s[0] == '*' then 0 else 1) + Literals(s[1..])
  }

  /** The atoms that capture, left to right. */
  function CaptureAtoms(e: seq<Atom>): seq<Atom> {
    if e == [] then []
    else (if e[0].Label? || e[0].Part? then [e[0]] else []) + CaptureAtoms(e[1..])
  }

  // ----- Matching -----

  /** e, anchored and ignoring case, matches s with these captures. */
  ghost predicate Matches(e: seq<Atom>, s: string, caps: seq<string>)
    decreases |e|
  {
    if e == [] then s == "" && caps == []
    else if e[0].Char? then s != "" && LowerChar(s[0]) == LowerChar(e[0].c) && Matches(e[1..], s[1..], caps)
    else if e[0].Anything? then exists k: nat :: k <= |s| && Matches(e[1..], s[k..], caps)
    else
      caps != [] && caps[0] <= s && NoDot(caps[0]) && (e[0].Label? ==> caps[0] != "") &&
      Matches(e[1..], s[|caps[0]|..], caps[1..])
  }

  ghost predicate Accepts(e: seq<Atom>, s: string) {
    exists caps :: Matches(e, s, caps)
  }

  /** The longest run of characters other than a dot at the front of s. */
  function Run(s: string): (k: nat)
    ensures k <= |s| && NoDot(s[..k])
  {
    if s == "" || s[0] == '.' then 0
    else
      assert s[..1 + Run(s[1..])] == [s[0]] + s[1..][..Run(s[1..])];
      1 + Run(s[1..])
  }

  /** FindStringSubmatchIndex: the first match, each capture as long as what follows allows. */
  function Find(e: seq<Atom>, s: string): Option<seq<string>>
    decreases |e|, 0, 0
  {
    if e == [] then if s == "" then Some([]) else None
    else
      match e[0]
      case Char(c) => if s != "" && LowerChar(s[0]) == LowerChar(c) then Find(e[1..], s[1..]) else None
      case Anything => FindAny(e, s, |s|)
      case Label => FindFrom(e, s, Run(s))
      case Part => FindFrom(e, s, Run(s))
  }

  /** Try captures of k characters and fewer. */
  function FindFrom(e: seq<Atom>, s: string, k: nat): Option<seq<string>>
    requires e != [] && (e[0].Label? || e[0].Part?) && k <= |s|
    decreases |e| - 1, 1, k
  {
    if k == 0 && e[0].Label? then None
    else
      match Find(e[1..], s[k..])
      case Some(caps) => Some([s[..k]] + caps)
      case None => if k == 0 then None else FindFrom(e, s, k - 1)
  }

  function FindAny(e: seq<Atom>, s: string, k: nat): Option<seq<string>>
    requires e != [] && k <= |s|
    decreases |e| - 1, 1, k
  {
    match Find(e[1..], s[k..])
    case Some(caps) => Some(caps)
    case None => if k == 0 then None else FindAny(e, s, k - 1)
  }

  /** A capture without a dot is within the run. */
  lemma {:induction false} WithinRun(s: string, k: nat)
    requires k <= |s| && NoDot(s[..k])
    ensures k <= Run(s)
  {
    if k > 0 {
      assert s[0] == s[..k][0];
      assert s[1..][..k - 1] == s[..k][1..];
      WithinRun(s[1..], k - 1);
    }
  }

  lemma {:induction false} FindMatches(e: seq<Atom>, s: string)
    ensures Find(e, s).Some? ==> Matches(e, s, Find(e, s).value)
    decreases |e|, 0, 0
  {
    if e != [] {
      match e[0] {
        case Char(c) => if s != "" { FindMatches(e[1..], s[1..]); }
        case Anything => FindAnyMatches(e, s, |s|);
        case _ => FindFromMatches(e, s, Run(s));
      }
    }
  }

  lemma {:induction false} FindFromMatches(e: seq<Atom>, s: string, k: nat)
    requires e != [] && (e[0].Label? || e[0].Part?) && k <= Run(s)
    ensures FindFrom(e, s, k).Some? ==> Matches(e, s, FindFrom(e, s, k).value)
    decreases |e| - 1, 1, k
  {
    FindMatches(e[1..], s[k..]);
    if Find(e[1..], s[k..]).Some? {
      var caps := Find(e[1..], s[k..]).value;
      assert ([s[..k]] + caps)[1..] == caps;
      assert NoDot(s[..k]) by { assert forall i :: 0 <= i < k ==> s[..k][i] == s[..Run(s)][i]; }
    } else if k > 0 {
      FindFromMatches(e, s, k - 1);
    }
  }

  lemma {:induction false} FindAnyMatches(e: seq<Atom>, s: string, k: nat)
    requires e != [] && e[0].Anything? && k <= |s|
    ensures FindAny(e, s, k).Some? ==> Matches(e, s, FindAny(e, s, k).value)
    decreases |e| - 1, 1, k
  {
    FindMatches(e[1..], s[k..]);
    if Find(e[1..], s[k..]).None? && k > 0 {
      FindAnyMatches(e, s, k - 1);
    }
  }

  lemma {:induction false} FindIsComplete(e: seq<Atom>, s: string, caps: seq<string>)
    requires Matches(e, s, caps)
    ensures Find(e, s).Some?
    decreases |e|, 0, 0
  {
    if e != [] {
      match e[0] {
        case Char(c) => FindIsComplete(e[1..], s[1..], caps);
        case Anything =>
          var k: nat :| k <= |s| && Matches(e[1..], s[k..], caps);
          FindIsComplete(e[1..], s[k..], caps);
          FindAnyReaches(e, s, |s|, k);
        case _ =>
          var k := |caps[0]|;
          assert s[..k] == caps[0];
          WithinRun(s, k);
          FindIsComplete(e[1..], s[k..], caps[1..]);
          FindFromReaches(e, s, Run(s), k);
      }
    }
  }

  lemma {:induction false} FindFromReaches(e: seq<Atom>, s: string, from: nat, k: nat)
    requires e != [] && (e[0].Label? || e[0].Part?) && k <= from <= |s| && (e[0].Label? ==> k > 0)
    requires Find(e[1..], s[k..]).Some?
    ensures FindFrom(e, s, from).Some?
    decreases from
  {
    if from > k && Find(e[1..], s[from..]).None? {
      FindFromReaches(e, s, from - 1, k);
    }
  }

  lemma {:induction false} FindAnyReaches(e: seq<Atom>, s: string, from: nat, k: nat)
    requires e != [] && k <= from <= |s|
    requires Find(e[1..], s[k..]).Some?
    ensures FindAny(e, s, from).Some?
    decreases from
  {
    if from > k && Find(e[1..], s[from..]).None? {
      FindAnyReaches(e, s, from - 1, k);
    }
  }

  /** The search finds a match exactly when there is one, and what it finds is one. */
  lemma FindIsExact(e: seq<Atom>, s: string)
    ensures Find(e, s).Some? <==> Accepts(e, s)
    ensures Find(e, s).Some? ==> Matches(e, s, Find(e, s).value)
  {
    FindMatches(e, s);
    if Accepts(e, s) {
      var caps :| Matches(e, s, caps);
      FindIsComplete(e, s, caps);
    }
  }

  // ----- Which match is found -----

  /** The same captures, or the first that differ are longer in a. */
  predicate Greedier(a: seq<string>, b: seq<string>) {
    if a == [] || b == [] then a == b
    else |a[0]| > |b[0]| || (a[0] == b[0] && Greedier(a[1..], b[1..]))
  }

  /** No atom that matches across dots: what a pattern compiles to. */
  predicate Plain(e: seq<Atom>) {
    forall i :: 0 <= i < |e| ==> e[i].Char? || e[i].Label? || e[i].Part?
  }

  /** Of all matches the search finds the one whose captures are the longest, those further left first. */
  lemma {:induction false} FindIsGreediest(e: seq<Atom>, s: string, caps: seq<string>)
    requires Plain(e) && Matches(e, s, caps)
    ensures Find(e, s).Some? && Greedier(Find(e, s).value, caps)
    decreases |e|, 0, 0
  {
    if e != [] {
      assert Plain(e[1..]);
      if e[0].Char? {
        FindIsGreediest(e[1..], s[1..], caps);
      } else {
        assert s[..|caps[0]|] == caps[0];
        WithinRun(s, |caps[0]|);
        FindFromIsGreediest(e, s, Run(s), caps);
      }
    }
  }

  lemma {:induction false} FindFromIsGreediest(e: seq<Atom>, s: string, k: nat, caps: seq<string>)
    requires Plain(e) && e != [] && !e[0].Char? && Matches(e, s, caps) && |caps[0]| <= k <= |s|
    ensures FindFrom(e, s, k).Some? && Greedier(FindFrom(e, s, k).value, caps)
    decreases |e| - 1, 1, k
  {
    assert Plain(e[1..]) && s[..|caps[0]|] == caps[0];
    if k == |caps[0]| {
      FindIsGreediest(e[1..], s[k..], caps[1..]);
      FrontGreedier(s[..k], Find(e[1..], s[k..]).value, caps);
    } else {
      match Find(e[1..], s[k..]) {
        case Some(more) => assert ([s[..k]] + more)[0] == s[..k];
        case None => FindFromIsGreediest(e, s, k - 1, caps);
      }
    }
  }

  lemma FrontGreedier(first: string, rest: seq<string>, caps: seq<string>)
    requires caps != [] && caps[0] == first && Greedier(rest, caps[1..])
    ensures Greedier([first] + rest, caps)
  {
    assert ([first] + rest)[1..] == rest;
  }

  /** Only one match is the greediest. */
  lemma {:induction false} GreediestIsUnique(a: seq<string>, b: seq<string>)
    requires Greedier(a, b) && Greedier(b, a)
    ensures a == b
    decreases |a|
  {
    if a != [] && b != [] {
      GreediestIsUnique(a[1..], b[1..]);
      assert a == [a[0]] + a[1..] && b == [b[0]] + b[1..];
    }
  }

  // ----- What a compiled pattern matches -----

  /** A label against a pattern for it: each * is any run of characters. */
  ghost predicate Glob(p: string, s: string)
    decreases |p|
  {
    if p == "" then s == ""
    else if p[0] == '*' then exists k: nat :: k <= |s| && Glob(p[1..], s[k..])
    else s != "" && LowerChar(s[0]) == LowerChar(p[0]) && Glob(p[1..], s[1..])
  }

  /** A * that is a whole label stands for a label, which is not empty. */
  ghost predicate GlobLabel(p: string, s: string) {
    if p == "*" then s != "" else Glob(p, s)
  }

  lemma {:induction false} MatchesOfConcat(a: seq<Atom>, b: seq<Atom>, s: string, caps: seq<string>)
    returns (s1: string, s2: string, c1: seq<string>, c2: seq<string>)
    requires Plain(a) && Matches(a + b, s, caps)
    ensures s == s1 + s2 && caps == c1 + c2 && Matches(a, s1, c1) && Matches(b, s2, c2)
    decreases |a|
  {
    if a == [] {
      assert a + b == b;
      s1, s2, c1, c2 := "", s, [], caps;
    } else {
      FirstAtom(a, b, s, caps);
      if a[0].Char? {
        s1, s2, c1, c2 := MatchesOfConcat(a[1..], b, s[1..], caps);
        FrontChar(a, s[0], s1, c1);
        PutBack(s, 1, s1, s2);
        s1 := s[..1] + s1;
      } else {
        s1, s2, c1, c2 := MatchesOfConcat(a[1..], b, s[|caps[0]|..], caps[1..]);
        FrontCapture(a, caps[0], s1, c1);
        PutBack(s, |caps[0]|, s1, s2);
        PutBack(caps, 1, c1, c2);
        s1, c1 := s[..|caps[0]|] + s1, caps[..1] + c1;
      }
    }
  }

  lemma Assoc<T>(a: seq<T>, b: seq<T>, c: seq<T>)
    ensures a + (b + c) == (a + b) + c
  {
  }

  lemma PutBack<T>(s: seq<T>, n: nat, s1: seq<T>, s2: seq<T>)
    requires n <= |s| && s[n..] == s1 + s2
    ensures s == (s[..n] + s1) + s2
  {
  }

  lemma FirstAtom(a: seq<Atom>, b: seq<Atom>, s: string, caps: seq<string>)
    requires a != [] && Plain(a) && Matches(a + b, s, caps)
    ensures Plain(a[1..]) && (a[0].Char? || a[0].Label? || a[0].Part?)
    ensures a[0].Char? ==> s != "" && LowerChar(s[0]) == LowerChar(a[0].c) && Matches(a[1..] + b, s[1..], caps)
    ensures !a[0].Char? ==>
      caps != [] && caps[0] <= s && NoDot(caps[0]) && (a[0].Label? ==> caps[0] != "") &&
      Matches(a[1..] + b, s[|caps[0]|..], caps[1..])
  {
    assert (a + b)[0] == a[0] && (a + b)[1..] == a[1..] + b;
  }

  lemma FrontChar(a: seq<Atom>, c: char, s: string, caps: seq<string>)
    requires a != [] && a[0].Char? && LowerChar(c) == LowerChar(a[0].c) && Matches(a[1..], s, caps)
    ensures Matches(a, [c] + s, caps)
  {
    assert ([c] + s)[1..] == s;
  }

  lemma FrontCapture(a: seq<Atom>, cap: string, s: string, caps: seq<string>)
    requires a != [] && (a[0].Label? || a[0].Part?) && NoDot(cap) && (a[0].Label? ==> cap != "")
    requires Matches(a[1..], s, caps)
    ensures Matches(a, cap + s, [cap] + caps)
  {
    assert (cap + s)[|cap|..] == s && ([cap] + caps)[1..] == caps;
  }

  lemma {:induction false} ConcatMatches(a: seq<Atom>, b: seq<Atom>, s: string, t: string, c: seq<string>, d: seq<string>)
    requires Plain(a) && Matches(a, s, c) && Matches(b, t, d)
    ensures Matches(a + b, s + t, c + d)
    decreases |a|
  {
    assert a != [] ==> (a + b)[0] == a[0] && (a + b)[1..] == a[1..] + b;
    if a == [] {
      assert a + b == b && s + t == t && c + d == d;
    } else {
      assert a + [] == a;
      FirstAtom(a, [], s, c);
      assert a[1..] + [] == a[1..];
      if a[0].Char? {
        ConcatMatches(a[1..], b, s[1..], t, c, d);
        FrontChar(a + b, s[0], s[1..] + t, c + d);
        TakeOff(s, 1, t);
        assert s[..1] == [s[0]];
      } else {
        var n := |c[0]|;
        ConcatMatches(a[1..], b, s[n..], t, c[1..], d);
        FrontCapture(a + b, c[0], s[n..] + t, c[1..] + d);
        TakeOff(s, n, t);
        TakeOff(c, 1, d);
        assert c[..1] == [c[0]] && s[..n] == c[0];
      }
    }
  }

  lemma TakeOff<T>(s: seq<T>, n: nat, t: seq<T>)
    requires n <= |s|
    ensures s + t == s[..n] + (s[n..] + t)
  {
  }

  lemma {:induction false} PartExprAtoms(p: string)
    ensures |PartExpr(p)| == |p|
    ensures forall i :: 0 <= i < |p| ==> PartExpr(p)[i] == if p[i] == '*' then Part else Char(p[i])
  {
    if p != "" {
      PartExprAtoms(p[1..]);
    }
  }

  lemma LabelExprAtoms(p: string)
    ensures Plain(LabelExpr(p))
  {
    PartExprAtoms(p);
  }

  /** What a label's expression matches is a label of its pattern, without a dot. */
  lemma {:induction false} PartMatchesGlob(p: string, s: string, caps: seq<string>)
    requires Matches(PartExpr(p), s, caps) && NoDot(p)
    ensures Glob(p, s) && NoDot(s)
    decreases |p|
  {
    if p != "" {
      assert PartExpr(p)[1..] == PartExpr(p[1..]);
      assert NoDot(p[1..]) by { assert forall i :: 0 <= i < |p| - 1 ==> p[1..][i] == p[i + 1]; }
      if p[0] == '*' {
        var k := |caps[0]|;
        PartMatchesGlob(p[1..], s[k..], caps[1..]);
        assert s == caps[0] + s[k..];
      } else {
        PartMatchesGlob(p[1..], s[1..], caps);
        assert s[0] != '.' by { assert p[0] != '.'; }
        assert s == [s[0]] + s[1..];
      }
    }
  }

  lemma {:induction false} GlobMatchesPart(p: string, s: string) returns (caps: seq<string>)
    requires Glob(p, s) && NoDot(s)
    ensures Matches(PartExpr(p), s, caps)
    decreases |p|
  {
    caps := [];
    if p != "" {
      assert PartExpr(p)[1..] == PartExpr(p[1..]);
      if p[0] == '*' {
        var k: nat :| k <= |s| && Glob(p[1..], s[k..]);
        assert NoDot(s[k..]) && NoDot(s[..k]);
        var rest := GlobMatchesPart(p[1..], s[k..]);
        caps := [s[..k]] + rest;
        assert caps[1..] == rest;
      } else {
        assert NoDot(s[1..]);
        caps := GlobMatchesPart(p[1..], s[1..]);
      }
    }
  }

  lemma LabelMatchesGlob(p: string, s: string, caps: seq<string>)
    requires Matches(LabelExpr(p), s, caps) && NoDot(p)
    ensures GlobLabel(p, s) && NoDot(s)
  {
    if p == "*" {
      assert s[|caps[0]|..] == "";
      assert s == caps[0];
    } else {
      PartMatchesGlob(p, s, caps);
    }
  }

  lemma GlobMatchesLabel(p: string, s: string) returns (caps: seq<string>)
    requires GlobLabel(p, s) && NoDot(s)
    ensures Matches(LabelExpr(p), s, caps)
  {
    if p == "*" {
      caps := [s];
      assert Matches([], s[|s|..], caps[1..]);
    } else {
      caps := GlobMatchesPart(p, s);
    }
  }

  // ----- Splitting at the dots -----

  lemma {:induction false} SplitLabel(a: string)
    requires NoDot(a)
    ensures Split(a) == [a]
  {
    if a != "" {
      assert NoDot(a[1..]);
      SplitLabel(a[1..]);
      assert a == [a[0]] + a[1..] && a[0] != '.';
    }
  }

  lemma {:induction false} SplitAtDot(a: string, b: string)
    requires NoDot(a)
    ensures Split(a + "." + b) == [a] + Split(b)
  {
    var s := a + "." + b;
    if a == "" {
      assert s[1..] == b;
    } else {
      assert s[1..] == a[1..] + "." + b && s[0] == a[0] && a[0] != '.';
      assert NoDot(a[1..]);
      SplitAtDot(a[1..], b);
      assert a == [a[0]] + a[1..];
    }
  }

  /** A name with a dot is its first label, the dot, and the rest. */
  lemma {:induction false} SplitJoin(s: string) returns (a: string, b: string)
    requires |Split(s)| > 1
    ensures s == a + "." + b && NoDot(a) && Split(s) == [a] + Split(b)
  {
    if s[0] == '.' {
      a, b := "", s[1..];
      assert s == a + "." + b;
    } else {
      a, b := SplitJoin(s[1..]);
      a := [s[0]] + a;
    }
  }

  lemma SplitOne(s: string)
    requires |Split(s)| == 1
    ensures Split(s) == [s] && NoDot(s)
  {
    if !NoDot(s) {
      var i :| 0 <= i < |s| && s[i] == '.';
      SplitTwo(s, i);
    } else {
      SplitLabel(s);
    }
  }

  lemma {:induction false} SplitTwo(s: string, i: nat)
    requires i < |s| && s[i] == '.'
    ensures |Split(s)| > 1
    decreases i
  {
    if s[0] != '.' {
      SplitTwo(s[1..], i - 1);
    }
  }

  /** The names a pattern is for: as many labels, each matching its own. */
  ghost predicate Meant(labels: seq<string>, s: string) {
    |Split(s)| == |labels| && forall i :: 0 <= i < |labels| ==> GlobLabel(labels[i], Split(s)[i])
  }

  lemma {:induction false} CompiledMatchesMeant(labels: seq<string>, s: string, caps: seq<string>)
    requires labels != [] && (forall i :: 0 <= i < |labels| ==> NoDot(labels[i]))
    requires Matches(Compiled(labels), s, caps)
    ensures Meant(labels, s)
    decreases |labels|
  {
    var p, e := labels[0], LabelExpr(labels[0]);
    if |labels| == 1 {
      LabelMatchesGlob(p, s, caps);
      SplitLabel(s);
    } else {
      LabelExprAtoms(p);
      var s1, s2, c1, c2 := MatchesOfConcat(e, [Char('.')] + Compiled(labels[1..]), s, caps);
      LabelMatchesGlob(p, s1, c1);
      DotFirst(labels[1..], s2, c2);
      CompiledMatchesMeant(labels[1..], s2[1..], c2);
      MeantFrom(labels, s1, s2[1..]);
      assert s == s1 + "." + s2[1..];
    }
  }

  lemma DotFirst(labels: seq<string>, s: string, caps: seq<string>)
    requires Matches([Char('.')] + Compiled(labels), s, caps)
    ensures s != "" && s[0] == '.' && Matches(Compiled(labels), s[1..], caps)
  {
    assert ([Char('.')] + Compiled(labels))[1..] == Compiled(labels);
    DotOnly(s[0]);
  }

  lemma MeantFrom(labels: seq<string>, a: string, b: string)
    requires labels != [] && NoDot(a) && GlobLabel(labels[0], a) && Meant(labels[1..], b)
    ensures Meant(labels, a + "." + b)
  {
    SplitAtDot(a, b);
    forall i | 0 <= i < |labels| ensures GlobLabel(labels[i], ([a] + Split(b))[i]) {
      assert i > 0 ==> labels[1..][i - 1] == labels[i] && GlobLabel(labels[1..][i - 1], Split(b)[i - 1]);
    }
  }

  lemma DotOnly(c: char)
    requires LowerChar(c) == LowerChar('.')
    ensures c == '.'
  {
  }

  lemma {:induction false} MeantMatchesCompiled(labels: seq<string>, s: string) returns (caps: seq<string>)
    requires labels != [] && Meant(labels, s)
    ensures Matches(Compiled(labels), s, caps)
    decreases |labels|
  {
    var p, e := labels[0], LabelExpr(labels[0]);
    if |labels| == 1 {
      SplitOne(s);
      caps := GlobMatchesLabel(p, s);
    } else {
      var a, b := SplitJoin(s);
      assert Split(b) == Split(s)[1..];
      var c := GlobMatchesLabel(p, a);
      var d := MeantMatchesCompiled(labels[1..], b);
      LabelExprAtoms(p);
      DotThen(labels[1..], b, d);
      ConcatMatches(e, [Char('.')] + Compiled(labels[1..]), a, "." + b, c, d);
      assert a + ("." + b) == s;
      caps := c + d;
    }
  }

  lemma DotThen(labels: seq<string>, b: string, d: seq<string>)
    requires Matches(Compiled(labels), b, d)
    ensures Matches([Char('.')] + Compiled(labels), "." + b, d)
  {
    assert ([Char('.')] + Compiled(labels))[1..] == Compiled(labels) && ("." + b)[1..] == b;
  }

  /**
   The expression a pattern compiles to matches exactly the names with the same number of labels, each
   matching the pattern's label.
   */
  lemma CompiledMeaning(name: string, s: string)
    ensures Accepts(Compiled(Split(name)), s) <==> Meant(Split(name), s)
  {
    var labels := Split(name);
    if Accepts(Compiled(labels), s) {
      var caps :| Matches(Compiled(labels), s, caps);
      CompiledMatchesMeant(labels, s, caps);
    }
    if Meant(labels, s) {
      var caps := MeantMatchesCompiled(labels, s);
    }
  }

  // ----- Captures -----

  /** There is one capture for each *, without a dot, and not empty where the * is a whole label. */
  lemma {:induction false} CapturesMeaning(e: seq<Atom>, s: string, caps: seq<string>)
    requires Plain(e) && Matches(e, s, caps)
    ensures |caps| == |CaptureAtoms(e)|
    ensures forall i :: 0 <= i < |caps| ==> NoDot(caps[i]) && (CaptureAtoms(e)[i].Label? ==> caps[i] != "")
    decreases |e|
  {
    if e != [] {
      assert e + [] == e;
      FirstAtom(e, [], s, caps);
      assert e[1..] + [] == e[1..];
      if e[0].Char? {
        CapturesMeaning(e[1..], s[1..], caps);
      } else {
        CapturesMeaning(e[1..], s[|caps[0]|..], caps[1..]);
      }
    }
  }

  function Stars(s: string): nat {
    if s == "" then 0 else (if s[0] == '*' then 1 else 0) + Stars(s[1..])
  }

  lemma {:induction false} CaptureAtomsOfConcat(a: seq<Atom>, b: seq<Atom>)
    ensures CaptureAtoms(a + b) == CaptureAtoms(a) + CaptureAtoms(b)
    decreases |a|
  {
    if a == [] {
      assert a + b == b;
    } else {
      assert (a + b)[0] == a[0] && (a + b)[1..] == a[1..] + b;
      CaptureAtomsOfConcat(a[1..], b);
      Assoc(CaptureAtoms(a)[..|CaptureAtoms(a)| - |CaptureAtoms(a[1..])|], CaptureAtoms(a[1..]), CaptureAtoms(b));
    }
  }

  lemma {:induction false} StarsOfConcat(a: string, b: string)
    ensures Stars(a + b) == Stars(a) + Stars(b)
    decreases |a|
  {
    if a == "" {
      assert a + b == b;
    } else {
      assert (a + b)[0] == a[0] && (a + b)[1..] == a[1..] + b;
      StarsOfConcat(a[1..], b);
    }
  }

  lemma {:induction false} PartStars(p: string)
    ensures |CaptureAtoms(PartExpr(p))| == Stars(p)
  {
    if p != "" {
      assert PartExpr(p)[1..] == PartExpr(p[1..]);
      PartStars(p[1..]);
    }
  }

  lemma LabelStars(p: string)
    ensures |CaptureAtoms(LabelExpr(p))| == Stars(p)
  {
    if p == "*" {
      assert Stars("*") == 1 + Stars("");
      assert CaptureAtoms([Label]) == [Label] + CaptureAtoms([]);
    } else {
      PartStars(p);
    }
  }

  /** A compiled pattern is plain and has as many captures as the pattern has stars. */
  lemma CapturesAreStars(name: string)
    ensures Plain(Compiled(Split(name))) && |CaptureAtoms(Compiled(Split(name)))| == Stars(name)
  {
    LabelsStars(Split(name), name);
  }

  lemma {:induction false} LabelsStars(labels: seq<string>, name: string)
    requires labels == Split(name)
    ensures Plain(Compiled(labels)) && |CaptureAtoms(Compiled(labels))| == Stars(name)
    decreases |labels|
  {
    if |labels| == 1 {
      SplitOne(name);
      LabelStars(name);
      LabelExprAtoms(name);
    } else {
      var a, b := SplitJoin(name);
      assert labels[1..] == Split(b);
      LabelsStars(labels[1..], b);
      DotStars(a, b, Compiled(labels[1..]), name);
      assert Compiled(labels) == LabelExpr(a) + ([Char('.')] + Compiled(labels[1..]));
    }
  }

  lemma DotStars(a: string, b: string, e: seq<Atom>, name: string)
    requires |CaptureAtoms(e)| == Stars(b) && Plain(e) && name == a + "." + b
    ensures var r := LabelExpr(a) + ([Char('.')] + e);
      Plain(r) && |CaptureAtoms(r)| == Stars(name)
  {
    LabelStars(a);
    DotAtoms(LabelExpr(a), e);
    LabelExprAtoms(a);
    StarsAroundDot(a, b);
  }

  lemma StarsAroundDot(a: string, b: string)
    ensures Stars(a + "." + b) == Stars(a) + Stars(b)
  {
    var rest := "." + b;
    assert a + "." + b == a + rest && rest[1..] == b;
    StarsOfConcat(a, rest);
  }

  lemma DotAtoms(a: seq<Atom>, e: seq<Atom>)
    ensures |CaptureAtoms(a + ([Char('.')] + e))| == |CaptureAtoms(a)| + |CaptureAtoms(e)|
  {
    var dot := [Char('.')] + e;
    assert dot[1..] == e;
    CaptureAtomsOfConcat(a, dot);
  }

  /** The expression with its captures put back. */
  function Fill(e: seq<Atom>, caps: seq<string>): string
    requires Plain(e) && |caps| == |CaptureAtoms(e)|
    decreases |e|
  {
    if e == [] then ""
    else if e[0].Char? then [e[0].c] + Fill(e[1..], caps)
    else caps[0] + Fill(e[1..], caps[1..])
  }

  predicate LowerChars(e: seq<Atom>) {
    forall i :: 0 <= i < |e| && e[i].Char? ==> LowerChar(e[i].c) == e[i].c
  }

  /** Putting the captures of a match back into the expression rebuilds the (lower-case) name. */
  lemma {:induction false} CapturesRebuild(e: seq<Atom>, s: string, caps: seq<string>)
    requires Plain(e) && LowerChars(e) && IsLower(s) && Matches(e, s, caps)
    ensures |caps| == |CaptureAtoms(e)| && Fill(e, caps) == s
    decreases |e|
  {
    CapturesMeaning(e, s, caps);
    if e != [] {
      assert e + [] == e;
      FirstAtom(e, [], s, caps);
      assert e[1..] + [] == e[1..];
      if e[0].Char? {
        CapturesRebuild(e[1..], s[1..], caps);
        assert s == [s[0]] + s[1..];
      } else {
        CapturesRebuild(e[1..], s[|caps[0]|..], caps[1..]);
        assert s == caps[0] + s[|caps[0]|..];
      }
    }
  }

  /** e has an atom for each character of the pattern: a capture for a *, else the character. */
  ghost predicate Follows(e: seq<Atom>, text: string) {
    |e| == |text| &&
    forall i :: 0 <= i < |e| ==> if text[i] == '*' then e[i].Label? || e[i].Part? else e[i] == Char(text[i])
  }

  lemma {:induction false} PartFollows(text: string)
    ensures Follows(PartExpr(text), text)
  {
    if text != "" {
      PartFollows(text[1..]);
      assert PartExpr(text)[1..] == PartExpr(text[1..]);
    }
  }

  lemma {:induction false} CompiledFollows(name: string)
    ensures Follows(Compiled(Split(name)), name)
    decreases |Split(name)|
  {
    if |Split(name)| == 1 {
      SplitOne(name);
      PartFollows(name);
    } else {
      var a, b := SplitJoin(name);
      PartFollows(a);
      CompiledFollows(b);
      assert Split(name)[1..] == Split(b);
      assert Compiled(Split(name)) == LabelExpr(a) + ([Char('.')] + Compiled(Split(b)));
    }
  }

  /** The pattern's stars, left to right, replaced by these strings. */
  function Substitute(text: string, caps: seq<string>): string
    requires |caps| == Stars(text)
  {
    if text == "" then ""
    else if text[0] == '*' then caps[0] + Substitute(text[1..], caps[1..])
    else [text[0]] + Substitute(text[1..], caps)
  }

  lemma {:induction false} FillIsSubstitute(e: seq<Atom>, text: string, caps: seq<string>)
    requires Plain(e) && Follows(e, text) && |caps| == |CaptureAtoms(e)|
    ensures |caps| == Stars(text) && Fill(e, caps) == Substitute(text, caps)
    decreases |e|
  {
    if e != [] {
      if e[0].Char? {
        FillIsSubstitute(e[1..], text[1..], caps);
      } else {
        FillIsSubstitute(e[1..], text[1..], caps[1..]);
      }
    }
  }

  /** Whatever a pattern captures of a name, putting it back for the pattern's stars rebuilds the name. */
  lemma CapturesRebuildTheName(name: string, s: string, caps: seq<string>)
    requires IsLower(name) && IsLower(s) && Matches(Compiled(Split(name)), s, caps)
    ensures |caps| == Stars(name) && Substitute(name, caps) == s
  {
    var e := Compiled(Split(name));
    CapturesAreStars(name);
    CompiledFollows(name);
    assert LowerChars(e);
    CapturesRebuild(e, s, caps);
    FillIsSubstitute(e, name, caps);
  }

  lemma LabelNeedsACharacter(p: string)
    requires p != "" && !HasPair(p, '*', '*')
    ensures !GlobLabel(p, "")
  {
    if |p| > 1 && p[0] == '*' {
      assert p[1..] != "" && p[1..][0] != '*';
      assert !Glob(p[1..], "");
    }
  }

  /** No name pattern matches a client without a name. */
  lemma PatternsNeedAName(name: string)
    requires ValidName(name) && !HasPair(name, '*', '*')
    ensures !Accepts(Compiled(Split(name)), "")
  {
    CompiledMeaning(name, "");
    LabelNeedsACharacter(name);
    if |Split(name)| == 1 {
      SplitOne(name);
    }
  }

  /** What the compiled expression finds: a match exactly for the names meant, with these captures. */
  lemma FindMeaning(name: string, s: string)
    ensures Find(Compiled(Split(name)), s).Some? <==> Meant(Split(name), s)
    ensures Find(Compiled(Split(name)), s).Some? ==>
      var caps := Find(Compiled(Split(name)), s).value;
      |caps| == Stars(name) && Matches(Compiled(Split(name)), s, caps) && forall i :: 0 <= i < |caps| ==> NoDot(caps[i])
  {
    var e := Compiled(Split(name));
    FindIsExact(e, s);
    CompiledMeaning(name, s);
    CapturesAreStars(name);
    if Find(e, s).Some? {
      CapturesMeaning(e, s, Find(e, s).value);
    }
  }

  /** What may stand for the captures of e: no dot, and not empty for a whole label. */
  predicate MayStand(e: seq<Atom>, caps: seq<string>) {
    |caps| == |CaptureAtoms(e)| &&
    forall i :: 0 <= i < |caps| ==> NoDot(caps[i]) && (CaptureAtoms(e)[i].Label? ==> caps[i] != "")
  }

  lemma {:induction false} FillMatches(e: seq<Atom>, caps: seq<string>)
    requires Plain(e) && MayStand(e, caps)
    ensures Matches(e, Fill(e, caps), caps)
    decreases |e|
  {
    if e != [] {
      assert Plain(e[1..]);
      if e[0].Char? {
        FillMatches(e[1..], caps);
      } else {
        assert CaptureAtoms(e) == [e[0]] + CaptureAtoms(e[1..]);
        FillMatches(e[1..], caps[1..]);
        assert Fill(e, caps)[|caps[0]|..] == Fill(e[1..], caps[1..]);
      }
    }
  }

  /** caps put for the stars of the pattern give s. */
  predicate Fills(name: string, caps: seq<string>, s: string) {
    |caps| == Stars(name) && MayStand(Compiled(Split(name)), caps) && Substitute(name, caps) == s
  }

  lemma FillsMatch(name: string, caps: seq<string>, s: string)
    requires IsLower(name) && IsLower(s)
    ensures Fills(name, caps, s) <==> Matches(Compiled(Split(name)), s, caps)
  {
    var e := Compiled(Split(name));
    CapturesAreStars(name);
    CompiledFollows(name);
    if Fills(name, caps, s) {
      FillMatches(e, caps);
      FillIsSubstitute(e, name, caps);
    }
    if Matches(e, s, caps) {
      CapturesMeaning(e, s, caps);
      CapturesRebuildTheName(name, s, caps);
    }
  }

  /**
   The captures found are those of all ways to put text for the stars that give the name which are the
   longest, those further left first; and there are none only if there is no such way.
   */
  lemma FindsTheLongest(name: string, s: string)
    requires IsLower(name) && IsLower(s)
    ensures match Find(Compiled(Split(name)), s)
      case None => forall caps :: !Fills(name, caps, s)
      case Some(found) => Fills(name, found, s) && forall caps :: Fills(name, caps, s) ==> Greedier(found, caps)
  {
    var e := Compiled(Split(name));
    FindIsExact(e, s);
    CapturesAreStars(name);
    if Find(e, s).Some? {
      FillsMatch(name, Find(e, s).value, s);
    }
    forall caps | Fills(name, caps, s) ensures Find(e, s).Some? && Greedier(Find(e, s).value, caps) {
      FillsMatch(name, caps, s);
      FindIsGreediest(e, s, caps);
    }
  }

  // ----- Characters and spellings -----

  const SMALL := "abcdefghijklmnopqrstuvwxyz"
  const CAPITAL := "ABCDEFGHIJKLMNOPQRSTUVWXYZ"

  /** Each capital letter is lowered to the small one in its place, and no other character changes. */
  lemma LowerLetters(c: char, i: nat)
    ensures i < 26 && c == CAPITAL[i] ==> LowerChar(c) == SMALL[i]
    ensures (forall k :: 0 <= k < 26 ==> CAPITAL[k] != c) ==> LowerChar(c) == c
  {
    assert |CAPITAL| == |SMALL| == 26;
    assert forall k :: 0 <= k < 26 ==> CAPITAL[k] as int == 65 + k && SMALL[k] as int == 97 + k;
    if 65 <= c as int <= 90 {
      assert CAPITAL[c as int - 65] == c;
    }
  }

  /** Host names are made of letters, digits, dots, hyphens and underscores. */
  lemma HostLetters(c: char)
    ensures IsHostChar(c) <==>
      (exists k :: 0 <= k < 26 && (SMALL[k] == c || CAPITAL[k] == c)) ||
      c in {'0', '1', '2', '3', '4', '5', '6', '7', '8', '9'} || c in {'.', '-', '_'}
  {
    assert forall k :: 0 <= k < 26 ==> CAPITAL[k] as int == 65 + k && SMALL[k] as int == 97 + k;
    if 65 <= c as int <= 90 {
      assert CAPITAL[c as int - 65] == c;
    }
    if 97 <= c as int <= 122 {
      assert SMALL[c as int - 97] == c;
    }
  }

  /** text spells the name: letters in either case, and a dot with a backslash in front of it or not. */
  predicate Spells(text: string, name: string) {
    if name == "" then text == ""
    else
      (|text| >= 2 && text[0] == '\\' && text[1] == '.' && name[0] == '.' && Spells(text[2..], name[1..])) ||
      (text != "" && text[0] != '\\' && LowerChar(text[0]) == name[0] && Spells(text[1..], name[1..]))
  }

  lemma {:induction false} SpelledName(text: string, name: string)
    requires Spells(text, name)
    ensures Lower(UnescapeDots(text)) == name
    decreases |text|
  {
    if name != "" {
      if text[0] == '\\' {
        SpelledName(text[2..], name[1..]);
        assert UnescapeDots(text) == "." + UnescapeDots(text[2..]);
      } else {
        SpelledName(text[1..], name[1..]);
        assert |text| >= 2 ==> UnescapeDots(text) == [text[0]] + UnescapeDots(text[1..]);
      }
      assert name == [name[0]] + name[1..];
    }
  }

  /** The spellings that are tolerated all stand for the name, with ^ in front, $ behind, either or both. */
  lemma SpellingsAgree(text: string, name: string)
    requires Spells(text, name) && name != "" && name[0] != '^' && name[|name| - 1] != '$'
    ensures LiteralName(text) == LiteralName("^" + text) == LiteralName(text + "$") == LiteralName("^" + text + "$") == name
  {
    SpelledName(text, name);
    EndOfSpelling(text, name);
    assert text[0] != '^' && text[|text| - 1] != '$';
    Trimmed(text);
  }

  /** ^ and $ around a text that has none there are taken off. */
  lemma Trimmed(text: string)
    requires text != "" && text[0] != '^' && text[|text| - 1] != '$'
    ensures TrimSuffix(TrimPrefix(text, '^'), '$') == text
    ensures TrimSuffix(TrimPrefix("^" + text, '^'), '$') == text
    ensures TrimSuffix(TrimPrefix(text + "$", '^'), '$') == text
    ensures TrimSuffix(TrimPrefix("^" + text + "$", '^'), '$') == text
  {
    assert ("^" + text)[1..] == text && (text + "$")[..|text|] == text;
    assert ("^" + text + "$")[1..] == text + "$";
  }

  lemma {:induction false} EndOfSpelling(text: string, name: string)
    requires Spells(text, name) && name != ""
    ensures text != "" && (text[0] == '^' ==> name[0] == '^') && (text[|text| - 1] == '$' ==> name[|name| - 1] == '$')
    decreases |text|
  {
    if |name| > 1 {
      if text[0] == '\\' {
        EndOfSpelling(text[2..], name[1..]);
      } else {
        EndOfSpelling(text[1..], name[1..]);
      }
    }
  }
}
