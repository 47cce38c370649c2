/** How a rule's domain is read (config.go classify). */
module Classify {
  import opened Wrappers
  import opened Pattern

  predicate EqualFold(s: string, word: string) { Lower(s) == word }

  /** Spellings of older versions, which are refused with a hint. */
  predicate OldSpelling(pattern: string) {
    EqualFold(pattern, "none") || EqualFold(pattern, "any") ||
    TrimSuffix(TrimPrefix(pattern, '^'), '$') == ".*"
  }

  predicate Special(pattern: string) { pattern != "" && pattern[0] == '$' }

  /** The domains that are accepted. */
  predicate Acceptable(pattern: string) {
    pattern == NO_SNI || pattern == ANYTHING_ELSE ||
    (!OldSpelling(pattern) && !Special(pattern) && ValidName(LiteralName(pattern)) && !HasPair(LiteralName(pattern), '*', '*'))
  }

  /** Why a domain that is not acceptable is refused. */
  function Refusal(pattern: string): Error {
    var name := LiteralName(pattern);
    if EqualFold(pattern, "none") then UseNoSni
    else if OldSpelling(pattern) then UseAnythingElse
    else if Special(pattern) then UnknownSpecial
    else if ValidName(name) then DoubleStar
    else NotAHostName
  }

  /** An ordinary lower-case name is read as itself and accepted, but for the two words and for a pair of stars. */
  lemma OrdinaryNames(name: string)
    requires ValidName(name) && IsLower(name)
    ensures LiteralName(name) == name
    ensures Acceptable(name) <==> name != "none" && name != "any" && !HasPair(name, '*', '*')
    ensures name == "none" ==> Refusal(name) == UseNoSni
    ensures name == "any" ==> Refusal(name) == UseAnythingElse
  {
    Unchanged(name);
    NoBackslash(name);
    NotOld(name);
    assert name[0] != '$';
    assert name != NO_SNI && name != ANYTHING_ELSE;
  }

  lemma NotOld(name: string)
    requires ValidName(name) && IsLower(name)
    ensures OldSpelling(name) <==> name == "none" || name == "any"
    ensures EqualFold(name, "none") <==> name == "none"
  {
    Unchanged(name);
    assert name[0] != '.' && ".*"[0] == '.';
  }

  lemma Unchanged(name: string)
    requires ValidName(name) && IsLower(name)
    ensures TrimSuffix(TrimPrefix(name, '^'), '$') == name && Lower(name) == name
  {
  }

  lemma {:induction false} NoBackslash(s: string)
    requires '\\' !in s
    ensures UnescapeDots(s) == s
    decreases |s|
  {
    if |s| >= 2 {
      assert s[0] in s && '\\' !in s[1..];
      NoBackslash(s[1..]);
      assert s == [s[0]] + s[1..];
    }
  }

  /** Literal characters of the labels, without the dots between them. */
  function LabelLiterals(labels: seq<string>): nat {
    if labels == [] then 0 else LabelLiterals(labels[..|labels| - 1]) + Literals(labels[|labels| - 1])
  }

  lemma {:induction false} CompiledSnoc(labels: seq<string>, last: string)
    ensures Compiled(labels + [last]) ==
            if labels == [] then LabelExpr(last) else Compiled(labels) + ([Char('.')] + LabelExpr(last))
    decreases |labels|
  {
    if labels == [] {
      assert (labels + [last])[0] == last;
    } else {
      var all := labels + [last];
      assert all[0] == labels[0] && all[1..] == labels[1..] + [last];
      CompiledSnoc(labels[1..], last);
      var dot := [Char('.')] + LabelExpr(last);
      if |labels| > 1 {
        assert LabelExpr(labels[0]) + ([Char('.')] + (Compiled(labels[1..]) + dot)) ==
               (LabelExpr(labels[0]) + ([Char('.')] + Compiled(labels[1..]))) + dot;
      } else {
        assert labels[1..] == [] && Compiled(labels) == LabelExpr(labels[0]);
      }
    }
  }

  lemma {:induction false} PartSnoc(p: string, i: nat)
    requires i < |p|
    ensures PartExpr(p[..i + 1]) == PartExpr(p[..i]) + [if p[i] == '*' then Part else Char(p[i])]
    ensures Literals(p[..i + 1]) == Literals(p[..i]) + if p[i] == '*' then 0 else 1
    decreases i
  {
    if i == 0 {
      assert p[..1][1..] == "" && p[..0] == "";
    } else {
      assert p[..i + 1][1..] == p[1..][..i] && p[..i][1..] == p[1..][..i - 1];
      PartSnoc(p[1..], i - 1);
    }
  }

  /** Without a * the quoted name is what its labels compile to. */
  lemma {:induction false} QuotedIsCompiled(name: string)
    requires '*' !in name
    ensures PartExpr(name) == Compiled(Split(name))
    ensures Literals(name) == |name|
    decreases |name|
  {
    if name == "" {
      assert Compiled([""]) == LabelExpr("");
    } else {
      var rest, labels := name[1..], Split(name[1..]);
      assert '*' !in rest;
      QuotedIsCompiled(rest);
      if name[0] == '.' {
        assert ([""] + labels)[1..] == labels;
        assert Compiled([""] + labels) == LabelExpr("") + ([Char('.')] + Compiled(labels));
      } else {
        assert name[0] in name;
        FirstHasNoStar(rest);
        PutFirst(name[0], labels);
      }
    }
  }

  /** A character in front of the first label is a character in front of the expression. */
  lemma PutFirst(c: char, labels: seq<string>)
    requires labels != [] && c != '*' && '*' !in labels[0]
    ensures Compiled([[c] + labels[0]] + labels[1..]) == [Char(c)] + Compiled(labels)
  {
    var first := [c] + labels[0];
    var all := [first] + labels[1..];
    assert first[0] == c && first != "*" && labels[0] != "*";
    assert first[1..] == labels[0] && PartExpr(first) == [Char(c)] + PartExpr(labels[0]);
    assert all[0] == first && all[1..] == labels[1..];
    if |labels| > 1 {
      Assoc([Char(c)], PartExpr(labels[0]), [Char('.')] + Compiled(labels[1..]));
    }
  }

  lemma {:induction false} FirstHasNoStar(s: string)
    requires '*' !in s
    ensures '*' !in Split(s)[0]
    decreases |s|
  {
    if s != "" && s[0] != '.' {
      assert '*' !in s[1..];
      FirstHasNoStar(s[1..]);
    }
  }

  /** The literal characters of a name are those of its labels and the dots. */
  lemma {:induction false} DotsAreBetween(name: string, labels: seq<string>)
    requires labels == Split(name)
    ensures Literals(name) == LabelLiterals(labels) + |labels| - 1
    decreases |labels|
  {
    if |labels| == 1 {
      SplitOne(name);
      assert LabelLiterals(labels) == LabelLiterals(labels[..0]) + Literals(labels[0]);
    } else {
      var a, b := SplitJoin(name);
      assert labels[1..] == Split(b);
      DotsAreBetween(b, labels[1..]);
      LiteralsOfConcat(a, "." + b);
      assert name == a + ("." + b) && ("." + b)[1..] == b;
      LabelLiteralsFront(a, labels[1..]);
    }
  }

  lemma {:induction false} LiteralsOfConcat(a: string, b: string)
    ensures Literals(a + b) == Literals(a) + Literals(b)
    decreases |a|
  {
    if a == "" {
      assert a + b == b;
    } else {
      assert (a + b)[0] == a[0] && (a + b)[1..] == a[1..] + b;
      LiteralsOfConcat(a[1..], b);
    }
  }

  lemma {:induction false} LabelLiteralsFront(a: string, labels: seq<string>)
    ensures LabelLiterals([a] + labels) == Literals(a) + LabelLiterals(labels)
    decreases |labels|
  {
    if labels == [] {
      assert ([a] + labels)[..0] == [];
      assert [a] + labels == [a];
    } else {
      var n := |labels| - 1;
      assert ([a] + labels)[..n + 1] == [a] + labels[..n];
      LabelLiteralsFront(a, labels[..n]);
    }
  }

  /** One label's part of the expression, and its literal characters. */
  method CompileLabel(text: string) returns (out: seq<Atom>, literals: nat)
    requires text != "*"
    ensures out == LabelExpr(text) && literals == Literals(text)
  {
    out, literals := [], 0;
    for i := 0 to |text|
      invariant out == PartExpr(text[..i]) && literals == Literals(text[..i])
    {
      PartSnoc(text, i);
      if text[i] == '*' {
        out := out + [Part];
      } else {
        out := out + [Char(text[i])];
        literals := literals + 1;
      }
    }
    assert text[..|text|] == text;
  }

  /** A * that is a whole label, or any other label. */
  method CompileAny(text: string) returns (out: seq<Atom>, literals: nat)
    ensures out == LabelExpr(text) && literals == Literals(text)
  {
    if text == "*" {
      assert Literals("*") == Literals("*"[1..]);
      return [Label], 0;
    }
    out, literals := CompileLabel(text);
  }

  lemma NextLabel(labels: seq<string>, n: nat)
    requires n < |labels|
    ensures var before, one := Compiled(labels[..n]), LabelExpr(labels[n]);
      Compiled(labels[..n + 1]) == (if n > 0 then before + [Char('.')] + one else before + one) &&
      LabelLiterals(labels[..n + 1]) == LabelLiterals(labels[..n]) + Literals(labels[n])
  {
    CompiledSnoc(labels[..n], labels[n]);
    assert labels[..n + 1] == labels[..n] + [labels[n]] && labels[..n + 1][..n] == labels[..n];
    var before, one := Compiled(labels[..n]), LabelExpr(labels[n]);
    assert before + ([Char('.')] + one) == before + [Char('.')] + one;
    if n == 0 {
      assert before == [] && before + one == one;
    }
  }

  method CompileLabels(labels: seq<string>) returns (out: seq<Atom>, literals: nat)
    ensures out == Compiled(labels) && literals == LabelLiterals(labels)
  {
    out, literals := [], 0;
    for n := 0 to |labels|
      invariant out == Compiled(labels[..n]) && literals == LabelLiterals(labels[..n])
    {
      NextLabel(labels, n);
      var one, k := CompileAny(labels[n]);
      out := if n > 0 then out + [Char('.')] + one else out + one;
      literals := literals + k;
    }
    assert labels[..|labels|] == labels;
  }

  /**
   A domain is read as what it stands for: the special ones for themselves, a literal for the
   expression of its name, a wildcard for that of its labels, ranked by its literal characters; and
   exactly the acceptable ones are accepted.
   */
  method ClassifyDomain(pattern: string) returns (r: Result<Classified, Error>)
    ensures r.Ok? <==> Acceptable(pattern)
    ensures r.Ok? ==> match r.value.kind
      case NoSni => pattern == NO_SNI && r.value.expr == []
      case CatchAll => pattern == ANYTHING_ELSE && r.value.expr == [Anything]
      case Literal => pattern != NO_SNI && pattern != ANYTHING_ELSE && '*' !in LiteralName(pattern)
      case Wildcard => pattern != NO_SNI && pattern != ANYTHING_ELSE && '*' in LiteralName(pattern)
    ensures r.Ok? && r.value.kind in {Literal, Wildcard} ==>
      var name := LiteralName(pattern);
      ValidName(name) && !HasPair(name, '*', '*') &&
      r.value.expr == Compiled(Split(name)) && r.value.literalChars == Literals(name)
    ensures r.Ok? && r.value.kind in {NoSni, CatchAll} ==> r.value.literalChars == 0
    ensures r.Err? ==> r.error == Refusal(pattern)
  {
    if pattern == NO_SNI {
      return Ok(Classified(NoSni, [], 0));
    }
    if pattern == ANYTHING_ELSE {
      return Ok(Classified(CatchAll, [Anything], 0));
    }
    if EqualFold(pattern, "none") {
      return Err(UseNoSni);
    }
    if EqualFold(pattern, "any") || TrimSuffix(TrimPrefix(pattern, '^'), '$') == ".*" {
      return Err(UseAnythingElse);
    }
    if pattern != "" && pattern[0] == '$' {
      return Err(UnknownSpecial);
    }
    var name := LiteralName(pattern);
    for i := 0 to |name|
      invariant forall j :: 0 <= j < i ==> IsHostChar(name[j]) || name[j] == '*'
    {
      if !IsHostChar(name[i]) && name[i] != '*' {
        return Err(NotAHostName);
      }
    }
    if name == "" || name[0] == '.' || name[|name| - 1] == '.' || HasPair(name, '.', '.') {
      return Err(NotAHostName);
    }
    if '*' !in name {
      QuotedIsCompiled(name);
      return Ok(Classified(Literal, PartExpr(name), |name|));
    }
    if HasPair(name, '*', '*') {
      return Err(DoubleStar);
    }
    var labels := Split(name);
    var out, literals := CompileLabels(labels);
    DotsAreBetween(name, labels);
    r := Ok(Classified(Wildcard, out, literals + |labels| - 1));
  }
}
