/**
 The names of a local CA's certificates and of the folders they are kept in (localca.go sanKey, sanSplit,
 leafKey, localCAFolder, localCAName).
 */
module SanKeys {
  import opened Wrappers
  import opened ProxyProtocol
  import Pattern

  // ----- Sorting without duplicates -----

  /** The order of strings, byte by byte. */
  predicate Less(a: string, b: string) {
    b != "" && (a == "" || a[0] < b[0] || (a[0] == b[0] && Less(a[1..], b[1..])))
  }

  lemma {:induction false} LessIsTotal(a: string, b: string)
    ensures Less(a, b) || a == b || Less(b, a)
    ensures !(Less(a, b) && Less(b, a)) && !Less(a, a)
    decreases |a|
  {
    if a != "" {
      LessIsTotal(a[1..], a[1..]);
      if b != "" {
        LessIsTotal(a[1..], b[1..]);
        assert a == [a[0]] + a[1..] && b == [b[0]] + b[1..];
      }
    }
  }

  lemma {:induction false} LessIsTransitive(a: string, b: string, c: string)
    requires Less(a, b) && Less(b, c)
    ensures Less(a, c)
    decreases |a|
  {
    if a != "" && a[0] == b[0] == c[0] {
      LessIsTransitive(a[1..], b[1..], c[1..]);
    }
  }

  ghost predicate Ordered<T>(s: seq<T>, key: T -> string) {
    forall i, j :: 0 <= i < j < |s| ==> Less(key(s[i]), key(s[j]))
  }

  function Insert<T>(x: T, s: seq<T>, key: T -> string): seq<T> {
    if s == [] then [x]
    else if key(x) == key(s[0]) then s
    else if Less(key(x), key(s[0])) then [x] + s
    else [s[0]] + Insert(x, s[1..], key)
  }

  /** Sort, then Compact. */
  function SortCompact<T>(s: seq<T>, key: T -> string): seq<T> {
    if s == [] then [] else Insert(s[0], SortCompact(s[1..], key), key)
  }

  lemma {:induction false} InsertMeaning<T>(x: T, s: seq<T>, key: T -> string)
    requires Ordered(s, key) && forall y :: y in s && key(y) == key(x) ==> y == x
    ensures Ordered(Insert(x, s, key), key)
    ensures forall y :: y in Insert(x, s, key) ==> y == x || y in s
    ensures x in Insert(x, s, key) && forall y :: y in s ==> y in Insert(x, s, key)
    decreases |s|
  {
    if s != [] {
      LessIsTotal(key(x), key(s[0]));
      if key(x) != key(s[0]) {
        if Less(key(x), key(s[0])) {
          FirstIsLess(x, s, key);
        } else {
          InsertMeaning(x, s[1..], key);
          var r := Insert(x, s[1..], key);
          forall y | y in r ensures Less(key(s[0]), key(y)) {
            if y != x {
              assert y in s[1..];
              var i :| 0 <= i < |s[1..]| && s[1..][i] == y;
              assert s[i + 1] == y;
            }
          }
        }
      }
    }
  }

  lemma FirstIsLess<T>(x: T, s: seq<T>, key: T -> string)
    requires s != [] && Ordered(s, key) && Less(key(x), key(s[0]))
    ensures Ordered([x] + s, key)
  {
    forall j | 0 <= j < |s| ensures Less(key(x), key(s[j])) {
      if j > 0 {
        LessIsTransitive(key(x), key(s[0]), key(s[j]));
      }
    }
  }

  /** Sorting a list keeps its elements. */
  lemma {:induction false} SortMeaning<T>(s: seq<T>, key: T -> string)
    requires forall x, y :: x in s && y in s && key(x) == key(y) ==> x == y
    ensures Ordered(SortCompact(s, key), key)
    ensures forall y :: y in SortCompact(s, key) ==> y in s
    ensures forall y :: y in s ==> y in SortCompact(s, key)
    decreases |s|
  {
    if s != [] {
      SortMeaning(s[1..], key);
      forall y | y in SortCompact(s[1..], key) && key(y) == key(s[0]) ensures y == s[0] {
        assert y in s[1..] && y in s;
      }
      InsertMeaning(s[0], SortCompact(s[1..], key), key);
    }
  }

  /** What is in order stays as it is. */
  lemma {:induction false} SortedStays<T>(s: seq<T>, key: T -> string)
    requires Ordered(s, key)
    ensures SortCompact(s, key) == s
    decreases |s|
  {
    if s != [] {
      SortedStays(s[1..], key);
      assert s == [s[0]] + s[1..];
      if |s| > 1 {
        LessIsTotal(key(s[0]), key(s[1]));
      }
    }
  }

  // ----- Names -----

  /** Addresses as text, both ways. */
  datatype AddrCodec = AddrCodec(format: Addr -> string, parse: string -> Option<Addr>)

  /** Addresses are ordered by family, then by value. */
  function AddrKey(a: Addr): string { [if a.V4? then '4' else '6'] + a.b }

  function Itself(s: string): string { s }

  predicate ValidDomain(d: string) {
    d != "" && |d| <= 253 && '.' in d && d[0] != '.' && d[|d| - 1] != '.' &&
    (forall i :: 0 <= i < |d| - 1 ==> !(d[i] == '.' && d[i + 1] == '.')) &&
    forall i :: 0 <= i < |d| ==> Pattern.IsHostChar(d[i]) && d[i] != '_'
  }

  /** Not empty, and no characters but letters, digits and hyphens. */
  predicate IsLabel(l: string) { l != "" && forall i :: 0 <= i < |l| ==> Pattern.IsHostChar(l[i]) && l[i] !in {'.', '_'} }

  ghost predicate AllLabels(f: seq<string>) { forall i :: 0 <= i < |f| ==> IsLabel(f[i]) }

  /** A domain: less than 254 characters, in two labels or more. */
  lemma DomainMeans(d: string)
    ensures ValidDomain(d) <==> |d| < 254 && |Split(d, '.')| >= 2 && AllLabels(Split(d, '.'))
  {
    LabelsMean(d);
    DotsMean(d);
  }

  /** What validDomain asks of the characters, one by one. */
  ghost predicate Spread(d: string) {
    d != "" && d[0] != '.' && d[|d| - 1] != '.' &&
    (forall i :: 0 <= i < |d| - 1 ==> !(d[i] == '.' && d[i + 1] == '.')) &&
    forall i :: 0 <= i < |d| ==> Pattern.IsHostChar(d[i]) && d[i] != '_'
  }

  lemma {:induction false} DotsMean(d: string)
    ensures '.' in d <==> |Split(d, '.')| >= 2
    decreases |d|
  {
    if d != "" {
      DotsMean(d[1..]);
      assert d == [d[0]] + d[1..];
    }
  }

  lemma {:induction false} LabelsMean(d: string)
    ensures AllLabels(Split(d, '.')) <==> Spread(d)
    decreases |d|
  {
    if d == "" || d[0] == '.' {
      assert Split(d, '.')[0] == "";
    } else if |d| == 1 {
      SplitOfWord(d, "", '.');
      assert Split(d, '.')[0] == d;
    } else if d[1] == '.' {
      LabelsMean(d[2..]);
      LabelAlone(d[..1], d[2..]);
      assert d == d[..1] + ['.'] + d[2..];
      SpreadAfterDot(d);
    } else {
      LabelsMean(d[1..]);
      LabelGoesOn(d);
      SpreadGoesOn(d);
    }
  }

  lemma LabelAlone(word: string, tail: string)
    requires '.' !in word
    ensures AllLabels(Split(word + ['.'] + tail, '.')) <==> IsLabel(word) && AllLabels(Split(tail, '.'))
  {
    SplitOfWord(word, tail, '.');
    OneLabelMore(word, Split(tail, '.'));
  }

  lemma OneLabelMore(word: string, rest: seq<string>)
    ensures AllLabels([word] + rest) <==> IsLabel(word) && AllLabels(rest)
  {
    var f := [word] + rest;
    assert f[0] == word && forall i :: 0 <= i < |rest| ==> f[i + 1] == rest[i];
  }

  lemma LabelGoesOn(d: string)
    requires |d| > 1 && d[0] != '.' && d[1] != '.'
    ensures AllLabels(Split(d, '.')) <==> IsLabel(d[..1]) && AllLabels(Split(d[1..], '.'))
  {
    var rest := Split(d[1..], '.');
    assert rest[0] != "" by {
      assert d[1..][0] == d[1];
    }
    assert d[..1] == [d[0]];
    assert Split(d, '.') == [[d[0]] + rest[0]] + rest[1..];
    FirstLabelGrows(d[0], rest);
  }

  lemma FirstLabelGrows(c: char, f: seq<string>)
    requires f != [] && f[0] != ""
    ensures AllLabels([[c] + f[0]] + f[1..]) <==> IsLabel([c]) && AllLabels(f)
  {
    var word, first := f[0], [c] + f[0];
    var g := [first] + f[1..];
    assert first[0] == c && [c][0] == c && forall i :: 0 <= i < |word| ==> first[i + 1] == word[i];
    assert IsLabel(first) <==> IsLabel([c]) && IsLabel(word);
    assert g[0] == first && forall i :: 0 < i < |f| ==> g[i] == f[i];
  }

  lemma SpreadAfterDot(d: string)
    requires |d| > 1 && d[0] != '.' && d[1] == '.'
    ensures Spread(d) <==> IsLabel(d[..1]) && Spread(d[2..])
  {
    assert d[..1][0] == d[0] && forall i :: 2 <= i < |d| ==> d[i] == d[2..][i - 2];
  }

  lemma SpreadGoesOn(d: string)
    requires |d| > 1 && d[0] != '.' && d[1] != '.'
    ensures Spread(d) <==> IsLabel(d[..1]) && Spread(d[1..])
  {
    assert d[..1][0] == d[0] && forall i :: 1 <= i < |d| ==> d[i] == d[1..][i - 1];
  }

  /** Addresses come in order: IPv4 before IPv6, and within a family by their bytes. */
  lemma AddrsInOrder(a: Addr, b: Addr)
    ensures Less(AddrKey(a), AddrKey(b)) <==> (a.V4? && b.V6?) || (a.V4? == b.V4? && Less(a.b, b.b))
  {
    assert AddrKey(a)[1..] == a.b && AddrKey(b)[1..] == b.b;
  }

  predicate IsHostName(codec: AddrCodec, d: string) { codec.parse(d).None? && ValidDomain(d) }

  function Unmapped(ips: seq<Addr>): (r: seq<Addr>)
    ensures |r| == |ips|
  {
    seq(|ips|, i requires 0 <= i < |ips| => Unmap(ips[i]))
  }

  predicate IsAddr(a: Addr) { IsBytes(a.b) && |a.b| == (if a.V4? then 4 else 16) && Unmap(a) == a }

  function Texts(codec: AddrCodec, ips: seq<Addr>): (r: seq<string>)
    ensures |r| == |ips|
  {
    seq(|ips|, i requires 0 <= i < |ips| => codec.format(ips[i]))
  }

  function Join(parts: seq<string>, sep: char): string { if parts == [] then "" else Words(parts, sep) }

  /** The name of a certificate for these addresses and host names. */
  function SanKey(codec: AddrCodec, ips: seq<Addr>, hosts: seq<string>): string {
    if ips == [] && |hosts| == 1 then hosts[0]
    else Join(Texts(codec, SortCompact(Unmapped(ips), AddrKey)) + SortCompact(hosts, Itself), ',')
  }

  function IpsOf(codec: AddrCodec, parts: seq<string>): seq<Addr> {
    if parts == [] then []
    else
      var last := |parts| - 1;
      var a := codec.parse(parts[last]);
      IpsOf(codec, parts[..last]) + if a.Some? then [a.value] else []
  }

  function HostsOf(codec: AddrCodec, parts: seq<string>): seq<string> {
    if parts == [] then []
    else
      var last := |parts| - 1;
      HostsOf(codec, parts[..last]) + if codec.parse(parts[last]).Some? then [] else [parts[last]]
  }

  /** One more part. */
  lemma NextPart(codec: AddrCodec, parts: seq<string>, i: nat)
    requires i < |parts|
    ensures var a := codec.parse(parts[i]);
      IpsOf(codec, parts[..i + 1]) == IpsOf(codec, parts[..i]) + (if a.Some? then [a.value] else []) &&
      HostsOf(codec, parts[..i + 1]) == HostsOf(codec, parts[..i]) + if a.Some? then [] else [parts[i]]
  {
    assert parts[..i + 1][..i] == parts[..i];
  }

  method SanSplit(codec: AddrCodec, key: string) returns (ips: seq<Addr>, hosts: seq<string>)
    ensures ips == IpsOf(codec, Split(key, ',')) && hosts == HostsOf(codec, Split(key, ','))
  {
    ips, hosts := [], [];
    var parts := Split(key, ',');
    for i := 0 to |parts|
      invariant ips == IpsOf(codec, parts[..i]) && hosts == HostsOf(codec, parts[..i])
    {
      NextPart(codec, parts, i);
      var a := codec.parse(parts[i]);
      if a.Some? {
        ips := ips + [a.value];
      } else {
        hosts := hosts + [parts[i]];
      }
    }
    assert parts[..|parts|] == parts;
  }

  // ----- Folders -----

  function Replace(s: string, from: char, to: char): (r: string)
    ensures |r| == |s|
    ensures forall i :: 0 <= i < |s| ==> r[i] == if s[i] == from then to else s[i]
  {
    if s == "" then "" else [if s[0] == from then to else s[0]] + Replace(s[1..], from, to)
  }

  function FolderText(key: string): (r: string)
    ensures |r| == |key|
    ensures forall i :: 0 <= i < |key| ==> r[i] == if key[i] == ',' then '+' else if key[i] == ':' then '-' else key[i]
  {
    Replace(Replace(key, ',', '+'), ':', '-')
  }

  function LocalCAFolder(codec: AddrCodec, key: string): string {
    if IsHostName(codec, key) then key else "ip_" + FolderText(key)
  }

  /** A part of a folder's name as it is in the certificate's name. */
  function PartOf(part: string): string { if '.' in part then part else Replace(part, '-', ':') }

  function PartsOf(parts: seq<string>): (r: seq<string>)
    ensures |r| == |parts|
  {
    seq(|parts|, i requires 0 <= i < |parts| => PartOf(parts[i]))
  }

  /** An address without a zone. */
  predicate IsIp(codec: AddrCodec, part: string) { codec.parse(part).Some? && '%' !in part }

  predicate PartOk(codec: AddrCodec, part: string) { IsIp(codec, part) || IsHostName(codec, part) }

  predicate AllOk(codec: AddrCodec, parts: seq<string>) { forall i :: 0 <= i < |parts| ==> PartOk(codec, parts[i]) }

  /** The name of these parts, unless the folder is not how this proxy names it. */
  function NameFrom(codec: AddrCodec, folder: string, ips: seq<Addr>, hosts: seq<string>): Option<string> {
    var key := SanKey(codec, ips, hosts);
    if ips == [] || LocalCAFolder(codec, key) != folder then None else Some(key)
  }

  /** What reading a folder's name gives: None for a folder that is not a certificate's. */
  function NameOf(codec: AddrCodec, folder: string): Option<string> {
    if IsHostName(codec, folder) then Some(folder)
    else if |folder| <= 3 || folder[..3] != "ip_" then None
    else
      var parts := PartsOf(Split(folder[3..], '+'));
      if AllOk(codec, parts) then NameFrom(codec, folder, IpsOf(codec, parts), HostsOf(codec, parts)) else None
  }

  /** One part of a folder's name is an address without a zone, or a host name, or else it is no name. */
  method TakePart(codec: AddrCodec, part: string, ips: seq<Addr>, hosts: seq<string>)
    returns (ok: bool, moreIps: seq<Addr>, moreHosts: seq<string>)
    ensures ok <==> PartOk(codec, part)
    ensures ok ==> moreIps == ips + if codec.parse(part).Some? then [codec.parse(part).value] else []
    ensures ok ==> moreHosts == hosts + if codec.parse(part).Some? then [] else [part]
  {
    var a := codec.parse(part);
    if a.Some? && '%' !in part {
      return true, ips + [a.value], hosts;
    } else if IsHostName(codec, part) {
      return true, ips, hosts + [part];
    }
    return false, ips, hosts;
  }

  /** The first i parts are all right, and these are their addresses and host names. */
  ghost predicate SoFar(codec: AddrCodec, parts: seq<string>, i: nat, ips: seq<Addr>, hosts: seq<string>) {
    i <= |parts| && AllOk(codec, parts[..i]) && ips == IpsOf(codec, parts[..i]) && hosts == HostsOf(codec, parts[..i])
  }

  lemma AllOkSnoc(codec: AddrCodec, parts: seq<string>, i: nat)
    requires i < |parts| && AllOk(codec, parts[..i]) && PartOk(codec, parts[i])
    ensures AllOk(codec, parts[..i + 1])
  {
    forall j | 0 <= j < i + 1 ensures PartOk(codec, parts[j]) {
      assert j < i ==> parts[..i][j] == parts[j];
    }
  }

  /** The next word, as a part. */
  method TakeWord(codec: AddrCodec, ghost parts: seq<string>, i: nat, word: string, ips0: seq<Addr>, hosts0: seq<string>)
    returns (ok: bool, ips: seq<Addr>, hosts: seq<string>)
    requires i < |parts| && PartOf(word) == parts[i] && SoFar(codec, parts, i, ips0, hosts0)
    ensures if ok then SoFar(codec, parts, i + 1, ips, hosts) else !AllOk(codec, parts)
  {
    NextPart(codec, parts, i);
    ok, ips, hosts := TakePart(codec, PartOf(word), ips0, hosts0);
    if ok {
      AllOkSnoc(codec, parts, i);
    }
  }

  method ReadParts(codec: AddrCodec, words: seq<string>) returns (ok: bool, ips: seq<Addr>, hosts: seq<string>)
    ensures ok <==> AllOk(codec, PartsOf(words))
    ensures ok ==> ips == IpsOf(codec, PartsOf(words)) && hosts == HostsOf(codec, PartsOf(words))
  {
    ips, hosts := [], [];
    ghost var parts := PartsOf(words);
    for i := 0 to |words|
      invariant SoFar(codec, parts, i, ips, hosts)
    {
      ok, ips, hosts := TakeWord(codec, parts, i, words[i], ips, hosts);
      if !ok {
        return;
      }
    }
    assert parts[..|words|] == parts;
    ok := true;
  }

  method LocalCAName(codec: AddrCodec, folder: string) returns (name: Option<string>)
    ensures name == NameOf(codec, folder)
  {
    if IsHostName(codec, folder) {
      return Some(folder);
    }
    if |folder| <= 3 || folder[..3] != "ip_" {
      return None;
    }
    var ok, ips, hosts := ReadParts(codec, Split(folder[3..], '+'));
    return if ok then NameFrom(codec, folder, ips, hosts) else None;
  }

  // ----- What is undone -----

  /** A part of a name: what it does not contain, so that a folder's name can be taken apart. */
  ghost predicate PartText(t: string) {
    ',' !in t && '+' !in t && '_' !in t && '%' !in t && t != "" && ('.' in t ==> ':' !in t) && ('.' !in t ==> '-' !in t)
  }

  /** What the text of an address must be. */
  ghost predicate Good(codec: AddrCodec) {
    forall a :: IsAddr(a) ==>
      var t := codec.format(a);
      codec.parse(t) == Some(a) && PartText(t) && ('.' !in t ==> ':' in t)
  }

  /** What is assumed of IPv6 text: it reads back and is hexadecimal digits and colons. */
  ghost predicate Plain6(codec: Codec) {
    forall b :: |b| == 16 && IsBytes(b) && Unmap(V6(b)) == V6(b) ==>
      codec.parse(codec.format(b)) == Some(b) && FirstMark(codec.format(b)) == Some(':') && IsHexText(codec.format(b))
  }

  predicate IsHexText(t: string) {
    forall i :: 0 <= i < |t| ==> '0' <= t[i] <= '9' || 'a' <= t[i] <= 'f' || t[i] == ':'
  }

  /** Dotted IPv4 text, and the IPv6 text of a codec. */
  function Standard(codec: Codec): AddrCodec {
    AddrCodec((a: Addr) => if a.V4? && |a.b| != 4 then "" else AddrText(codec, a), (s: string) => ParseAddr(codec, s))
  }

  lemma StandardIsGood(codec: Codec)
    requires Plain6(codec)
    ensures Good(Standard(codec))
  {
    forall a | IsAddr(a)
      ensures Standard(codec).parse(Standard(codec).format(a)) == Some(a) && PartText(Standard(codec).format(a))
      ensures var t := Standard(codec).format(a); '.' !in t ==> ':' in t
    {
      if a.V4? {
        DottedText(a.b);
        MarkIsThere(Dotted(a.b));
      } else {
        MarkIsThere(codec.format(a.b));
      }
    }
  }

  lemma {:induction false} MarkIsThere(s: string)
    ensures FirstMark(s).Some? ==> FirstMark(s).value in s
    decreases |s|
  {
    if s != "" {
      MarkIsThere(s[1..]);
    }
  }

  lemma HostPart(codec: AddrCodec, h: string)
    requires IsHostName(codec, h)
    ensures PartText(h) && codec.parse(h) == None
  {
  }

  /** The parts of a name: addresses and then host names, in order. */
  ghost predicate Sorted(codec: AddrCodec, ips: seq<Addr>, hosts: seq<string>) {
    Ordered(ips, AddrKey) && Ordered(hosts, Itself) && (forall i :: 0 <= i < |ips| ==> IsAddr(ips[i])) &&
    forall i :: 0 <= i < |hosts| ==> IsHostName(codec, hosts[i])
  }

  function Parts(codec: AddrCodec, ips: seq<Addr>, hosts: seq<string>): seq<string> { Texts(codec, ips) + hosts }

  lemma PartsMeaning(codec: AddrCodec, ips: seq<Addr>, hosts: seq<string>, i: nat)
    requires Good(codec) && Sorted(codec, ips, hosts) && i < |ips| + |hosts|
    ensures var p := Parts(codec, ips, hosts)[i];
      PartText(p) && PartOk(codec, p) && (codec.parse(p) == if i < |ips| then Some(ips[i]) else None)
  {
    if i >= |ips| {
      HostPart(codec, hosts[i - |ips|]);
    }
  }

  /** The first parts are these addresses, the others these host names. */
  ghost predicate Reads(codec: AddrCodec, parts: seq<string>, ips: seq<Addr>, hosts: seq<string>) {
    |parts| == |ips| + |hosts| && (forall i :: 0 <= i < |ips| ==> codec.parse(parts[i]) == Some(ips[i])) &&
    forall i :: 0 <= i < |hosts| ==> parts[|ips| + i] == hosts[i] && codec.parse(parts[|ips| + i]) == None
  }

  lemma {:induction false} IpsGiveBack(codec: AddrCodec, parts: seq<string>, ips: seq<Addr>, hosts: seq<string>, n: nat)
    requires Reads(codec, parts, ips, hosts) && n <= |ips|
    ensures IpsOf(codec, parts[..n]) == ips[..n] && HostsOf(codec, parts[..n]) == []
    decreases n
  {
    if n > 0 {
      IpsGiveBack(codec, parts, ips, hosts, n - 1);
      NextPart(codec, parts, n - 1);
      assert ips[..n] == ips[..n - 1] + [ips[n - 1]];
    }
  }

  lemma {:induction false} HostsGiveBack(codec: AddrCodec, parts: seq<string>, ips: seq<Addr>, hosts: seq<string>, n: nat)
    requires Reads(codec, parts, ips, hosts) && n <= |hosts|
    ensures IpsOf(codec, parts[..|ips| + n]) == ips && HostsOf(codec, parts[..|ips| + n]) == hosts[..n]
    decreases n
  {
    if n == 0 {
      IpsGiveBack(codec, parts, ips, hosts, |ips|);
    } else {
      HostsGiveBack(codec, parts, ips, hosts, n - 1);
      NextPart(codec, parts, |ips| + n - 1);
      assert hosts[..n] == hosts[..n - 1] + [hosts[n - 1]];
    }
  }

  lemma PartsRead(codec: AddrCodec, ips: seq<Addr>, hosts: seq<string>)
    requires Good(codec) && Sorted(codec, ips, hosts)
    ensures Reads(codec, Parts(codec, ips, hosts), ips, hosts)
    ensures IpsOf(codec, Parts(codec, ips, hosts)) == ips && HostsOf(codec, Parts(codec, ips, hosts)) == hosts
    ensures AllOk(codec, Parts(codec, ips, hosts))
  {
    var parts := Parts(codec, ips, hosts);
    forall i | 0 <= i < |parts| ensures PartOk(codec, parts[i]) {
      PartsMeaning(codec, ips, hosts, i);
    }
    forall i | 0 <= i < |ips| ensures codec.parse(parts[i]) == Some(ips[i]) {
      PartsMeaning(codec, ips, hosts, i);
    }
    forall i | 0 <= i < |hosts| ensures parts[|ips| + i] == hosts[i] && codec.parse(parts[|ips| + i]) == None {
      PartsMeaning(codec, ips, hosts, |ips| + i);
    }
    HostsGiveBack(codec, parts, ips, hosts, |hosts|);
    assert parts[..|ips| + |hosts|] == parts;
  }

  /** The name of addresses and host names that are in order already. */
  lemma KeyOfSorted(codec: AddrCodec, ips: seq<Addr>, hosts: seq<string>)
    requires Sorted(codec, ips, hosts)
    ensures SanKey(codec, ips, hosts) == Join(Parts(codec, ips, hosts), ',')
  {
    SortedStays(ips, AddrKey);
    SortedStays(hosts, Itself);
    assert Unmapped(ips) == ips;
    if ips == [] && |hosts| == 1 {
      assert Parts(codec, ips, hosts) == hosts;
    }
  }

  /** A name is split into what it was made of; so sanKey undoes sanSplit. */
  lemma SplitOfKey(codec: AddrCodec, ips: seq<Addr>, hosts: seq<string>)
    requires Good(codec) && Sorted(codec, ips, hosts) && (ips != [] || hosts != [])
    ensures var parts := Split(SanKey(codec, ips, hosts), ',');
      IpsOf(codec, parts) == ips && HostsOf(codec, parts) == hosts
  {
    KeyOfSorted(codec, ips, hosts);
    var parts := Parts(codec, ips, hosts);
    forall i | 0 <= i < |parts| ensures ',' !in parts[i] {
      PartsMeaning(codec, ips, hosts, i);
    }
    SplitOfWords(parts, ',');
    PartsRead(codec, ips, hosts);
  }

  /** The names there are: one host name, or addresses with or without host names. */
  ghost predicate IsName(codec: AddrCodec, key: string, ips: seq<Addr>, hosts: seq<string>) {
    Sorted(codec, ips, hosts) && (ips != [] || |hosts| == 1) && key == SanKey(codec, ips, hosts)
  }

  /** Any addresses and host names make such a name, of the same addresses (unmapped) and host names. */
  lemma EveryKeyIsAName(codec: AddrCodec, ips: seq<Addr>, hosts: seq<string>)
    requires forall i :: 0 <= i < |ips| ==> IsAddr(Unmap(ips[i]))
    requires forall i :: 0 <= i < |hosts| ==> IsHostName(codec, hosts[i])
    requires ips != [] || |hosts| == 1
    ensures var a, h := SortCompact(Unmapped(ips), AddrKey), SortCompact(hosts, Itself);
      IsName(codec, SanKey(codec, ips, hosts), a, h) &&
      (forall x :: x in a <==> x in Unmapped(ips)) && (forall x :: x in h <==> x in hosts)
  {
    var a, h := SortCompact(Unmapped(ips), AddrKey), SortCompact(hosts, Itself);
    forall x, y | AddrKey(x) == AddrKey(y) ensures x == y {
      AddrKeyIsInjective(x, y);
    }
    SortMeaning(Unmapped(ips), AddrKey);
    SortMeaning(hosts, Itself);
    forall i | 0 <= i < |a| ensures IsAddr(a[i]) {
      assert a[i] in a;
    }
    forall i | 0 <= i < |h| ensures IsHostName(codec, h[i]) {
      assert h[i] in h;
    }
    if ips != [] {
      assert Unmapped(ips)[0] in a;
    } else {
      assert hosts == [hosts[0]] && hosts[1..] == [];
      assert h == hosts;
    }
    KeyOfSorted(codec, a, h);
  }

  /** The same addresses (unmapped) and host names, in any order and however often, make the same name. */
  lemma KeyDependsOnSets(codec: AddrCodec, ips1: seq<Addr>, hosts1: seq<string>, ips2: seq<Addr>, hosts2: seq<string>)
    requires forall x :: x in Unmapped(ips1) <==> x in Unmapped(ips2)
    requires forall h :: h in hosts1 <==> h in hosts2
    ensures SanKey(codec, ips1, hosts1) == SanKey(codec, ips2, hosts2)
  {
    forall x, y | AddrKey(x) == AddrKey(y) ensures x == y {
      AddrKeyIsInjective(x, y);
    }
    SameElementsSameOrder(Unmapped(ips1), Unmapped(ips2), AddrKey);
    SameElementsSameOrder(hosts1, hosts2, Itself);
    SanKeyMeaning(codec, ips1, hosts1);
    SanKeyMeaning(codec, ips2, hosts2);
  }

  /** The name of a single host is no exception to the way the others are made. */
  lemma SanKeyMeaning(codec: AddrCodec, ips: seq<Addr>, hosts: seq<string>)
    ensures SanKey(codec, ips, hosts) ==
      Join(Texts(codec, SortCompact(Unmapped(ips), AddrKey)) + SortCompact(hosts, Itself), ',')
  {
    if ips == [] && |hosts| == 1 {
      assert hosts == [hosts[0]] && hosts[1..] == [];
      assert Unmapped(ips) == [] && Texts(codec, []) + hosts == hosts;
    }
  }

  lemma SameElementsSameOrder<T>(s: seq<T>, t: seq<T>, key: T -> string)
    requires (forall x :: x in s ==> x in t) && forall x :: x in t ==> x in s
    requires forall x, y :: x in s && y in s && key(x) == key(y) ==> x == y
    ensures SortCompact(s, key) == SortCompact(t, key)
  {
    SortMeaning(s, key);
    SortMeaning(t, key);
    OrderedIsUnique(SortCompact(s, key), SortCompact(t, key), key);
  }

  /** Two lists in order with the same elements are the same. */
  lemma {:induction false} OrderedIsUnique<T>(a: seq<T>, b: seq<T>, key: T -> string)
    requires Ordered(a, key) && Ordered(b, key)
    requires (forall x :: x in a ==> x in b) && forall x :: x in b ==> x in a
    ensures a == b
    decreases |a|
  {
    if a != [] {
      assert a[0] in b;
    }
    if b != [] {
      assert b[0] in a;
      FirstsAgree(a, b, key);
      TailHas(a, b, key);
      TailHas(b, a, key);
      OrderedIsUnique(a[1..], b[1..], key);
      assert a == [a[0]] + a[1..] && b == [b[0]] + b[1..];
    }
  }

  lemma FirstsAgree<T>(a: seq<T>, b: seq<T>, key: T -> string)
    requires a != [] && b != [] && Ordered(a, key) && Ordered(b, key) && a[0] in b && b[0] in a
    ensures a[0] == b[0]
  {
    var i :| 0 <= i < |b| && b[i] == a[0];
    var j :| 0 <= j < |a| && a[j] == b[0];
    LessIsTotal(key(a[0]), key(b[0]));
  }

  lemma TailHas<T>(a: seq<T>, b: seq<T>, key: T -> string)
    requires a != [] && b != [] && a[0] == b[0] && Ordered(a, key) && forall x :: x in a ==> x in b
    ensures forall x :: x in a[1..] ==> x in b[1..]
  {
    forall x | x in a[1..] ensures x in b[1..] {
      var i :| 0 <= i < |a[1..]| && a[1..][i] == x;
      assert a[i + 1] == x && x in b;
      LessIsTotal(key(a[0]), key(x));
      var j :| 0 <= j < |b| && b[j] == x;
      assert b[1..][j - 1] == x;
    }
  }

  lemma AddrKeyIsInjective(x: Addr, y: Addr)
    requires AddrKey(x) == AddrKey(y)
    ensures x == y
  {
    assert AddrKey(x)[0] == AddrKey(y)[0] && AddrKey(x)[1..] == x.b && AddrKey(y)[1..] == y.b;
  }

  // ----- Certificates -----

  /** What a certificate covers, as bytes and text. */
  datatype Certificate = Certificate(ips: seq<string>, names: seq<string>)

  function Bytes(ips: seq<Addr>): (r: seq<string>)
    ensures |r| == |ips|
  {
    seq(|ips|, i requires 0 <= i < |ips| => ips[i].b)
  }

  /** What issue puts into the certificate for a name. */
  function Issue(codec: AddrCodec, key: string): Certificate {
    Certificate(Bytes(IpsOf(codec, Split(key, ','))), HostsOf(codec, Split(key, ',')))
  }

  function AddrsOf(ips: seq<string>): seq<Addr> {
    if ips == [] then []
    else
      var a := FromSlice(ips[0]);
      (if a.Some? then [Unmap(a.value)] else []) + AddrsOf(ips[1..])
  }

  function LeafKey(codec: AddrCodec, c: Certificate): string { SanKey(codec, AddrsOf(c.ips), c.names) }

  lemma {:induction false} AddrsOfBytes(ips: seq<Addr>)
    requires forall i :: 0 <= i < |ips| ==> IsAddr(ips[i])
    ensures AddrsOf(Bytes(ips)) == ips
    decreases |ips|
  {
    if ips != [] {
      AddrsOfBytes(ips[1..]);
      assert Bytes(ips)[1..] == Bytes(ips[1..]);
      assert ips == [ips[0]] + ips[1..];
    }
  }

  /** The certificate issued for a name is kept under that name. */
  lemma LeafKeyOfIssued(codec: AddrCodec, key: string, ips: seq<Addr>, hosts: seq<string>)
    requires Good(codec) && IsName(codec, key, ips, hosts)
    ensures LeafKey(codec, Issue(codec, key)) == key
  {
    SplitOfKey(codec, ips, hosts);
    AddrsOfBytes(ips);
  }

  // ----- Folders and back -----

  function Dashed(parts: seq<string>): (r: seq<string>)
    ensures |r| == |parts|
  {
    seq(|parts|, i requires 0 <= i < |parts| => Replace(parts[i], ':', '-'))
  }

  lemma FolderTextJoined(a: string, b: string)
    ensures FolderText(a + b) == FolderText(a) + FolderText(b)
  {
  }

  lemma FolderTextOfPart(p: string)
    requires ',' !in p
    ensures FolderText(p) == Replace(p, ':', '-') && FolderText(",") == "+"
  {
    assert Replace(p, ',', '+') == p;
  }

  lemma {:induction false} FolderWords(parts: seq<string>)
    requires parts != [] && forall i :: 0 <= i < |parts| ==> ',' !in parts[i]
    ensures FolderText(Words(parts, ',')) == Words(Dashed(parts), '+')
    decreases |parts|
  {
    FolderTextOfPart(parts[0]);
    if |parts| > 1 {
      FolderWords(parts[1..]);
      assert Dashed(parts)[1..] == Dashed(parts[1..]);
      FolderTextJoined(parts[0] + ",", Words(parts[1..], ','));
      FolderTextJoined(parts[0], ",");
    }
  }

  lemma PartComesBack(p: string)
    requires PartText(p)
    ensures PartOf(Replace(p, ':', '-')) == p && '+' !in Replace(p, ':', '-')
  {
    var d := Replace(p, ':', '-');
    if '.' in p {
      assert d == p;
    } else {
      assert Replace(d, '-', ':') == p;
    }
  }

  /** The parts of a folder's name are those of the certificate's name. */
  lemma FolderParts(parts: seq<string>)
    requires parts != [] && forall i :: 0 <= i < |parts| ==> PartText(parts[i])
    ensures PartsOf(Split(FolderText(Words(parts, ',')), '+')) == parts
  {
    FolderWords(parts);
    forall i | 0 <= i < |parts| ensures '+' !in Dashed(parts)[i] && PartOf(Dashed(parts)[i]) == parts[i] {
      PartComesBack(parts[i]);
    }
    SplitOfWords(Dashed(parts), '+');
  }

  /** A name with an address is no host name. */
  lemma AddressNameIsNoHost(codec: AddrCodec, ips: seq<Addr>, hosts: seq<string>)
    requires Good(codec) && Sorted(codec, ips, hosts) && ips != []
    ensures !IsHostName(codec, Words(Parts(codec, ips, hosts), ','))
  {
    var parts := Parts(codec, ips, hosts);
    if |parts| == 1 {
      PartsMeaning(codec, ips, hosts, 0);
    } else {
      assert ',' in Words(parts, ',');
    }
  }

  lemma UnderscoreIsNoHost(codec: AddrCodec, s: string)
    ensures !IsHostName(codec, "ip_" + s)
  {
    assert ("ip_" + s)[2] == '_';
  }

  lemma WordsNotEmpty(parts: seq<string>)
    requires parts != [] && parts[0] != ""
    ensures Words(parts, ',') != ""
  {
  }

  /** Reading back the folder of a certificate gives its name. */
  lemma FolderReadsBack(codec: AddrCodec, key: string, ips: seq<Addr>, hosts: seq<string>)
    requires Good(codec) && IsName(codec, key, ips, hosts)
    ensures NameOf(codec, LocalCAFolder(codec, key)) == Some(key)
  {
    KeyOfSorted(codec, ips, hosts);
    var parts := Parts(codec, ips, hosts);
    if ips == [] {
      assert parts == hosts && key == hosts[0];
    } else {
      var folder := LocalCAFolder(codec, key);
      AddressNameIsNoHost(codec, ips, hosts);
      forall i | 0 <= i < |parts| ensures PartText(parts[i]) {
        PartsMeaning(codec, ips, hosts, i);
      }
      FolderParts(parts);
      PartsRead(codec, ips, hosts);
      UnderscoreIsNoHost(codec, FolderText(key));
      WordsNotEmpty(parts);
      assert folder[..3] == "ip_" && folder[3..] == FolderText(key);
    }
  }

  /** Only the folder of a name is read: of one host name, or of addresses with or without host names. */
  lemma OnlyFoldersAreRead(codec: AddrCodec, folder: string, key: string)
    requires NameOf(codec, folder) == Some(key)
    ensures LocalCAFolder(codec, key) == folder
    ensures (key == folder && IsHostName(codec, key)) ||
      exists ips, hosts :: ips != [] && key == SanKey(codec, ips, hosts) && forall h :: h in hosts ==> IsHostName(codec, h)
  {
    if !IsHostName(codec, folder) {
      var parts := PartsOf(Split(folder[3..], '+'));
      HostsAreChecked(codec, parts);
      assert key == SanKey(codec, IpsOf(codec, parts), HostsOf(codec, parts));
    }
  }

  lemma {:induction false} HostsAreChecked(codec: AddrCodec, parts: seq<string>)
    requires AllOk(codec, parts)
    ensures forall h :: h in HostsOf(codec, parts) ==> IsHostName(codec, h)
    decreases |parts|
  {
    if parts != [] {
      var last := |parts| - 1;
      assert PartOk(codec, parts[last]);
      HostsAreChecked(codec, parts[..last]);
    }
  }

  /** Certificates with different names are kept in different folders. */
  lemma FoldersAreDistinct(
      codec: AddrCodec, key1: string, ips1: seq<Addr>, hosts1: seq<string>, key2: string, ips2: seq<Addr>, hosts2: seq<string>)
    requires Good(codec) && IsName(codec, key1, ips1, hosts1) && IsName(codec, key2, ips2, hosts2)
    ensures LocalCAFolder(codec, key1) == LocalCAFolder(codec, key2) ==> key1 == key2
  {
    FolderReadsBack(codec, key1, ips1, hosts1);
    FolderReadsBack(codec, key2, ips2, hosts2);
  }

  // ----- The CA's own files -----

  const CONFIG := "config.yaml"

  const CONFIG_TMP := "config.yaml.tmp"

  const CONFIG_OLD := "config.toml"

  /** What lies in a CA's own folder, or is looked for there, beside the folders of its certificates. */
  const OWN_NAMES := ["ca_cert.pem", "ca_cert.pem.tmp", "ca_key.pem", "_archive", CONFIG, CONFIG_TMP, CONFIG_OLD]

  /**
   A file whose name does not start with ip_ is in the way of the certificate for one name at most: for the
   host name that it is, if it is one.
   */
  lemma FileClashes(codec: AddrCodec, key: string, own: string)
    requires !("ip_" <= own)
    ensures LocalCAFolder(codec, key) == own <==> key == own && IsHostName(codec, own)
  {
    assert "ip_" <= "ip_" + FolderText(key);
  }

  /** Of the CA's own names three are host names; an underscore keeps the others from being one. */
  lemma OwnHostNames(codec: Codec, own: string)
    requires own in OWN_NAMES
    ensures IsHostName(Standard(codec), own) <==> own in {CONFIG, CONFIG_TMP, CONFIG_OLD}
  {
    if own in {CONFIG, CONFIG_TMP, CONFIG_OLD} {
      ConfigsAreDomains();
      ConfigIsNoAddress(codec, own, own[7..]);
    } else {
      UnderscoreIsNoDomain(own, if own[0] == '_' then 0 else 2);
    }
  }

  lemma UnderscoreIsNoDomain(s: string, i: nat)
    requires i < |s| && s[i] == '_'
    ensures !ValidDomain(s)
  {
  }

  lemma ConfigsAreDomains()
    ensures ValidDomain(CONFIG) && ValidDomain(CONFIG_TMP) && ValidDomain(CONFIG_OLD)
  {
    assert CONFIG[6] == '.' && CONFIG_TMP[6] == '.' && CONFIG_OLD[6] == '.';
  }

  /**
   Exactly these clashes are possible: with the settings file, the file it is written to before it is
   renamed, and the settings file of older versions, each for the host name of the same spelling.
   */
  lemma OwnNamesClash(codec: Codec, key: string, own: string)
    requires own in OWN_NAMES
    ensures LocalCAFolder(Standard(codec), key) == own <==> key == own && own in {CONFIG, CONFIG_TMP, CONFIG_OLD}
  {
    assert own[0] != "ip_"[0];
    FileClashes(Standard(codec), key, own);
    OwnHostNames(codec, own);
  }

  /** Each of the three is a real clash: a host name, and the folder of its certificate. */
  lemma ConfigIsAHostName(codec: Codec, own: string)
    requires own in {CONFIG, CONFIG_TMP, CONFIG_OLD}
    ensures IsHostName(Standard(codec), own) && LocalCAFolder(Standard(codec), own) == own
  {
    assert OWN_NAMES[4] == CONFIG && OWN_NAMES[5] == CONFIG_TMP && OWN_NAMES[6] == CONFIG_OLD;
    OwnHostNames(codec, own);
  }

  /** What starts with a word that is no number is no address. */
  lemma ConfigIsNoAddress(codec: Codec, s: string, rest: string)
    requires |s| >= 7 && s[..7] == "config." && rest == s[7..]
    ensures ParseAddr(codec, s) == None
  {
    var a := s[..6];
    assert a == "config" && s == a + ['.'] + rest;
    WordIsNoAddress(codec, a, rest);
  }

  lemma WordIsNoAddress(codec: Codec, a: string, rest: string)
    requires '.' !in a && ':' !in a && '%' !in a && a != "" && !('0' <= a[|a| - 1] <= '9')
    ensures ParseAddr(codec, a + ['.'] + rest) == None
  {
    SplitOfWord(a, rest, '.');
    NoMarkFirst(a, ['.'] + rest);
    assert a + (['.'] + rest) == a + ['.'] + rest;
  }

  lemma {:induction false} NoMarkFirst(a: string, b: string)
    requires '.' !in a && ':' !in a && '%' !in a
    ensures FirstMark(a + b) == FirstMark(b)
    decreases |a|
  {
    if a == "" {
      assert a + b == b;
    } else {
      assert (a + b)[1..] == a[1..] + b;
      NoMarkFirst(a[1..], b);
    }
  }
}
