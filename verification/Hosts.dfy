/** Tables from host patterns to values (hosts.go). */
module Hosts {
  import opened Wrappers

  // ----- Names -----

  predicate IsWildcard(pattern: string) {
    "*." <= pattern
  }

  /** The part of `s` before the first dot; all of `s` when there is none. */
  function Label(s: string): (first: string)
    ensures first <= s && '.' !in first
    ensures |first| < |s| ==> s[|first|] == '.'
  {
    if s == "" || s[0] == '.' then "" else [s[0]] + Label(s[1..])
  }

  predicate HasDot(s: string) {
    |Label(s)| < |s|
  }

  function Parent(s: string): string
    requires HasDot(s)
  {
    s[|Label(s)| + 1..]
  }

  lemma {:induction false} LabelOf(first: string, parent: string)
    requires '.' !in first
    ensures Label(first + "." + parent) == first && HasDot(first + "." + parent)
    ensures Parent(first + "." + parent) == parent
  {
    var s := first + "." + parent;
    if first != "" {
      assert s[1..] == first[1..] + "." + parent;
      LabelOf(first[1..], parent);
    }
  }

  /** ASCII only: trim spaces, lower-case, drop one trailing dot. */
  function NormalizeHost(host: string): string {
    var lower := Lower(TrimRight(TrimLeft(host)));
    if lower != "" && lower[|lower| - 1] == '.' then lower[..|lower| - 1] else lower
  }

  predicate IsSpace(c: char) {
    c == ' ' || '\t' <= c <= '\r'
  }

  function TrimLeft(s: string): string {
    if s != "" && IsSpace(s[0]) then TrimLeft(s[1..]) else s
  }

  function TrimRight(s: string): string {
    if s != "" && IsSpace(s[|s| - 1]) then TrimRight(s[..|s| - 1]) else s
  }

  function Lower(s: string): string {
    if s == "" then ""
    else [if 'A' <= s[0] <= 'Z' then s[0] - 'A' + 'a' else s[0]] + Lower(s[1..])
  }

  /** What normalizing ignores: case, spaces around the name, and one dot at the end. */
  lemma NormalizeIgnores(a: string, b: string)
    ensures Lower(a) == Lower(b) ==> NormalizeHost(a) == NormalizeHost(b)
    ensures a != "" && IsSpace(a[0]) ==> NormalizeHost(a) == NormalizeHost(a[1..])
    ensures a != "" && IsSpace(a[|a| - 1]) ==> NormalizeHost(a) == NormalizeHost(a[..|a| - 1])
  {
    hide Lower, TrimLeft, TrimRight, IsSpace;
    LowerTrims(a);
    LowerTrims(b);
    if a != "" && IsSpace(a[0]) {
      TrimFirst(a);
    }
    if a != "" && IsSpace(a[|a| - 1]) {
      TrimLast(a);
    }
  }

  lemma TrimFirst(a: string)
    requires a != "" && IsSpace(a[0])
    ensures TrimLeft(a) == TrimLeft(a[1..])
  {
  }

  /** A name in lower case without spaces around it only loses a dot at the end. */
  lemma NormalName(a: string)
    requires a != "" && !IsSpace(a[0]) && !IsSpace(a[|a| - 1]) && forall c | c in a :: !('A' <= c <= 'Z')
    ensures NormalizeHost(a) == if a[|a| - 1] == '.' then a[..|a| - 1] else a
  {
    LowerAt(a);
    assert forall i | 0 <= i < |a| :: a[i] in a;
    assert Lower(a) == a;
  }

  lemma {:induction false} LowerAt(a: string)
    ensures |Lower(a)| == |a|
    ensures forall i | 0 <= i < |a| :: Lower(a)[i] == if 'A' <= a[i] <= 'Z' then a[i] - 'A' + 'a' else a[i]
  {
    if a != "" {
      LowerAt(a[1..]);
    }
  }

  lemma LowerTrims(a: string)
    ensures Lower(TrimRight(TrimLeft(a))) == TrimRight(TrimLeft(Lower(a)))
  {
    LowerTrimsLeft(a);
    LowerTrimsRight(TrimLeft(a));
  }

  lemma {:induction false} LowerTrimsLeft(a: string)
    ensures Lower(TrimLeft(a)) == TrimLeft(Lower(a))
  {
    if a != "" {
      LowerTrimsLeft(a[1..]);
    }
  }

  lemma {:induction false} LowerTrimsRight(a: string)
    ensures Lower(TrimRight(a)) == TrimRight(Lower(a))
  {
    LowerAt(a);
    if a != "" {
      var n := |a| - 1;
      LowerTrimsRight(a[..n]);
      LowerAt(a[..n]);
      assert Lower(a)[..n] == Lower(a[..n]);
    }
  }

  lemma {:induction false} TrimLast(a: string)
    requires a != "" && IsSpace(a[|a| - 1])
    ensures TrimRight(TrimLeft(a)) == TrimRight(TrimLeft(a[..|a| - 1]))
  {
    if IsSpace(a[0]) {
      if |a| > 1 {
        assert a[1..][..|a| - 2] == a[..|a| - 1][1..];
        TrimLast(a[1..]);
      }
    }
  }

  /** validateHostPattern; `isIP` stands for netip.ParseAddr succeeding. */
  predicate ValidPattern(pattern: string, isIP: string -> bool) {
    pattern != "" &&
    (isIP(pattern) || pattern == "*" ||
     (var name := if IsWildcard(pattern) then pattern[2..] else pattern;
      name != "" && forall c | c in name :: !Special(c)))
  }

  predicate Special(c: char) {
    c == '*' || c in "/:@ \t\r\n"
  }

  /** Which patterns are valid, besides IP addresses: `*`, and names without special characters, perhaps after `*.`. */
  lemma ValidPatternIff(name: string, isIP: string -> bool)
    requires !isIP(name) && !isIP("*." + name)
    ensures
      var plain :=
        name != "" && forall i | 0 <= i < |name| ::
          name[i] !in {'*', '/', ':', '@', ' ', '\t', '\r', '\n'};
      && (ValidPattern("*." + name, isIP) <==> plain)
      && (!IsWildcard(name) ==> (ValidPattern(name, isIP) <==> name == "*" || plain))
  {
    var wild := "*." + name;
    assert IsWildcard(wild) && wild[2..] == name && |wild| >= 2;
    forall c: char
      ensures Special(c) <==> c in {'*', '/', ':', '@', ' ', '\t', '\r', '\n'}
    {
      SpecialIff(c);
    }
    hide Special;
    assert (forall c | c in wild[2..] :: !Special(c)) <==> forall i | 0 <= i < |name| :: !Special(name[i]);
    assert ValidPattern(wild, isIP) <==> name != "" && forall c | c in wild[2..] :: !Special(c);
  }

  lemma SpecialIff(c: char)
    ensures Special(c) <==> c in {'*', '/', ':', '@', ' ', '\t', '\r', '\n'}
  {
    var s := "/:@ \t\r\n";
    assert s[0] == '/' && s[1] == ':' && s[2] == '@' && s[3] == ' ' && s[4] == '\t' && s[5] == '\r' && s[6] == '\n';
  }

  // ----- Tables -----

  /** What a table holds; snapshots keep this once a table is complete. */
  datatype Table<T> = Table(exact: map<string, T>, wildcard: map<string, T>, fallback: Option<T>)

  function Lookup<T>(m: map<string, T>, key: string): Option<T> {
    if key in m then Some(m[key]) else None
  }

  function Get<T>(t: Table<T>, pattern: string): Option<T> {
    if pattern == "*" then t.fallback
    else if IsWildcard(pattern) then Lookup(t.wildcard, pattern[2..])
    else Lookup(t.exact, pattern)
  }

  function Updated<T>(t: Table<T>, pattern: string, value: T): Table<T> {
    if pattern == "*" then t.(fallback := Some(value))
    else if IsWildcard(pattern) then t.(wildcard := t.wildcard[pattern[2..] := value])
    else t.(exact := t.exact[pattern := value])
  }

  /** Only names go into the exact map. */
  predicate WellFormed<T>(t: Table<T>) {
    forall p | p in t.exact :: p != "*" && !IsWildcard(p)
  }

  function Match<T>(t: Table<T>, host: string): Option<T> {
    if host in t.exact then Some(t.exact[host])
    else if HasDot(host) && Label(host) != "" && Parent(host) in t.wildcard then Some(t.wildcard[Parent(host)])
    else t.fallback
  }

  class HostTable<T> {
    var exact: map<string, T>
    var wildcard: map<string, T>
    var fallback: Option<T>

    constructor ()
      ensures Data() == Table(map[], map[], None)
    {
      exact, wildcard, fallback := map[], map[], None;
    }

    function Data(): Table<T>
      reads this
    {
      Table(exact, wildcard, fallback)
    }

    method Set(pattern: string, value: T) returns (replaced: bool)
      modifies this
      ensures Data() == Updated(old(Data()), pattern, value)
      ensures old(WellFormed(Data())) ==> WellFormed(Data())
      ensures forall q :: Get(Data(), q) == if q == pattern then Some(value) else Get(old(Data()), q)
      ensures replaced == Get(old(Data()), pattern).Some?
    {
      ghost var before := Data();
      if pattern == "*" {
        replaced := fallback.Some?;
        fallback := Some(value);
      } else if IsWildcard(pattern) {
        replaced := pattern[2..] in wildcard;
        wildcard := wildcard[pattern[2..] := value];
      } else {
        replaced := pattern in exact;
        exact := exact[pattern := value];
      }
      UpdatedGet(before, pattern, value);
    }

    method Find(host: string) returns (value: Option<T>)
      requires WellFormed(Data())
      ensures value == FirstOf(Data(), Candidates(host))
    {
      MatchIsFirstCandidate(Data(), host);
      if host in exact {
        return Some(exact[host]);
      }
      if HasDot(host) && Label(host) != "" {
        var parent := Parent(host);
        if parent in wildcard {
          return Some(wildcard[parent]);
        }
      }
      return fallback;
    }
  }

  /** The laws of a map from patterns to values. */
  lemma UpdatedGet<T>(t: Table<T>, p: string, value: T)
    ensures forall q :: Get(Updated(t, p, value), q) == if q == p then Some(value) else Get(t, q)
    ensures WellFormed(t) ==> WellFormed(Updated(t, p, value))
  {
    forall q
      ensures Get(Updated(t, p, value), q) == if q == p then Some(value) else Get(t, q)
    {
      if IsWildcard(p) && IsWildcard(q) && p[2..] == q[2..] {
        assert p == p[..2] + p[2..] && q == q[..2] + q[2..];
      }
    }
  }

  // ----- Matching -----

  /** The patterns that may serve a host, most specific first. */
  function Candidates(host: string): seq<string> {
    [host] + (if HasDot(host) && Label(host) != "" then ["*." + Parent(host)] else []) + ["*"]
  }

  function FirstOf<T>(t: Table<T>, patterns: seq<string>): Option<T> {
    if patterns == [] then None
    else if Get(t, patterns[0]).Some? then Get(t, patterns[0])
    else FirstOf(t, patterns[1..])
  }

  /** Main result: a match is the entry of the most specific pattern in the table. */
  lemma MatchIsFirstCandidate<T>(t: Table<T>, host: string)
    requires WellFormed(t)
    ensures Match(t, host) == FirstOf(t, Candidates(host))
  {
    var named := HasDot(host) && Label(host) != "";
    var last := ["*"];
    assert last[1..] == [];
    assert FirstOf(t, last) == t.fallback;
    if IsWildcard(host) {
      assert host == "*" + "." + host[2..];
      LabelOf("*", host[2..]);
    }
    if named {
      var wild := "*." + Parent(host);
      assert wild[2..] == Parent(host);
      assert Candidates(host)[1..] == [wild] + last && ([wild] + last)[1..] == last;
    } else {
      assert Candidates(host)[1..] == last;
    }
  }

  /** Where FirstOf stops: at an entry, with nothing before it, or at the end. */
  lemma {:induction false} FirstEntry<T>(t: Table<T>, patterns: seq<string>) returns (k: nat)
    ensures k <= |patterns| && forall j | 0 <= j < k :: Get(t, patterns[j]).None?
    ensures FirstOf(t, patterns) == if k < |patterns| then Get(t, patterns[k]) else None
    ensures k < |patterns| ==> Get(t, patterns[k]).Some?
  {
    if patterns == [] || Get(t, patterns[0]).Some? {
      k := 0;
    } else {
      var n := FirstEntry(t, patterns[1..]);
      k := n + 1;
    }
  }

  /**
   Matching in plain terms: an exact entry, else the wildcard of what follows a non-empty first label, else the
   fallback. The patterns asked for are the host, that wildcard, and `*`.
   */
  lemma MatchMeans<T>(t: Table<T>, first: string, parent: string)
    requires '.' !in first
    ensures
      var host := first + "." + parent;
      && Candidates(host) == (if first != "" then [host, "*." + parent, "*"] else [host, "*"])
      && Match(t, host) == if host in t.exact then Some(t.exact[host])
                           else if first != "" && parent in t.wildcard then Some(t.wildcard[parent])
                           else t.fallback
    ensures Candidates(first) == [first, "*"]
    ensures Match(t, first) == if first in t.exact then Some(t.exact[first]) else t.fallback
  {
    LabelOf(first, parent);
    NoDot(first);
  }

  lemma {:induction false} NoDot(s: string)
    requires '.' !in s
    ensures !HasDot(s)
  {
    if s != "" {
      NoDot(s[1..]);
    }
  }

  /** `host` is one of the names a pattern other than `*` stands for. */
  predicate Names(pattern: string, host: string) {
    host == pattern || (IsWildcard(pattern) && HasDot(host) && Label(host) != "" && Parent(host) == pattern[2..])
  }

  /** What matches a pattern also matches each of its names. */
  lemma NamesMatch<T>(t: Table<T>, pattern: string, host: string)
    requires WellFormed(t) && Names(pattern, host)
    ensures Match(t, pattern).Some? ==> Match(t, host).Some?
  {
    if IsWildcard(pattern) {
      assert pattern == "*" + "." + pattern[2..];
      LabelOf("*", pattern[2..]);
    }
  }
}
