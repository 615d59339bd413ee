/**
 Removing a path prefix from a URL that is held in two encodings at once
 (proxy.go). Go strings are byte strings: a `char` here is one byte.
 */
module Paths {
  import opened Wrappers

  // ----- Percent encoding (RFC 3986, section 2.1), as net/url reads a path -----

  predicate IsHex(c: char) {
    '0' <= c <= '9' || 'a' <= c <= 'f' || 'A' <= c <= 'F'
  }

  function HexValue(c: char): (v: int)
    requires IsHex(c)
    ensures 0 <= v < 16
  {
    if '0' <= c <= '9' then c as int - '0' as int
    else if 'a' <= c <= 'f' then c as int - 'a' as int + 10
    else c as int - 'A' as int + 10
  }

  predicate IsEscape(s: string) {
    |s| >= 3 && s[0] == '%' && IsHex(s[1]) && IsHex(s[2])
  }

  function EscapedByte(s: string): char
    requires IsEscape(s)
  {
    (16 * HexValue(s[1]) + HexValue(s[2])) as char
  }

  /** The bytes that `s` stands for, or None when an escape is malformed. */
  function PercentDecode(s: string): Option<string>
  {
    if s == "" then Some("")
    else if s[0] != '%' then
      match PercentDecode(s[1..]) { case Some(t) => Some([s[0]] + t) case None => None }
    else if IsEscape(s) then
      match PercentDecode(s[3..]) { case Some(t) => Some([EscapedByte(s)] + t) case None => None }
    else None
  }

  function HexDigit(v: int, upper: bool): char
    requires 0 <= v < 16
  {
    if v < 10 then '0' + v as char else if upper then 'A' + (v - 10) as char else 'a' + (v - 10) as char
  }

  /** The escape of a byte, in digits of either case, decodes to it. */
  lemma EscapeDecodes(c: char, upper: bool)
    requires c as int < 256
    ensures PercentDecode(['%', HexDigit(c as int / 16, upper), HexDigit(c as int % 16, upper)]) == Some([c])
  {
    var s := ['%', HexDigit(c as int / 16, upper), HexDigit(c as int % 16, upper)];
    assert IsEscape(s) && EscapedByte(s) == c;
    assert s[3..] == "" && PercentDecode(s[3..]) == Some("");
    assert [c] + "" == [c];
  }

  // ----- The two path fields of a URL -----

  datatype Location = Location(path: string, rawPath: string)

  /** What net/url maintains: RawPath is empty, or it is an encoding of Path. */
  predicate InStep(u: Location) {
    u.rawPath == "" || PercentDecode(u.rawPath) == Some(u.path)
  }

  predicate AtSegment(rest: string) {
    rest == "" || rest[0] == '/'
  }

  predicate HasSegmentPrefix(path: string, prefix: string) {
    prefix <= path && AtSegment(path[|prefix|..])
  }

  function OrRoot(rest: string): string {
    if rest == "" then "/" else rest
  }

  function CutPathPrefix(path: string, prefix: string): (string, bool) {
    if HasSegmentPrefix(path, prefix) then (OrRoot(path[|prefix|..]), true) else (path, false)
  }

  function TrimSlash(prefix: string): string {
    if prefix != "" && prefix[|prefix| - 1] == '/' then prefix[..|prefix| - 1] else prefix
  }

  function Stripped(u: Location, prefix: string): Location {
    var p := TrimSlash(prefix);
    var (path, ok) := CutPathPrefix(u.path, p);
    if !ok then u
    else if u.rawPath == "" then Location(path, "")
    else
      var (raw, ok) := CutPathPrefix(u.rawPath, p);
      Location(path, if ok then raw else "")
  }

  class Url {
    var path: string
    var rawPath: string

    constructor (path: string, rawPath: string)
      ensures View() == Location(path, rawPath)
    {
      this.path, this.rawPath := path, rawPath;
    }

    ghost function View(): Location
      reads this
    {
      Location(path, rawPath)
    }

    method StripPathPrefix(prefix: string)
      modifies this
      ensures View() == Stripped(old(View()), prefix)
      ensures old(InStep(View())) ==> InStep(View())
    {
      ghost var before := View();
      var trimmed := TrimSlash(prefix);
      var (rest, ok) := CutPathPrefix(path, trimmed);
      if !ok {
        return;
      }
      path := rest;
      if rawPath != "" {
        var (raw, rawOk) := CutPathPrefix(rawPath, trimmed);
        rawPath := if rawOk then raw else "";
      }
      if InStep(before) {
        StripKeepsInStep(before, prefix);
      }
    }
  }

  // ----- Splitting an encoded path -----

  /** One step of decoding: a literal byte, or an escape. */
  lemma DecodeStep(s: string, rest: string, decodedRest: string, decoded: string)
    requires s != "" && (s[0] == '%' ==> IsEscape(s))
    requires s[if s[0] == '%' then 3 else 1..] == rest && PercentDecode(rest) == Some(decodedRest)
    requires decoded == [if s[0] == '%' then EscapedByte(s) else s[0]] + decodedRest
    ensures PercentDecode(s) == Some(decoded)
  {
  }

  /** Decoding the first byte or escape, and the rest by itself. */
  lemma DecodeHead(s: string) returns (c: char, n: nat)
    requires s != "" && PercentDecode(s).Some?
    ensures 0 < n <= |s| && PercentDecode(s[n..]).Some? && PercentDecode(s).value == [c] + PercentDecode(s[n..]).value
    ensures n == (if s[0] == '%' then 3 else 1) && (s[0] == '%' ==> IsEscape(s))
    ensures c == if s[0] == '%' then EscapedByte(s) else s[0]
  {
    n := if s[0] == '%' then 3 else 1;
    c := if s[0] == '%' then EscapedByte(s) else s[0];
  }

  /** The same with more behind it. */
  lemma DecodeHeadOf(a: string, b: string, c: char, n: nat)
    requires a != "" && n == (if a[0] == '%' then 3 else 1) && (a[0] == '%' ==> IsEscape(a))
    requires c == if a[0] == '%' then EscapedByte(a) else a[0]
    ensures PercentDecode(a + b) ==
            match PercentDecode(a[n..] + b) { case Some(t) => Some([c] + t) case None => None }
  {
    var s := a + b;
    assert s[0] == a[0] && (n == 3 ==> s[1] == a[1] && s[2] == a[2]);
    assert s[n..] == a[n..] + b;
  }

  lemma {:induction false} DecodeAppend(a: string, b: string)
    requires PercentDecode(a).Some?
    ensures PercentDecode(a + b) ==
            match PercentDecode(b) { case Some(t) => Some(PercentDecode(a).value + t) case None => None }
  {
    if a == "" {
      assert a + b == b;
      if PercentDecode(b).Some? { assert "" + PercentDecode(b).value == PercentDecode(b).value; }
    } else {
      hide PercentDecode;
      var c, n := DecodeHead(a);
      DecodeHeadOf(a, b, c, n);
      DecodeAppend(a[n..], b);
      if PercentDecode(b).Some? {
        var t, u := PercentDecode(a[n..]).value, PercentDecode(b).value;
        assert [c] + (t + u) == ([c] + t) + u;
      }
    }
  }

  /** A cut just before a slash, or at the end, never falls inside an escape. */
  lemma {:induction false} CutIsBetweenEscapes(a: string, b: string)
    requires PercentDecode(a + b).Some? && AtSegment(b)
    ensures PercentDecode(a).Some?
  {
    if a != "" {
      assert (a + b)[0] == a[0];
      if a[0] == '%' {
        assert IsEscape(a + b);
        assert b != "" ==> (a + b)[|a|] == '/';
        assert |a| >= 3;
        assert (a + b)[1] == a[1] && (a + b)[2] == a[2];
        assert (a + b)[3..] == a[3..] + b;
        CutIsBetweenEscapes(a[3..], b);
      } else {
        assert (a + b)[1..] == a[1..] + b;
        CutIsBetweenEscapes(a[1..], b);
      }
    }
  }

  function Slashes(s: string): nat {
    if s == "" then 0 else (if s[0] == '/' then 1 else 0) + Slashes(s[1..])
  }

  lemma {:induction false} SlashesAppend(a: string, b: string)
    ensures Slashes(a + b) == Slashes(a) + Slashes(b)
  {
    if a == "" {
      assert a + b == b;
    } else {
      assert (a + b)[1..] == a[1..] + b;
      SlashesAppend(a[1..], b);
    }
  }

  lemma {:induction false} SkipEscape(s: string)
    requires IsEscape(s)
    ensures Slashes(s) == Slashes(s[3..])
  {
    assert s[1..][1..] == s[2..] && s[2..][1..] == s[3..];
    assert Slashes(s[1..]) == Slashes(s[2..]) == Slashes(s[3..]);
  }

  /** Decoding never lengthens a string and never loses a literal slash. */
  lemma {:induction false} DecodeShortens(s: string)
    requires PercentDecode(s).Some?
    ensures |PercentDecode(s).value| <= |s|
    ensures Slashes(s) <= Slashes(PercentDecode(s).value)
  {
    if s != "" {
      if s[0] == '%' {
        DecodeShortens(s[3..]);
        SkipEscape(s);
        assert PercentDecode(s).value[1..] == PercentDecode(s[3..]).value;
      } else {
        DecodeShortens(s[1..]);
        assert PercentDecode(s).value[1..] == PercentDecode(s[1..]).value;
      }
    }
  }

  /**
   When a prefix is cut from both encodings at a segment boundary, the two
   remainders still agree - also when the prefix contains escapes of its own.
   If decoding changed the prefix, a slash of it would be counted twice.
   */
  lemma {:induction false} RemaindersAgree(prefix: string, raw: string, rest: string)
    requires PercentDecode(prefix + raw) == Some(prefix + rest)
    requires AtSegment(raw) && AtSegment(rest)
    ensures PercentDecode(raw) == Some(rest)
  {
    CutIsBetweenEscapes(prefix, raw);
    DecodeAppend(prefix, raw);
    DecodeShortens(prefix);
    var d, t := PercentDecode(prefix).value, PercentDecode(raw).value;
    var x := prefix[|d|..];
    assert d + t == prefix + rest;
    assert d == (d + t)[..|d|] == prefix[..|d|];
    assert prefix == d + x;
    assert t == (d + t)[|d|..] == x + rest;
    if x != "" {
      assert raw != "" && raw[0] == '/' && t[0] == '/';
      assert x[0] == '/';
      SlashesAppend(d, x);
      assert false;
    }
  }

  /** Main result: for every prefix, stripping keeps the two encodings in step. */
  lemma StripKeepsInStep(u: Location, prefix: string)
    requires InStep(u)
    ensures InStep(Stripped(u, prefix))
  {
    var p := TrimSlash(prefix);
    if HasSegmentPrefix(u.path, p) && u.rawPath != "" && HasSegmentPrefix(u.rawPath, p) {
      var raw, rest := u.rawPath[|p|..], u.path[|p|..];
      assert u.rawPath == p + raw && u.path == p + rest;
      RemaindersAgree(p, raw, rest);
      DecodeStep("/", "", "", "/");
    }
  }

  // ----- Stripping removes whole segments -----

  function Split(path: string): (segments: seq<string>)
    ensures segments != []
  {
    if path == "" then [""]
    else
      var rest := Split(path[1..]);
      if path[0] == '/' then [""] + rest else [[path[0]] + rest[0]] + rest[1..]
  }

  /** Splitting off the first character. */
  lemma SplitFirst(c: char, path: string)
    ensures Split([c] + path) ==
            if c == '/' then [""] + Split(path) else [[c] + Split(path)[0]] + Split(path)[1..]
  {
    assert ([c] + path)[1..] == path;
  }

  lemma {:induction false} SplitAppend(a: string, b: string)
    ensures Split(a + "/" + b) == Split(a) + Split(b)
  {
    if a == "" {
      assert a + "/" + b == ['/'] + b && Split("") == [""];
      SplitFirst('/', b);
    } else {
      hide Split;
      var c, rest := a[0], a[1..];
      assert a == [c] + rest && a + "/" + b == [c] + (rest + "/" + b);
      SplitFirst(c, rest);
      SplitFirst(c, rest + "/" + b);
      SplitAppend(rest, b);
    }
  }

  lemma {:induction false} SplitInjective(a: string, b: string)
    requires Split(a) == Split(b)
    ensures a == b
  {
    if a == "" || b == "" {
      SplitOfEmpty(a);
      SplitOfEmpty(b);
    } else {
      var sa, sb := Split(a[1..]), Split(b[1..]);
      if a[0] == '/' {
        assert Split(a)[0] == "";
        assert b[0] == '/';
        assert sa == Split(a)[1..] && sb == Split(b)[1..];
      } else {
        assert Split(a)[0] == [a[0]] + sa[0];
        assert b[0] != '/';
        assert Split(b)[0] == [b[0]] + sb[0];
        assert sa[0] == Split(a)[0][1..] && sb[0] == Split(b)[0][1..];
        assert sa[1..] == Split(a)[1..] && sb[1..] == Split(b)[1..];
        assert sa == [sa[0]] + sa[1..] && sb == [sb[0]] + sb[1..];
      }
      SplitInjective(a[1..], b[1..]);
      assert a == [a[0]] + a[1..] && b == [b[0]] + b[1..];
    }
  }

  lemma SplitOfEmpty(a: string)
    ensures Split(a) == [""] <==> a == ""
  {
    if a != "" && a[0] == '/' {
      assert |Split(a)| >= 2;
    }
  }

  function Join(segments: seq<string>): string
    requires segments != []
  {
    if |segments| == 1 then segments[0] else segments[0] + "/" + Join(segments[1..])
  }

  lemma {:induction false} JoinSplit(path: string)
    ensures Join(Split(path)) == path
  {
    if path != "" {
      var rest := Split(path[1..]);
      JoinSplit(path[1..]);
      if path[0] == '/' {
        assert ([""] + rest)[1..] == rest;
        assert path == "" + "/" + path[1..];
      } else {
        var s := [[path[0]] + rest[0]] + rest[1..];
        assert s[1..] == rest[1..];
        assert path == [path[0]] + path[1..];
        if |rest| > 1 {
          assert [path[0]] + (rest[0] + "/" + Join(rest[1..])) == ([path[0]] + rest[0]) + "/" + Join(rest[1..]);
        }
      }
    }
  }

  /**
   A prefix matches exactly when its segments are the first segments of the
   path; what is left is the remaining segments below the root.
   */
  lemma StripRemovesWholeSegments(path: string, prefix: string)
    ensures CutPathPrefix(path, prefix).1 <==> Split(prefix) <= Split(path)
    ensures CutPathPrefix(path, prefix).1 ==>
              var rest := Split(path)[|Split(prefix)|..];
              Split(CutPathPrefix(path, prefix).0) == [""] + (if rest == [] then [""] else rest)
  {
    hide Split;
    if HasSegmentPrefix(path, prefix) {
      PrefixIsSegments(path, prefix);
    }
    if Split(prefix) <= Split(path) {
      SegmentsArePrefix(path, prefix);
    }
  }

  lemma PrefixIsSegments(path: string, prefix: string)
    requires HasSegmentPrefix(path, prefix)
    ensures Split(prefix) <= Split(path)
    ensures
      var rest := Split(path)[|Split(prefix)|..];
      Split(CutPathPrefix(path, prefix).0) == [""] + (if rest == [] then [""] else rest)
  {
    var rest := path[|prefix|..];
    assert path == prefix + rest;
    if rest == "" {
      assert path == prefix;
      assert Split("/") == ["", ""] by { assert "/"[1..] == ""; }
    } else {
      assert path == prefix + "/" + rest[1..];
      SplitAppend(prefix, rest[1..]);
      assert rest == "" + "/" + rest[1..];
      SplitAppend("", rest[1..]);
      assert Split(path)[|Split(prefix)|..] == Split(rest[1..]);
    }
  }

  lemma SegmentsArePrefix(path: string, prefix: string)
    requires Split(prefix) <= Split(path)
    ensures HasSegmentPrefix(path, prefix)
  {
    hide Split, Join;
    var n := |Split(prefix)|;
    if n == |Split(path)| {
      SplitInjective(prefix, path);
    } else {
      var tail := Split(path)[n..];
      var rebuilt := prefix + "/" + Join(tail);
      SplitAppend(prefix, Join(tail));
      SplitJoin(path, n);
      assert Split(path) == Split(prefix) + tail;
      SplitInjective(rebuilt, path);
      assert path[..|prefix|] == prefix && path[|prefix|] == '/';
    }
  }

  /** What is left of a path without its first n segments: the others, below the root. */
  ghost predicate Beheaded(before: string, n: nat, after: string) {
    n <= |Split(before)| && Split(after) == [""] + (if n == |Split(before)| then [""] else Split(before)[n..])
  }

  /**
   What stripping does to a URL, escaped or not: if the path begins with the segments of the prefix, they go; an
   escaped path loses them too, or is dropped if it does not begin with them. Otherwise nothing happens. One slash at
   the end of the prefix makes no difference.
   */
  lemma StripMeans(u: Location, prefix: string)
    ensures prefix == "" || prefix[|prefix| - 1] != '/' ==> Stripped(u, prefix) == Stripped(u, prefix + "/")
    ensures
      var after, n := Stripped(u, prefix + "/"), |Split(prefix)|;
      if Split(prefix) <= Split(u.path) then
        && Beheaded(u.path, n, after.path)
        && if u.rawPath != "" && Split(prefix) <= Split(u.rawPath) then Beheaded(u.rawPath, n, after.rawPath)
           else after.rawPath == ""
      else after == u
  {
    hide Split, HasSegmentPrefix;
    assert TrimSlash(prefix + "/") == prefix by { assert (prefix + "/")[..|prefix|] == prefix; }
    StripRemovesWholeSegments(u.path, prefix);
    StripRemovesWholeSegments(u.rawPath, prefix);
  }

  /** Any tail of a split is itself the split of what it joins to. */
  lemma {:induction false} SplitJoin(path: string, n: nat)
    requires n < |Split(path)|
    ensures Split(Join(Split(path)[n..])) == Split(path)[n..]
  {
    if n == 0 {
      assert Split(path)[0..] == Split(path);
      JoinSplit(path);
    } else {
      var rest := Split(path[1..]);
      if path[0] == '/' {
        assert Split(path)[n..] == rest[n - 1..];
        SplitJoin(path[1..], n - 1);
      } else {
        assert Split(path)[n..] == rest[n..];
        SplitJoin(path[1..], n);
      }
    }
  }

  // ----- When escaped characters survive -----

  /**
   The comment on stripPathPrefix promises that escaped characters such as
   %2F survive. `rawRest` is the part of the escaped path that encodes the
   remainder. It is kept exactly when the escaped path itself starts with the
   prefix; otherwise RawPath is dropped.
   */
  lemma EscapesSurviveIff(u: Location, prefix: string, rawPrefix: string, rawRest: string)
    requires InStep(u) && u.rawPath == rawPrefix + rawRest != ""
    requires HasSegmentPrefix(u.path, TrimSlash(prefix))
    requires PercentDecode(rawPrefix) == Some(TrimSlash(prefix))
    ensures Stripped(u, prefix).rawPath == OrRoot(rawRest) <==> HasSegmentPrefix(u.rawPath, TrimSlash(prefix))
    ensures PercentDecode(OrRoot(rawRest)) == Some(Stripped(u, prefix).path)
  {
    var p := TrimSlash(prefix);
    var rest := u.path[|p|..];
    DecodeAppend(rawPrefix, rawRest);
    assert u.path == p + rest;
    assert rest == u.path[|p|..] == PercentDecode(rawRest).value;
    DecodeStep("/", "", "", "/");
    if HasSegmentPrefix(u.rawPath, p) {
      var raw := u.rawPath[|p|..];
      assert u.rawPath == p + raw;
      RemaindersAgree(p, raw, rest);
      CutIsBetweenEscapes(p, raw);
      if |rawPrefix| <= |p| {
        SameSuffix(rawPrefix, rawRest, p, raw);
      } else {
        SameSuffix(p, raw, rawPrefix, rawRest);
      }
    }
  }

  /** Two suffixes of one string that decode alike are the same suffix. */
  lemma SameSuffix(a: string, b: string, c: string, d: string)
    requires a + b == c + d && |a| <= |c|
    requires PercentDecode(a).Some? && PercentDecode(c).Some?
    requires PercentDecode(b).Some? && PercentDecode(b) == PercentDecode(d)
    ensures b == d
  {
    hide PercentDecode;
    var e := SharedMiddle(a, b, c, d);
    DecodeAppend(a, e);
    DecodeAppend(e, d);
    var x, y := PercentDecode(e).value, PercentDecode(d).value;
    assert |x + y| == |y|;
    NonEmptyDecodes(e);
    assert e + d == d;
  }

  lemma SharedMiddle(a: string, b: string, c: string, d: string) returns (e: string)
    requires a + b == c + d && |a| <= |c|
    ensures c == a + e && b == e + d
  {
    e := c[|a|..];
    assert forall i | 0 <= i < |a| :: a[i] == (a + b)[i] == (c + d)[i] == c[i];
    assert forall i | 0 <= i < |b| :: b[i] == (a + b)[|a| + i] == (c + d)[|a| + i];
  }

  lemma NonEmptyDecodes(s: string)
    requires PercentDecode(s).Some?
    ensures PercentDecode(s).value == "" ==> s == ""
  {
  }

  /** The promise is not kept for a prefix that the client wrote escaped. */
  lemma EscapedSlashCanBeLost()
    ensures InStep(Location("/A/b/c", "/%41/b%2Fc"))
    ensures Stripped(Location("/A/b/c", "/%41/b%2Fc"), "/A") == Location("/b/c", "")
  {
    EscapedPath();
    assert "/A/b/c"[|"/A"|..] == "/b/c";
    assert "/%41/b%2Fc"[1] != "/A"[1];
  }

  lemma EscapedPath()
    ensures PercentDecode("/%41/b%2Fc") == Some("/A/b/c")
  {
    EscapedTail();
    DecodeStep("%41/b%2Fc", "/b%2Fc", "/b/c", "A/b/c");
    DecodeStep("/%41/b%2Fc", "%41/b%2Fc", "A/b/c", "/A/b/c");
  }

  lemma EscapedTail()
    ensures PercentDecode("/b%2Fc") == Some("/b/c")
  {
    DecodeStep("c", "", "", "c");
    DecodeStep("%2Fc", "c", "c", "/c");
    DecodeStep("b%2Fc", "%2Fc", "/c", "b/c");
    DecodeStep("/b%2Fc", "b%2Fc", "b/c", "/b/c");
  }
}
