/** Listed certificates, their two tables, and coverage (tls.go). */
module Certificates {
  import opened Wrappers
  import opened Hosts

  /** A leaf certificate; times are nanoseconds. */
  datatype Certificate = Certificate(names: seq<string>, notBefore: int, notAfter: int)

  const GRACE: int := 24 * 3600 * 1_000_000_000

  /** Both tables as a snapshot keeps them. */
  datatype Store = Store(current: Table<Certificate>, stale: Table<Certificate>)

  datatype LoadError = Unreadable | SourceFailed | Unparsable | NoNames

  /** What reading the files, or asking the certificate source, produced. */
  datatype Loaded = Parsed(certificate: Certificate) | BadLeaf

  predicate IsCurrent(c: Certificate, now: int) {
    !(now < c.notBefore || now + GRACE > c.notAfter)
  }

  predicate Lists(c: Certificate, name: string) {
    exists i :: 0 <= i < |c.names| && NormalizeHost(c.names[i]) == name
  }

  /** Certificate `i` competes for `name` in the table of its class. */
  predicate Competes(all: seq<Certificate>, i: nat, name: string, now: int, current: bool) {
    i < |all| && IsCurrent(all[i], now) == current && Lists(all[i], name)
  }

  /** It expires last, and was listed first among those that do. */
  ghost predicate Wins(all: seq<Certificate>, i: nat, name: string, now: int, current: bool) {
    Competes(all, i, name, now, current)
    && forall j: nat | Competes(all, j, name, now, current) ::
      all[j].notAfter <= all[i].notAfter && (j < i ==> all[j].notAfter < all[i].notAfter)
  }

  /** The table of one class: every listed name, with its winner. */
  ghost predicate Holds(t: Table<Certificate>, all: seq<Certificate>, now: int, current: bool) {
    WellFormed(t) && forall name :: HoldsFor(t, all, name, now, current)
  }

  ghost predicate HoldsFor(t: Table<Certificate>, all: seq<Certificate>, name: string, now: int, current: bool) {
    match Get(t, name)
    case None => forall i: nat :: !Competes(all, i, name, now, current)
    case Some(c) => exists i: nat :: Wins(all, i, name, now, current) && all[i] == c
  }

  // ----- Loading -----

  predicate Entered(c: Certificate, k: nat, name: string) {
    exists i :: 0 <= i < k && i < |c.names| && NormalizeHost(c.names[i]) == name
  }

  /** What entering certificate `c` does to the entry of one name it lists. */
  function Later(existing: Option<Certificate>, c: Certificate): Option<Certificate> {
    if existing.Some? && existing.value.notAfter >= c.notAfter then existing else Some(c)
  }

  /** Names that the new certificate does not list keep their winner. */
  lemma HoldsForOthers(t: Table<Certificate>, all: seq<Certificate>, c: Certificate, name: string, now: int,
                       current: bool)
    requires HoldsFor(t, all, name, now, current)
    requires !Lists(c, name) || IsCurrent(c, now) != current
    ensures HoldsFor(t, all + [c], name, now, current)
  {
    var more := all + [c];
    assert forall i: nat :: Competes(more, i, name, now, current) <==> Competes(all, i, name, now, current);
    if Get(t, name).Some? {
      var i: nat :| Wins(all, i, name, now, current) && all[i] == Get(t, name).value;
      assert Wins(more, i, name, now, current);
    }
  }

  /** A name the new certificate lists goes to the later of it and the old winner. */
  lemma HoldsForListed(t: Table<Certificate>, t': Table<Certificate>, all: seq<Certificate>, c: Certificate,
                       name: string, now: int, current: bool)
    requires HoldsFor(t, all, name, now, current)
    requires Lists(c, name) && IsCurrent(c, now) == current
    requires Get(t', name) ==
             Later(Get(t, name), c)
    ensures HoldsFor(t', all + [c], name, now, current)
  {
    var more, n := all + [c], |all|;
    assert forall i: nat | i < n :: Competes(more, i, name, now, current) <==> Competes(all, i, name, now, current);
    assert Competes(more, n, name, now, current);
    if Get(t, name).Some? {
      var i: nat :| Wins(all, i, name, now, current) && all[i] == Get(t, name).value;
      assert Wins(more, if all[i].notAfter >= c.notAfter then i else n, name, now, current);
    } else {
      assert Wins(more, n, name, now, current);
    }
  }

  class CertificateStore {
    const current: HostTable<Certificate>
    const stale: HostTable<Certificate>

    constructor ()
      ensures fresh(current) && fresh(stale) && current != stale
      ensures current.Data() == Table(map[], map[], None) == stale.Data()
    {
      current := new HostTable<Certificate>();
      stale := new HostTable<Certificate>();
    }

    function Data(): Store
      reads current, stale
    {
      Store(current.Data(), stale.Data())
    }
  }

  /** `t'` is `t` with certificate `c` entered under its first `k` names. */
  ghost predicate EnteredInto(t: Table<Certificate>, t': Table<Certificate>, c: Certificate, k: nat) {
    forall name ::
      Get(t', name) == (if Entered(c, k, name) then Later(Get(t, name), c) else Get(t, name))
  }

  /** Enters one certificate under each of its names, unless one that expires later is there. */
  method Enter(table: HostTable<Certificate>, c: Certificate)
    requires WellFormed(table.Data())
    modifies table
    ensures WellFormed(table.Data())
    ensures EnteredInto(old(table.Data()), table.Data(), c, |c.names|)
  {
    for k := 0 to |c.names|
      invariant WellFormed(table.Data())
      invariant EnteredInto(old(table.Data()), table.Data(), c, k)
    {
      var name := NormalizeHost(c.names[k]);
      var existing := Get(table.Data(), name);
      assert forall q :: Entered(c, k + 1, q) <==> Entered(c, k, q) || q == name;
      if existing.Some? && existing.value.notAfter >= c.notAfter {
        continue;
      }
      var replaced := table.Set(name, c);
    }
  }

  lemma EnterHolds(t: Table<Certificate>, t': Table<Certificate>, all: seq<Certificate>, c: Certificate, now: int)
    requires Holds(t, all, now, IsCurrent(c, now)) && WellFormed(t')
    requires EnteredInto(t, t', c, |c.names|)
    ensures Holds(t', all + [c], now, IsCurrent(c, now))
  {
    var current := IsCurrent(c, now);
    forall name
      ensures HoldsFor(t', all + [c], name, now, current)
    {
      assert HoldsFor(t, all, name, now, current);
      assert Lists(c, name) <==> Entered(c, |c.names|, name);
      if Lists(c, name) {
        HoldsForListed(t, t', all, c, name, now, current);
      } else {
        HoldsForOthers(t', all, c, name, now, current);
      }
    }
  }

  lemma OtherClassHolds(t: Table<Certificate>, all: seq<Certificate>, c: Certificate, now: int)
    requires Holds(t, all, now, !IsCurrent(c, now))
    ensures Holds(t, all + [c], now, !IsCurrent(c, now))
  {
    var current := !IsCurrent(c, now);
    forall name
      ensures HoldsFor(t, all + [c], name, now, current)
    {
      assert HoldsFor(t, all, name, now, current);
      HoldsForOthers(t, all, c, name, now, current);
    }
  }

  function Leaves(loaded: seq<Loaded>): (all: seq<Certificate>)
    requires forall x | x in loaded :: x.Parsed?
    ensures |all| == |loaded| && forall i | 0 <= i < |all| :: all[i] == loaded[i].certificate
  {
    if loaded == [] then [] else [loaded[0].certificate] + Leaves(loaded[1..])
  }

  /** Every leaf parses and has a DNS name. */
  predicate Usable(loaded: seq<Loaded>) {
    forall x | x in loaded :: x.Parsed? && x.certificate.names != []
  }

  /** The part of loadCertificates after reading: parse, classify, enter. */
  method BuildStore(loaded: seq<Loaded>, now: int) returns (r: Result<Store, LoadError>)
    ensures r.Ok? <==> Usable(loaded)
    ensures r.Ok? ==> Holds(r.value.current, Leaves(loaded), now, true)
                      && Holds(r.value.stale, Leaves(loaded), now, false)
  {
    var store := new CertificateStore();
    ghost var all: seq<Certificate> := [];
    for k := 0 to |loaded|
      invariant fresh(store.current) && fresh(store.stale) && store.current != store.stale
      invariant Usable(loaded[..k]) && all == Leaves(loaded[..k])
      invariant Holds(store.current.Data(), all, now, true) && Holds(store.stale.Data(), all, now, false)
    {
      assert loaded[k] in loaded;
      if loaded[k].BadLeaf? {
        return Err(Unparsable);
      }
      var c := loaded[k].certificate;
      if c.names == [] {
        return Err(NoNames);
      }
      var table := store.current;
      if now < c.notBefore || now + GRACE > c.notAfter {
        table := store.stale;
      }
      ghost var before := store.Data();
      Enter(table, c);
      if IsCurrent(c, now) {
        EnterHolds(before.current, store.current.Data(), all, c, now);
        OtherClassHolds(before.stale, all, c, now);
      } else {
        EnterHolds(before.stale, store.stale.Data(), all, c, now);
        OtherClassHolds(before.current, all, c, now);
      }
      assert loaded[..k + 1] == loaded[..k] + [loaded[k]];
      all := all + [c];
      assert all == Leaves(loaded[..k + 1]);
    }
    assert loaded[..|loaded|] == loaded;
    return Ok(store.Data());
  }

  /** Certificates from outside the configuration. */
  datatype Source = NoSource | Broken | Extra(loaded: seq<Loaded>)

  /** Everything that was read: the files first, then the source. */
  function Gathered(files: seq<Option<Loaded>>, source: Source): seq<Loaded> {
    Read(files) + (if source.Extra? then source.loaded else [])
  }

  function Read(files: seq<Option<Loaded>>): seq<Loaded> {
    if files == [] then [] else One(files[0]) + Read(files[1..])
  }

  function One(file: Option<Loaded>): seq<Loaded> {
    if file.Some? then [file.value] else []
  }

  lemma {:induction false} ReadAppend(files: seq<Option<Loaded>>, last: Option<Loaded>)
    ensures Read(files + [last]) == Read(files) + One(last)
  {
    hide One;
    var all := files + [last];
    if files == [] {
      assert all[1..] == [] && One(last) + [] == [] + One(last);
    } else {
      assert all[1..] == files[1..] + [last];
      ReadAppend(files[1..], last);
      assert One(files[0]) + (Read(files[1..]) + One(last)) == One(files[0]) + Read(files[1..]) + One(last);
    }
  }

  /** Every file reads, the source answers, and every leaf is usable. */
  predicate Loadable(files: seq<Option<Loaded>>, source: Source) {
    None !in files && source != Broken && Usable(Gathered(files, source))
  }

  /** The store holds what was read, each certificate in the table of its class. */
  ghost predicate Loads(s: Store, files: seq<Option<Loaded>>, source: Source, now: int)
    requires Loadable(files, source)
  {
    var all := Leaves(Gathered(files, source));
    Holds(s.current, all, now, true) && Holds(s.stale, all, now, false)
  }

  /** loadCertificates; a file that cannot be read is None. */
  method LoadCertificates(files: seq<Option<Loaded>>, source: Source, now: int) returns (r: Result<Store, LoadError>)
    ensures r.Ok? <==> Loadable(files, source)
    ensures r.Ok? ==> Loads(r.value, files, source, now)
  {
    var certificates: seq<Loaded> := [];
    for k := 0 to |files|
      invariant None !in files[..k] && certificates == Read(files[..k])
    {
      assert files[..k + 1] == files[..k] + [files[k]];
      if files[k].None? {
        return Err(Unreadable);
      }
      ReadAppend(files[..k], files[k]);
      certificates := certificates + [files[k].value];
    }
    assert files[..|files|] == files;
    match source {
      case NoSource =>
      case Broken => return Err(SourceFailed);
      case Extra(more) => certificates := certificates + more;
    }
    assert certificates == Gathered(files, source);
    r := BuildStore(certificates, now);
  }

  // ----- What is loaded, in plain terms -----

  predicate ValidAt(c: Certificate, t: int) {
    c.notBefore <= t <= c.notAfter
  }

  /** A certificate counts as current while it is valid now and throughout the next 24 hours. */
  lemma CurrentIff(c: Certificate, now: int)
    ensures IsCurrent(c, now) <==> forall t | now <= t <= now + 86_400_000_000_000 :: ValidAt(c, t)
  {
    if forall t | now <= t <= now + 86_400_000_000_000 :: ValidAt(c, t) {
      assert ValidAt(c, now) && ValidAt(c, now + 86_400_000_000_000);
    }
  }

  /** Some file or the source gave this. */
  predicate Given(files: seq<Option<Loaded>>, source: Source, x: Loaded) {
    Some(x) in files || (source.Extra? && x in source.loaded)
  }

  predicate Names?(c: Certificate, name: string) {
    exists i :: 0 <= i < |c.names| && NormalizeHost(c.names[i]) == name
  }

  lemma {:induction false} ReadIff(files: seq<Option<Loaded>>)
    ensures forall x :: x in Read(files) <==> Some(x) in files
  {
    if files != [] {
      ReadIff(files[1..]);
      assert files == [files[0]] + files[1..];
    }
  }

  /** Loading works exactly if every file reads, the source answers, and every certificate parses and has a name. */
  lemma LoadableIff(files: seq<Option<Loaded>>, source: Source)
    ensures Loadable(files, source) <==>
            && None !in files && !source.Broken?
            && forall x | Given(files, source, x) :: x.Parsed? && x.certificate.names != []
  {
    ReadIff(files);
    hide Read;
    assert forall x :: x in Gathered(files, source) <==> Given(files, source, x);
  }

  lemma GatheredIff(files: seq<Option<Loaded>>, source: Source)
    requires Loadable(files, source)
    ensures forall c :: c in Leaves(Gathered(files, source)) <==> Given(files, source, Parsed(c))
  {
    ReadIff(files);
    hide Read;
    var loaded := Gathered(files, source);
    var all := Leaves(loaded);
    forall c
      ensures c in all <==> Given(files, source, Parsed(c))
    {
      if Parsed(c) in loaded {
        var i :| 0 <= i < |loaded| && loaded[i] == Parsed(c);
        assert all[i] == c;
      }
      if c in all {
        var i :| 0 <= i < |all| && all[i] == c;
        assert loaded[i] == Parsed(c);
      }
    }
  }

  /** Files come before the source, both in their order. */
  lemma GatheredAt(files: seq<Option<Loaded>>, source: Source, i: nat)
    requires None !in files
    ensures |Gathered(files, source)| == |files| + if source.Extra? then |source.loaded| else 0
    ensures i < |files| ==> Some(Gathered(files, source)[i]) == files[i]
    ensures source.Extra? && i < |source.loaded| ==> Gathered(files, source)[|files| + i] == source.loaded[i]
  {
    ReadAt(files, i);
  }

  lemma {:induction false} ReadAt(files: seq<Option<Loaded>>, i: nat)
    requires None !in files
    ensures |Read(files)| == |files| && (i < |files| ==> Some(Read(files)[i]) == files[i])
    decreases files
  {
    if files != [] {
      assert files[0] in files;
      ReadAt(files[1..], if i > 0 then i - 1 else 0);
    }
  }

  /** The entry of a name: of the class, given, listing the name, and expiring last of those; none if there are none. */
  ghost predicate LatestOf(t: Table<Certificate>, files: seq<Option<Loaded>>, source: Source, name: string, now: int,
                           current: bool) {
    match Get(t, name)
    case None => forall c | Given(files, source, Parsed(c)) && Names?(c, name) :: IsCurrent(c, now) != current
    case Some(w) =>
      && Given(files, source, Parsed(w)) && Names?(w, name) && IsCurrent(w, now) == current
      && forall c | Given(files, source, Parsed(c)) && Names?(c, name) && IsCurrent(c, now) == current ::
           c.notAfter <= w.notAfter
  }

  lemma LoadsMeans(certs: Store, files: seq<Option<Loaded>>, source: Source, now: int, name: string)
    requires Loadable(files, source) && Loads(certs, files, source, now)
    ensures LatestOf(certs.current, files, source, name, now, true)
    ensures LatestOf(certs.stale, files, source, name, now, false)
  {
    hide Gathered, IsCurrent, NormalizeHost;
    GatheredIff(files, source);
    var all := Leaves(Gathered(files, source));
    TableMeans(certs.current, all, files, source, name, now, true);
    TableMeans(certs.stale, all, files, source, name, now, false);
  }

  lemma TableMeans(t: Table<Certificate>, all: seq<Certificate>, files: seq<Option<Loaded>>, source: Source,
                   name: string, now: int, current: bool)
    requires Holds(t, all, now, current)
    requires forall c :: c in all <==> Given(files, source, Parsed(c))
    ensures LatestOf(t, files, source, name, now, current)
  {
    hide Given, IsCurrent, NormalizeHost, Get;
    assert HoldsFor(t, all, name, now, current);
    assert forall c :: Lists(c, name) <==> Names?(c, name);
    forall c | Given(files, source, Parsed(c)) && Names?(c, name) && IsCurrent(c, now) == current
      ensures Get(t, name).Some? && c.notAfter <= Get(t, name).value.notAfter
    {
      var i :| 0 <= i < |all| && all[i] == c;
      assert Competes(all, i, name, now, current);
    }
  }

  /** The first listed of those that expire last. */
  lemma FirstOfLatest(t: Table<Certificate>, all: seq<Certificate>, name: string, now: int, current: bool, i: nat)
    requires Holds(t, all, now, current)
    requires i < |all| && Names?(all[i], name) && IsCurrent(all[i], now) == current
    requires forall j | 0 <= j < |all| && j != i && Names?(all[j], name) && IsCurrent(all[j], now) == current ::
               if j < i then all[j].notAfter < all[i].notAfter else all[j].notAfter <= all[i].notAfter
    ensures Get(t, name) == Some(all[i])
  {
    hide IsCurrent, NormalizeHost, Get;
    assert HoldsFor(t, all, name, now, current);
    assert forall c :: Lists(c, name) <==> Names?(c, name);
    assert Competes(all, i, name, now, current);
  }

  // ----- Which certificate answers -----

  /** A certificate of the class lists one of the patterns that may serve the host. */
  ghost predicate Offered(all: seq<Certificate>, host: string, now: int, current: bool) {
    exists k: nat, i: nat :: k < |Candidates(host)| && Competes(all, i, Candidates(host)[k], now, current)
  }

  /** `c` wins the most specific pattern that any certificate of the class lists. */
  ghost predicate Best(all: seq<Certificate>, host: string, now: int, current: bool, c: Certificate) {
    exists k: nat, i: nat ::
      && k < |Candidates(host)| && Wins(all, i, Candidates(host)[k], now, current) && all[i] == c
      && forall j: nat, m: nat | j < k :: !Competes(all, m, Candidates(host)[j], now, current)
  }

  lemma MatchIsBest(t: Table<Certificate>, all: seq<Certificate>, host: string, now: int, current: bool)
    requires Holds(t, all, now, current)
    ensures Match(t, host).Some? <==> Offered(all, host, now, current)
    ensures Match(t, host).Some? ==> Best(all, host, now, current, Match(t, host).value)
  {
    hide Get, Candidates, Lists, Match;
    MatchIsFirstCandidate(t, host);
    var patterns := Candidates(host);
    var k := FirstEntry(t, patterns);
    assert forall j: nat | j < |patterns| :: HoldsFor(t, all, patterns[j], now, current);
    if k < |patterns| {
      var i: nat :| Wins(all, i, patterns[k], now, current) && all[i] == Get(t, patterns[k]).value;
      assert Competes(all, i, patterns[k], now, current);
    }
  }

  // ----- Coverage -----

  predicate Covers(t: Table<Certificate>, pattern: string) {
    pattern == "*" || Match(t, pattern).Some?
  }

  /** A pattern is covered exactly if a certificate of the class lists it or a pattern above it; `*` always is. */
  lemma CoversIff(t: Table<Certificate>, all: seq<Certificate>, pattern: string, now: int, current: bool)
    requires Holds(t, all, now, current)
    ensures Covers(t, pattern) <==> pattern == "*" || Offered(all, pattern, now, current)
  {
    hide Holds, Match, Offered;
    MatchIsBest(t, all, pattern, now, current);
  }

  /** A listed certificate that is selected for a host lists one of the patterns that serve it. */
  lemma SelectedCertificateNamesHost(t: Table<Certificate>, all: seq<Certificate>, now: int, current: bool,
                                     host: string)
    requires Holds(t, all, now, current) && Match(t, host).Some?
    ensures exists p, i ::
              p in Candidates(host) && i >= 0 && Wins(all, i, p, now, current) && all[i] == Match(t, host).value
  {
    MatchIsFirstCandidate(t, host);
    var p := FirstOfIsThere(t, Candidates(host));
    assert HoldsFor(t, all, p, now, current);
  }

  lemma FirstOfIsThere<T>(t: Table<T>, patterns: seq<string>) returns (p: string)
    requires FirstOf(t, patterns).Some?
    ensures p in patterns && Get(t, p) == FirstOf(t, patterns)
  {
    if Get(t, patterns[0]).Some? {
      p := patterns[0];
    } else {
      p := FirstOfIsThere(t, patterns[1..]);
    }
  }

  /** "The one that expires last wins" is per entry: an exact name beats a later wildcard. */
  lemma ExactBeatsLaterWildcard(t: Table<Certificate>, now: int)
    requires Holds(t, [Certificate(["a.b"], now, now + GRACE), Certificate(["*.b"], now, now + 2 * GRACE)], now, true)
    ensures Match(t, "a.b") == Some(Certificate(["a.b"], now, now + GRACE))
  {
    var early, late := Certificate(["a.b"], now, now + GRACE), Certificate(["*.b"], now, now + 2 * GRACE);
    var all := [early, late];
    NormalizeNames();
    assert HoldsFor(t, all, "a.b", now, true);
    assert NormalizeHost(early.names[0]) == "a.b" && Lists(early, "a.b");
    assert !Lists(late, "a.b");
    assert Competes(all, 0, "a.b", now, true);
  }

  lemma NormalizeNames()
    ensures NormalizeHost("a.b") == "a.b" && NormalizeHost("*.b") == "*.b"
  {
    assert Lower("b") == "b" by { assert "b"[1..] == ""; }
    assert Lower(".b") == ".b" by { assert ".b"[1..] == "b"; }
    assert Lower("a.b") == "a.b" by { assert "a.b"[1..] == ".b"; }
    assert Lower("*.b") == "*.b" by { assert "*.b"[1..] == ".b"; }
  }
}
