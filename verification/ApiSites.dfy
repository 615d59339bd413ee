/** Changing sites by ID through the management API (api/sites.go:30-96). */
module ApiSites {
  import opened Wrappers
  import opened Snapshots
  import opened Sites

  datatype Status = BadRequest | NotFound | Conflict

  /** The callbacks that the API hands to the server; Replace is PUT /config. */
  datatype Edit =
    | Create(site: SiteConfig)
    | Put(id: string, site: SiteConfig)
    | Delete(id: string)
    | Replace(config: Config)

  /** Every site has an ID and no two share one. */
  predicate IdsOk(sites: seq<SiteConfig>) {
    && (forall i | 0 <= i < |sites| :: SiteID(sites[i]) != "")
    && (forall i, j | 0 <= i < j < |sites| :: SiteID(sites[i]) != SiteID(sites[j]))
  }

  function SiteIndex(sites: seq<SiteConfig>, id: string): (k: int)
    ensures -1 <= k < |sites|
    ensures k >= 0 ==> SiteID(sites[k]) == id && forall j | 0 <= j < k :: SiteID(sites[j]) != id
    ensures k < 0 ==> forall j | 0 <= j < |sites| :: SiteID(sites[j]) != id
  {
    if sites == [] then -1
    else if SiteID(sites[0]) == id then 0
    else
      var k := SiteIndex(sites[1..], id);
      assert forall j | 0 < j < |sites| :: sites[j] == sites[1..][j - 1];
      if k < 0 then -1 else k + 1
  }

  /** The sites as a table. */
  function Lookup(sites: seq<SiteConfig>, id: string): Option<SiteConfig> {
    var k := SiteIndex(sites, id);
    if k < 0 then None else Some(sites[k])
  }

  /** A body without a name takes the ID in the URL. */
  function Adopted(id: string, site: SiteConfig): SiteConfig {
    if site.name == "" && SiteID(site) != id then site.(name := id) else site
  }

  function Edited(config: Config, e: Edit): Result<Config, Status> {
    match e
    case Create(site) =>
      if SiteID(site) == "" then Err(BadRequest)
      else if Lookup(config.sites, SiteID(site)).Some? then Err(Conflict)
      else Ok(config.(sites := config.sites + [site]))
    case Put(id, site) =>
      var k := SiteIndex(config.sites, id);
      if SiteID(Adopted(id, site)) != id then Err(BadRequest)
      else if k < 0 then Err(NotFound)
      else Ok(config.(sites := config.sites[k := Adopted(id, site)]))
    case Delete(id) =>
      var k := SiteIndex(config.sites, id);
      if k < 0 then Err(NotFound)
      else Ok(config.(sites := config.sites[..k] + config.sites[k + 1..]))
    case Replace(c) => Ok(c)
  }

  /** With unique IDs, the table says what is in the list, wherever it is. */
  lemma LookupIff(sites: seq<SiteConfig>, id: string)
    requires IdsOk(sites)
    ensures forall s :: Lookup(sites, id) == Some(s) <==> s in sites && SiteID(s) == id
    ensures Lookup(sites, id).None? <==> forall s | s in sites :: SiteID(s) != id
  {
    hide SiteID;
  }

  /** POST adds exactly one entry, at the end, and only a new one. */
  lemma CreateAdds(config: Config, site: SiteConfig)
    requires IdsOk(config.sites)
    ensures
      var r := Edited(config, Create(site));
      && (r.Ok? <==> SiteID(site) != "" && Lookup(config.sites, SiteID(site)).None?)
      && (r.Ok? ==>
            && IdsOk(r.value.sites) && r.value == config.(sites := r.value.sites)
            && |r.value.sites| == |config.sites| + 1 && r.value.sites[..|config.sites|] == config.sites
            && forall id :: Lookup(r.value.sites, id) ==
                              if id == SiteID(site) then Some(site) else Lookup(config.sites, id))
  {
    hide SiteID;
    var r := Edited(config, Create(site));
    if r.Ok? {
      var after := r.value.sites;
      forall id
        ensures Lookup(after, id) == if id == SiteID(site) then Some(site) else Lookup(config.sites, id)
      {
        LookupIff(config.sites, id);
        LookupIff(after, id);
        assert forall s :: s in after <==> s in config.sites || s == site;
      }
    }
  }

  /** PUT replaces exactly one entry, in its place, and only an existing one. */
  lemma PutReplaces(config: Config, id: string, site: SiteConfig)
    requires IdsOk(config.sites)
    ensures
      var r, now := Edited(config, Put(id, site)), Adopted(id, site);
      && (r.Ok? <==> SiteID(now) == id && Lookup(config.sites, id).Some?)
      && (r.Ok? ==>
            && IdsOk(r.value.sites) && r.value == config.(sites := r.value.sites)
            && |r.value.sites| == |config.sites|
            && (forall i | 0 <= i < |config.sites| :: SiteID(r.value.sites[i]) == SiteID(config.sites[i]))
            && forall other :: Lookup(r.value.sites, other) ==
                                 if other == id then Some(now) else Lookup(config.sites, other))
  {
    hide SiteID;
    var r, now := Edited(config, Put(id, site)), Adopted(id, site);
    if r.Ok? {
      var after := r.value.sites;
      var k := SiteIndex(config.sites, id);
      assert forall i | 0 <= i < |after| :: after[i] == if i == k then now else config.sites[i];
      forall other
        ensures Lookup(after, other) == if other == id then Some(now) else Lookup(config.sites, other)
      {
        assert SiteIndex(after, other) == SiteIndex(config.sites, other);
      }
    }
  }

  lemma DeletedAt(sites: seq<SiteConfig>, k: nat)
    requires IdsOk(sites) && k < |sites|
    ensures
      var after := sites[..k] + sites[k + 1..];
      IdsOk(after) && forall s :: s in after <==> s in sites && s != sites[k]
  {
    hide SiteID;
    var after := sites[..k] + sites[k + 1..];
    assert forall i | 0 <= i < |after| :: after[i] == sites[if i < k then i else i + 1];
    forall s | s in sites && s != sites[k]
      ensures s in after
    {
      var i :| 0 <= i < |sites| && sites[i] == s;
      assert after[if i < k then i else i - 1] == s;
    }
  }

  /** DELETE removes exactly one entry and keeps the others in order. */
  lemma DeleteRemoves(config: Config, id: string)
    requires IdsOk(config.sites)
    ensures
      var r := Edited(config, Delete(id));
      && (r.Ok? <==> Lookup(config.sites, id).Some?)
      && (r.Ok? ==>
            && IdsOk(r.value.sites) && r.value == config.(sites := r.value.sites)
            && (exists k :: 0 <= k < |config.sites| && SiteID(config.sites[k]) == id
                  && r.value.sites == config.sites[..k] + config.sites[k + 1..])
            && forall other :: Lookup(r.value.sites, other) ==
                                 if other == id then None else Lookup(config.sites, other))
  {
    hide SiteID;
    var r := Edited(config, Delete(id));
    if r.Ok? {
      var before, after := config.sites, r.value.sites;
      var k := SiteIndex(before, id);
      DeletedAt(before, k);
      forall other
        ensures Lookup(after, other) == if other == id then None else Lookup(before, other)
      {
        LookupIff(before, other);
        LookupIff(after, other);
      }
    }
  }

  /** DELETE undoes POST. */
  lemma DeleteUndoesCreate(config: Config, site: SiteConfig)
    requires IdsOk(config.sites) && Edited(config, Create(site)).Ok?
    ensures Edited(Edited(config, Create(site)).value, Delete(SiteID(site))) == Ok(config)
  {
    hide SiteID;
    var after := Edited(config, Create(site)).value;
    CreateAdds(config, site);
    var n := |config.sites|;
    assert after.sites[n] == site;
    assert SiteIndex(after.sites, SiteID(site)) == n;
    assert after.sites[..n] + after.sites[n + 1..] == config.sites;
  }

  /** Putting the old site back undoes PUT. */
  lemma PutUndoesPut(config: Config, id: string, site: SiteConfig)
    requires IdsOk(config.sites) && Edited(config, Put(id, site)).Ok?
    ensures
      var old' := Lookup(config.sites, id);
      old'.Some? && Edited(Edited(config, Put(id, site)).value, Put(id, old'.value)) == Ok(config)
  {
    hide SiteID;
    var after := Edited(config, Put(id, site)).value;
    PutReplaces(config, id, site);
    var k := SiteIndex(config.sites, id);
    assert SiteIndex(after.sites, id) == k;
    assert after.sites[k := config.sites[k]] == config.sites;
  }

  /** Which bodies PUT takes: those without a name, or with the name in the URL. */
  lemma PutTakesIff(id: string, site: SiteConfig)
    ensures SiteID(Adopted(id, site)) == id <==>
            if id == "" then SiteID(site) == "" else site.name == "" || site.name == id
  {
  }

  // ----- The callbacks -----

  method CreateSite(config: Config, site: SiteConfig) returns (r: Result<Config, Status>)
    ensures r == Edited(config, Create(site))
  {
    var id := SiteID(site);
    if id == "" {
      return Err(BadRequest);
    }
    if SiteIndex(config.sites, id) >= 0 {
      return Err(Conflict);
    }
    r := Ok(config.(sites := config.sites + [site]));
  }

  method PutSite(config: Config, id: string, body: SiteConfig) returns (r: Result<Config, Status>)
    ensures r == Edited(config, Put(id, body))
  {
    var site := body;
    if site.name == "" && SiteID(site) != id {
      site := site.(name := id);
    }
    if SiteID(site) != id {
      return Err(BadRequest);
    }
    var index := SiteIndex(config.sites, id);
    if index < 0 {
      return Err(NotFound);
    }
    r := Ok(config.(sites := config.sites[index := site]));
  }

  method DeleteSite(config: Config, id: string) returns (r: Result<Config, Status>)
    ensures r == Edited(config, Delete(id))
  {
    var index := SiteIndex(config.sites, id);
    if index < 0 {
      return Err(NotFound);
    }
    r := Ok(config.(sites := config.sites[..index] + config.sites[index + 1..]));
  }
}
