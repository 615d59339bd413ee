/** Struct types of the configuration, and how their keys are found (encoding.go:161-166, encoding.go:196-262). */
module ConfigTypes {
  import opened Wrappers
  import opened Encoding

  // ----- Go struct types -----

  /** A `json` struct tag: none, "-", or a name and perhaps omitempty. */
  datatype Tag = Untagged | Dash | Tagged(name: string, omitEmpty: bool)

  datatype GoField =
    | Member(name: string, tag: Tag, exported: bool, typ: Type)
    | Embedded(name: string, tag: Tag, exported: bool, inner: seq<GoField>)

  predicate Skipped(f: GoField) {
    f.tag.Dash? || !f.exported
  }

  predicate Promotes(f: GoField) {
    f.Embedded? && f.tag.Untagged?
  }

  function Key(f: GoField): string {
    if f.tag.Tagged? && f.tag.name != "" then f.tag.name else f.name
  }

  function TypeOf(f: GoField): Type
    decreases f, 1
  {
    match f
    case Member(_, _, _, typ) => typ
    case Embedded(_, _, _, inner) => Struct(Schema(inner), Form.Plain)
  }

  /**
   The members of a struct: promoted ones, hidden by those declared directly. These are what encoding/json reads
   and writes when no name is ambiguous (see Unambiguous); it drops ambiguous names.
   */
  function Schema(fields: seq<GoField>): map<string, Field>
    decreases fields, 0
  {
    Promoted(fields, |fields|) + Direct(fields, |fields|)
  }

  function Direct(fields: seq<GoField>, n: nat): map<string, Field>
    requires n <= |fields|
    decreases fields, 0, n
  {
    if n == 0 then map[]
    else
      var f := fields[n - 1];
      if Skipped(f) || Promotes(f) then Direct(fields, n - 1)
      else Direct(fields, n - 1)[Key(f) := Field(f.tag.Tagged? && f.tag.omitEmpty, TypeOf(f))]
  }

  function Promoted(fields: seq<GoField>, n: nat): map<string, Field>
    requires n <= |fields|
    decreases fields, 0, n
  {
    if n == 0 then map[]
    else
      var f := fields[n - 1];
      if Skipped(f) || !Promotes(f) then Promoted(fields, n - 1)
      else Promoted(fields, n - 1) + Schema(f.inner)
  }

  /** No name is declared twice side by side, or promoted from two embedded structs. */
  predicate Unambiguous(fields: seq<GoField>) {
    && (forall i | 0 <= i < |fields| && Promotes(fields[i]) :: Unambiguous(fields[i].inner))
    && (forall i, j | 0 <= i < j < |fields| && Direct?(fields[i]) && Direct?(fields[j]) ::
          Key(fields[i]) != Key(fields[j]))
    && (forall i, j | 0 <= i < j < |fields| && Promotes(fields[i]) && Promotes(fields[j]) ::
          Schema(fields[i].inner).Keys !! Schema(fields[j].inner).Keys)
  }

  predicate Direct?(f: GoField) {
    !Skipped(f) && !Promotes(f)
  }

  // ----- jsonFieldNames -----

  /** The names found by walking the fields, as the decoder of extensions does. */
  method JsonFieldNames(fields: seq<GoField>) returns (names: set<string>)
    ensures names == Schema(fields).Keys
    decreases fields
  {
    names := {};
    for i := 0 to |fields|
      invariant names == Promoted(fields, i).Keys + Direct(fields, i).Keys
    {
      var f := fields[i];
      if f.tag.Dash? || !f.exported {
        continue;
      }
      if f.Embedded? && f.tag.Untagged? {
        var more := JsonFieldNames(f.inner);
        names := names + more;
        continue;
      }
      var name := if f.tag.Tagged? then f.tag.name else "";
      if name == "" {
        name := f.name;
      }
      names := names + {name};
    }
  }

  // ----- Extensions -----

  /** Extension members are added to the members of the struct, and win over them. */
  method MarshalWithExtensions(plain: map<string, Json>, extensions: map<string, Json>)
    returns (members: map<string, Json>)
    ensures members == plain + extensions
  {
    members := plain;
    if extensions == map[] {
      return;
    }
    var names := extensions.Keys;
    while names != {}
      invariant names <= extensions.Keys
      invariant Merged(plain, extensions, extensions.Keys - names, members)
      decreases |names|
    {
      var name :| name in names;
      members := members[name := extensions[name]];
      names := names - {name};
    }
    MergedAll(plain, extensions, members);
  }

  /** The extensions in `done` have been merged into `plain`. */
  ghost predicate Merged(plain: map<string, Json>, extensions: map<string, Json>, done: set<string>,
                         members: map<string, Json>) {
    && (forall k :: k in members <==> k in plain || (k in done && k in extensions))
    && forall k | k in members ::
         if k in done && k in extensions then members[k] == extensions[k] else k in plain && members[k] == plain[k]
  }

  lemma MergedAll(plain: map<string, Json>, extensions: map<string, Json>, members: map<string, Json>)
    requires Merged(plain, extensions, extensions.Keys, members)
    ensures members == plain + extensions
  {
  }

  /** Keys that are no fields move into the extensions; the rest is left to the strict decoder. */
  method UnmarshalWithExtensions(members: map<string, Json>, known: set<string>)
    returns (rest: map<string, Json>, extensions: map<string, Json>)
    ensures rest == Recognized(members, known) && extensions == Unknown(members, known)
  {
    rest, extensions := members, map[];
    var todo := members.Keys;
    while todo != {}
      invariant todo <= members.Keys
      invariant forall k :: k in rest <==> k in members && (k in known || k in todo)
      invariant forall k :: k in extensions <==> k in members && k !in known && k !in todo
      invariant forall k | k in rest :: rest[k] == members[k]
      invariant forall k | k in extensions :: extensions[k] == members[k]
      decreases |todo|
    {
      var name :| name in todo;
      todo := todo - {name};
      if name in known {
        continue;
      }
      extensions := extensions[name := rest[name]];
      rest := rest - {name};
    }
  }

  // ----- Shorthands -----

  /** A string stands for an object with only the main field. */
  lemma ShorthandMeansMainField(s: string, fields: map<string, Field>, main: string)
    requires main in fields && fields[main].typ == Text
    ensures
      var t := Struct(fields, Shorthand(main));
      Decode(String(s), t).Some? && Decode(String(s), t) == Decode(Object(map[main := String(s)]), t)
  {
    var t := Struct(fields, Shorthand(main));
    ObjectDecodesIff(map[main := String(s)], fields, Shorthand(main), Decode(String(s), t).value);
  }

  // ----- Sites and routes (config.go:112-219) -----

  const PROXY_FIELDS: seq<GoField> := [
    Member("Upstream", Tagged("upstream", false), true, Text),
    Member("StripPrefix", Tagged("strip_prefix", true), true, Text),
    Member("HostHeader", Tagged("host_header", true), true, Text),
    Member("DialTimeout", Tagged("dial_timeout", true), true, Int),
    Member("ResponseHeaderTimeout", Tagged("response_header_timeout", true), true, Int),
    Member("MaxConns", Tagged("max_conns", true), true, Int),
    Member("InsecureSkipVerify", Tagged("insecure_skip_verify", true), true, Bool)
  ]

  const PROXY := Struct(Schema(PROXY_FIELDS), Shorthand("upstream"))

  const FILES_FIELDS: seq<GoField> := [
    Member("Root", Tagged("root", false), true, Text),
    Member("StripPrefix", Tagged("strip_prefix", true), true, Text),
    Member("Browse", Tagged("browse", true), true, Bool)
  ]

  const FILES := Struct(Schema(FILES_FIELDS), Shorthand("root"))

  const RESPOND_FIELDS: seq<GoField> := [
    Member("Status", Tagged("status", true), true, Int),
    Member("Headers", Tagged("headers", true), true, MapOf(Text)),
    Member("Body", Tagged("body", true), true, Text)
  ]

  const RESPOND := Struct(Schema(RESPOND_FIELDS), Shorthand("body"))

  const REDIRECT_FIELDS: seq<GoField> := [
    Member("To", Tagged("to", false), true, Text),
    Member("Status", Tagged("status", true), true, Int),
    Member("PreservePath", Tagged("preserve_path", true), true, Bool)
  ]

  const REDIRECT := Struct(Schema(REDIRECT_FIELDS), Shorthand("to"))

  const HANDLER_FIELDS: seq<GoField> := [
    Member("Proxy", Tagged("proxy", true), true, Pointer(PROXY)),
    Member("Files", Tagged("files", true), true, Pointer(FILES)),
    Member("Respond", Tagged("respond", true), true, Pointer(RESPOND)),
    Member("Redirect", Tagged("redirect", true), true, Pointer(REDIRECT)),
    Member("Extensions", Dash, true, MapOf(Text))
  ]

  const ROUTE_FIELDS: seq<GoField> := [
    Member("Name", Tagged("name", true), true, Text),
    Member("Method", Tagged("method", true), true, Text),
    Member("Path", Tagged("path", true), true, Text),
    Member("Policies", Tagged("policies", true), true, Slice(Text)),
    Embedded("Handler", Untagged, true, HANDLER_FIELDS)
  ]

  const ROUTE := Struct(Schema(ROUTE_FIELDS), Extended)

  const SITE_FIELDS: seq<GoField> := [
    Member("Name", Tagged("name", true), true, Text),
    Member("Hosts", Tagged("hosts", false), true, Slice(Text)),
    Member("Listeners", Tagged("listeners", true), true, Slice(Text)),
    Member("AllowHTTP", Tagged("allow_http", true), true, Bool),
    Member("Policies", Tagged("policies", true), true, Slice(Text)),
    Member("Routes", Tagged("routes", true), true, Slice(ROUTE)),
    Embedded("Handler", Untagged, true, HANDLER_FIELDS)
  ]

  const SITE := Struct(Schema(SITE_FIELDS), Extended)

  /** So the names found for sites and routes are those of encoding/json. */
  lemma SitesAreUnambiguous()
    ensures Unambiguous(HANDLER_FIELDS) && Unambiguous(ROUTE_FIELDS) && Unambiguous(SITE_FIELDS)
  {
    hide Schema, Key;
    HandlerKeys();
    RouteKeys();
    SiteKeys();
  }

  lemma HandlerKeys()
    ensures forall i, j | 0 <= i < j < 4 :: Key(HANDLER_FIELDS[i]) != Key(HANDLER_FIELDS[j])
  {
  }

  lemma RouteKeys()
    ensures forall i, j | 0 <= i < j < 4 :: Key(ROUTE_FIELDS[i]) != Key(ROUTE_FIELDS[j])
  {
  }

  lemma SiteKeys()
    ensures forall i, j | 0 <= i < j < 6 :: Key(SITE_FIELDS[i]) != Key(SITE_FIELDS[j])
  {
    assert forall i | 0 <= i < 6 :: |Key(SITE_FIELDS[i])| == [4, 5, 9, 10, 8, 6][i];
  }

  /** The field of a struct gives it this key: its own, or one promoted from what it embeds. */
  predicate Gives(f: GoField, k: string) {
    !Skipped(f) && if Promotes(f) then k in Schema(f.inner) else Key(f) == k
  }

  lemma {:induction false} MembersUpTo(fields: seq<GoField>, n: nat, k: string)
    requires n <= |fields|
    ensures k in Promoted(fields, n) || k in Direct(fields, n) <==> exists i :: 0 <= i < n && Gives(fields[i], k)
    decreases n
  {
    hide Schema, Key;
    if n > 0 {
      MembersUpTo(fields, n - 1, k);
      assert Gives(fields[n - 1], k) ==> exists i :: 0 <= i < n && Gives(fields[i], k);
    }
  }

  /** The keys of a struct are those that its fields give it. */
  lemma SchemaIff(fields: seq<GoField>, k: string)
    ensures k in Schema(fields) <==> exists i :: 0 <= i < |fields| && Gives(fields[i], k)
  {
    hide Promoted, Direct;
    MembersUpTo(fields, |fields|, k);
  }

  /** The keys of handlers, routes and sites. */
  lemma HandlerMembers(k: string)
    ensures k in Schema(HANDLER_FIELDS) <==> k in {"proxy", "files", "respond", "redirect"}
  {
    var f := HANDLER_FIELDS;
    SchemaIff(f, k);
    hide Schema;
    assert Gives(f[0], k) <==> k == "proxy";
    assert Gives(f[1], k) <==> k == "files";
    assert Gives(f[2], k) <==> k == "respond";
    assert Gives(f[3], k) <==> k == "redirect";
  }

  lemma RouteMembers(k: string)
    ensures k in ROUTE.fields <==>
            k in {"name", "method", "path", "policies"} || k in {"proxy", "files", "respond", "redirect"}
  {
    var f := ROUTE_FIELDS;
    SchemaIff(f, k);
    HandlerMembers(k);
    hide Schema;
    assert Gives(f[0], k) <==> k == "name";
    assert Gives(f[1], k) <==> k == "method";
    assert Gives(f[2], k) <==> k == "path";
    assert Gives(f[3], k) <==> k == "policies";
    assert Gives(f[4], k) <==> k in Schema(HANDLER_FIELDS);
  }

  lemma SiteMembers(k: string)
    ensures k in SITE.fields <==>
            || k in {"name", "hosts", "listeners", "allow_http", "policies", "routes"}
            || k in {"proxy", "files", "respond", "redirect"}
  {
    var f := SITE_FIELDS;
    SchemaIff(f, k);
    HandlerMembers(k);
    hide Schema;
    assert Gives(f[0], k) <==> k == "name";
    assert Gives(f[1], k) <==> k == "hosts";
    assert Gives(f[2], k) <==> k == "listeners";
    assert Gives(f[3], k) <==> k == "allow_http";
    assert Gives(f[4], k) <==> k == "policies";
    assert Gives(f[5], k) <==> k == "routes";
    assert Gives(f[6], k) <==> k in Schema(HANDLER_FIELDS);
  }

  /** No value of the type holds extensions. */
  predicate Closed(t: Type)
    decreases t
  {
    match t
    case Slice(elem) => Closed(elem)
    case MapOf(elem) => Closed(elem)
    case Pointer(elem) => Closed(elem)
    case Struct(fields, form) => !form.Extended? && forall k | k in fields :: Closed(fields[k].typ)
    case _ => true
  }

  lemma {:induction false} ClosedIsClean(v: Value, t: Type)
    requires Typed(v, t) && Closed(t)
    ensures Clean(v, t)
    decreases t
  {
    match t
    case Slice(elem) =>
      forall i | 0 <= i < |v.items| ensures Clean(v.items[i], elem) { ClosedIsClean(v.items[i], elem); }
    case MapOf(elem) =>
      forall k | k in v.entries ensures Clean(v.entries[k], elem) { ClosedIsClean(v.entries[k], elem); }
    case Pointer(elem) =>
      if v.Ref? { ClosedIsClean(v.target, elem); }
    case Struct(fields, _) =>
      forall k | k in fields ensures Clean(v.fields[k], fields[k].typ) { ClosedIsClean(v.fields[k], fields[k].typ); }
    case _ =>
  }

  /** Every member's type comes from a field. */
  ghost predicate TypesFrom(fields: map<string, Field>, p: (string, Type) -> bool) {
    forall k | k in fields :: p(k, fields[k].typ)
  }

  /** Every field's type satisfies p, embedded fields being replaced by their own fields. */
  predicate FieldTypes(fields: seq<GoField>, p: (string, Type) -> bool) {
    forall i | 0 <= i < |fields| ::
      if Promotes(fields[i]) then FieldTypes(fields[i].inner, p)
      else Skipped(fields[i]) || p(Key(fields[i]), TypeOf(fields[i]))
  }

  lemma {:induction false} SchemaTypes(fields: seq<GoField>, p: (string, Type) -> bool)
    requires FieldTypes(fields, p)
    ensures TypesFrom(Schema(fields), p)
    decreases fields, 1
  {
    SchemaTypesUpTo(fields, |fields|, p);
  }

  lemma {:induction false} SchemaTypesUpTo(fields: seq<GoField>, n: nat, p: (string, Type) -> bool)
    requires n <= |fields| && FieldTypes(fields, p)
    ensures TypesFrom(Promoted(fields, n), p) && TypesFrom(Direct(fields, n), p)
    decreases fields, 0, n
  {
    if n > 0 {
      SchemaTypesUpTo(fields, n - 1, p);
      if Promotes(fields[n - 1]) {
        SchemaTypes(fields[n - 1].inner, p);
      }
    }
  }

  predicate ClosedAt(key: string, t: Type) {
    Closed(t)
  }

  lemma ClosedStruct(fields: seq<GoField>, form: Form)
    requires FieldTypes(fields, ClosedAt) && !form.Extended?
    ensures Closed(Struct(Schema(fields), form))
  {
    hide Schema;
    SchemaTypes(fields, ClosedAt);
  }

  lemma ClosedHandlers()
    ensures FieldTypes(HANDLER_FIELDS, ClosedAt)
  {
    hide Schema, Closed;
    ClosedTypes();
    ClosedStruct(PROXY_FIELDS, Shorthand("upstream"));
    ClosedStruct(FILES_FIELDS, Shorthand("root"));
    ClosedStruct(RESPOND_FIELDS, Shorthand("body"));
    ClosedStruct(REDIRECT_FIELDS, Shorthand("to"));
    ClosedPointer(PROXY);
    ClosedPointer(FILES);
    ClosedPointer(RESPOND);
    ClosedPointer(REDIRECT);
  }

  lemma ClosedTypes()
    ensures Closed(Text) && Closed(Bool) && Closed(Int) && Closed(Slice(Text)) && Closed(MapOf(Text))
  {
  }

  lemma ClosedPointer(t: Type)
    requires Closed(t)
    ensures Closed(Pointer(t))
  {
  }

  lemma ClosedRoute()
    ensures TypesFrom(ROUTE.fields, ClosedAt)
  {
    hide Schema, Closed;
    ClosedTypes();
    ClosedHandlers();
    SchemaTypes(ROUTE_FIELDS, ClosedAt);
  }

  predicate RoutesOrClosed(key: string, t: Type) {
    key == "routes" || Closed(t)
  }

  lemma SiteTypes()
    ensures TypesFrom(SITE.fields, RoutesOrClosed)
  {
    hide Schema, Closed;
    ClosedTypes();
    ClosedHandlers();
    assert FieldTypes(HANDLER_FIELDS, RoutesOrClosed);
    SchemaTypes(SITE_FIELDS, RoutesOrClosed);
  }

  lemma {:induction false} DirectHas(fields: seq<GoField>, i: nat, n: nat)
    requires i < n <= |fields| && !Skipped(fields[i]) && !Promotes(fields[i])
    requires forall j | i < j < n && !Skipped(fields[j]) && !Promotes(fields[j]) :: Key(fields[j]) != Key(fields[i])
    ensures Key(fields[i]) in Direct(fields, n)
    ensures Direct(fields, n)[Key(fields[i])]
            == Field(fields[i].tag.Tagged? && fields[i].tag.omitEmpty, TypeOf(fields[i]))
    decreases n
  {
    hide Schema;
    if i < n - 1 {
      DirectHas(fields, i, n - 1);
    }
  }

  /** A field of its own gives a struct a member as its tag says. */
  lemma MemberIs(fields: seq<GoField>, i: nat)
    requires Unambiguous(fields) && i < |fields| && Direct?(fields[i])
    ensures Key(fields[i]) in Schema(fields)
    ensures Schema(fields)[Key(fields[i])]
            == Field(fields[i].tag.Tagged? && fields[i].tag.omitEmpty, TypeOf(fields[i]))
  {
    hide Direct, Promoted;
    DirectHas(fields, i, |fields|);
  }

  lemma SiteHasRoutes()
    ensures "routes" in SITE.fields && SITE.fields["routes"].typ == Slice(ROUTE)
  {
    hide Direct, Promoted;
    DirectHas(SITE_FIELDS, 5, 7);
  }

  /** A route's extensions avoid its field names. */
  predicate RouteClean(v: Value)
    requires Typed(v, ROUTE)
  {
    v.extensions.Keys !! ROUTE.fields.Keys
  }

  lemma RouteCleanIff(v: Value)
    requires Typed(v, ROUTE)
    ensures Clean(v, ROUTE) <==> RouteClean(v)
  {
    hide Schema, Closed;
    ClosedRoute();
    forall k | k in ROUTE.fields
      ensures Clean(v.fields[k], ROUTE.fields[k].typ)
    {
      assert ClosedAt(k, ROUTE.fields[k].typ);
      ClosedIsClean(v.fields[k], ROUTE.fields[k].typ);
    }
  }

  /**
   A site survives encoding and decoding exactly when its own extensions avoid
   the names of site fields and those of each route avoid the names of route fields.
   */
  lemma SiteRoundTripIff(site: Value)
    requires Typed(site, SITE)
    ensures "routes" in site.fields && site.fields["routes"].L?
    ensures
      var routes := site.fields["routes"].items;
      && (forall i | 0 <= i < |routes| :: Typed(routes[i], ROUTE))
      && (Returns(site, SITE) <==>
            && site.extensions.Keys !! SITE.fields.Keys
            && forall i | 0 <= i < |routes| :: RouteClean(routes[i]))
  {
    hide Schema, Closed, Returns, RouteClean;
    SiteTypes();
    SiteHasRoutes();
    RoundTripIff(site, SITE);
    var routes := site.fields["routes"];
    assert Typed(routes, Slice(ROUTE));
    forall i | 0 <= i < |routes.items|
      ensures Clean(routes.items[i], ROUTE) <==> RouteClean(routes.items[i])
    {
      RouteCleanIff(routes.items[i]);
    }
    assert Clean(routes, Slice(ROUTE)) <==> forall i | 0 <= i < |routes.items| :: RouteClean(routes.items[i]);
    forall k | k in SITE.fields && k != "routes"
      ensures Clean(site.fields[k], SITE.fields[k].typ)
    {
      assert RoutesOrClosed(k, SITE.fields[k].typ);
      ClosedIsClean(site.fields[k], SITE.fields[k].typ);
    }
  }
}
