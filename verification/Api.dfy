/** The write protocol of the management API (api/api.go:100-125, api/api.go:200-253). */
module Api {
  import opened Wrappers
  import opened Certificates
  import opened Snapshots
  import opened Sites
  import Compile
  import Network
  import Binding
  import Gateway
  import Refreshing
  import opened ApiSites

  /** How a write ends when it is refused. */
  datatype Refusal = Invalid | PreconditionFailed | Refused(status: Status) | NotApplied(error: Gateway.ApplyError)

  /** One change of the active configuration, and the If-Match header that came with it. */
  datatype Revision = Revision(base: Config, next: Config, tag: string, saved: bool)

  /** A response: the ETag header and the configuration in the body. */
  datatype Reply = Reply(tag: string, body: Config)

  /** Each change started from the result of the one before. */
  ghost predicate Chain(initial: Config, commits: seq<Revision>, current: Config) {
    if commits == [] then current == initial
    else
      var n := |commits| - 1;
      current == commits[n].next && Chain(initial, commits[..n], commits[n].base)
  }

  /** A call of Save for the configuration that the `revision`-th change made active, and whether it succeeded. */
  datatype SaveCall = SaveCall(revision: nat, ok: bool)

  /** Which changes are handed to Save, in order. */
  function ToSave(commits: seq<Revision>): seq<nat> {
    if commits == [] then []
    else
      var n := |commits| - 1;
      ToSave(commits[..n]) + if commits[n].saved then [n + 1] else []
  }

  function Revisions(saves: seq<SaveCall>): seq<nat> {
    seq(|saves|, i requires 0 <= i < |saves| => saves[i].revision)
  }

  /** The change whose configuration was saved last, 0 if none was. */
  function Written(saves: seq<SaveCall>): nat {
    if saves == [] then 0
    else
      var last := saves[|saves| - 1];
      if last.ok then last.revision else Written(saves[..|saves| - 1])
  }

  function FileAfter(commits: seq<Revision>, saves: seq<SaveCall>): Option<Config> {
    if 0 < Written(saves) <= |commits| then Some(commits[Written(saves) - 1].next) else None
  }

  predicate Conditional(tag: string) {
    tag != "" && tag != "*"
  }

  ghost predicate Injective(etag: Config -> string) {
    forall a, b | etag(a) == etag(b) :: a == b
  }

  ghost predicate CommitOk(c: Revision, etag: Config -> string) {
    IdsOk(c.next.sites) && (Conditional(c.tag) ==> c.tag == etag(c.base))
  }

  lemma ChainNext(initial: Config, commits: seq<Revision>, current: Config, c: Revision)
    requires Chain(initial, commits, current) && c.base == current
    ensures Chain(initial, commits + [c], c.next)
    ensures ToSave(commits + [c]) == ToSave(commits) + if c.saved then [|commits| + 1] else []
  {
    assert (commits + [c])[..|commits|] == commits;
  }

  lemma {:induction false} ToSaveInOrder(commits: seq<Revision>)
    ensures forall i | 0 <= i < |ToSave(commits)| :: 0 < ToSave(commits)[i] <= |commits|
    ensures forall i, j | 0 <= i < j < |ToSave(commits)| :: ToSave(commits)[i] < ToSave(commits)[j]
    ensures commits != [] && commits[|commits| - 1].saved
            <==> ToSave(commits) != [] && ToSave(commits)[|ToSave(commits)| - 1] == |commits|
  {
    if commits != [] {
      ToSaveInOrder(commits[..|commits| - 1]);
    }
  }

  lemma {:induction false} WrittenIsOne(saves: seq<SaveCall>)
    ensures Written(saves) == 0 || Written(saves) in Revisions(saves)
  {
    if saves != [] {
      var n := |saves| - 1;
      WrittenIsOne(saves[..n]);
      assert Revisions(saves)[n] == saves[n].revision;
      assert Revisions(saves) == Revisions(saves[..n]) + [saves[n].revision];
    }
  }

  /** The last change is the one in the file exactly if it was handed to Save and the last call of Save succeeded. */
  lemma {:induction false} WrittenLastIff(commits: seq<Revision>, saves: seq<SaveCall>)
    requires Revisions(saves) == ToSave(commits) && commits != []
    ensures Written(saves) <= |commits|
    ensures Written(saves) == |commits| <==>
            commits[|commits| - 1].saved && saves != [] && saves[|saves| - 1].ok
  {
    ToSaveInOrder(commits);
    WrittenIsOne(saves);
    if saves != [] {
      var n := |saves| - 1;
      WrittenIsOne(saves[..n]);
      assert Revisions(saves) == Revisions(saves[..n]) + [saves[n].revision];
      forall i | 0 <= i < n
        ensures Revisions(saves[..n])[i] < saves[n].revision
      {
        assert Revisions(saves)[i] < Revisions(saves)[n];
      }
    }
  }

  /** The chain, link by link. */
  lemma {:induction false} ChainLinks(initial: Config, commits: seq<Revision>, current: Config)
    requires Chain(initial, commits, current)
    ensures commits != [] ==> commits[0].base == initial && commits[|commits| - 1].next == current
    ensures forall i | 0 < i < |commits| :: commits[i].base == commits[i - 1].next
  {
    if commits != [] {
      ChainLinks(initial, commits[..|commits| - 1], commits[|commits| - 1].base);
    }
  }

  /** The server compiles no configuration with a missing or repeated site ID. */
  lemma CompiledHasIds(sites: seq<SiteConfig>, c: Context)
    requires Compile.SitesOk(sites, c)
    ensures IdsOk(sites)
  {
    hide SiteOk, Claims, SiteID;
    forall i | 0 <= i < |sites|
      ensures SiteID(sites[i]) != ""
    {
      Compile.SiteOkHasID(sites[i], c);
    }
  }

  /** What a client or program may do next; `world` is what compiling and binding meet. */
  datatype Step =
    | Begin(id: nat, ifMatch: string, edit: Edit, world: World)
    | BeginUpdate(modified: Option<Config>, world: World)
    | Save(ok: bool)
    | Load(config: Config, world: World)
    | Read
    | Reread(id: nat)
    | Operate(operation: Gateway.Operation)

  /** Why a change is refused before the server is asked, the first reason that applies. */
  function Judged(etag: Config -> string, config: Config, ifMatch: string, edit: Edit): Option<Refusal> {
    var edited := Edited(config, edit);
    if edited == Err(BadRequest) then Some(Invalid)
    else if Conditional(ifMatch) && ifMatch != etag(config) then Some(PreconditionFailed)
    else if edited.Err? then Some(Refused(edited.error))
    else None
  }

  /** If-Match lets a change through if it is absent, "*", or the tag of the configuration, and no other. */
  lemma JudgedMeans(etag: Config -> string, config: Config, ifMatch: string, edit: Edit)
    ensures
      var r, current := Judged(etag, config, ifMatch, edit), ifMatch == "" || ifMatch == "*" || ifMatch == etag(config);
      && (r.None? <==> current && Edited(config, edit).Ok?)
      && (r == Some(Invalid) <==> (edit.Create? && SiteID(edit.site) == "")
                                  || (edit.Put? && SiteID(Adopted(edit.id, edit.site)) != edit.id))
      && (r == Some(PreconditionFailed) ==> !current)
      && (!current ==> r == Some(Invalid) || r == Some(PreconditionFailed))
      && (r.Some? && r.value.Refused? ==> Edited(config, edit) == Err(r.value.status))
  {
    hide SiteID, Adopted, Edited;
    BadRequestIff(config, edit);
  }

  /** Invalid are sites without an ID, and bodies that do not fit the URL. */
  lemma BadRequestIff(config: Config, edit: Edit)
    ensures Edited(config, edit) == Err(BadRequest) <==>
            || (edit.Create? && SiteID(edit.site) == "")
            || (edit.Put? && SiteID(Adopted(edit.id, edit.site)) != edit.id)
  {
    hide SiteID, Adopted, SiteIndex;
  }

  method RunCallback(config: Config, edit: Edit) returns (r: Result<Config, Status>)
    ensures r == Edited(config, edit)
  {
    match edit
    case Create(site) => r := CreateSite(config, site);
    case Put(id, site) => r := PutSite(config, id, site);
    case Delete(id) => r := DeleteSite(config, id);
    case Replace(c) => r := Ok(c);
  }

  /** Who waits for a change to be saved: a program, a client, or a client of PUT /config. */
  datatype Writer = Program | Client | Putter(id: nat)

  datatype Pending = Pending(config: Config, writer: Writer)

  /** What the service has done and is doing: the save it still owes, its saves, its changes, and tags it gave out. */
  datatype Journal = Journal(
    saving: Option<Pending>, file: Option<Config>, saves: seq<SaveCall>, commits: seq<Revision>, shown: seq<Reply>)

  /**
   Changes form a chain up to the active configuration, tags fit what they were given out for, Save has been called
   for every change so far, except one whose writer still holds the lock, and the file has what it saved last.
   */
  ghost predicate Records(etag: Config -> string, hasSave: bool, initial: Config, active: Config, j: Journal) {
    && Chain(initial, j.commits, active)
    && (forall c | c in j.commits :: CommitOk(c, etag))
    && (forall r | r in j.shown :: r.tag == etag(r.body))
    && Written(j.saves) <= |j.commits| && j.file == FileAfter(j.commits, j.saves)
    && if hasSave then
         && Revisions(j.saves) + (if j.saving.Some? then [|j.commits|] else []) == ToSave(j.commits)
         && (j.saving.Some? ==> j.saving.value.config == active)
       else j.saves == [] && j.saving.None?
  }

  lemma RecordsChange(etag: Config -> string, hasSave: bool, initial: Config, active: Config, j: Journal, c: Revision,
                      writer: Writer)
    requires Records(etag, hasSave, initial, active, j) && j.saving.None?
    requires c.base == active && CommitOk(c, etag)
    ensures Records(etag, hasSave, initial, c.next,
                    j.(commits := j.commits + [c],
                       saving := if hasSave && c.saved then Some(Pending(c.next, writer)) else None))
  {
    hide IdsOk, Chain, ToSave, CommitOk, Written, Revisions;
    ChainNext(initial, j.commits, active, c);
    assert forall s: seq<nat> :: s + [] == s;
  }

  lemma RecordsTag(etag: Config -> string, hasSave: bool, initial: Config, active: Config, j: Journal)
    requires Records(etag, hasSave, initial, active, j)
    ensures Records(etag, hasSave, initial, active, j.(shown := j.shown + [Reply(etag(active), active)]))
  {
    hide Chain, ToSave, CommitOk, Written, Revisions, FileAfter;
  }

  lemma RecordsSave(etag: Config -> string, hasSave: bool, initial: Config, active: Config, j: Journal, ok: bool)
    requires Records(etag, hasSave, initial, active, j) && j.saving.Some?
    ensures j.saving.value.config == active && Revisions(j.saves + [SaveCall(|j.commits|, ok)]) == ToSave(j.commits)
    ensures Records(etag, hasSave, initial, active,
                    j.(saving := None, file := if ok then Some(active) else j.file,
                       saves := j.saves + [SaveCall(|j.commits|, ok)]))
  {
    hide CommitOk;
    var last := SaveCall(|j.commits|, ok);
    var saves := j.saves + [last];
    assert saves[..|j.saves|] == j.saves;
    assert Revisions(saves) == Revisions(j.saves) + [|j.commits|];
    assert Revisions(saves) + [] == Revisions(saves);
    assert Revisions(saves)[|j.saves|] in ToSave(j.commits);
    assert j.commits != [];
  }

  // ----- What each operation does -----

  /** The fields of the service. */
  datatype State = State(
    server: Gateway.State, saving: Option<Pending>, file: Option<Config>, replies: map<nat, Config>,
    saves: seq<SaveCall>, commits: seq<Revision>, shown: seq<Reply>)

  /** A client, but no program, gets a tag for what is active, and one of PUT /config goes on to the body. */
  function Answered(etag: Config -> string, s: State, writer: Writer): State {
    var config := s.server.current.config;
    match writer
    case Program => s
    case Client => s.(shown := s.shown + [Reply(etag(config), config)])
    case Putter(id) => s.(shown := s.shown + [Reply(etag(config), config)], replies := s.replies[id := config])
  }

  /** After a change it is recorded, and left to save if that is to be done. */
  function Committed(hasSave: bool, a: State, server: Gateway.State, next: Config, tag: string, saved: bool,
                     writer: Writer): State {
    a.(server := server, commits := a.commits + [Revision(a.server.current.config, next, tag, saved)],
       saving := if hasSave && saved then Some(Pending(next, writer)) else None)
  }

  /** A change is made exactly if the server applies it. */
  ghost predicate CommittedBy(hasSave: bool, a: State, b: State, next: Config, tag: string, saved: bool,
                              writer: Writer, world: World, certs: Store, error: Option<Gateway.ApplyError>) {
    && Gateway.Applied(a.server, b.server, next, world, certs, error)
    && b == if error.None? then Committed(hasSave, a, b.server, next, tag, saved, writer) else a.(server := b.server)
  }

  /**
   A request is refused for the first reason that applies, and then nothing changes; otherwise as the server decides.
   Without Save the client gets its tag at once.
   */
  ghost predicate ChangedBy(etag: Config -> string, hasSave: bool, a: State, b: State, writer: Writer,
                            ifMatch: string, edit: Edit, world: World, certs: Store, refusal: Option<Refusal>) {
    match Judged(etag, a.server.current.config, ifMatch, edit)
    case Some(reason) => refusal == Some(reason) && b == a
    case None =>
      var next := Edited(a.server.current.config, edit).value;
      if refusal.Some? then
        && refusal.value.NotApplied?
        && CommittedBy(hasSave, a, b, next, ifMatch, true, writer, world, certs, Some(refusal.value.error))
      else
        var made := Committed(hasSave, a, b.server, next, ifMatch, true, writer);
        && CommittedBy(hasSave, a, made, next, ifMatch, true, writer, world, certs, None)
        && b == if hasSave then made else Answered(etag, made, writer)
  }

  lemma RefusedByServer(etag: Config -> string, hasSave: bool, a: State, b: State, writer: Writer, ifMatch: string,
                        edit: Edit, world: World, certs: Store, error: Option<Gateway.ApplyError>)
    requires Judged(etag, a.server.current.config, ifMatch, edit).None? && error.Some?
    requires CommittedBy(hasSave, a, b, Edited(a.server.current.config, edit).value, ifMatch, true, writer, world,
                         certs, error)
    ensures ChangedBy(etag, hasSave, a, b, writer, ifMatch, edit, world, certs, Some(NotApplied(error.value)))
  {
    hide Edited, CommittedBy;
  }

  lemma ChangeIsMade(etag: Config -> string, hasSave: bool, a: State, made: State, b: State, writer: Writer,
                     ifMatch: string, edit: Edit, world: World, certs: Store)
    requires Judged(etag, a.server.current.config, ifMatch, edit).None?
    requires CommittedBy(hasSave, a, made, Edited(a.server.current.config, edit).value, ifMatch, true, writer, world,
                         certs, None)
    requires b == if hasSave then made else Answered(etag, made, writer)
    ensures ChangedBy(etag, hasSave, a, b, writer, ifMatch, edit, world, certs, None)
  {
    hide Edited, Gateway.Applied;
  }

  lemma ChangeIsRefused(etag: Config -> string, hasSave: bool, a: State, writer: Writer, ifMatch: string, edit: Edit,
                        world: World, certs: Store)
    requires Judged(etag, a.server.current.config, ifMatch, edit).Some?
    ensures ChangedBy(etag, hasSave, a, a, writer, ifMatch, edit, world, certs,
                      Judged(etag, a.server.current.config, ifMatch, edit))
  {
    hide Edited, Judged;
  }

  /** If Save succeeds, the file holds the change and its writer is answered; it stays applied either way. */
  function Saved(etag: Config -> string, a: State, pending: Pending, ok: bool): State {
    var done := a.(saving := None, saves := a.saves + [SaveCall(|a.commits|, ok)]);
    if ok then Answered(etag, done.(file := Some(pending.config)), pending.writer) else done
  }

  ghost predicate Did(etag: Config -> string, hasSave: bool, a: State, b: State, step: Step) {
    match step
    case Begin(id, ifMatch, edit, world) =>
      if a.saving.Some? then b == a
      else exists certs, refusal ::
        ChangedBy(etag, hasSave, a, b, WriterOf(id, edit), ifMatch, edit, world, certs, refusal)
    case BeginUpdate(modified, world) =>
      if a.saving.Some? || modified.None? then b == a
      else exists certs, error ::
        CommittedBy(hasSave, a, b, modified.value, "", true, Program, world, certs, error)
    case Save(ok) => b == if a.saving.Some? then Saved(etag, a, a.saving.value, ok) else a
    case Load(config, world) =>
      if a.saving.Some? then b == a
      else exists certs, error :: CommittedBy(hasSave, a, b, config, "", false, Program, world, certs, error)
    case Read => b == Answered(etag, a, Client)
    case Reread(id) => b == a.(replies := a.replies - {id})
    case Operate(operation) =>
      if operation.DoApply? then b == a
      else Gateway.Took(a.server, b.server, operation) && b == a.(server := b.server)
  }

  /** What has happened is never forgotten. */
  lemma StepGrows(etag: Config -> string, hasSave: bool, a: State, b: State, step: Step)
    requires Did(etag, hasSave, a, b, step)
    ensures a.commits <= b.commits && a.saves <= b.saves && a.shown <= b.shown
  {
    hide Gateway.Applied, Gateway.Took, Judged, Edited;
  }

  function WriterOf(id: nat, edit: Edit): Writer {
    if edit.Replace? then Putter(id) else Client
  }

  class Service {
    const server: Gateway.Server
    const etag: Config -> string
    const hasSave: bool
    ghost const initial: Config

    var saving: Option<Pending>           // the write lock is held, with this left to save
    var file: Option<Config>              // what Save wrote last, if it has written anything
    var replies: map<nat, Config>         // PUT /config requests that have set their ETag, but not read the body
    ghost var saves: seq<SaveCall>
    ghost var commits: seq<Revision>
    ghost var shown: seq<Reply>           // what clients hold tags for: GET responses and their own writes

    constructor (server: Gateway.Server, etag: Config -> string, hasSave: bool)
      requires server.Valid()
      ensures Valid() && this.server == server && this.etag == etag && this.hasSave == hasSave
      ensures saving.None? && file.None? && commits == [] && saves == [] && replies == map[]
    {
      this.server, this.etag, this.hasSave, this.initial := server, etag, hasSave, server.current.config;
      saving, file, saves, replies, commits, shown := None, None, [], map[], [], [];
    }

    ghost predicate Valid()
      reads this, server
    {
      server.Valid() && Records(etag, hasSave, initial, Active(), Journal(saving, file, saves, commits, shown))
    }

    ghost function View(): State
      reads this, server
    {
      State(server.View(), saving, file, replies, saves, commits, shown)
    }

    /** The server's active configuration. */
    function Active(): Config
      reads this, server
    {
      server.current.config
    }

    /** The server is asked to apply `next`. */
    method Ask(next: Config, world: World) returns (error: Option<Gateway.ApplyError>, ghost certs: Store)
      requires server.Valid()
      modifies server
      ensures server.Valid() && Gateway.Applied(old(server.View()), server.View(), next, world, certs, error)
      ensures if error.None? then Active() == next && IdsOk(next.sites) else server.current == old(server.current)
    {
      hide IdsOk, Compile.Accepts, Compile.Sees, Gateway.Server.Valid, Compile.IsSnapshot, Compile.HasPolicies;
      hide Binding.Switched, Binding.RolledBack, Binding.SwitchDecided, Compile.ContextFor, Compile.ManagerFor;
      error, certs := server.Apply(next, world);
      if error.None? {
        AcceptedHasIds(next, old(server.Seen(world)), Some(old(server.current)), certs);
      }
    }

    /** A change under the write lock, up to the point where it has to be saved. */
    method Commit(next: Config, tag: string, saved: bool, writer: Writer, world: World)
      returns (error: Option<Gateway.ApplyError>, ghost certs: Store)
      requires Valid() && saving.None? && (Conditional(tag) ==> tag == etag(Active()))
      modifies server, this`saving, this`commits
      ensures Valid() && CommittedBy(hasSave, old(View()), View(), next, tag, saved, writer, world, certs, error)
      ensures error.None? ==>
                && commits == old(commits) + [Revision(old(Active()), next, tag, saved)]
                && saving == (if hasSave && saved then Some(Pending(next, writer)) else None)
      ensures error.Some? ==> commits == old(commits) && saving.None?
      ensures if error.None? then Active() == next else server.current == old(server.current)
    {
      hide IdsOk, Records, Gateway.Server.Valid, Gateway.Applied;
      ghost var c := Revision(Active(), next, tag, saved);
      ghost var j := Journal(saving, file, saves, commits, shown);
      error, certs := Ask(next, world);
      if error.None? {
        RecordsChange(etag, hasSave, initial, c.base, j, c, writer);
        commits := commits + [c];
        if hasSave && saved {
          saving := Some(Pending(next, writer));
        }
      }
    }

    /** Update: a program's change, up to the point where it has to be saved like an API write. */
    method Update(modified: Config, world: World) returns (error: Option<Gateway.ApplyError>, ghost certs: Store)
      requires Valid() && saving.None?
      modifies server, this`saving, this`commits
      ensures Valid() && CommittedBy(hasSave, old(View()), View(), modified, "", true, Program, world, certs, error)
      ensures error.None? ==>
                && Active() == modified && commits == old(commits) + [Revision(old(Active()), modified, "", true)]
                && saving == if hasSave then Some(Pending(modified, Program)) else None
    {
      hide Records, Gateway.Server.Valid, Gateway.Applied;
      error, certs := Commit(modified, "", true, Program, world);
    }

    /** Apply: a configuration from elsewhere, such as the file, which is not saved. */
    method Load(config: Config, world: World) returns (error: Option<Gateway.ApplyError>, ghost certs: Store)
      requires Valid() && saving.None?
      modifies server, this`saving, this`commits
      ensures Valid() && CommittedBy(hasSave, old(View()), View(), config, "", false, Program, world, certs, error)
      ensures saving.None?
      ensures error.None? ==>
                Active() == config && commits == old(commits) + [Revision(old(Active()), config, "", false)]
    {
      hide Records, Gateway.Server.Valid, Gateway.Applied;
      error, certs := Commit(config, "", false, Program, world);
    }

    /**
     A change request up to its commit. The body is checked before the lock and the If-Match header. Without Save
     the client gets its tag at once.
     */
    method Change(writer: Writer, ifMatch: string, edit: Edit, world: World)
      returns (refusal: Option<Refusal>, ghost certs: Store)
      requires Valid() && saving.None?
      modifies server, this`saving, this`commits, this`shown, this`replies
      ensures Valid()
      ensures ChangedBy(etag, hasSave, old(View()), View(), writer, ifMatch, edit, world, certs, refusal)
      ensures refusal.None? ==>
                && Edited(old(Active()), edit) == Ok(Active())
                && commits == old(commits) + [Revision(old(Active()), Active(), ifMatch, true)]
                && saving == (if hasSave then Some(Pending(Active(), writer)) else None)
                && Told(writer, !hasSave, old(shown), shown, old(replies), replies)
    {
      hide IdsOk, Edited, Records, Gateway.Server.Valid, ChangedBy, CommittedBy, Answered;
      ghost var a := View();
      certs := server.current.certs;
      var edited := RunCallback(server.current.config, edit);
      if Judged(etag, a.server.current.config, ifMatch, edit).Some? {
        ChangeIsRefused(etag, hasSave, a, writer, ifMatch, edit, world, certs);
      }
      if edited == Err(BadRequest) {
        return Some(Invalid), certs;
      }
      if ifMatch != "" && ifMatch != "*" && ifMatch != etag(server.current.config) {
        return Some(PreconditionFailed), certs;
      }
      if edited.Err? {
        return Some(Refused(edited.error)), certs;
      }
      var error;
      error, certs := Commit(edited.value, ifMatch, true, writer, world);
      if error.Some? {
        RefusedByServer(etag, hasSave, a, View(), writer, ifMatch, edit, world, certs, error);
        return Some(NotApplied(error.value)), certs;
      }
      ghost var made := View();
      if !hasSave {
        Answer(writer);
      }
      ChangeIsMade(etag, hasSave, a, made, View(), writer, ifMatch, edit, world, certs);
      return None, certs;
    }

    /** Clients that are answered, but no programs, get a tag; PUT /config goes on to its body. */
    ghost predicate Told(writer: Writer, done: bool, shown0: seq<Reply>, shown1: seq<Reply>,
                         replies0: map<nat, Config>, replies1: map<nat, Config>)
      reads this, server
    {
      && shown1 == shown0 + (if done && !writer.Program? then [Reply(etag(Active()), Active())] else [])
      && replies1 == if done && writer.Putter? then replies0[writer.id := Active()] else replies0
    }

    method Answer(writer: Writer)
      requires Valid()
      modifies this`shown, this`replies
      ensures Valid() && View() == Answered(etag, old(View()), writer)
      ensures Told(writer, true, old(shown), shown, old(replies), replies)
    {
      hide Records, Gateway.Server.Valid;
      if !writer.Program? {
        Show();
      }
      if writer.Putter? {
        replies := replies[writer.id := server.current.config];
      }
    }

    /** The client gets the tag of the active configuration. */
    ghost method Show()
      requires Valid()
      modifies this`shown
      ensures Valid() && shown == old(shown) + [Reply(etag(Active()), Active())]
    {
      hide Records, Gateway.Server.Valid;
      RecordsTag(etag, hasSave, initial, Active(), Journal(saving, file, saves, commits, shown));
      shown := shown + [Reply(etag(Active()), Active())];
    }

    /** The writer calls Save, which may fail, answers, and lets go of the lock. */
    method FinishSave(ok: bool)
      requires Valid() && saving.Some?
      modifies this`file, this`saves, this`saving, this`shown, this`replies
      ensures Valid() && old(saving).value.config == Active() && Revisions(saves) == ToSave(commits)
      ensures View() == Saved(etag, old(View()), old(saving).value, ok)
      ensures saving.None? && saves == old(saves) + [SaveCall(|commits|, ok)] && commits == old(commits)
      ensures file == if ok then Some(Active()) else old(file)
      // After a failure the change stays applied, but nobody gets a tag for it.
      ensures Told(old(saving).value.writer, ok, old(shown), shown, old(replies), replies)
    {
      hide Records, Gateway.Server.Valid;
      RecordsSave(etag, hasSave, initial, Active(), Journal(saving, file, saves, commits, shown), ok);
      var pending := saving.value;
      saves := saves + [SaveCall(|commits|, ok)];
      saving := None;
      if ok {
        file := Some(pending.config);
        Answer(pending.writer);
      }
    }

    method Read() returns (r: Reply)
      requires Valid()
      modifies this`shown
      ensures Valid() && r == Reply(etag(Active()), Active()) && View() == Answered(etag, old(View()), Client)
    {
      hide Records, Gateway.Server.Valid;
      r := Reply(etag(server.current.config), server.current.config);
      Show();
    }

    /** PUT /config up to the point where it has to be saved, or lets go of the lock. */
    method PutConfig(id: nat, ifMatch: string, next: Config, world: World)
      returns (refusal: Option<Refusal>, ghost certs: Store)
      requires Valid() && saving.None?
      modifies server, this`saving, this`commits, this`shown, this`replies
      ensures Valid()
      ensures ChangedBy(etag, hasSave, old(View()), View(), Putter(id), ifMatch, Replace(next), world, certs, refusal)
    {
      hide Records, Gateway.Server.Valid, ChangedBy;
      refusal, certs := Change(Putter(id), ifMatch, Replace(next), world);
    }

    /** Then it answers with the configuration as it is by now, which fits the tag exactly if it is the one put. */
    method Reread(id: nat) returns (r: Reply)
      requires id in replies
      modifies this`replies
      ensures r == Reply(etag(old(replies)[id]), Active()) && View() == old(View()).(replies := old(replies) - {id})
      ensures Injective(etag) ==> (r.tag == etag(r.body) <==> Active() == old(replies)[id])
    {
      r := Reply(etag(replies[id]), server.current.config);
      replies := replies - {id};
    }

    /** Starting, stopping and refreshing go on beside the API. */
    method Operate(operation: Gateway.Operation)
      requires Valid() && !operation.DoApply?
      modifies server
      ensures Valid() && Active() == old(Active()) && Gateway.Took(old(server.View()), server.View(), operation)
    {
      hide IdsOk, Chain, ToSave, CommitOk, Gateway.Server.Valid;
      Gateway.Operate(server, operation);
      KeepsConfiguration(old(server.View()), server.View(), operation);
    }

    /**
     Any interleaving of clients, of programs that go through the API, and of the server's own operations: a run of the
     specified steps.
     */
    method Run(steps: seq<Step>) returns (ghost states: seq<State>)
      requires Valid()
      modifies this, server
      ensures Valid() && old(commits) <= commits && old(saves) <= saves && old(shown) <= shown
      ensures |states| == |steps| + 1 && states[0] == old(View()) && states[|steps|] == View()
      ensures forall i | 0 <= i < |steps| :: Did(etag, hasSave, states[i], states[i + 1], steps[i])
    {
      hide Records, Gateway.Server.Valid, Did;
      states := [View()];
      for i := 0 to |steps|
        invariant Valid() && old(commits) <= commits && old(saves) <= saves && old(shown) <= shown
        invariant |states| == i + 1 && states[0] == old(View()) && states[i] == View()
        invariant forall k | 0 <= k < i :: Did(etag, hasSave, states[k], states[k + 1], steps[k])
      {
        TakeStep(steps[i]);
        StepGrows(etag, hasSave, states[i], View(), steps[i]);
        states := states + [View()];
      }
    }

    method TakeStep(step: Step)
      requires Valid()
      modifies this, server
      ensures Valid() && Did(etag, hasSave, old(View()), View(), step)
    {
      hide Records, Revisions, ToSave, Gateway.Server.Valid, Gateway.Took, ChangedBy, CommittedBy, Answered, Saved;
      match step
      case Begin(id, ifMatch, edit, world) =>
        if saving.None? {
          var refusal, certs := Change(WriterOf(id, edit), ifMatch, edit, world);
          assert ChangedBy(etag, hasSave, old(View()), View(), WriterOf(id, edit), ifMatch, edit, world, certs,
                           refusal);
        }
      case BeginUpdate(modified, world) =>
        if saving.None? && modified.Some? {
          var error, certs := Update(modified.value, world);
          assert CommittedBy(hasSave, old(View()), View(), modified.value, "", true, Program, world, certs, error);
        }
      case Save(ok) =>
        if saving.Some? {
          FinishSave(ok);
        }
      case Load(c, world) =>
        if saving.None? {
          var error, certs := Load(c, world);
          assert CommittedBy(hasSave, old(View()), View(), c, "", false, Program, world, certs, error);
        }
      case Read =>
        var _ := Read();
      case Reread(id) =>
        if id in replies {
          var _ := Reread(id);
        }
      case Operate(operation) =>
        if !operation.DoApply? {
          Operate(operation);
        }
    }

    /** Site IDs are non-empty and unique at all times, because everything active was compiled. */
    lemma ActiveHasIds()
      requires Valid()
      ensures IdsOk(Active().sites) && forall c | c in commits :: IdsOk(c.next.sites)
    {
      CompiledHasIds(Active().sites, server.context);
    }

    /** A write accepted with a tag from a read changed exactly what the client was shown. */
    lemma AcceptedMeansUnchanged(i: nat, r: Reply)
      requires Valid() && Injective(etag) && i < |commits| && r in shown
      requires r.tag != "" && r.tag != "*" && commits[i].tag == r.tag
      ensures commits[i].base == r.body
      ensures i > 0 ==> commits[i - 1].next == r.body
    {
      assert commits[i] in commits;
      ChainLinks(initial, commits, Active());
    }

    /**
     With nobody writing, the file holds what the last change made active exactly if that change was to be saved and
     its Save succeeded. Otherwise it is left with an earlier change, and fits only if that was to the same value.
     */
    lemma SavedIsActiveIff()
      requires Valid() && hasSave && saving.None? && commits != []
      ensures Revisions(saves) == ToSave(commits)
      ensures Written(saves) == |commits| <==>
              commits[|commits| - 1].saved && saves != [] && saves[|saves| - 1].ok
      ensures Written(saves) == |commits| ==> file == Some(Active())
      ensures Written(saves) < |commits| ==> file == FileAfter(commits[..|commits| - 1], saves)
      ensures file == Some(Active()) <==> Written(saves) > 0 && commits[Written(saves) - 1].next == Active()
    {
      hide Gateway.Server.Valid, CommitOk, ToSave, Revisions, Written;
      assert Revisions(saves) + [] == Revisions(saves);
      WrittenLastIff(commits, saves);
    }
  }

  lemma KeepsConfiguration(a: Gateway.State, b: Gateway.State, operation: Gateway.Operation)
    requires Gateway.Took(a, b, operation) && !operation.DoApply?
    ensures b.current.config == a.current.config
  {
  }

  lemma AcceptedHasIds(config: Config, world: World, prev: Option<Snapshot>, certs: Store)
    requires Compile.Accepts(config, world, prev, certs)
    ensures IdsOk(config.sites)
  {
    hide Compile.SitesOk, IdsOk;
    var acme := Compile.ManagerFor(config.acme, world, prev).value;
    CompiledHasIds(config.sites, Compile.ContextFor(config, certs, acme, world));
  }

  /** Two PUT /config requests: the first is answered with its own tag and the configuration of the second. */
  method NewerBody(host: Network.Host, isIP: string -> bool, etag: Config -> string) returns (r: Reply)
    requires !isIP("a")
    ensures r == Reply(etag(Refreshing.OnlyTls(false)), Refreshing.OnlyTls(true))
  {
    hide Records, Gateway.Server.Valid, Refreshing.OnlyTls, Refreshing.PlainListener;
    var server := Refreshing.OnlyTlsServer(host, isIP);
    var s := new Service(server, etag, false);
    PutOnlyTls(s, 1, false);
    PutOnlyTls(s, 2, true);
    r := s.Reread(1);
  }

  method PutOnlyTls(s: Service, id: nat, off: bool)
    requires s.Valid() && s.saving.None? && !s.server.started && !s.server.isIP("a")
    modifies s, s.server
    ensures s.Valid() && !s.server.started && s.Active() == Refreshing.OnlyTls(off) && s.file == old(s.file)
    ensures s.saving == if s.hasSave then Some(Pending(Refreshing.OnlyTls(off), Putter(id))) else None
    ensures s.replies == if s.hasSave then old(s.replies) else old(s.replies)[id := Refreshing.OnlyTls(off)]
    ensures |s.commits| == |old(s.commits)| + 1 && s.saves == old(s.saves)
  {
    hide Compile.Accepts, Compile.Sees, Records, Gateway.Server.Valid, Refreshing.OnlyTls;
    ghost var m, before := s.server.nextManager, s.server.current;
    assert s.server.Seen(Refreshing.At(0, s.server.isIP, 0)) == Refreshing.At(0, s.server.isIP, m);
    var refusal, certs := s.PutConfig(id, "", Refreshing.OnlyTls(off), Refreshing.At(0, s.server.isIP, 0));
    Refreshing.OnlyTlsCompiles(off, s.server.isIP, m, Some(before), certs);
  }

  /** Two PUT /config requests, of which only the first is saved: the file stays behind the active configuration. */
  method FileBehind(host: Network.Host, isIP: string -> bool, etag: Config -> string) returns (s: Service)
    requires !isIP("a")
    ensures s.Valid() && s.hasSave && s.saving.None? && |s.commits| == 2
    ensures s.file == Some(Refreshing.OnlyTls(false)) && s.Active() == Refreshing.OnlyTls(true)
    ensures s.file != Some(s.Active())
  {
    hide Records, Gateway.Server.Valid, Refreshing.PlainListener;
    var server := Refreshing.OnlyTlsServer(host, isIP);
    s := new Service(server, etag, true);
    PutOnlyTls(s, 1, false);
    s.FinishSave(true);
    PutOnlyTls(s, 2, true);
    s.FinishSave(false);
  }
}
