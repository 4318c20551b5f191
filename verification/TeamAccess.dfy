/**
 The per-request gates in front of a workspace route, and the opener behind them. What the
 deployment supplies (the stored teams, the access policy, the resolver and the card store, the
 leaf guard, Unicode case folding, the identifier syntax) is given as values and functions.
 */
module TeamAccess {
  import opened Wrappers
  import opened Sequences
  import opened WorkspacePaths

  type TeamId = nat
  datatype User = User(id: string, roles: set<string>)

  datatype Process = Process(id: TeamId, owner: string, metadataIndexes: seq<string>)
  datatype Context = Context(team: TeamId, owner: string, metadataIndexes: seq<string>)

  datatype Deployment = Deployment(
    teams: map<TeamId, Process>,
    allows: (Context, User) -> bool,
    resolver: Process -> Resolver,
    cards: Process -> CardStore,
    isLeaf: string -> bool,
    fold: string -> string,
    parseId: string -> Option<TeamId>,
    showId: TeamId -> string)

  datatype Refusal = BadRequest | SharedRefused | NotFound | Unresolved

  const SHARED := "_shared"

  function TeamContext(team: TeamId, process: Process): Context {
    Context(team, process.owner, process.metadataIndexes)
  }

  // ----- the checks that only branch -----

  /** From the path's scope alone: `_shared`, in any spelling, is refused to everyone; any other
      scope is a principal the policy is asked about, with the team's own indexes. */
  function CheckScope(d: Deployment, p: Path, team: TeamId, user: User, indexes: seq<string>): (r: Option<Refusal>)
    ensures r.None? <==> d.fold(p.scope) != SHARED && d.allows(Context(team, p.scope, indexes), user)
  {
    if d.fold(p.scope) == SHARED then Some(SharedRefused)
    else if !d.allows(Context(team, p.scope, indexes), user) then Some(NotFound)
    else None
  }

  function ResolveDeclared(d: Deployment, process: Process, workspaceId: Option<string>)
    : Result<Option<Path>, Refusal>
  {
    var resolve, store := d.resolver(process), d.cards(process);
    if workspaceId.None? then
      var own := DefaultPath(resolve, store);
      if own.Ok? then Ok(Some(own.value)) else Err(Unresolved)
    else
      var declared := DeclaredPaths(resolve, store);
      if declared.Err? then Err(Unresolved)
      else
        var selected := SelectDeclared(declared.value, workspaceId.value);
        if selected.Ok? then Ok(selected.value) else Err(Unresolved)
  }

  predicate NamesDeniedTeam(d: Deployment, workspaceId: string, user: User) {
    var named := d.parseId(workspaceId);
    && named.Some? && named.value in d.teams
    && !d.allows(TeamContext(named.value, d.teams[named.value]), user)
  }

  // ----- the request and its two slots -----

  class Request {
    var teamProcess: Option<Process>
    var authorizedPath: Option<Path>

    constructor ()
      ensures teamProcess.None? && authorizedPath.None?
    {
      teamProcess, authorizedPath := None, None;
    }
  }

  predicate TeamAllowed(d: Deployment, team: TeamId, user: User) {
    team in d.teams && d.allows(TeamContext(team, d.teams[team]), user)
  }

  /** A missing team and a denied caller get one answer, and only an authorised team is kept. */
  method RequireTeamAccess(d: Deployment, request: Request, team: TeamId, user: User)
    returns (r: Result<User, Refusal>)
    modifies request`teamProcess
    ensures r == if TeamAllowed(d, team, user) then Ok(user) else Err(NotFound)
    ensures request.teamProcess == if r.Ok? then Some(d.teams[team]) else old(request.teamProcess)
  {
    if team !in d.teams { return Err(NotFound); }
    var process := d.teams[team];
    if !d.allows(TeamContext(team, process), user) { return Err(NotFound); }
    request.teamProcess := Some(process);
    r := Ok(user);
  }

  /** What the workspace gate makes of one request: the path it authorises, or its refusal. */
  function Gate(d: Deployment, known: Option<Process>, team: TeamId, workspaceId: Option<string>, user: User)
    : Result<Path, Refusal>
  {
    if workspaceId.Some? && !d.isLeaf(workspaceId.value) then Err(BadRequest)
    else if workspaceId.Some? && NamesDeniedTeam(d, workspaceId.value, user) then Err(NotFound)
    else if known.None? && team !in d.teams then Err(NotFound)
    else
      var process := if known.Some? then known.value else d.teams[team];
      var selected := ResolveDeclared(d, process, workspaceId);
      if selected.Err? then Err(selected.error)
      else if selected.value.None? then Err(NotFound)
      else
        var refused := CheckScope(d, selected.value.value, team, user, process.metadataIndexes);
        if refused.Some? then Err(refused.value) else Ok(selected.value.value)
  }

  /** Only what the gate authorised is kept for the opener; a refusal leaves the slot as it was. */
  method RequireWorkspaceAccess(d: Deployment, request: Request, team: TeamId, workspaceId: Option<string>, user: User)
    returns (r: Result<User, Refusal>)
    modifies request`authorizedPath
    ensures var g := Gate(d, request.teamProcess, team, workspaceId, user);
            if g.Ok? then r == Ok(user) && request.authorizedPath == Some(g.value)
            else r == Err(g.error) && request.authorizedPath == old(request.authorizedPath)
  {
    if workspaceId.Some? {
      if !d.isLeaf(workspaceId.value) { return Err(BadRequest); }
      var named := d.parseId(workspaceId.value);
      if named.Some? && named.value in d.teams {
        if !d.allows(TeamContext(named.value, d.teams[named.value]), user) { return Err(NotFound); }
      }
    }
    var process;
    if request.teamProcess.Some? {
      process := request.teamProcess.value;
    } else {
      if team !in d.teams { return Err(NotFound); }
      process := d.teams[team];
    }
    var selected := ResolveDeclared(d, process, workspaceId);
    if selected.Err? { return Err(selected.error); }
    if selected.value.None? { return Err(NotFound); }
    var path := selected.value.value;
    var refused := CheckScope(d, path, team, user, process.metadataIndexes);
    if refused.Some? { return Err(refused.value); }
    request.authorizedPath := Some(path);
    r := Ok(user);
  }

  /** What the request names: its `workspace_id`, or the team itself. */
  function Selector(d: Deployment, team: TeamId, workspaceId: Option<string>): string {
    if workspaceId.None? then d.showId(team) else workspaceId.value
  }

  /** Opens the authorised path or nothing: without a gate's path, or with one for another
      selector, the answer is 404. */
  method GetWorkspace(d: Deployment, request: Request, team: TeamId, workspaceId: Option<string>)
    returns (r: Result<Path, Refusal>)
    ensures r.Ok? ==> request.authorizedPath == Some(r.value)
    ensures r.Ok? <==>
              && (workspaceId.Some? ==> d.isLeaf(workspaceId.value))
              && request.authorizedPath.Some?
              && request.authorizedPath.value.leaf == Selector(d, team, workspaceId)
    ensures r.Err? ==> r.error == if workspaceId.Some? && !d.isLeaf(workspaceId.value) then BadRequest else NotFound
  {
    if workspaceId.Some? && !d.isLeaf(workspaceId.value) { return Err(BadRequest); }
    var path := request.authorizedPath;
    var selector := if workspaceId.None? then d.showId(team) else workspaceId.value;
    if path.None? || path.value.leaf != selector { return Err(NotFound); }
    r := Ok(path.value);
  }

  // ----- a whole request -----

  /** Every stored team is stored under its own identifier. */
  ghost predicate WellKeyed(d: Deployment) {
    forall team <- d.teams :: d.teams[team].id == team
  }

  /** The leaf of a team's default tree is its identifier, whichever way it is shared. */
  ghost predicate DefaultLeafIsTeam(d: Deployment) {
    forall p: Process, sharable: bool ::
      d.resolver(p)(DefaultLayout(sharable)).Ok? ==> d.resolver(p)(DefaultLayout(sharable)).value.leaf == d.showId(p.id)
  }

  /** The whole answer to a request: the team gate's, then the workspace gate's. */
  function Answer(d: Deployment, team: TeamId, workspaceId: Option<string>, user: User): Result<Path, Refusal> {
    if TeamAllowed(d, team, user) then Gate(d, Some(d.teams[team]), team, workspaceId, user) else Err(NotFound)
  }

  /** A workspace route: both gates and then the opener, on one fresh request. The opener adds
      no refusal of its own, so what the gates pass is served. */
  method Serve(d: Deployment, team: TeamId, workspaceId: Option<string>, user: User) returns (r: Result<Path, Refusal>)
    requires WellKeyed(d) && DefaultLeafIsTeam(d)
    ensures r == Answer(d, team, workspaceId, user)
  {
    var request := new Request();
    var teamGate := RequireTeamAccess(d, request, team, user);
    if teamGate.Err? { return Err(teamGate.error); }
    var workspaceGate := RequireWorkspaceAccess(d, request, team, workspaceId, user);
    if workspaceGate.Err? { return Err(workspaceGate.error); }
    AuthorizedLeaf(d, team, workspaceId, user);
    r := GetWorkspace(d, request, team, workspaceId);
  }

  /** The path a gate authorises is the one its selector names. */
  lemma AuthorizedLeaf(d: Deployment, team: TeamId, workspaceId: Option<string>, user: User)
    requires WellKeyed(d) && DefaultLeafIsTeam(d) && Answer(d, team, workspaceId, user).Ok?
    ensures workspaceId.Some? ==> d.isLeaf(workspaceId.value)
    ensures Answer(d, team, workspaceId, user).value.leaf == Selector(d, team, workspaceId)
  {
    var process := d.teams[team];
    var resolve, store := d.resolver(process), d.cards(process);
    if workspaceId.Some? {
      var p := Answer(d, team, workspaceId, user).value;
      DeclaredDistinct(resolve, store);
      SelectIff(DeclaredPaths(resolve, store).value, workspaceId.value, p);
    }
  }

  /** The path a request concerns, by the layouts the team's cards declare. Without a selector it is
      the default tree that the cards agree on; with one, the one declared path with that leaf. */
  ghost predicate IsSelected(d: Deployment, process: Process, workspaceId: Option<string>, p: Path) {
    && d.cards(process).Ok?
    && var resolve, layouts := d.resolver(process), LayoutsOf(d.cards(process).value);
    if workspaceId.None? then
      && !(Layout(None, [], true) in layouts && Layout(None, [], false) in layouts)
      && resolve(Layout(None, [], Layout(None, [], true) in layouts)) == Ok(p)
    else
      && (forall l <- layouts :: resolve(l).Ok?)
      && (exists l <- layouts :: resolve(l) == Ok(p)) && p.leaf == workspaceId.value
      && forall l <- layouts | resolve(l).value.leaf == workspaceId.value :: resolve(l).value == p
  }

  lemma ResolvesSelected(d: Deployment, process: Process, workspaceId: Option<string>, p: Path)
    ensures ResolveDeclared(d, process, workspaceId) == Ok(Some(p)) <==> IsSelected(d, process, workspaceId, p)
  {
    var resolve, store := d.resolver(process), d.cards(process);
    if workspaceId.None? {
      DefaultPathIs(resolve, store);
    } else {
      DeclaredExact(resolve, store);
      if DeclaredPaths(resolve, store).Ok? {
        DeclaredLists(resolve, store);
        SelectsOne(DeclaredPaths(resolve, store).value, resolve, LayoutsOf(store.value), workspaceId.value, p);
      }
    }
  }

  ghost predicate IsDeclared(resolve: Resolver, layouts: seq<Layout>, p: Path) {
    exists l <- layouts :: resolve(l) == Ok(p)
  }

  /** The declared paths, as a list without duplicates of what the layouts resolve to. */
  ghost predicate Lists(declared: seq<Path>, resolve: Resolver, layouts: seq<Layout>) {
    && NoDuplicates(declared) && (forall l <- layouts :: resolve(l).Ok?)
    && forall p :: p in declared <==> IsDeclared(resolve, layouts, p)
  }

  lemma DeclaredLists(resolve: Resolver, store: CardStore)
    requires store.Ok? && DeclaredPaths(resolve, store).Ok?
    ensures Lists(DeclaredPaths(resolve, store).value, resolve, LayoutsOf(store.value))
  {
    DeclaredDistinct(resolve, store);
    DeclaredExact(resolve, store);
  }

  lemma SelectsOne(declared: seq<Path>, resolve: Resolver, layouts: seq<Layout>, leaf: string, p: Path)
    requires Lists(declared, resolve, layouts)
    ensures SelectDeclared(declared, leaf) == Ok(Some(p)) <==>
              && IsDeclared(resolve, layouts, p) && p.leaf == leaf
              && forall l <- layouts | resolve(l).value.leaf == leaf :: resolve(l).value == p
  {
    SelectIff(declared, leaf, p);
    forall l | l in layouts ensures resolve(l).value in declared {
      assert IsDeclared(resolve, layouts, resolve(l).value);
    }
    forall q | q in declared ensures exists l <- layouts :: resolve(l).value == q {
      assert IsDeclared(resolve, layouts, q);
    }
  }

  lemma SelectsTwo(declared: seq<Path>, resolve: Resolver, layouts: seq<Layout>, leaf: string)
    requires Lists(declared, resolve, layouts)
    ensures SelectDeclared(declared, leaf).Err? <==>
              exists l <- layouts, l' <- layouts ::
                resolve(l) != resolve(l') && resolve(l).value.leaf == resolve(l').value.leaf == leaf
  {
    SelectIff(declared, leaf, Path("", "", leaf));
    if q, q' :| q in declared && q' in declared && q != q' && q.leaf == q'.leaf == leaf {
      assert IsDeclared(resolve, layouts, q) && IsDeclared(resolve, layouts, q');
      var l :| l in layouts && resolve(l) == Ok(q);
      var l' :| l' in layouts && resolve(l') == Ok(q');
      assert resolve(l) != resolve(l');
    }
    if l, l' :| l in layouts && l' in layouts && resolve(l) != resolve(l')
                && resolve(l).value.leaf == resolve(l').value.leaf == leaf {
      assert IsDeclared(resolve, layouts, resolve(l).value) && IsDeclared(resolve, layouts, resolve(l').value);
      assert resolve(l).value != resolve(l').value;
    }
  }

  lemma SelectsNone(declared: seq<Path>, resolve: Resolver, layouts: seq<Layout>, leaf: string)
    requires Lists(declared, resolve, layouts)
    ensures SelectDeclared(declared, leaf) == Ok(None) <==> forall l <- layouts :: resolve(l).value.leaf != leaf
  {
    SelectIff(declared, leaf, Path("", "", leaf));
    forall l | l in layouts ensures resolve(l).value in declared {
      assert IsDeclared(resolve, layouts, resolve(l).value);
    }
    forall q | q in declared ensures exists l <- layouts :: resolve(l).value == q {
      assert IsDeclared(resolve, layouts, q);
    }
  }

  /** The caller may use the team: the policy admits them to it, by its stored owner and indexes. */
  ghost predicate MayUse(d: Deployment, team: TeamId, user: User) {
    && team in d.teams
    && d.allows(Context(team, d.teams[team].owner, d.teams[team].metadataIndexes), user)
  }

  /** The selector is the identifier of a stored team that the policy denies the caller. */
  ghost predicate NamesForeign(d: Deployment, workspaceId: string, user: User) {
    && d.parseId(workspaceId).Some? && d.parseId(workspaceId).value in d.teams
    && var named := d.parseId(workspaceId).value;
    !d.allows(Context(named, d.teams[named].owner, d.teams[named].metadataIndexes), user)
  }

  /** The selector gets past the checks that look at it alone. */
  ghost predicate SelectorPasses(d: Deployment, workspaceId: Option<string>, user: User) {
    workspaceId.Some? ==> d.isLeaf(workspaceId.value) && !NamesForeign(d, workspaceId.value, user)
  }

  /** One convergence point: a path is served exactly when the policy admits the caller to the
      team, the selector is a leaf and names no team denied to them, the path is the one the
      team's own cards select, its scope is not a spelling of `_shared`, and the policy admits
      the caller to that scope. */
  lemma ServedIff(d: Deployment, team: TeamId, workspaceId: Option<string>, user: User, p: Path)
    ensures Answer(d, team, workspaceId, user) == Ok(p) <==>
              && MayUse(d, team, user) && SelectorPasses(d, workspaceId, user)
              && IsSelected(d, d.teams[team], workspaceId, p)
              && d.fold(p.scope) != "_shared"
              && d.allows(Context(team, p.scope, d.teams[team].metadataIndexes), user)
  {
    if TeamAllowed(d, team, user) {
      ResolvesSelected(d, d.teams[team], workspaceId, p);
      var g := Gate(d, Some(d.teams[team]), team, workspaceId, user);
      if g.Ok? { ResolvesSelected(d, d.teams[team], workspaceId, g.value); }
    }
  }

  /** A malformed selector is the one thing answered 400, and only to who may use the team. */
  lemma BadRequestIff(d: Deployment, team: TeamId, workspaceId: Option<string>, user: User)
    ensures Answer(d, team, workspaceId, user) == Err(BadRequest) <==>
              MayUse(d, team, user) && workspaceId.Some? && !d.isLeaf(workspaceId.value)
  {
  }

  /** Everything the policy denies, and a name the team does not declare, is answered 404: the team
      itself, another team the selector names, and the principal whose scope the selected path is. */
  lemma NotFoundIff(d: Deployment, team: TeamId, workspaceId: Option<string>, user: User)
    ensures Answer(d, team, workspaceId, user) == Err(NotFound) <==>
              || !MayUse(d, team, user)
              || (workspaceId.Some? && d.isLeaf(workspaceId.value) && NamesForeign(d, workspaceId.value, user))
              || (SelectorPasses(d, workspaceId, user) && DeclaresNone(d, d.teams[team], workspaceId))
              || (SelectorPasses(d, workspaceId, user)
                  && exists p :: && IsSelected(d, d.teams[team], workspaceId, p) && d.fold(p.scope) != "_shared"
                                 && !d.allows(Context(team, p.scope, d.teams[team].metadataIndexes), user))
  {
    if TeamAllowed(d, team, user) && SelectorPasses(d, workspaceId, user) {
      var process := d.teams[team];
      var selected := ResolveDeclared(d, process, workspaceId);
      SelectsNoneIff(d, process, workspaceId);
      if selected.Ok? && selected.value.Some? { ResolvesSelected(d, process, workspaceId, selected.value.value); }
      forall p | IsSelected(d, process, workspaceId, p) ensures selected == Ok(Some(p)) {
        ResolvesSelected(d, process, workspaceId, p);
      }
    }
  }

  /** The cards are readable and resolvable, and none of their paths has the leaf asked for. */
  ghost predicate DeclaresNone(d: Deployment, process: Process, workspaceId: Option<string>) {
    && workspaceId.Some? && d.cards(process).Ok?
    && forall l <- LayoutsOf(d.cards(process).value) ::
         d.resolver(process)(l).Ok? && d.resolver(process)(l).value.leaf != workspaceId.value
  }

  lemma SelectsNoneIff(d: Deployment, process: Process, workspaceId: Option<string>)
    ensures ResolveDeclared(d, process, workspaceId) == Ok(None) <==> DeclaresNone(d, process, workspaceId)
  {
    var resolve, store := d.resolver(process), d.cards(process);
    if workspaceId.Some? {
      DeclaredExact(resolve, store);
      if DeclaredPaths(resolve, store).Ok? {
        DeclaredLists(resolve, store);
        SelectsNone(DeclaredPaths(resolve, store).value, resolve, LayoutsOf(store.value), workspaceId.value);
      }
    }
  }

  /** The workspace gate alone, without the team gate before it, reads the team itself: a stored one it
      treats as the team gate's, and a missing one never gets a path. */
  lemma GateAlone(d: Deployment, team: TeamId, workspaceId: Option<string>, user: User)
    ensures team in d.teams ==>
              Gate(d, None, team, workspaceId, user) == Gate(d, Some(d.teams[team]), team, workspaceId, user)
    ensures team !in d.teams ==>
              Gate(d, None, team, workspaceId, user) ==
              Err(if workspaceId.Some? && !d.isLeaf(workspaceId.value) then BadRequest else NotFound)
  {
  }

  /** A shared tree is refused whoever asks: with the same cards and selector, no policy and no
      caller admitted to the team turns the refusal into a path. */
  lemma SharedRefusedForAll(d: Deployment, team: TeamId, workspaceId: Option<string>, user: User, p: Path)
    requires team in d.teams && IsSelected(d, d.teams[team], workspaceId, p) && d.fold(p.scope) == "_shared"
    ensures Answer(d, team, workspaceId, user).Err?
    ensures Answer(d, team, workspaceId, user) == Err(SharedRefused) <==>
              MayUse(d, team, user) && SelectorPasses(d, workspaceId, user)
  {
    ResolvesSelected(d, d.teams[team], workspaceId, p);
  }

  /** A denied caller cannot tell the team from one that does not exist, whatever they name. */
  lemma DeniedLooksMissing(d: Deployment, team: TeamId, workspaceId: Option<string>, user: User)
    requires !MayUse(d, team, user)
    ensures Answer(d, team, workspaceId, user) == Answer(d.(teams := d.teams - {team}), team, workspaceId, user)
  {
  }

  /** A name the caller's team does not declare gets that same answer, whether or not it is the
      identifier of a stored team and whatever the policy says of that team. */
  lemma UndeclaredNameHidden(d: Deployment, team: TeamId, workspaceId: string, user: User)
    requires MayUse(d, team, user) && d.isLeaf(workspaceId)
    requires DeclaresNone(d, d.teams[team], Some(workspaceId))
    ensures Answer(d, team, Some(workspaceId), user) == Err(NotFound)
  {
    NotFoundIff(d, team, Some(workspaceId), user);
  }

  /** A server error means the cards, and only the cards, have no answer. They cannot be read; or,
      without a selector, they declare both default trees or the default tree cannot be resolved; or,
      with one, some declared tree cannot be, or two different ones share the name. */
  lemma ServerErrorIff(d: Deployment, team: TeamId, workspaceId: Option<string>, user: User)
    requires MayUse(d, team, user) && SelectorPasses(d, workspaceId, user)
    ensures Answer(d, team, workspaceId, user) == Err(Unresolved) <==>
              if workspaceId.None? then NoDefault(d.resolver(d.teams[team]), d.cards(d.teams[team]))
              else NoSingle(d.resolver(d.teams[team]), d.cards(d.teams[team]), workspaceId.value)
  {
    var resolve, store := d.resolver(d.teams[team]), d.cards(d.teams[team]);
    if workspaceId.None? {
      DefaultPathIs(resolve, store);
    } else {
      NoSingleIff(resolve, store, workspaceId.value);
    }
  }

  /** The cards cannot be read, or declare both default trees, or the default tree has no path. */
  ghost predicate NoDefault(resolve: Resolver, store: CardStore) {
    || store.Err?
    || (Layout(None, [], true) in LayoutsOf(store.value) && Layout(None, [], false) in LayoutsOf(store.value))
    || resolve(Layout(None, [], Layout(None, [], true) in LayoutsOf(store.value))).Err?
  }

  /** The cards cannot be read, or declare a tree without a path, or two different ones by this name. */
  ghost predicate NoSingle(resolve: Resolver, store: CardStore, leaf: string) {
    || store.Err?
    || (exists l <- LayoutsOf(store.value) :: resolve(l).Err?)
    || (exists l <- LayoutsOf(store.value), l' <- LayoutsOf(store.value) ::
          && resolve(l) != resolve(l') && resolve(l).Ok? && resolve(l').Ok?
          && resolve(l).value.leaf == resolve(l').value.leaf == leaf)
  }

  lemma NoSingleIff(resolve: Resolver, store: CardStore, leaf: string)
    ensures NoSingle(resolve, store, leaf) <==>
              DeclaredPaths(resolve, store).Err? || SelectDeclared(DeclaredPaths(resolve, store).value, leaf).Err?
  {
    DeclaredExact(resolve, store);
    if DeclaredPaths(resolve, store).Ok? {
      DeclaredLists(resolve, store);
      SelectsTwo(DeclaredPaths(resolve, store).value, resolve, LayoutsOf(store.value), leaf);
    }
  }
}
