/**
 From a team's cards to workspace directories. The resolver that turns one layout
 into a path belongs to another package; for one team it is any function from
 layouts to a path or a refusal, and the card store's answer is given likewise.
 */
module WorkspacePaths {
  import opened Wrappers
  import opened Sequences

  /** `<scope>/<kind>/<leaf>`, relative to the workspaces root. */
  datatype Path = Path(scope: string, kind: string, leaf: string)

  datatype Layout = Layout(id: Option<string>, metadataKeys: seq<string>, sharable: bool)
  datatype Tool = WorkspaceTool(layout: Layout) | OtherTool
  datatype Card = AgentCard(tools: seq<Tool>) | BareCard

  datatype PathError =
    | CardNotFound
    | Unresolvable
    | DefaultsDisagree
    | AmbiguousLeaf(leaf: string)

  type Resolver = Layout -> Result<Path, PathError>
  type CardStore = Result<seq<Card>, PathError>

  // ----- reading the cards -----

  function CardLayouts(card: Card): seq<Layout> {
    if card.BareCard? then [] else ToolLayouts(card.tools)
  }

  function ToolLayouts(tools: seq<Tool>): seq<Layout> {
    if tools == [] then []
    else
      var last := tools[|tools| - 1];
      ToolLayouts(tools[..|tools| - 1]) + (if last.WorkspaceTool? then [last.layout] else [])
  }

  function LayoutsOf(cards: seq<Card>): seq<Layout> {
    if cards == [] then [] else LayoutsOf(cards[..|cards| - 1]) + CardLayouts(cards[|cards| - 1])
  }

  /** Every layout the team's cards declare, in card order and then tool order. */
  method TeamLayouts(store: CardStore) returns (r: Result<seq<Layout>, PathError>)
    ensures r == if store.Ok? then Ok(LayoutsOf(store.value)) else Err(store.error)
  {
    if store.Err? { return Err(store.error); }
    var cards := store.value;
    var layouts: seq<Layout> := [];
    for i := 0 to |cards|
      invariant layouts == LayoutsOf(cards[..i])
    {
      assert cards[..i + 1][..i] == cards[..i];
      if cards[i].BareCard? { continue; }
      var tools := cards[i].tools;
      for j := 0 to |tools|
        invariant layouts == LayoutsOf(cards[..i]) + ToolLayouts(tools[..j])
      {
        assert tools[..j + 1][..j] == tools[..j];
        if tools[j].WorkspaceTool? { layouts := layouts + [tools[j].layout]; }
      }
      assert tools[..|tools|] == tools;
    }
    assert cards[..|cards|] == cards;
    r := Ok(layouts);
  }

  /** A layout is listed exactly when some card's tools declare it. */
  lemma {:induction false} LayoutListed(cards: seq<Card>, l: Layout)
    ensures l in LayoutsOf(cards) <==> exists card <- cards :: card.AgentCard? && WorkspaceTool(l) in card.tools
  {
    if cards == [] {
    } else {
      var init, last := cards[..|cards| - 1], cards[|cards| - 1];
      assert cards == init + [last];
      LayoutListed(init, l);
      if last.AgentCard? { ToolListed(last.tools, l); }
    }
  }

  lemma {:induction false} ToolListed(tools: seq<Tool>, l: Layout)
    ensures l in ToolLayouts(tools) <==> WorkspaceTool(l) in tools
  {
    if tools == [] {
    } else {
      assert tools == tools[..|tools| - 1] + [tools[|tools| - 1]];
      ToolListed(tools[..|tools| - 1], l);
    }
  }

  /** A card declares its workspace tools' layouts in tool order, and a bare card none. */
  lemma OneMoreCard(cards: seq<Card>, tools: seq<Tool>, l: Layout)
    ensures LayoutsOf([]) == [] && ToolLayouts([]) == []
    ensures LayoutsOf(cards + [AgentCard(tools)]) == LayoutsOf(cards) + ToolLayouts(tools)
    ensures LayoutsOf(cards + [BareCard]) == LayoutsOf(cards)
    ensures ToolLayouts(tools + [WorkspaceTool(l)]) == ToolLayouts(tools) + [l]
    ensures ToolLayouts(tools + [OtherTool]) == ToolLayouts(tools)
  {
    LastCard(cards, AgentCard(tools));
    LastCard(cards, BareCard);
    LastTool(tools, WorkspaceTool(l));
    LastTool(tools, OtherTool);
  }

  lemma LastCard(cards: seq<Card>, card: Card)
    ensures LayoutsOf(cards + [card]) == LayoutsOf(cards) + CardLayouts(card)
  {
    assert (cards + [card])[..|cards|] == cards;
  }

  lemma LastTool(tools: seq<Tool>, tool: Tool)
    ensures ToolLayouts(tools + [tool]) == ToolLayouts(tools) + if tool.WorkspaceTool? then [tool.layout] else []
  {
    assert (tools + [tool])[..|tools|] == tools;
  }

  /** Layouts are listed in card order. */
  lemma {:induction false} LayoutsInOrder(before: seq<Card>, after: seq<Card>, all: seq<Card>)
    requires all == before + after
    ensures LayoutsOf(all) == LayoutsOf(before) + LayoutsOf(after)
  {
    if after == [] {
      assert all == before;
    } else {
      LayoutsInOrder(before, after[..|after| - 1], all[..|all| - 1]);
      Regroup(LayoutsOf(before), LayoutsOf(after[..|after| - 1]), CardLayouts(after[|after| - 1]));
    }
  }

  /** And each card's in tool order. */
  lemma {:induction false} ToolsInOrder(before: seq<Tool>, after: seq<Tool>, all: seq<Tool>)
    requires all == before + after
    ensures ToolLayouts(all) == ToolLayouts(before) + ToolLayouts(after)
  {
    if after == [] {
      assert all == before;
    } else {
      ToolsInOrder(before, after[..|after| - 1], all[..|all| - 1]);
    }
  }

  // ----- the declared paths -----

  /** The paths of a list of layouts, or the first refusal. */
  function ResolveAll(resolve: Resolver, layouts: seq<Layout>): (r: Result<seq<Path>, PathError>)
    ensures r.Ok? <==> forall l <- layouts :: resolve(l).Ok?
    ensures r.Ok? ==> (forall l <- layouts :: resolve(l).value in r.value)
                      && (forall p <- r.value :: exists l <- layouts :: resolve(l) == Ok(p))
  {
    if layouts == [] then Ok([])
    else
      var first := resolve(layouts[0]);
      var rest := ResolveAll(resolve, layouts[1..]);
      assert layouts == [layouts[0]] + layouts[1..];
      if first.Err? then Err(first.error)
      else if rest.Err? then rest
      else Ok([first.value] + rest.value)
  }

  /** Each path stands where its layout does. */
  lemma {:induction false} ResolvedAt(resolve: Resolver, layouts: seq<Layout>)
    requires ResolveAll(resolve, layouts).Ok?
    ensures var paths := ResolveAll(resolve, layouts).value;
            |paths| == |layouts| && forall i | 0 <= i < |layouts| :: resolve(layouts[i]) == Ok(paths[i])
  {
    if layouts == [] {
    } else {
      var rest := layouts[1..];
      ResolvedAt(resolve, rest);
      assert forall i | 1 <= i < |layouts| :: layouts[i] == rest[i - 1];
    }
  }

  /** De-duplicated on the whole path, in declaration order. */
  function DeclaredFromLayouts(resolve: Resolver, layouts: seq<Layout>): Result<seq<Path>, PathError> {
    var paths := ResolveAll(resolve, layouts);
    if paths.Err? then paths else Ok(Dedup(paths.value))
  }

  function DeclaredPaths(resolve: Resolver, store: CardStore): Result<seq<Path>, PathError> {
    if store.Err? then Err(store.error) else DeclaredFromLayouts(resolve, LayoutsOf(store.value))
  }

  // ----- the team's own tree -----

  function DefaultLayout(sharable: bool): Layout { Layout(None, [], sharable) }

  predicate IsDefault(l: Layout) { l.id.None? && l.metadataKeys == [] }

  function DefaultSharable(layouts: seq<Layout>): set<bool> {
    set l <- layouts | IsDefault(l) :: l.sharable
  }

  /** What a route serves when no workspace is named; cards that disagree are refused. */
  function DefaultPath(resolve: Resolver, store: CardStore): Result<Path, PathError> {
    if store.Err? then Err(store.error)
    else
      var sharable := DefaultSharable(LayoutsOf(store.value));
      if sharable == {true, false} then Err(DefaultsDisagree)
      else resolve(DefaultLayout(sharable == {true}))
  }

  /** For readable cards, the default route is refused for disagreement when both default layouts are
      declared, and otherwise has the resolver's answer for the shared default layout if that one is
      declared, and for the unshared one if not, a team without any default card included. */
  lemma DefaultPathIs(resolve: Resolver, store: CardStore)
    ensures store.Err? ==> DefaultPath(resolve, store) == Err(store.error)
    ensures store.Ok? ==>
              var layouts := LayoutsOf(store.value);
              DefaultPath(resolve, store) ==
                if Layout(None, [], true) in layouts && Layout(None, [], false) in layouts then Err(DefaultsDisagree)
                else resolve(Layout(None, [], Layout(None, [], true) in layouts))
  {
    if store.Ok? {
      var layouts := LayoutsOf(store.value);
      SharableDeclared(layouts, true);
      SharableDeclared(layouts, false);
      SharableCases(DefaultSharable(layouts));
    }
  }

  lemma SharableCases(s: set<bool>)
    ensures s == {true, false} <==> true in s && false in s
    ensures s == {true} <==> true in s && false !in s
  {
    if true in s && false in s {
      forall b: bool ensures b in s <==> b in {true, false} {}
      assert s == {true, false};
    }
    if true in s && false !in s {
      forall b: bool ensures b in s <==> b in {true} {}
      assert s == {true};
    }
  }

  /** Only cards that disagree are answered so, unless the resolver itself answers so. */
  lemma DisagreementIff(resolve: Resolver, store: CardStore)
    requires store.Ok? && forall l :: resolve(l) != Err(DefaultsDisagree)
    ensures DefaultPath(resolve, store) == Err(DefaultsDisagree) <==>
              Layout(None, [], true) in LayoutsOf(store.value) && Layout(None, [], false) in LayoutsOf(store.value)
  {
    DefaultPathIs(resolve, store);
  }

  /** Declared paths are what the resolver makes of the declared layouts, in the order in which each
      path is first declared; one refusal refuses them all. */
  lemma DeclaredExact(resolve: Resolver, store: CardStore)
    ensures DeclaredPaths(resolve, store).Ok? <==>
              store.Ok? && forall l <- LayoutsOf(store.value) :: resolve(l).Ok?
    ensures DeclaredPaths(resolve, store).Ok? ==>
              forall p ::
                p in DeclaredPaths(resolve, store).value <==> exists l <- LayoutsOf(store.value) :: resolve(l) == Ok(p)
  {
  }

  lemma DeclaredInOrder(resolve: Resolver, store: CardStore, p: Path, q: Path)
    requires DeclaredPaths(resolve, store).Ok?
    ensures Before(DeclaredPaths(resolve, store).value, p, q) <==> DeclaredBefore(resolve, LayoutsOf(store.value), p, q)
  {
    var layouts := LayoutsOf(store.value);
    DedupFirstSeen(ResolveAll(resolve, layouts).value, p, q);
    MetIsDeclared(resolve, layouts, p, q);
  }

  /** The first layout with path `p` stands before the first with path `q`. */
  ghost predicate DeclaredBefore(resolve: Resolver, layouts: seq<Layout>, p: Path, q: Path) {
    exists i: nat, j: nat :: i < j && FirstDeclared(resolve, layouts, i, p) && FirstDeclared(resolve, layouts, j, q)
  }

  lemma MetIsDeclared(resolve: Resolver, layouts: seq<Layout>, p: Path, q: Path)
    requires ResolveAll(resolve, layouts).Ok?
    ensures MetBefore(ResolveAll(resolve, layouts).value, p, q) <==> DeclaredBefore(resolve, layouts, p, q)
  {
    var paths := ResolveAll(resolve, layouts).value;
    FirstResolved(resolve, layouts, p);
    FirstResolved(resolve, layouts, q);
    if i: nat, j: nat :| i < j && FirstAt(paths, i, p) && FirstAt(paths, j, q) {
      assert FirstDeclared(resolve, layouts, i, p) && FirstDeclared(resolve, layouts, j, q);
    }
    if i: nat, j: nat :| i < j && FirstDeclared(resolve, layouts, i, p) && FirstDeclared(resolve, layouts, j, q) {
      assert FirstAt(paths, i, p) && FirstAt(paths, j, q);
    }
  }

  /** Layout `i` is the first whose path is this one. */
  ghost predicate FirstDeclared(resolve: Resolver, layouts: seq<Layout>, i: nat, p: Path) {
    i < |layouts| && resolve(layouts[i]) == Ok(p) && forall k | 0 <= k < i :: resolve(layouts[k]) != Ok(p)
  }

  lemma FirstResolved(resolve: Resolver, layouts: seq<Layout>, p: Path)
    requires ResolveAll(resolve, layouts).Ok?
    ensures forall i: nat ::
              FirstAt(ResolveAll(resolve, layouts).value, i, p) <==> FirstDeclared(resolve, layouts, i, p)
  {
    var paths := ResolveAll(resolve, layouts).value;
    ResolvedAt(resolve, layouts);
    forall i: nat ensures FirstAt(paths, i, p) <==> FirstDeclared(resolve, layouts, i, p) {
      if i < |paths| { assert forall k | 0 <= k < i :: paths[..i][k] == paths[k]; }
    }
  }

  // ----- selecting by leaf -----

  function SelectDeclared(paths: seq<Path>, leaf: string): Result<Option<Path>, PathError> {
    var matches := Filter((p: Path) => p.leaf == leaf, paths);
    if |matches| > 1 then Err(AmbiguousLeaf(leaf))
    else Ok(if matches == [] then None else Some(matches[0]))
  }

  /** A leaf selects a path exactly when that is the only distinct declared path with it, and
      is refused exactly when two distinct ones share it. */
  lemma SelectIff(paths: seq<Path>, leaf: string, p: Path)
    requires NoDuplicates(paths)
    ensures SelectDeclared(paths, leaf) == Ok(Some(p)) <==>
              p in paths && p.leaf == leaf && forall q <- paths | q.leaf == leaf :: q == p
    ensures SelectDeclared(paths, leaf).Err? <==> exists q <- paths, q' <- paths :: q != q' && q.leaf == q'.leaf == leaf
    ensures SelectDeclared(paths, leaf) == Ok(None) <==> forall q <- paths :: q.leaf != leaf
  {
    var named := (p: Path) => p.leaf == leaf;
    var matches := Filter(named, paths);
    FilterDistinct(named, paths);
    if |matches| > 1 {
      assert matches[0] != matches[1] && matches[0] in paths && matches[1] in paths;
    } else if |matches| == 1 {
      assert matches[0] in paths;
      assert forall q <- paths | q.leaf == leaf :: q in matches;
    }
  }

  /** Selecting from the declared paths is never ambiguous because of one tree declared twice. */
  lemma DeclaredDistinct(resolve: Resolver, store: CardStore)
    ensures DeclaredPaths(resolve, store).Ok? ==> NoDuplicates(DeclaredPaths(resolve, store).value)
  {
    if DeclaredPaths(resolve, store).Ok? {
      DedupDistinct(ResolveAll(resolve, LayoutsOf(store.value)).value);
    }
  }

  // ----- deletion -----

  /** The trees a team's deletion may consider, in declaration order, the team's own tree last
      unless a card already declares it. */
  function Candidates(resolve: Resolver, store: CardStore): Result<seq<Path>, PathError> {
    var declared := DeclaredPaths(resolve, store);
    if declared.Err? || DefaultSharable(LayoutsOf(store.value)) != {} then declared
    else
      var own := resolve(DefaultLayout(false));
      if own.Err? then Err(own.error)
      else Ok(if own.value in declared.value then declared.value else declared.value + [own.value])
  }

  method DeletionCandidates(resolve: Resolver, store: CardStore) returns (r: Result<seq<Path>, PathError>)
    ensures r == Candidates(resolve, store)
  {
    var read := TeamLayouts(store);
    if read.Err? { return Err(read.error); }
    var layouts := read.value;
    var declared := DeclaredFromLayouts(resolve, layouts);
    if declared.Err? { return declared; }
    var candidates := declared.value;
    DedupDistinct(ResolveAll(resolve, layouts).value);
    DedupIdentity(candidates);
    var sharable := DefaultSharable(layouts);
    if |sharable| <= 1 {
      OwnTree(resolve, layouts);
      var own := resolve(DefaultLayout(sharable == {true}));
      if own.Err? { return Err(own.error); }
      OneMoreCandidate(candidates, own.value);
      candidates := candidates + [own.value];
    }
    r := Ok(Dedup(candidates));
  }

  lemma OneMoreCandidate(candidates: seq<Path>, p: Path)
    requires Dedup(candidates) == candidates
    ensures Dedup(candidates + [p]) == if p in candidates then candidates else candidates + [p]
  {
    assert (candidates + [p])[..|candidates|] == candidates;
  }

  /** When the default cards agree, the tree they agree on is one of the declared ones. */
  lemma OwnTree(resolve: Resolver, layouts: seq<Layout>)
    requires |DefaultSharable(layouts)| <= 1
    requires DeclaredFromLayouts(resolve, layouts).Ok?
    ensures var sharable := DefaultSharable(layouts);
            if sharable == {} then sharable != {true}
            else resolve(DefaultLayout(sharable == {true})).Ok?
                 && resolve(DefaultLayout(sharable == {true})).value in DeclaredFromLayouts(resolve, layouts).value
  {
    var sharable := DefaultSharable(layouts);
    if sharable != {} {
      var b :| b in sharable;
      assert |sharable - {b}| == 0;
      assert sharable == {b};
      SharableDeclared(layouts, b);
    }
  }

  /** A sharing value comes from a default card exactly when that default layout is declared. */
  lemma SharableDeclared(layouts: seq<Layout>, sharable: bool)
    ensures sharable in DefaultSharable(layouts) <==> DefaultLayout(sharable) in layouts
  {
    if sharable in DefaultSharable(layouts) {
      var l :| l in layouts && IsDefault(l) && l.sharable == sharable;
      assert l == DefaultLayout(sharable);
    }
    assert IsDefault(DefaultLayout(sharable));
  }

  /** The layouts whose trees are the team's: the declared ones, and the unshared default
      layout of a team none of whose cards declares a default. */
  ghost predicate IsTeamTree(store: CardStore, l: Layout) {
    && store.Ok?
    && var layouts := LayoutsOf(store.value);
    || l in layouts
    || (Layout(None, [], true) !in layouts && Layout(None, [], false) !in layouts && l == Layout(None, [], false))
  }

  lemma NoDefaultCard(layouts: seq<Layout>)
    ensures DefaultSharable(layouts) == {} <==>
              Layout(None, [], true) !in layouts && Layout(None, [], false) !in layouts
  {
    SharableDeclared(layouts, true);
    SharableDeclared(layouts, false);
    if b :| b in DefaultSharable(layouts) { assert b == true || b == false; }
  }

  /** Every tree of the team is a candidate. */
  lemma TreeIsCandidate(resolve: Resolver, store: CardStore, l: Layout)
    requires Candidates(resolve, store).Ok? && IsTeamTree(store, l)
    ensures resolve(l).Ok? && resolve(l).value in Candidates(resolve, store).value
  {
    var paths := ResolveAll(resolve, LayoutsOf(store.value));
    NoDefaultCard(LayoutsOf(store.value));
    if l in LayoutsOf(store.value) { assert resolve(l).value in paths.value; }
  }

  /** Candidates stand in declaration order, and at most the unshared default tree stands behind them. */
  lemma CandidatesInOrder(resolve: Resolver, store: CardStore)
    requires Candidates(resolve, store).Ok?
    ensures DeclaredPaths(resolve, store).Ok?
    ensures var declared, r := DeclaredPaths(resolve, store).value, Candidates(resolve, store).value;
            || r == declared
            || (resolve(Layout(None, [], false)).Ok? && r == declared + [resolve(Layout(None, [], false)).value])
  {
  }

  /** Nothing but a tree of the team is a candidate. */
  lemma CandidateIsTree(resolve: Resolver, store: CardStore, p: Path) returns (l: Layout)
    requires Candidates(resolve, store).Ok? && p in Candidates(resolve, store).value
    ensures IsTeamTree(store, l) && resolve(l) == Ok(p)
  {
    var layouts := LayoutsOf(store.value);
    NoDefaultCard(layouts);
    if p in DeclaredPaths(resolve, store).value {
      l :| l in layouts && resolve(l) == Ok(p);
    } else {
      l := DefaultLayout(false);
    }
  }

  /** The candidates are each tree of the team once, and no other. */
  lemma CandidatesExact(resolve: Resolver, store: CardStore)
    requires Candidates(resolve, store).Ok?
    ensures NoDuplicates(Candidates(resolve, store).value)
    ensures forall p :: p in Candidates(resolve, store).value <==>
              exists l :: IsTeamTree(store, l) && resolve(l) == Ok(p)
  {
    DedupDistinct(ResolveAll(resolve, LayoutsOf(store.value)).value);
    forall p | p in Candidates(resolve, store).value ensures exists l :: IsTeamTree(store, l) && resolve(l) == Ok(p) {
      var l := CandidateIsTree(resolve, store, p);
    }
    forall l | IsTeamTree(store, l) ensures resolve(l).Ok? && resolve(l).value in Candidates(resolve, store).value {
      TreeIsCandidate(resolve, store, l);
    }
  }

  /** A deletion always has a candidate, and is refused only when the cards cannot be read or
      one of the team's trees cannot be resolved. */
  lemma CandidatesRefusedIff(resolve: Resolver, store: CardStore)
    ensures Candidates(resolve, store).Err? <==> store.Err? || exists l :: IsTeamTree(store, l) && resolve(l).Err?
    ensures Candidates(resolve, store).Ok? ==> Candidates(resolve, store).value != []
  {
    if Candidates(resolve, store).Err? && store.Ok? {
      var layouts := LayoutsOf(store.value);
      NoDefaultCard(layouts);
      if DeclaredPaths(resolve, store).Err? {
        var l :| l in layouts && resolve(l).Err?;
        assert IsTeamTree(store, l);
      } else {
        assert IsTeamTree(store, DefaultLayout(false));
      }
    } else if store.Ok? {
      forall l | IsTeamTree(store, l) ensures resolve(l).Ok? { TreeIsCandidate(resolve, store, l); }
      var l := OwnTreeLayout(store);
      TreeIsCandidate(resolve, store, l);
    }
  }

  /** A team always has a default tree of its own. */
  lemma OwnTreeLayout(store: CardStore) returns (l: Layout)
    requires store.Ok?
    ensures IsTeamTree(store, l) && IsDefault(l)
  {
    var sharable := DefaultSharable(LayoutsOf(store.value));
    NoDefaultCard(LayoutsOf(store.value));
    if sharable == {} {
      l := DefaultLayout(false);
    } else {
      var b :| b in sharable;
      SharableDeclared(LayoutsOf(store.value), b);
      l := DefaultLayout(b);
    }
  }

  /** A team whose trees can all be resolved has a default tree to serve exactly when its cards do not
      declare both, and what a route serves by default, a deletion considers. */
  lemma DefaultIsCandidate(resolve: Resolver, store: CardStore)
    requires Candidates(resolve, store).Ok?
    ensures store.Ok?
    ensures DefaultPath(resolve, store).Ok? <==>
              !(Layout(None, [], true) in LayoutsOf(store.value) && Layout(None, [], false) in LayoutsOf(store.value))
    ensures DefaultPath(resolve, store).Ok? ==>
              DefaultPath(resolve, store).value in Candidates(resolve, store).value
  {
    var layouts := LayoutsOf(store.value);
    DefaultPathIs(resolve, store);
    if !(Layout(None, [], true) in layouts && Layout(None, [], false) in layouts) {
      TreeIsCandidate(resolve, store, Layout(None, [], Layout(None, [], true) in layouts));
    }
  }

  /** Default cards that disagree leave a route nothing to serve, and a deletion both trees. */
  lemma DisagreementKeepsBoth(resolve: Resolver, store: CardStore, sharable: bool)
    requires store.Ok?
    requires Layout(None, [], true) in LayoutsOf(store.value) && Layout(None, [], false) in LayoutsOf(store.value)
    ensures DefaultPath(resolve, store) == Err(DefaultsDisagree)
    ensures Candidates(resolve, store).Ok? ==>
              && resolve(Layout(None, [], sharable)).Ok?
              && resolve(Layout(None, [], sharable)).value in Candidates(resolve, store).value
  {
    DefaultPathIs(resolve, store);
    if Candidates(resolve, store).Ok? { TreeIsCandidate(resolve, store, Layout(None, [], sharable)); }
  }
}
