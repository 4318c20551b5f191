/**
 When the numbers `append` returns keep growing for a team: exactly as long as no call of
 `remove` takes effect for it. All conditions are about the calls made, not about stream objects.
 */
module StreamNumbers {
  import opened Wrappers
  import opened StreamProtocol
  import opened StreamSafety

  // ----- the team's entry -----

  /** The step at which a call of `remove` takes the team's entry out of the map. */
  predicate Removes(w: World, a: Action, team: TeamId) {
    a.Run? && a.t in w.calls && w.calls[a.t] == RemoveLookup(team)
  }

  /** No call of `remove` takes effect for the team in steps `i` to `j - 1`. */
  ghost predicate NeverRemoved(ws: seq<World>, steps: seq<Action>, i: nat, j: nat, team: TeamId)
    requires IsRun(ws, steps) && i <= j < |ws|
  {
    forall k | i <= k < j :: !Removes(ws[k], steps[k], team)
  }

  lemma EntryLasts(w: World, a: Action, team: TeamId)
    requires Enabled(w, a) && team in w.lookup && !Removes(w, a, team)
    ensures team in Apply(w, a).lookup && Apply(w, a).lookup[team] == w.lookup[team]
  {
  }

  lemma EntryGoes(w: World, a: Action, team: TeamId)
    requires Enabled(w, a) && Removes(w, a, team) && MapOk(w)
    ensures team !in Apply(w, a).lookup
    ensures team in w.lookup ==> Unmapped(Apply(w, a), w.lookup[team])
  {
    if team in w.lookup { assert EntryOk(w, team); }
  }

  /** A stream that is out of the map never returns to it. */
  lemma GoneStays(w: World, a: Action, o: StreamRef)
    requires Enabled(w, a) && Unmapped(w, o)
    ensures Unmapped(Apply(w, a), o)
  {
  }

  /** The team's stream stays its stream until it is removed, and from then on is nobody's. */
  lemma {:induction false} EntryAt(ws: seq<World>, steps: seq<Action>, i: nat, j: nat, team: TeamId)
    requires IsRun(ws, steps) && i <= j < |ws| && team in ws[i].lookup
    ensures if NeverRemoved(ws, steps, i, j, team)
            then team in ws[j].lookup && ws[j].lookup[team] == ws[i].lookup[team]
            else Unmapped(ws[j], ws[i].lookup[team])
    decreases j - i
  {
    if i == j {
    } else {
      EntryAt(ws, steps, i, j - 1, team);
      RunInv(ws, steps, j - 1);
      var w, a := ws[j - 1], steps[j - 1];
      if !NeverRemoved(ws, steps, i, j - 1, team) {
        GoneStays(w, a, ws[i].lookup[team]);
      } else if Removes(w, a, team) {
        EntryGoes(w, a, team);
      } else {
        EntryLasts(w, a, team);
      }
    }
  }

  /** The team's entry names one stream at two moments of a run exactly when no call of `remove`
      took effect for the team in between. */
  lemma SameStreamIff(ws: seq<World>, steps: seq<Action>, i: nat, j: nat, team: TeamId)
    requires IsRun(ws, steps) && i <= j < |ws| && team in ws[i].lookup
    ensures team in ws[j].lookup && ws[j].lookup[team] == ws[i].lookup[team] <==> NeverRemoved(ws, steps, i, j, team)
  {
    EntryAt(ws, steps, i, j, team);
  }

  /** An entry made after the team had none names a stream made after that too. */
  lemma {:induction false} EntryIsNew(ws: seq<World>, steps: seq<Action>, i: nat, j: nat, team: TeamId)
    requires IsRun(ws, steps) && i <= j < |ws| && team !in ws[i].lookup
    ensures |ws[i].streams| <= |ws[j].streams|
    ensures team in ws[j].lookup ==> |ws[i].streams| <= ws[j].lookup[team]
    decreases j - i
  {
    if i == j {
    } else {
      EntryIsNew(ws, steps, i, j - 1, team);
      EntryNewOn(|ws[i].streams|, ws[j - 1], steps[j - 1], team);
    }
  }

  lemma EntryNewOn(n: nat, w: World, a: Action, team: TeamId)
    requires Enabled(w, a) && n <= |w.streams| && (team in w.lookup ==> n <= w.lookup[team])
    ensures n <= |Apply(w, a).streams| && (team in Apply(w, a).lookup ==> n <= Apply(w, a).lookup[team])
  {
    EntryNewStep(w, a, team);
  }

  lemma EntryNewStep(w: World, a: Action, team: TeamId)
    requires Enabled(w, a)
    ensures |w.streams| <= |Apply(w, a).streams|
    ensures team in Apply(w, a).lookup ==>
              if team in w.lookup then Apply(w, a).lookup[team] == w.lookup[team]
              else Apply(w, a).lookup[team] == |w.streams|
  {
  }

  // ----- a call of append and its stream -----

  predicate InAppend(pc: Pc) { pc.AppendWrite? || pc.AppendSignal? || pc.Appended? || pc.AppendRefused? }

  /** Step `i` is the lookup of call `t`, an append to this team. */
  predicate LooksUp(ws: seq<World>, steps: seq<Action>, i: nat, t: CallId, team: TeamId) {
    && i < |steps| < |ws| && steps[i] == Run(t)
    && t in ws[i].calls && ws[i].calls[t].AppendLookup? && ws[i].calls[t].team == team
  }

  lemma AppendKeeps(w: World, a: Action, t: CallId)
    requires Enabled(w, a) && t in w.calls && InAppend(w.calls[t])
    ensures t in Apply(w, a).calls && InAppend(Apply(w, a).calls[t])
    ensures Apply(w, a).calls[t].stream == w.calls[t].stream
  {
  }

  /** From its lookup on, an append works on the stream the lookup found. */
  lemma {:induction false} AppendsThere(ws: seq<World>, steps: seq<Action>, i: nat, j: nat, t: CallId)
    requires IsRun(ws, steps) && i <= j < |ws| && t in ws[i].calls && InAppend(ws[i].calls[t])
    ensures t in ws[j].calls && InAppend(ws[j].calls[t]) && ws[j].calls[t].stream == ws[i].calls[t].stream
    decreases j - i
  {
    if i == j {
    } else {
      AppendsThere(ws, steps, i, j - 1, t);
      AppendKeeps(ws[j - 1], steps[j - 1], t);
    }
  }

  lemma LookupFinds(ws: seq<World>, steps: seq<Action>, i: nat, t: CallId, team: TeamId)
    requires IsRun(ws, steps) && LooksUp(ws, steps, i, t, team)
    ensures team in ws[i + 1].lookup && t in ws[i + 1].calls && InAppend(ws[i + 1].calls[t])
    ensures ws[i + 1].calls[t].stream == ws[i + 1].lookup[team]
    ensures team in ws[i].lookup ==> ws[i + 1].lookup[team] == ws[i].lookup[team]
  {
  }

  /** Two appends to one team, the second called after the first has returned, write to one stream
      exactly when no `remove` of the team takes effect between their lookups. */
  lemma AppendsShareIff(ws: seq<World>, steps: seq<Action>, i: nat, i': nat, j: nat, t: CallId, t': CallId,
          team: TeamId)
    requires IsRun(ws, steps) && i < i' < j < |ws|
    requires LooksUp(ws, steps, i, t, team) && LooksUp(ws, steps, i', t', team)
    ensures t in ws[j].calls && InAppend(ws[j].calls[t]) && t' in ws[j].calls && InAppend(ws[j].calls[t'])
    ensures ws[j].calls[t'].stream == ws[j].calls[t].stream <==> NeverRemoved(ws, steps, i + 1, i', team)
  {
    LookupFinds(ws, steps, i, t, team);
    LookupFinds(ws, steps, i', t', team);
    AppendsThere(ws, steps, i + 1, j, t);
    AppendsThere(ws, steps, i' + 1, j, t');
    var o := ws[i + 1].lookup[team];
    EntryAt(ws, steps, i + 1, i', team);
    if !NeverRemoved(ws, steps, i + 1, i', team) { GoneStays(ws[i'], steps[i'], o); }
  }

  /** Monotonic for a team until it is removed: of two appends to it, the second called after the
      first returned, the second returns a larger number if no `remove` of the team took effect
      between their lookups. */
  lemma NumbersGrowUnlessRemoved(ws: seq<World>, steps: seq<Action>, i: nat, k: nat, i': nat, j: nat,
                                 t: CallId, t': CallId, team: TeamId)
    requires IsRun(ws, steps) && i < k <= i' < j < |ws|
    requires LooksUp(ws, steps, i, t, team) && LooksUp(ws, steps, i', t', team)
    requires t in ws[k].calls && ws[k].calls[t].Appended?
    requires t' in ws[j].calls && ws[j].calls[t'].Appended?
    requires NeverRemoved(ws, steps, i + 1, i', team)
    ensures ws[j].calls[t'].number > ws[k].calls[t].number
  {
    AppendsShareIff(ws, steps, i, i', j, t, t', team);
    AppendsThere(ws, steps, k, j, t);
    if t' in ws[k].calls && IsAuthor(ws[k].calls[t']) { AppendsThere(ws, steps, k, i', t'); }
    LaterAppendLarger(ws, steps, k, j, t, t');
  }

  /** Event `n` of stream `o`, as it stands at `later`, was written by a call that had not written
      by `earlier`. */
  ghost predicate WrittenSince(earlier: World, later: World, o: StreamRef, n: nat) {
    exists author <- later.calls ::
      Wrote(later.calls[author], o, n) && !(author in earlier.calls && IsAuthor(earlier.calls[author]))
  }

  /** After a `remove` of the team the numbers start again: an append that looks the team up later
      writes to a stream made since, so its number counts only events written since. */
  lemma NumbersRestartWhenRemoved(ws: seq<World>, steps: seq<Action>, r: nat, i: nat, j: nat, t: CallId, team: TeamId)
    requires IsRun(ws, steps) && r < i < j < |ws|
    requires Removes(ws[r], steps[r], team) && LooksUp(ws, steps, i, t, team)
    requires t in ws[j].calls && ws[j].calls[t].Appended?
    ensures forall n: nat | 1 <= n <= ws[j].calls[t].number :: WrittenSince(ws[r], ws[j], ws[j].calls[t].stream, n)
  {
    LaterStreamIsNew(ws, steps, r, i, t, team);
    AppendsThere(ws, steps, i + 1, j, t);
    var o := ws[j].calls[t].stream;
    NumberInRange(ws, steps, j, t);
    forall n: nat | 1 <= n <= ws[j].calls[t].number ensures WrittenSince(ws[r], ws[j], o, n) {
      NumbersExact(ws, steps, j, o, n);
      var author :| author in ws[j].calls && Wrote(ws[j].calls[author], o, n);
      AuthorIsLater(ws, steps, r, j, author, o);
    }
  }

  lemma LaterStreamIsNew(ws: seq<World>, steps: seq<Action>, r: nat, i: nat, t: CallId, team: TeamId)
    requires IsRun(ws, steps) && r < i < |steps| && Removes(ws[r], steps[r], team) && LooksUp(ws, steps, i, t, team)
    ensures t in ws[i + 1].calls && InAppend(ws[i + 1].calls[t]) && |ws[r].streams| <= ws[i + 1].calls[t].stream
  {
    RunInv(ws, steps, r);
    EntryGoes(ws[r], steps[r], team);
    EntryNewStep(ws[r], steps[r], team);
    EntryIsNew(ws, steps, r + 1, i + 1, team);
    LookupFinds(ws, steps, i, t, team);
  }

  lemma NumberInRange(ws: seq<World>, steps: seq<Action>, j: nat, t: CallId)
    requires IsRun(ws, steps) && j < |ws| && t in ws[j].calls && IsAuthor(ws[j].calls[t])
    ensures ws[j].calls[t].stream < |ws[j].streams|
    ensures 1 <= ws[j].calls[t].number <= |ws[j].streams[ws[j].calls[t].stream].events|
  {
    RunInv(ws, steps, j);
    assert AuthorOk(ws[j], t, ws[j].calls[t]);
  }

  /** Who wrote to a stream that did not exist yet had not written by then. */
  lemma AuthorIsLater(ws: seq<World>, steps: seq<Action>, r: nat, j: nat, author: CallId, o: StreamRef)
    requires IsRun(ws, steps) && r <= j < |ws| && |ws[r].streams| <= o
    requires author in ws[j].calls && IsAuthor(ws[j].calls[author]) && ws[j].calls[author].stream == o
    ensures !(author in ws[r].calls && IsAuthor(ws[r].calls[author]))
  {
    if author in ws[r].calls && IsAuthor(ws[r].calls[author]) {
      AppendsThere(ws, steps, r, j, author);
      NumberInRange(ws, steps, r, author);
      assert false;
    }
  }
}
