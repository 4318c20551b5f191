/** What each command and each plain text leaves behind: the binding, the sends and the notices. */
module ChannelTexts {
  import opened Wrappers
  import opened Text
  import opened ChannelRegistry
  import opened ChannelRouter

  // ----- release -----

  lemma ReleasedIsUnbound(data: Data, address: Address)
    ensures Find(After(true, data, Release(address, Find(data, address))), address) == None
  {
    var b := Find(data, address);
    if b.Some? {
      assert [Released(address)][..0] == [];
      DeregisteredFinds(data, address, address);
    }
  }

  lemma QuietTail(data: Data, effects: seq<Effect>, more: seq<Effect>)
    requires forall e <- more :: !e.Bound? && !e.Released?
    ensures After(true, data, effects + more) == After(true, data, effects)
  {
    AfterAppend(true, data, effects, more);
    QuietKeeps(After(true, data, effects), more);
  }

  /** `unregister` leaves the conversation without a binding, whatever its state, and its notice names
      the team that was released exactly when there was one. */
  lemma UnregisterReleases(allow: bool, data: Data, address: Address, m: Message, o: Outside)
    requires m.command.Some? && m.command.value.name == "unregister"
    ensures var effects := Route(true, allow, data, address, m, o);
            && Find(After(true, data, effects), address) == None
            && effects != [] && effects[|effects| - 1] == Notified(address,
                 if Find(data, address).Some? then ReleasedTeam(Find(data, address).value.team) else NothingToRelease)
  {
    var b := Find(data, address);
    var notice := if b.Some? then ReleasedTeam(b.value.team) else NothingToRelease;
    QuietTail(data, Release(address, b), [Notified(address, notice)]);
    ReleasedIsUnbound(data, address);
  }

  /** A `new` whose creation raised has released the conversation all the same. */
  lemma NewReleases(allow: bool, data: Data, address: Address, m: Message, o: Outside)
    requires m.command.Some? && m.command.value.name == "new" && o.created.Err?
    ensures Find(After(true, data, Route(true, allow, data, address, m, o)), address) == None
  {
    assert Release(address, Find(data, address)) + [] == Release(address, Find(data, address));
    ReleasedIsUnbound(data, address);
  }

  // ----- a session -----

  /** The first text of a session: what `new` was given, or the whole message to an unbound chat. */
  predicate BeginsSession(enabled: bool, data: Data, address: Address, m: Message, text: string) {
    if m.command.Some? && m.command.value.name in {"new", "unregister", "status", "register"}
    then m.command.value.name == "new" && text == m.command.value.rest
    else (enabled ==> Find(data, address).None?) && text == m.content
  }

  /** The message's catalog entry is taken unless it is missing or empty; the rest is as the message says. */
  predicate CreatedAsAsked(creation: Creation, address: Address, m: Message, o: Outside) {
    && (if m.catalogEntry.None? || m.catalogEntry == Some("") then creation.entry == o.defaultEntry
        else m.catalogEntry == Some(creation.entry))
    && creation.user == address.user && creation.key == m.teamKey && creation.metadata == m.teamMetadata
  }

  /** Whatever begins a session creates one team as asked, sends it the text unless that is blank, and
      announces it unless the send raised. */
  lemma SessionDone(enabled: bool, allow: bool, data: Data, address: Address, m: Message, o: Outside, text: string,
                    e: Effect)
    requires BeginsSession(enabled, data, address, m, text) && o.created.Ok?
    ensures e in Route(enabled, allow, data, address, m, o) && !e.Bound? && !e.Released? <==>
              var team := o.created.value.team;
              || (e.Created? && e.address == address && e.team == team && CreatedAsAsked(e.creation, address, m, o))
              || (!Blank(text) && e == Sent(address, team, None, None, text))
              || ((Blank(text) || !o.sendRaises) && e == Notified(address, Started(team, o.created.value.entryPoint)))
  {
    var content := if m.command.Some? && IsCommand(m.command.value.name) && text == "" then None else Some(text);
    var started := StartSession(address, content, m, o);
    StartHas(address, content, text, m, o, e);
    if m.command.Some? && IsCommand(m.command.value.name) {
      var released := Release(address, Look(enabled, data, address));
      assert Route(enabled, allow, data, address, m, o) == released + started;
    }
  }

  lemma StartHas(address: Address, content: Option<string>, text: string, m: Message, o: Outside, e: Effect)
    requires o.created.Ok? && (content == Some(text) || (content == None && text == ""))
    ensures e in StartSession(address, content, m, o) && !e.Bound? && !e.Released? <==>
              var team := o.created.value.team;
              || e == Created(address, team, CreationOf(address, m, o))
              || (!Blank(text) && e == Sent(address, team, None, None, text))
              || ((Blank(text) || !o.sendRaises) && e == Notified(address, Started(team, o.created.value.entryPoint)))
  {
  }

  /** When the creation raises, nothing is created, sent or announced. */
  lemma NoSession(enabled: bool, allow: bool, data: Data, address: Address, m: Message, o: Outside, text: string,
                  e: Effect)
    requires BeginsSession(enabled, data, address, m, text) && o.created.Err?
    requires e in Route(enabled, allow, data, address, m, o)
    ensures e == Released(address)
  {
  }

  // ----- a text to a bound chat -----

  /** Not one of the router's own commands. */
  predicate IsText(m: Message) {
    m.command.Some? ==> m.command.value.name !in {"new", "unregister", "status", "register"}
  }

  /** A blank text, and a text to a team that is gone, sends nothing; the second is reported. */
  lemma TextNotSent(allow: bool, data: Data, address: Address, m: Message, o: Outside)
    requires IsText(m) && Find(data, address).Some?
    ensures Blank(m.content) ==> Route(true, allow, data, address, m, o) == []
    ensures !Blank(m.content) && o.known.None? ==>
              Route(true, allow, data, address, m, o) == [Notified(address, TeamGone(Find(data, address).value.team))]
  {
  }

  /** Any other text is sent once, as it is, by the bound agent to the bound team: to the name typed in
      front, else to the name quoted. */
  lemma TextToNamed(allow: bool, data: Data, address: Address, m: Message, o: Outside)
    requires IsText(m) && Find(data, address).Some? && !Blank(m.content) && o.known.Some?
    ensures var b, effects := Find(data, address).value, Route(true, allow, data, address, m, o);
            && (m.typedAgent.Some? ==>
                  effects == [Sent(address, b.team, Some(b.agent), Some(m.typedAgent.value), m.content)])
            && (m.typedAgent.None? && m.quotedAgent.Some? ==>
                  effects == [Sent(address, b.team, Some(b.agent), Some(m.quotedAgent.value), m.content)])
  {
  }

  /** Name `k` is the first that is not the sender's. */
  predicate IsFirstOther(names: seq<string>, agent: string, k: nat) {
    k < |names| && names[k] != agent && forall i | 0 <= i < k :: names[i] == agent
  }

  lemma {:induction false} FirstOtherAt(names: seq<string>, agent: string, k: nat)
    requires IsFirstOther(names, agent, k)
    ensures FirstOther(names, agent) == Some(names[k])
  {
    if k == 0 {
    } else {
      FirstOtherAt(names[1..], agent, k - 1);
    }
  }

  /** Without a name it goes to the first of the supervisors and then the entry point that is not the
      sender; if there is none the chat is told, and if the team is gone by then nothing is sent. */
  lemma TextToDefault(allow: bool, data: Data, address: Address, m: Message, o: Outside, k: nat)
    requires IsText(m) && Find(data, address).Some? && !Blank(m.content) && o.known.Some?
    requires m.typedAgent.None? && m.quotedAgent.None?
    ensures var b, effects := Find(data, address).value, Route(true, allow, data, address, m, o);
            && (o.knownLater.None? ==> effects == [])
            && (o.knownLater.Some? ==>
                  var names := o.knownLater.value.supervisors + [o.knownLater.value.entryPoint];
                  && (IsFirstOther(names, b.agent, k) ==>
                        effects == [Sent(address, b.team, Some(b.agent), Some(names[k]), m.content)])
                  && ((forall name <- names :: name == b.agent) ==> effects == [Notified(address, NobodyToAddress)]))
  {
    if o.knownLater.Some? {
      var names := o.knownLater.value.supervisors + [o.knownLater.value.entryPoint];
      var agent := Find(data, address).value.agent;
      if IsFirstOther(names, agent, k) { FirstOtherAt(names, agent, k); }
    }
  }

  // ----- status and register -----

  /** `status` says that there is no session, or that its team is no longer known, or the bound team,
      agent and the team's state, and changes nothing. */
  lemma StatusTells(enabled: bool, allow: bool, data: Data, address: Address, m: Message, o: Outside)
    requires m.command.Some? && m.command.value.name == "status"
    ensures !enabled || Find(data, address).None? ==>
              Route(enabled, allow, data, address, m, o) == [Notified(address, ChannelRouter.NoSession)]
    ensures enabled && Find(data, address).Some? ==>
              var b, effects := Find(data, address).value, Route(enabled, allow, data, address, m, o);
              && (o.known.None? ==> effects == [Notified(address, NoLongerKnown(b.team))])
              && (o.known.Some? ==>
                    effects == [Notified(address, StatusOf(b.team, b.agent, o.known.value.status))])
  {
  }

  /** `register` binds the chat to a team and an agent that the command itself or else the quoted
      message names, each for itself, where that is allowed and both are named. */
  lemma RegisterBinds(allow: bool, data: Data, address: Address, m: Message, o: Outside, team: TeamId, agent: string)
    requires m.command.Some? && m.command.value.name == "register" && allow
    requires if m.command.value.team.Some? then team == m.command.value.team.value else m.quotedTeam == Some(team)
    requires if m.command.value.agent.Some? then agent == m.command.value.agent.value else m.quotedAgent == Some(agent)
    ensures Find(After(true, data, Route(true, allow, data, address, m, o)), address) ==
            Some(Binding(address.channel, address.user, team, agent, map[]))
    ensures var effects := Route(true, allow, data, address, m, o);
            effects != [] && effects[|effects| - 1] == Notified(address, BoundTo(team, agent))
  {
    var b := Binding(address.channel, address.user, team, agent, map[]);
    assert [Bound(address, b)] + [Notified(address, BoundTo(team, agent))] == Route(true, allow, data, address, m, o);
    QuietTail(data, [Bound(address, b)], [Notified(address, BoundTo(team, agent))]);
    assert [Bound(address, b)][..0] == [];
    RegisteredFinds(data, b, address);
  }

  /** Otherwise it changes nothing and says why. */
  lemma RegisterRefused(enabled: bool, allow: bool, data: Data, address: Address, m: Message, o: Outside)
    requires m.command.Some? && m.command.value.name == "register"
    ensures !allow ==> Route(enabled, allow, data, address, m, o) == [Notified(address, RegisterDisabled)]
    ensures allow && ((m.command.value.team.None? && m.quotedTeam.None?)
                      || (m.command.value.agent.None? && m.quotedAgent.None?)) ==>
              Route(enabled, allow, data, address, m, o) == [Notified(address, RegisterUsage)]
  {
  }
}
