/**
 The channel router: what one inbound message does to its conversation, as the
 effects it causes in order. What the outside answers while it is routed, the
 created team, the team lookups, and whether a send raises, is the message's
 `Outside`. The regular expressions' finds are given with the message.
 */
module ChannelRouter {
  import opened Wrappers
  import opened Text
  import opened ChannelRegistry

  datatype Process = Process(team: TeamId, entryPoint: string, supervisors: seq<string>, status: string)

  /** `team` and `agent`: the first team id and agent name found in `rest`. */
  datatype Command = Command(name: string, rest: string, team: Option<TeamId>, agent: Option<string>)

  /** `typedAgent` is a name the content starts with; the quoted finds are the first in the
      message replied to. */
  datatype Message = Message(
    content: string,
    command: Option<Command>,
    typedAgent: Option<string>,
    quotedAgent: Option<string>,
    quotedTeam: Option<TeamId>,
    catalogEntry: Option<string>,
    teamKey: Option<TeamId>,
    teamMetadata: Option<map<string, string>>,
    bindingMetadata: map<string, string>)

  /** What the team service is asked to create, for the chat's own user. */
  datatype Creation = Creation(entry: string, user: string, key: Option<TeamId>, metadata: Option<map<string, string>>)

  /** `defaultEntry` is the channel's own catalog entry; `known` and `knownLater` are two successive answers
      of `get_team` for the bound team. */
  datatype Outside = Outside(
    defaultEntry: string,
    created: Result<Process, string>,
    known: Option<Process>,
    knownLater: Option<Process>,
    sendRaises: bool)

  datatype Notice =
    | Started(team: TeamId, agent: string)
    | ReleasedTeam(team: TeamId)
    | NothingToRelease
    | RegisterDisabled
    | RegisterUsage
    | BoundTo(team: TeamId, agent: string)
    | NoSession
    | NoLongerKnown(team: TeamId)
    | StatusOf(team: TeamId, agent: string, status: string)
    | TeamGone(team: TeamId)
    | NobodyToAddress

  /** `asAgent` and `to` are None for a first message, which the team's own entry takes. */
  datatype Effect =
    | Created(address: Address, team: TeamId, creation: Creation)
    | Bound(address: Address, binding: Binding)
    | Released(address: Address)
    | Sent(address: Address, team: TeamId, asAgent: Option<string>, to: Option<string>, content: string)
    | Notified(address: Address, notice: Notice)

  /** The registry after some effects; a disabled registry keeps nothing. */
  function After(enabled: bool, data: Data, effects: seq<Effect>): Data {
    if effects == [] then data
    else
      var before := After(enabled, data, effects[..|effects| - 1]);
      var last := effects[|effects| - 1];
      if !enabled then before
      else if last.Bound? then Registered(before, last.binding)
      else if last.Released? then Deregistered(before, last.address)
      else before
  }

  function Look(enabled: bool, data: Data, address: Address): Option<Binding> {
    if enabled then Find(data, address) else None
  }

  // ----- what a message does -----

  function BindingOf(address: Address, team: TeamId, agent: string, metadata: map<string, string>): Binding {
    Binding(address.channel, address.user, team, agent, metadata)
  }

  /** The message's catalog entry, when it names one, stands before the channel's default. */
  function CreationOf(address: Address, m: Message, o: Outside): Creation {
    var entry := if m.catalogEntry.Some? && m.catalogEntry.value != "" then m.catalogEntry.value else o.defaultEntry;
    Creation(entry, address.user, m.teamKey, m.teamMetadata)
  }

  /** Create, bind, then send: the team can answer at once, so the binding comes first. */
  function Initiate(address: Address, content: Option<string>, m: Message, o: Outside): seq<Effect> {
    if o.created.Err? then []
    else
      var p := o.created.value;
      [Created(address, p.team, CreationOf(address, m, o)),
       Bound(address, BindingOf(address, p.team, p.entryPoint, m.bindingMetadata))]
      + if content.Some? && !Blank(content.value) then [Sent(address, p.team, None, None, content.value)] else []
  }

  /** Whether `initiate_team` returns: its creation and its send, if any, did not raise. */
  predicate Initiated(content: Option<string>, o: Outside) {
    o.created.Ok? && !(content.Some? && !Blank(content.value) && o.sendRaises)
  }

  function StartSession(address: Address, content: Option<string>, m: Message, o: Outside): seq<Effect> {
    Initiate(address, content, m, o)
    + (if Initiated(content, o)
       then [Notified(address, Started(o.created.value.team, o.created.value.entryPoint))] else [])
  }

  function Release(address: Address, binding: Option<Binding>): seq<Effect> {
    if binding.Some? then [Released(address)] else []
  }

  function First(a: Option<string>, b: Option<string>): Option<string> { if a.Some? then a else b }

  function RegisterCommand(allow: bool, address: Address, m: Message, command: Command): seq<Effect> {
    if !allow then [Notified(address, RegisterDisabled)]
    else
      var team := if command.team.Some? then command.team else m.quotedTeam;
      var agent := First(command.agent, m.quotedAgent);
      if team.None? || agent.None? then [Notified(address, RegisterUsage)]
      else [Bound(address, BindingOf(address, team.value, agent.value, map[])),
            Notified(address, BoundTo(team.value, agent.value))]
  }

  function StatusNotice(binding: Option<Binding>, o: Outside): Notice {
    if binding.None? then NoSession
    else if o.known.None? then NoLongerKnown(binding.value.team)
    else StatusOf(binding.value.team, binding.value.agent, o.known.value.status)
  }

  predicate IsCommand(name: string) { name in {"new", "unregister", "status", "register"} }

  function CommandEffects(allow: bool, address: Address, binding: Option<Binding>, m: Message, command: Command,
          o: Outside): seq<Effect>
  {
    if command.name == "new" then
      Release(address, binding) + StartSession(address, if command.rest == "" then None else Some(command.rest), m, o)
    else if command.name == "unregister" then
      Release(address, binding)
      + [Notified(address, if binding.Some? then ReleasedTeam(binding.value.team) else NothingToRelease)]
    else if command.name == "status" then [Notified(address, StatusNotice(binding, o))]
    else RegisterCommand(allow, address, m, command)
  }

  /** Candidates are the supervisors in order and then the entry point; never the sender. */
  function DefaultRecipient(p: Process, agent: string): Option<string> {
    FirstOther(p.supervisors + [p.entryPoint], agent)
  }

  function FirstOther(names: seq<string>, agent: string): (r: Option<string>)
    ensures r.None? ==> forall name <- names :: name == agent
    ensures r.Some? ==> r.value != agent && r.value in names
  {
    if names == [] then None
    else if names[0] != agent then assert names[0] in names; Some(names[0])
    else
      var r := FirstOther(names[1..], agent);
      assert names == [names[0]] + names[1..];
      r
  }

  function BoundEffects(address: Address, b: Binding, m: Message, o: Outside): seq<Effect> {
    if Blank(m.content) then []
    else if o.known.None? then [Notified(address, TeamGone(b.team))]
    else
      var named := First(m.typedAgent, m.quotedAgent);
      if named.Some? then [Sent(address, b.team, Some(b.agent), named, m.content)]
      else if o.knownLater.None? then []
      else
        var recipient := DefaultRecipient(o.knownLater.value, b.agent);
        if recipient.None? then [Notified(address, NobodyToAddress)]
        else [Sent(address, b.team, Some(b.agent), recipient, m.content)]
  }

  /** Everything routing one message causes, in order. */
  function Route(enabled: bool, allow: bool, data: Data, address: Address, m: Message, o: Outside): seq<Effect> {
    var binding := Look(enabled, data, address);
    if m.command.Some? && IsCommand(m.command.value.name)
    then CommandEffects(allow, address, binding, m, m.command.value, o)
    else if binding.None? then StartSession(address, Some(m.content), m, o)
    else BoundEffects(address, binding.value, m, o)
  }

  // ----- theorems about one message -----

  lemma {:induction false} AfterAppend(enabled: bool, data: Data, effects: seq<Effect>, more: seq<Effect>)
    ensures After(enabled, data, effects + more) == After(enabled, After(enabled, data, effects), more)
  {
    if more == [] {
      assert effects + more == effects;
    } else {
      AfterAppend(enabled, data, effects, more[..|more| - 1]);
      assert (effects + more)[..|effects + more| - 1] == effects + more[..|more| - 1];
    }
  }

  predicate ActsOn(e: Effect, address: Address) {
    e.address == address && (e.Bound? ==> e.binding.channel == address.channel && e.binding.user == address.user)
  }

  /** A first message: right after its conversation was bound to the team just created. */
  predicate FirstMessage(effects: seq<Effect>, i: nat, o: Outside)
    requires i < |effects|
  {
    && i >= 1 && effects[i].Sent? && effects[i].asAgent.None? && !Blank(effects[i].content)
    && effects[i - 1].Bound? && effects[i - 1].binding.team == effects[i].team
    && o.created.Ok? && effects[i].team == o.created.value.team
  }

  /** A continuation: the message's only effect, from the bound agent to the bound team. */
  predicate Continuation(effects: seq<Effect>, i: nat, binding: Option<Binding>)
    requires i < |effects|
  {
    && |effects| == 1 && effects[i].Sent? && !Blank(effects[i].content)
    && binding.Some? && effects[i].team == binding.value.team && effects[i].asAgent == Some(binding.value.agent)
  }

  lemma StartShape(address: Address, content: Option<string>, m: Message, o: Outside)
    ensures var effects := StartSession(address, content, m, o);
      && (forall e <- effects :: ActsOn(e, address))
      && (forall i | 0 <= i < |effects| && effects[i].Sent? :: i == 2 && FirstMessage(effects, i, o))
  {
  }

  lemma CommandShape(allow: bool, address: Address, binding: Option<Binding>, m: Message, command: Command, o: Outside)
    ensures var effects := CommandEffects(allow, address, binding, m, command, o);
      && (forall e <- effects :: ActsOn(e, address))
      && (forall i | 0 <= i < |effects| && effects[i].Sent? ::
            i == 2 + |Release(address, binding)| && FirstMessage(effects, i, o))
  {
    if command.name == "new" {
      var content := if command.rest == "" then None else Some(command.rest);
      StartShape(address, content, m, o);
      var released, started := Release(address, binding), StartSession(address, content, m, o);
      assert forall i | |released| <= i < |released + started| :: (released + started)[i] == started[i - |released|];
    }
  }

  /** Every effect of a message is on its own conversation, and its one send, if it makes any,
      is a first message or a continuation. */
  lemma RouteShape(enabled: bool, allow: bool, data: Data, address: Address, m: Message, o: Outside)
    ensures var effects := Route(enabled, allow, data, address, m, o);
      && (forall e <- effects :: ActsOn(e, address))
      && (forall i | 0 <= i < |effects| && effects[i].Sent? ::
            FirstMessage(effects, i, o) || Continuation(effects, i, Look(enabled, data, address)))
      && (forall i, j | 0 <= i < j < |effects| :: !(effects[i].Sent? && effects[j].Sent?))
  {
    var binding := Look(enabled, data, address);
    if m.command.Some? && IsCommand(m.command.value.name) {
      CommandShape(allow, address, binding, m, m.command.value, o);
    } else if binding.None? {
      StartShape(address, Some(m.content), m, o);
    }
  }

  lemma {:induction false} AfterOthers(enabled: bool, data: Data, effects: seq<Effect>, address: Address,
          other: Address)
    requires other != address && forall e <- effects :: ActsOn(e, address)
    ensures Find(After(enabled, data, effects), other) == Find(data, other)
  {
    if effects == [] {
    } else {
      var init, last := effects[..|effects| - 1], effects[|effects| - 1];
      AfterOthers(enabled, data, init, address, other);
      assert ActsOn(last, address);
      var before := After(enabled, data, init);
      if last.Bound? { RegisteredFinds(before, last.binding, other); }
      if last.Released? { DeregisteredFinds(before, last.address, other); }
    }
  }

  /** Routing a message from one conversation never changes another's binding. */
  lemma OthersUntouched(enabled: bool, allow: bool, data: Data, address: Address, m: Message, o: Outside,
          other: Address)
    requires other != address
    ensures Find(After(enabled, data, Route(enabled, allow, data, address, m, o)), other) == Find(data, other)
  {
    RouteShape(enabled, allow, data, address, m, o);
    AfterOthers(enabled, data, Route(enabled, allow, data, address, m, o), address, other);
  }

  /** At most one send a message, and no blank one. */
  lemma AtMostOneSend(enabled: bool, allow: bool, data: Data, address: Address, m: Message, o: Outside)
    ensures var effects := Route(enabled, allow, data, address, m, o);
      && (forall i, j | 0 <= i < j < |effects| :: !(effects[i].Sent? && effects[j].Sent?))
      && (forall e <- effects | e.Sent? :: !Blank(e.content))
  {
    RouteShape(enabled, allow, data, address, m, o);
  }

  /** Nobody is made to talk to themselves: a send that took the default recipient names the
      first supervisor, or failing that the entry point, that is not the sender. */
  lemma DefaultIsNotSender(enabled: bool, allow: bool, data: Data, address: Address, m: Message, o: Outside, e: Effect)
    requires e in Route(enabled, allow, data, address, m, o) && e.Sent? && e.asAgent.Some?
    requires m.typedAgent.None? && m.quotedAgent.None?
    ensures e.to.Some? && e.to.value != e.asAgent.value && o.knownLater.Some?
    ensures e.to.value in o.knownLater.value.supervisors + [o.knownLater.value.entryPoint]
    ensures forall name <- o.knownLater.value.supervisors | name != e.asAgent.value ::
              e.to.value in o.knownLater.value.supervisors
  {
    var binding := Look(enabled, data, address);
    if m.command.Some? && IsCommand(m.command.value.name) {
      CommandShape(allow, address, binding, m, m.command.value, o);
    } else if binding.None? {
      StartShape(address, Some(m.content), m, o);
    } else {
      FirstOtherPrefers(o.knownLater.value.supervisors, [o.knownLater.value.entryPoint], binding.value.agent);
    }
  }

  lemma {:induction false} FirstOtherPrefers(names: seq<string>, more: seq<string>, agent: string)
    ensures FirstOther(names + more, agent)
            == if FirstOther(names, agent).Some? then FirstOther(names, agent) else FirstOther(more, agent)
  {
    if names == [] {
      assert names + more == more;
    } else {
      FirstOtherPrefers(names[1..], more, agent);
      assert (names + more)[1..] == names[1..] + more;
    }
  }

  /** If effect `i` is a send, it goes to the team its conversation is bound to just before it,
      as the bound agent when it names one. */
  predicate ToBound(data: Data, effects: seq<Effect>, i: nat)
    requires i < |effects|
  {
    effects[i].Sent? ==>
      var b := Find(After(true, data, effects[..i]), effects[i].address);
      && b.Some? && b.value.team == effects[i].team
      && (effects[i].asAgent.Some? ==> b.value.agent == effects[i].asAgent.value)
  }

  /** With a registry, every send of a message is to the bound team; so a binding always
      precedes the first message. */
  lemma SendsToBound(allow: bool, data: Data, address: Address, m: Message, o: Outside, i: nat)
    requires i < |Route(true, allow, data, address, m, o)|
    ensures ToBound(data, Route(true, allow, data, address, m, o), i)
  {
    var effects := Route(true, allow, data, address, m, o);
    var earlier := effects[..i];
    RouteShape(true, allow, data, address, m, o);
    assert ActsOn(effects[i], address);
    if !effects[i].Sent? {
    } else if FirstMessage(effects, i, o) {
      assert earlier[i - 1] == effects[i - 1] && ActsOn(effects[i - 1], address);
      RegisteredFinds(After(true, data, earlier[..i - 1]), effects[i - 1].binding, address);
    } else {
      assert earlier == [];
    }
  }

  /** Without one, no send does: nothing is ever bound, so each text starts a team that no
      conversation is bound to. */
  lemma DisabledNeverBound(allow: bool, data: Data, address: Address, m: Message, o: Outside, i: nat)
    requires var effects := Route(false, allow, data, address, m, o); i < |effects| && effects[i].Sent?
    ensures var effects := Route(false, allow, data, address, m, o);
      Look(false, After(false, data, effects[..i]), address) == None
      && o.created.Ok? && effects[i].team == o.created.value.team && effects[i].asAgent.None?
  {
    RouteShape(false, allow, data, address, m, o);
  }

  /** Binding is left as it was by a message to a bound team, gone or not. */
  lemma BoundStays(allow: bool, data: Data, address: Address, m: Message, o: Outside)
    requires Find(data, address).Some?
    requires m.command.Some? ==> m.command.value.name !in {"new", "unregister", "status", "register"}
    ensures After(true, data, Route(true, allow, data, address, m, o)) == data
  {
    var effects := Route(true, allow, data, address, m, o);
    if effects != [] { assert effects[..|effects| - 1] == []; }
  }

  lemma {:induction false} QuietKeeps(data: Data, effects: seq<Effect>)
    requires forall e <- effects :: !e.Bound? && !e.Released?
    ensures After(true, data, effects) == data
  {
    if effects != [] { QuietKeeps(data, effects[..|effects| - 1]); }
  }

  lemma StartBinds(data: Data, address: Address, content: Option<string>, m: Message, o: Outside)
    requires o.created.Ok?
    ensures Find(After(true, data, StartSession(address, content, m, o)), address)
            == Some(BindingOf(address, o.created.value.team, o.created.value.entryPoint, m.bindingMetadata))
  {
    var b := BindingOf(address, o.created.value.team, o.created.value.entryPoint, m.bindingMetadata);
    var created := Created(address, o.created.value.team, CreationOf(address, m, o));
    var effects := StartSession(address, content, m, o);
    assert effects == ([created] + [Bound(address, b)]) + effects[2..];
    AfterAppend(true, data, [created] + [Bound(address, b)], effects[2..]);
    AfterAppend(true, data, [created], [Bound(address, b)]);
    QuietKeeps(data, [created]);
    assert [Bound(address, b)][..0] == [];
    QuietKeeps(Registered(data, b), effects[2..]);
  }

  /** A text to an unbound chat, and `new` to any chat, leaves the chat bound to the team it
      created, and to no earlier one, even when the text is blank or its send raises. */
  lemma SessionBinds(allow: bool, data: Data, address: Address, m: Message, o: Outside)
    requires o.created.Ok?
    requires if m.command.Some? && m.command.value.name in {"new", "unregister", "status", "register"}
             then m.command.value.name == "new" else Find(data, address).None?
    ensures Find(After(true, data, Route(true, allow, data, address, m, o)), address) ==
            Some(Binding(address.channel, address.user, o.created.value.team, o.created.value.entryPoint,
                         m.bindingMetadata))
  {
    if m.command.Some? && IsCommand(m.command.value.name) {
      var content := if m.command.value.rest == "" then None else Some(m.command.value.rest);
      var released := Release(address, Find(data, address));
      AfterAppend(true, data, released, StartSession(address, content, m, o));
      StartBinds(After(true, data, released), address, content, m, o);
    } else {
      StartBinds(data, address, Some(m.content), m, o);
    }
  }

  function Notices(effects: seq<Effect>): nat {
    if effects == [] then 0
    else Notices(effects[..|effects| - 1]) + if effects[|effects| - 1].Notified? then 1 else 0
  }

  lemma {:induction false} NoticesAppend(effects: seq<Effect>, more: seq<Effect>)
    ensures Notices(effects + more) == Notices(effects) + Notices(more)
  {
    if more == [] {
      assert effects + more == effects;
    } else {
      NoticesAppend(effects, more[..|more| - 1]);
      assert (effects + more)[..|effects + more| - 1] == effects + more[..|more| - 1];
    }
  }

  lemma {:induction false} SilentWithout(effects: seq<Effect>)
    requires forall e <- effects :: !e.Notified?
    ensures Notices(effects) == 0
  {
    if effects != [] { SilentWithout(effects[..|effects| - 1]); }
  }

  lemma OneNotice(init: seq<Effect>, last: Effect)
    requires last.Notified? && forall e <- init :: !e.Notified?
    ensures Notices(init + [last]) == 1 && (init + [last])[|init + [last]| - 1] == last
  {
    SilentWithout(init);
    NoticesAppend(init, [last]);
    assert [last][..0] == [];
  }

  /** The effects end in a notice, their only one. */
  predicate Answered(effects: seq<Effect>) {
    effects != [] && effects[|effects| - 1].Notified? && Notices(effects) == 1
  }

  lemma NewAnswered(address: Address, binding: Option<Binding>, content: Option<string>, m: Message, o: Outside)
    requires Initiated(content, o)
    ensures Answered(Release(address, binding) + StartSession(address, content, m, o))
  {
    var released, initiated := Release(address, binding), Initiate(address, content, m, o);
    var last := Notified(address, Started(o.created.value.team, o.created.value.entryPoint));
    assert released + StartSession(address, content, m, o) == (released + initiated) + [last];
    OneNotice(released + initiated, last);
  }

  lemma RegisterAnswered(allow: bool, address: Address, m: Message, command: Command)
    ensures Answered(RegisterCommand(allow, address, m, command))
  {
    var effects := RegisterCommand(allow, address, m, command);
    var init, last := effects[..|effects| - 1], effects[|effects| - 1];
    assert effects == init + [last];
    OneNotice(init, last);
  }

  lemma UnregisterAnswered(address: Address, binding: Option<Binding>)
    ensures var notice := if binding.Some? then ReleasedTeam(binding.value.team) else NothingToRelease;
            Answered(Release(address, binding) + [Notified(address, notice)])
  {
    var notice := if binding.Some? then ReleasedTeam(binding.value.team) else NothingToRelease;
    OneNotice(Release(address, binding), Notified(address, notice));
  }

  lemma StatusAnswered(address: Address, binding: Option<Binding>, o: Outside)
    ensures Answered([Notified(address, StatusNotice(binding, o))])
  {
    var last := Notified(address, StatusNotice(binding, o));
    assert [] + [last] == [last];
    OneNotice([], last);
  }

  /** A command is always answered, once and last, whatever the conversation's state; only a
      `new` whose creation or send raised is not. */
  lemma CommandAnswered(enabled: bool, allow: bool, data: Data, address: Address, m: Message, o: Outside)
    requires m.command.Some? && m.command.value.name in {"new", "unregister", "status", "register"}
    requires m.command.value.name == "new" ==> o.created.Ok? && (Blank(m.command.value.rest) || !o.sendRaises)
    ensures Answered(Route(enabled, allow, data, address, m, o))
  {
    var binding, command := Look(enabled, data, address), m.command.value;
    if command.name == "new" {
      NewAnswered(address, binding, if command.rest == "" then None else Some(command.rest), m, o);
    } else if command.name == "unregister" {
      UnregisterAnswered(address, binding);
    } else if command.name == "status" {
      StatusAnswered(address, binding, o);
    } else {
      RegisterAnswered(allow, address, m, command);
    }
  }

  // ----- theorems about runs -----

  datatype Delivery = Delivery(address: Address, m: Message, o: Outside)

  /** All effects of a run of messages, routed one at a time. */
  function Log(enabled: bool, allow: bool, data: Data, run: seq<Delivery>): seq<Effect> {
    if run == [] then []
    else
      var before := Log(enabled, allow, data, run[..|run| - 1]);
      var d := run[|run| - 1];
      before + Route(enabled, allow, After(enabled, data, before), d.address, d.m, d.o)
  }

  lemma ToBoundBefore(data: Data, before: seq<Effect>, effects: seq<Effect>, i: nat)
    requires i < |before| && ToBound(data, before, i)
    ensures ToBound(data, before + effects, i)
  {
    assert (before + effects)[..i] == before[..i];
  }

  lemma ToBoundAfter(data: Data, before: seq<Effect>, effects: seq<Effect>, k: nat)
    requires k < |effects| && ToBound(After(true, data, before), effects, k)
    ensures ToBound(data, before + effects, |before| + k)
  {
    assert (before + effects)[..|before| + k] == before + effects[..k];
    AfterAppend(true, data, before, effects[..k]);
  }

  /** In any run, every send goes to the team its conversation is bound to just then. */
  lemma {:induction false} RunSendsToBound(allow: bool, data: Data, run: seq<Delivery>, i: nat)
    requires i < |Log(true, allow, data, run)|
    ensures ToBound(data, Log(true, allow, data, run), i)
    decreases |run|
  {
    var before, d := Log(true, allow, data, run[..|run| - 1]), run[|run| - 1];
    var now := After(true, data, before);
    var effects := Route(true, allow, now, d.address, d.m, d.o);
    if i < |before| {
      RunSendsToBound(allow, data, run[..|run| - 1], i);
      ToBoundBefore(data, before, effects, i);
    } else {
      SendsToBound(allow, now, d.address, d.m, d.o, i - |before|);
      ToBoundAfter(data, before, effects, i - |before|);
    }
  }

  /** In any run, a conversation that sent nothing keeps the binding it had. */
  lemma {:induction false} RunKeepsSilent(enabled: bool, allow: bool, data: Data, run: seq<Delivery>, other: Address)
    requires forall d <- run :: d.address != other
    ensures Find(After(enabled, data, Log(enabled, allow, data, run)), other) == Find(data, other)
    decreases |run|
  {
    if run == [] {
    } else {
      var init, d := run[..|run| - 1], run[|run| - 1];
      RunKeepsSilent(enabled, allow, data, init, other);
      var before := Log(enabled, allow, data, init);
      var now := After(enabled, data, before);
      OthersUntouched(enabled, allow, now, d.address, d.m, d.o, other);
      AfterAppend(enabled, data, before, Route(enabled, allow, now, d.address, d.m, d.o));
    }
  }

  function Sends(log: seq<Effect>): nat {
    if log == [] then 0 else Sends(log[..|log| - 1]) + if log[|log| - 1].Sent? then 1 else 0
  }

  lemma {:induction false} SendsAppend(a: seq<Effect>, b: seq<Effect>)
    ensures Sends(a + b) == Sends(a) + Sends(b)
  {
    if b == [] {
      assert a + b == a;
    } else {
      SendsAppend(a, b[..|b| - 1]);
      assert (a + b)[..|a + b| - 1] == a + b[..|b| - 1];
    }
  }

  lemma {:induction false} NoneSent(log: seq<Effect>)
    requires forall e <- log :: !e.Sent?
    ensures Sends(log) == 0
  {
    if log != [] { NoneSent(log[..|log| - 1]); }
  }

  lemma {:induction false} OneSent(log: seq<Effect>)
    requires forall i, j | 0 <= i < j < |log| :: !(log[i].Sent? && log[j].Sent?)
    ensures Sends(log) <= 1
  {
    if log == [] {
    } else {
      if log[|log| - 1].Sent? { NoneSent(log[..|log| - 1]); } else { OneSent(log[..|log| - 1]); }
    }
  }

  /** A run never sends more messages than it received. */
  lemma {:induction false} RunSendsAtMost(enabled: bool, allow: bool, data: Data, run: seq<Delivery>)
    ensures Sends(Log(enabled, allow, data, run)) <= |run|
    decreases |run|
  {
    if run == [] {
    } else {
      var init, d := run[..|run| - 1], run[|run| - 1];
      RunSendsAtMost(enabled, allow, data, init);
      var before := Log(enabled, allow, data, init);
      var effects := Route(enabled, allow, After(enabled, data, before), d.address, d.m, d.o);
      AtMostOneSend(enabled, allow, After(enabled, data, before), d.address, d.m, d.o);
      OneSent(effects);
      SendsAppend(before, effects);
    }
  }
}
