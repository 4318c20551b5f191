/**
 The channel context and the default router in their own form: methods that change
 the registry and the team service in order. Each is proved to cause exactly the
 effects ChannelRouter gives for it, and to leave the registry as those effects do.
 */
module ChannelContext {
  import opened Wrappers
  import opened Text
  import opened ChannelRegistry
  import opened ChannelRouter

  /** One request's view of one conversation. `log` records what it has caused so far. */
  class ChannelRouteContext {
    const address: Address
    const registry: YamlChannelRegistry
    const outside: Outside
    var log: seq<Effect>

    constructor (address: Address, registry: YamlChannelRegistry, outside: Outside)
      ensures this.address == address && this.registry == registry && this.outside == outside && log == []
    {
      this.address, this.registry, this.outside, this.log := address, registry, outside, [];
    }

    ghost function Stored(): Data
      reads registry
    {
      Load(registry.disk)
    }

    ghost function Binding(): Option<Binding>
      reads registry
    {
      Look(registry.enabled, Stored(), address)
    }

    /** From `data` and `log0`, exactly these effects have happened. */
    ghost predicate Caused(data: Data, log0: seq<Effect>, effects: seq<Effect>)
      reads this, registry
    {
      registry.Valid() && log == log0 + effects && Stored() == After(registry.enabled, data, effects)
    }

    lemma CausedAppend(data: Data, log0: seq<Effect>, first: seq<Effect>, mid: Data, rest: seq<Effect>)
      requires mid == After(registry.enabled, data, first) && Caused(mid, log0 + first, rest)
      ensures Caused(data, log0, first + rest)
    {
      AfterAppend(registry.enabled, data, first, rest);
    }

    lemma AfterQuiet(data: Data, e: Effect)
      requires !e.Bound? && !e.Released?
      ensures After(registry.enabled, data, [e]) == data
    {
      assert [e][..0] == [];
    }

    lemma AfterOne(data: Data, e: Effect)
      ensures After(registry.enabled, data, [e]) ==
              if !registry.enabled then data
              else if e.Bound? then Registered(data, e.binding)
              else if e.Released? then Deregistered(data, e.address) else data
    {
      assert [e][..0] == [];
    }

    method FindBinding() returns (b: Option<Binding>)
      requires registry.Valid()
      ensures b == Binding()
    {
      b := registry.FindBinding(address);
    }

    method Notify(notice: Notice)
      requires registry.Valid()
      modifies this`log
      ensures Caused(old(Stored()), old(log), [Notified(address, notice)])
    {
      log := log + [Notified(address, notice)];
      AfterQuiet(Stored(), Notified(address, notice));
    }

    method Bind(b: Binding)
      requires registry.Valid()
      modifies this`log, registry
      ensures Caused(old(Stored()), old(log), [Bound(address, b)])
    {
      registry.Register(b);
      log := log + [Bound(address, b)];
      AfterOne(old(Stored()), Bound(address, b));
    }

    /** A call of the team service; `delivered` is false when it raises. */
    method Deliver(e: Effect) returns (delivered: bool)
      requires registry.Valid() && (e.Sent? || e.Created?)
      modifies this`log
      ensures Caused(old(Stored()), old(log), [e]) && delivered == !outside.sendRaises
    {
      log := log + [e];
      AfterQuiet(Stored(), e);
      delivered := !outside.sendRaises;
    }

    method ReleaseBinding() returns (b: Option<Binding>)
      requires registry.Valid()
      modifies this`log, registry
      ensures b == old(Binding()) && Caused(old(Stored()), old(log), Release(address, b))
      ensures Binding().None? && log == old(log) + if b.Some? then [Released(address)] else []
    {
      b := FindBinding();
      if b.Some? {
        registry.Deregister(address);
        log := log + [Released(address)];
        AfterOne(old(Stored()), Released(address));
        DeregisteredFinds(old(Stored()), address, address);
      }
    }

    /** Create, bind, then send, in that order; the answer is None when a step raised. */
    method InitiateTeam(content: Option<string>, m: Message) returns (p: Option<Process>)
      requires registry.Valid()
      modifies this`log, registry
      ensures Caused(old(Stored()), old(log), Initiate(address, content, m, outside))
      ensures p == if Initiated(content, outside) then Some(outside.created.value) else None
    {
      if outside.created.Err? { return None; }
      var made := outside.created.value;
      ghost var data, log0 := Stored(), log;
      var created := Created(address, made.team, CreationOf(address, m, outside));
      var _ := Deliver(created);
      ghost var mid := Stored();
      var bound := BindingOf(address, made.team, made.entryPoint, m.bindingMetadata);
      Bind(bound);
      CausedAppend(data, log0, [created], mid, [Bound(address, bound)]);
      assert [created] + [Bound(address, bound)] == [created, Bound(address, bound)];
      if content.Some? && !Blank(content.value) {
        mid := Stored();
        var sent := Sent(address, made.team, None, None, content.value);
        var delivered := Deliver(sent);
        CausedAppend(data, log0, [created, Bound(address, bound)], mid, [sent]);
        if !delivered { return None; }
      }
      p := Some(made);
    }

    /** The send both paths end in; `Ok` is what they return, `Err` what they raise. */
    method SendAs(b: Binding, recipient: string, content: string) returns (r: Result<bool, SendError>)
      requires registry.Valid()
      modifies this`log
      ensures Caused(old(Stored()), old(log), [Sent(address, b.team, Some(b.agent), Some(recipient), content)])
      ensures r == if outside.sendRaises then Err(ServiceRaised) else Ok(true)
    {
      var delivered := Deliver(Sent(address, b.team, Some(b.agent), Some(recipient), content));
      r := if delivered then Ok(true) else Err(ServiceRaised);
    }

    /** Send as the bound agent, whoever that is now, to the agent the message named; false when
        the text is blank or the conversation has no team. */
    method SendTo(recipient: string, content: string) returns (r: Result<bool, SendError>)
      requires registry.Valid()
      modifies this`log
      ensures var b := old(Binding());
              Caused(old(Stored()), old(log),
                if Blank(content) || b.None? then []
                else [Sent(address, b.value.team, Some(b.value.agent), Some(recipient), content)])
              && r == if Blank(content) || b.None? then Ok(false) else if outside.sendRaises then Err(ServiceRaised)
                  else Ok(true)
    {
      if Blank(content) { return Ok(false); }
      var b := FindBinding();
      if b.None? { return Ok(false); }
      r := SendAs(b.value, recipient, content);
    }

    /** The same to the team's default recipient, looked up after the binding. */
    method Send(content: string) returns (r: Result<bool, SendError>)
      requires registry.Valid()
      modifies this`log
      ensures Blank(content) || old(Binding()).None? ==> r == Ok(false) && Caused(old(Stored()), old(log), [])
      ensures !Blank(content) && old(Binding()).Some? ==>
                var b, later := old(Binding()).value, outside.knownLater;
                if later.None? then r == Err(TeamNotFound) && Caused(old(Stored()), old(log), [])
                else if DefaultRecipient(later.value, b.agent).None? then r == Err(NoDefaultRecipient)
                    && Caused(old(Stored()), old(log), [])
                else Caused(old(Stored()), old(log),
                       [Sent(address, b.team, Some(b.agent), DefaultRecipient(later.value, b.agent), content)])
                     && r == if outside.sendRaises then Err(ServiceRaised) else Ok(true)
    {
      if Blank(content) { return Ok(false); }
      var b := FindBinding();
      if b.None? { return Ok(false); }
      if outside.knownLater.None? { return Err(TeamNotFound); }
      var recipient := DefaultRecipient(outside.knownLater.value, b.value.agent);
      if recipient.None? { return Err(NoDefaultRecipient); }
      r := SendAs(b.value, recipient.value, content);
    }
  }

  datatype SendError = TeamNotFound | NoDefaultRecipient | ServiceRaised

  class DefaultChannelRouter {
    const allowRegister: bool

    constructor (allowRegister: bool)
      ensures this.allowRegister == allowRegister
    {
      this.allowRegister := allowRegister;
    }

    method Begin(content: Option<string>, m: Message, ctx: ChannelRouteContext)
      requires ctx.registry.Valid()
      modifies ctx`log, ctx.registry
      ensures ctx.Caused(old(ctx.Stored()), old(ctx.log), StartSession(ctx.address, content, m, ctx.outside))
    {
      ghost var data, log0 := ctx.Stored(), ctx.log;
      var p := ctx.InitiateTeam(content, m);
      if p.Some? {
        ghost var mid := ctx.Stored();
        ctx.Notify(Started(p.value.team, p.value.entryPoint));
        ctx.CausedAppend(data, log0, Initiate(ctx.address, content, m, ctx.outside), mid,
                         [Notified(ctx.address, Started(p.value.team, p.value.entryPoint))]);
      } else {
        assert StartSession(ctx.address, content, m, ctx.outside) == Initiate(ctx.address, content, m, ctx.outside);
      }
    }

    method OnCommand(m: Message, command: Command, ctx: ChannelRouteContext)
      requires ctx.registry.Valid() && IsCommand(command.name)
      modifies ctx`log, ctx.registry
      ensures ctx.Caused(old(ctx.Stored()), old(ctx.log),
                CommandEffects(allowRegister, ctx.address, old(ctx.Binding()), m, command, ctx.outside))
    {
      ghost var data, log0 := ctx.Stored(), ctx.log;
      if command.name == "new" {
        var b := ctx.ReleaseBinding();
        ghost var mid := ctx.Stored();
        var content := if command.rest == "" then None else Some(command.rest);
        Begin(content, m, ctx);
        ctx.CausedAppend(data, log0, Release(ctx.address, b), mid, StartSession(ctx.address, content, m, ctx.outside));
      } else if command.name == "unregister" {
        var b := ctx.ReleaseBinding();
        ghost var mid := ctx.Stored();
        var notice := if b.Some? then ReleasedTeam(b.value.team) else NothingToRelease;
        ctx.Notify(notice);
        ctx.CausedAppend(data, log0, Release(ctx.address, b), mid, [Notified(ctx.address, notice)]);
      } else if command.name == "status" {
        var b := ctx.FindBinding();
        ctx.Notify(StatusNotice(b, ctx.outside));
      } else {
        OnRegister(m, command, ctx);
      }
    }

    method OnRegister(m: Message, command: Command, ctx: ChannelRouteContext)
      requires ctx.registry.Valid()
      modifies ctx`log, ctx.registry
      ensures ctx.Caused(old(ctx.Stored()), old(ctx.log), RegisterCommand(allowRegister, ctx.address, m, command))
    {
      ghost var data, log0 := ctx.Stored(), ctx.log;
      if !allowRegister { ctx.Notify(RegisterDisabled); return; }
      var team := if command.team.Some? then command.team else m.quotedTeam;
      var agent := if command.agent.Some? then command.agent else m.quotedAgent;
      if team.None? || agent.None? { ctx.Notify(RegisterUsage); return; }
      var b := BindingOf(ctx.address, team.value, agent.value, map[]);
      ctx.Bind(b);
      ghost var mid := ctx.Stored();
      ctx.Notify(BoundTo(team.value, agent.value));
      var notice := BoundTo(team.value, agent.value);
      ctx.CausedAppend(data, log0, [Bound(ctx.address, b)], mid, [Notified(ctx.address, notice)]);
      assert [Bound(ctx.address, b)] + [Notified(ctx.address, BoundTo(team.value, agent.value))]
             == RegisterCommand(allowRegister, ctx.address, m, command);
    }

    method OnBound(m: Message, b: Binding, ctx: ChannelRouteContext)
      requires ctx.registry.Valid() && ctx.Binding() == Some(b)
      modifies ctx`log
      ensures ctx.Caused(old(ctx.Stored()), old(ctx.log), BoundEffects(ctx.address, b, m, ctx.outside))
    {
      if Blank(m.content) { return; }
      if ctx.outside.known.None? { ctx.Notify(TeamGone(b.team)); return; }
      var named := if m.typedAgent.Some? then m.typedAgent else m.quotedAgent;
      if named.Some? {
        var _ := ctx.SendTo(named.value, m.content);
        return;
      }
      var sent := ctx.Send(m.content);
      if sent == Err(NoDefaultRecipient) { ctx.Notify(NobodyToAddress); }
    }

    /** A command goes no further; any other text goes to the bound team, or begins a session. */
    method RouteMessage(m: Message, ctx: ChannelRouteContext)
      requires ctx.registry.Valid()
      modifies ctx`log, ctx.registry
      ensures ctx.Caused(old(ctx.Stored()), old(ctx.log),
                Route(ctx.registry.enabled, allowRegister, old(ctx.Stored()), ctx.address, m, ctx.outside))
    {
      if m.command.Some? && IsCommand(m.command.value.name) {
        OnCommand(m, m.command.value, ctx);
        return;
      }
      var binding := ctx.FindBinding();
      if binding.None? { Begin(Some(m.content), m, ctx); } else { OnBound(m, binding.value, ctx); }
    }
  }
}
