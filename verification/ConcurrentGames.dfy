/** The daemon's games under concurrent clients: what the sequential rules keep, every interleaving keeps. */
module ConcurrentGames {
  import opened Wrappers
  import opened Scenarios
  import opened GameStates
  import opened CombatInvariant
  import opened Combat
  import Dispatch
  import opened GameProtocol

  ghost predicate Holds<S>(inv: S -> bool, state: Option<S>) {
    state.Some? ==> inv(state.value)
  }

  /** Every allowed command keeps `inv`, starting games included. */
  ghost predicate Keeps<S(!new), Q(!new), R(!new)>(rules: Rules<S, Q, R>, inv: S -> bool, allowed: Command<Q> -> bool) {
    forall state: Option<S>, c: Command<Q> :: allowed(c) && Holds(inv, state) ==> Holds(inv, Served(rules, state, c).0)
  }

  ghost predicate OnlyAllowed<Q(!new)>(actions: seq<Action<Q>>, allowed: Command<Q> -> bool) {
    forall i :: 0 <= i < |actions| && actions[i].Invoke? ==> allowed(actions[i].cmd)
  }

  ghost predicate CallsAllowed<S, Q(!new), R>(g: Config<S, Q, R>, allowed: Command<Q> -> bool) {
    forall id :: id in g.calls ==> allowed(g.calls[id].cmd)
  }

  lemma {:induction false} RunsAllowed<S(!new), Q(!new), R(!new)>(rules: Rules<S, Q, R>, g: Config<S, Q, R>,
      actions: seq<Action<Q>>,
                                                                  allowed: Command<Q> -> bool)
    requires Feasible(rules, g, actions) && CallsAllowed(g, allowed) && OnlyAllowed(actions, allowed)
    ensures CallsAllowed(Ran(rules, g, actions), allowed)
    decreases |actions|
  {
    hide Served;
    if actions != [] {
      RunsAllowed(rules, Next(rules, g, actions[0]), actions[1..], allowed);
    }
  }

  lemma {:induction false} SequentialKeeps<S(!new), Q(!new), R(!new)>(rules: Rules<S, Q, R>, log: seq<Entry<Q, R>>,
                                                                      inv: S -> bool, allowed: Command<Q> -> bool)
    requires Keeps(rules, inv, allowed)
    requires forall i :: 0 <= i < |log| ==> allowed(log[i].cmd)
    ensures Holds(inv, Sequential(rules, log))
    decreases |log|
  {
    if log != [] {
      SequentialKeeps(rules, log[..|log| - 1], inv, allowed);
    }
  }

  /** An invariant of the one-at-a-time game is an invariant of the game that many clients use. */
  lemma ConcurrentKeeps<S(!new), Q(!new), R(!new)>(rules: Rules<S, Q, R>, actions: seq<Action<Q>>, inv: S -> bool,
                                                   allowed: Command<Q> -> bool)
    requires Keeps(rules, inv, allowed)
    requires Feasible(rules, Initial(), actions) && OnlyAllowed(actions, allowed)
    ensures Holds(inv, Ran(rules, Initial(), actions).state)
  {
    hide Served, Keeps, Feasible, Ran, ChannelOrder, Answered, SequentialReplies;
    var g := Ran(rules, Initial(), actions);
    InitialOK(rules);
    RunKeeps(rules, Initial(), actions);
    RunsAllowed(rules, Initial(), actions, allowed);
    assert forall i :: 0 <= i < |g.log| ==> Sent(g, g.log[i].id, g.log[i].cmd);
    SequentialKeeps(rules, g.log, inv, allowed);
  }

  // ---------- The daemon's rules ----------

  /** What one game goroutine owns. */
  datatype Table = Table(spec: Spec, host: Dispatch.Host)

  /** The arguments of a command; `setup` is what a new_game would load, if it loads. */
  datatype Request = Request(setup: Option<(Spec, Character)>, command: Dispatch.Command, dice: Dispatch.Dice)

  ghost predicate Resting(p: Table) {
    TemplatesAlive(p.spec) && Dispatch.HostOK(p.host)
  }

  /** Scenarios have living enemies and heroes start at level one or more. */
  ghost predicate SoundSetup(q: Request) {
    q.setup.Some? ==> TemplatesAlive(q.setup.value.0) && 1 <= q.setup.value.1.level
  }

  ghost function DaemonRules(loop: (Table, Request) -> (Table, bool)): Rules<Table, Request, bool> {
    Rules(
      (q: Request) =>
        if q.setup.None? then Err(false)
        else Ok((Table(q.setup.value.0, Dispatch.Host(NewWorld(q.setup.value.0, q.setup.value.1), map[])), true)),
      (p: Table, q: Request) =>
        (if Resting(p) then p.(host := Dispatch.DaemonStep(p.spec, p.host, q.command, q.dice)) else p, true),
      loop,
      (p: Table, q: Request) =>
        if q.command.LookAround? then p.(host := p.host.(world := Looked(p.spec, p.host.world))) else p)
  }

  ghost predicate Passthrough(c: Command<Request>) {
    !c.RunLoop? && (c.NewGame? ==> SoundSetup(c.args))
  }

  lemma DaemonRulesKeep(loop: (Table, Request) -> (Table, bool), state: Option<Table>, c: Command<Request>)
    requires Passthrough(c) && Holds(p => Resting(p), state)
    ensures Holds(p => Resting(p), Served(DaemonRules(loop), state, c).0)
  {
    hide TemplatesAlive, Dispatch.DaemonStep, Dispatch.AtRest, NewWorld, Looked;
    match c {
      case NewGame(q) =>
        if q.setup.Some? {
          Dispatch.NewGameRests(q.setup.value.0, q.setup.value.1);
        }
      case Tool(q) =>
        if state.Some? {
          Dispatch.DaemonStepRests(state.value.spec, state.value.host, q.command, q.dice);
        }
      case Inspect(q) =>
        if state.Some? {
          var p := state.value;
          LookedRests(p.spec, p.host.world);
        }
      case _ =>
    }
  }

  lemma LookedRests(spec: Spec, w: World)
    requires Dispatch.AtRest(w)
    ensures Dispatch.AtRest(Looked(spec, w))
  {
    Dispatch.CombatUntouched(w, Looked(spec, w));
  }

  /** Whatever the clients of a passthrough game send, and however their calls interleave, a fight
      that is on when the goroutine is between two commands waits for the hero. */
  lemma FightsWaitForTheHero(loop: (Table, Request) -> (Table, bool), actions: seq<Action<Request>>)
    requires Feasible(DaemonRules(loop), Initial(), actions) && OnlyAllowed(actions, c => Passthrough(c))
    ensures var g := Ran(DaemonRules(loop), Initial(), actions);
            g.state.Some? && g.state.value.host.world.combat.active ==> HeroTurn(g.state.value.host.world.combat)
  {
    hide Served, Feasible, Ran, DaemonRules, Passthrough, OnlyAllowed;
    var rules := DaemonRules(loop);
    var inv := (p: Table) => Resting(p);
    var allowed := (c: Command<Request>) => Passthrough(c);
    forall state: Option<Table>, c: Command<Request> | allowed(c) && Holds(inv, state)
      ensures Holds(inv, Served(rules, state, c).0)
    {
      DaemonRulesKeep(loop, state, c);
    }
    ConcurrentKeeps(rules, actions, inv, allowed);
  }

  // ---------- One game, many clients ----------

  /** The tool calls as the dispatcher sees them. */
  function Calls(qs: seq<Request>): seq<(Dispatch.Command, Dispatch.Dice)> {
    seq(|qs|, i requires 0 <= i < |qs| => (qs[i].command, qs[i].dice))
  }

  lemma {:induction false} PlayedIsDaemonRun(loop: (Table, Request) -> (Table, bool), p: Table, qs: seq<Request>)
    requires Resting(p)
    ensures Played(DaemonRules(loop), p, qs) == p.(host := Dispatch.DaemonRun(p.spec, p.host, Calls(qs)))
    decreases |qs|
  {
    hide TemplatesAlive, Dispatch.HostOK, Dispatch.DaemonStep, Dispatch.DaemonRun;
    if qs == [] {
      Dispatch.DaemonRunSnoc(p.spec, p.host, [], None);
    } else {
      var n := |qs| - 1;
      PlayedIsDaemonRun(loop, p, qs[..n]);
      assert Calls(qs) == Calls(qs[..n]) + [(qs[n].command, qs[n].dice)];
      Dispatch.DaemonRunSnoc(p.spec, p.host, Calls(qs[..n]), Some((qs[n].command, qs[n].dice)));
    }
  }

  /** A game that was started and then only given tool calls: however its clients' calls interleaved,
      it is the new game after exactly these calls, dispatched one by one in channel order. */
  lemma GameIsDaemonRun(loop: (Table, Request) -> (Table, bool), actions: seq<Action<Request>>, p: nat)
    requires Feasible(DaemonRules(loop), Initial(), actions)
    requires var log := Ran(DaemonRules(loop), Initial(), actions).log;
      && p < |log| && log[p].cmd.NewGame? && log[p].cmd.args.setup.Some? && SoundSetup(log[p].cmd.args)
      && AllTools(log[p + 1..])
    ensures var g := Ran(DaemonRules(loop), Initial(), actions);
            var (spec, who) := g.log[p].cmd.args.setup.value;
            var host := Dispatch.Host(NewWorld(spec, who), map[]);
            && TemplatesAlive(spec) && Dispatch.HostOK(host)
            && g.state == Some(Table(spec, Dispatch.DaemonRun(spec, host, Calls(Args(g.log[p + 1..])))))
  {
    hide Feasible, Ran, Dispatch.DaemonRun, TemplatesAlive, Dispatch.HostOK, NewWorld, Played, OwnResults;
    var rules := DaemonRules(loop);
    var g := Ran(rules, Initial(), actions);
    var (spec, who) := g.log[p].cmd.args.setup.value;
    var states := GameHistory(rules, actions);
    assert g.log[p + 1..|g.log|] == g.log[p + 1..];
    ToolsFold(rules, g.log, states, p, |g.log|);
    Dispatch.NewGameRests(spec, who);
    PlayedIsDaemonRun(loop, Table(spec, Dispatch.Host(NewWorld(spec, who), map[])), Args(g.log[p + 1..]));
  }
}
