/** The game goroutine and its clients. Every Send, RunLoop or Inspect call puts one command into a
    channel of capacity one and waits on its own reply channel; the goroutine alone touches the game.
    All of their steps may interleave, be cancelled, or find the goroutine gone. */
module GameProtocol {
  import opened Wrappers

  datatype Command<Q> = NewGame(args: Q) | Tool(args: Q) | RunLoop(args: Q) | Inspect(args: Q) | Unknown

  datatype Reply<R> = Answer(result: R) | NoActiveGame | UnknownCommand | Inspected

  /** What the engine does: a new game may fail, the rest works on the game it is given. */
  datatype Rules<!S(!new), !Q(!new), !R(!new)> =
    Rules(newGame: Q -> Result<(S, R), R>, dispatch: (S, Q) -> (S, R), loop: (S, Q) -> (S, R), inspect: (S, Q) -> S)

  /** One pass through the goroutine's switch. None is a goroutine that has no game yet. */
  function Served<S(!new), Q(!new), R(!new)>(rules: Rules<S, Q, R>, state: Option<S>, c: Command<Q>): (Option<S>, Reply<R>) {
    match c
    case NewGame(args) => (
      match rules.newGame(args)
      case Ok(started) => (Some(started.0), Answer(started.1))
      case Err(e) => (state, Answer(e)))
    case Tool(args) =>
      if state.None? then (None, NoActiveGame)
      else var (s, r) := rules.dispatch(state.value, args); (Some(s), Answer(r))
    case RunLoop(args) =>
      if state.None? then (None, NoActiveGame)
      else var (s, r) := rules.loop(state.value, args); (Some(s), Answer(r))
    case Inspect(args) => (if state.None? then None else Some(rules.inspect(state.value, args)), Inspected)
    case Unknown => (state, UnknownCommand)
  }

  // ---------- Configurations ----------

  type CallId = nat

  /** Where one client call is. `born` is how many commands had been served when it was made. */
  datatype Call<Q, R> =
    | Sending(cmd: Command<Q>, born: nat)
    | Waiting(cmd: Command<Q>, born: nat)
    | Returned(cmd: Command<Q>, born: nat, reply: Reply<R>)
    | GaveUp(cmd: Command<Q>, born: nat)

  datatype Goroutine<Q, R> =
    | Ready
    | Working(id: CallId, cmd: Command<Q>)
    | Replying(id: CallId, reply: Reply<R>)
    | Exited

  datatype Entry<Q, R> = Entry(id: CallId, cmd: Command<Q>, reply: Reply<R>)

  /** `accepted`, `log` and `answered` are history: the calls in channel order, the commands served
      with their replies, and the calls whose reply channel was written. */
  datatype Config<S, Q, R> =
    Config(calls: map<CallId, Call<Q, R>>, channel: Option<(CallId, Command<Q>)>, replies: map<CallId, Reply<R>>,
           goroutine: Goroutine<Q, R>, state: Option<S>, cancelled: bool,
           accepted: seq<CallId>, log: seq<Entry<Q, R>>, answered: seq<CallId>)

  function Initial<S, Q, R>(): Config<S, Q, R> {
    Config(map[], None, map[], Ready, None, false, [], [], [])
  }

  datatype Action<Q> =
    | Invoke(id: CallId, cmd: Command<Q>)
    | Enqueue(id: CallId)
    | Receive(id: CallId)
    | CallCancelled(id: CallId)
    | CallTerminated(id: CallId)
    | Take
    | Serve
    | WriteReply
    | CancelContext
    | Exit
    | Crash

  predicate Enabled<S, Q, R>(g: Config<S, Q, R>, a: Action<Q>) {
    match a
    case Invoke(id, _) => id !in g.calls
    case Enqueue(id) => id in g.calls && g.calls[id].Sending? && g.channel.None?
    case Receive(id) => id in g.calls && g.calls[id].Waiting? && id in g.replies
    case CallCancelled(id) => id in g.calls && (g.calls[id].Sending? || g.calls[id].Waiting?)
    case CallTerminated(id) => id in g.calls && (g.calls[id].Sending? || g.calls[id].Waiting?) && g.goroutine.Exited?
    case Take => g.goroutine.Ready? && g.channel.Some?
    case Serve => g.goroutine.Working?
    case WriteReply => g.goroutine.Replying? && g.goroutine.id !in g.replies
    case CancelContext => true
    case Exit => g.goroutine.Ready? && g.cancelled
    case Crash => g.goroutine.Working?
  }

  function Next<S(!new), Q(!new), R(!new)>(rules: Rules<S, Q, R>, g: Config<S, Q, R>, a: Action<Q>): Config<S, Q, R>
    requires Enabled(g, a)
  {
    match a
    case Invoke(id, cmd) => g.(calls := g.calls[id := Sending(cmd, |g.log|)])
    case Enqueue(id) =>
      var c := g.calls[id];
      g.(calls := g.calls[id := Waiting(c.cmd, c.born)], channel := Some((id, c.cmd)), accepted := g.accepted + [id])
    case Receive(id) =>
      var c := g.calls[id];
      g.(calls := g.calls[id := Returned(c.cmd, c.born, g.replies[id])], replies := g.replies - {id})
    case CallCancelled(id) => g.(calls := g.calls[id := GaveUp(g.calls[id].cmd, g.calls[id].born)])
    case CallTerminated(id) => g.(calls := g.calls[id := GaveUp(g.calls[id].cmd, g.calls[id].born)])
    case Take => g.(goroutine := Working(g.channel.value.0, g.channel.value.1), channel := None)
    case Serve =>
      var (id, cmd) := (g.goroutine.id, g.goroutine.cmd);
      var (state, reply) := Served(rules, g.state, cmd);
      g.(goroutine := Replying(id, reply), state := state, log := g.log + [Entry(id, cmd, reply)])
    case WriteReply =>
      g.(goroutine := Ready, replies := g.replies[g.goroutine.id := g.goroutine.reply],
         answered := g.answered + [g.goroutine.id])
    case CancelContext => g.(cancelled := true)
    case Exit => g.(goroutine := Exited)
    case Crash => g.(goroutine := Exited)
  }

  // ---------- The sequential run ----------

  /** The game after the commands of `log`, one at a time. */
  function Sequential<S(!new), Q(!new), R(!new)>(rules: Rules<S, Q, R>, log: seq<Entry<Q, R>>): Option<S> {
    if log == [] then None
    else Served(rules, Sequential(rules, log[..|log| - 1]), log[|log| - 1].cmd).0
  }

  /** Every reply is the one the sequential run gives at that position. */
  ghost predicate SequentialReplies<S(!new), Q(!new), R(!new)>(rules: Rules<S, Q, R>, log: seq<Entry<Q, R>>) {
    forall i :: 0 <= i < |log| ==> log[i].reply == Served(rules, Sequential(rules, log[..i]), log[i].cmd).1
  }

  function Ids<Q, R>(log: seq<Entry<Q, R>>): seq<CallId> { seq(|log|, i requires 0 <= i < |log| => log[i].id) }

  // ---------- The invariant ----------

  function InChannel<S, Q, R>(g: Config<S, Q, R>): seq<CallId> {
    if g.channel.Some? then [g.channel.value.0] else []
  }

  function InHand<S, Q, R>(g: Config<S, Q, R>): seq<CallId> {
    if g.goroutine.Working? then [g.goroutine.id] else []
  }

  function Unanswered<S, Q, R>(g: Config<S, Q, R>): seq<CallId> {
    if g.goroutine.Replying? then [g.goroutine.id] else []
  }

  predicate Distinct(ids: seq<CallId>) {
    forall i, j :: 0 <= i < j < |ids| ==> ids[i] != ids[j]
  }

  /** The call `id` has been made, has left its sender and carries `cmd`. */
  ghost predicate Sent<S, Q, R>(g: Config<S, Q, R>, id: CallId, cmd: Command<Q>) {
    id in g.calls && !g.calls[id].Sending? && g.calls[id].cmd == cmd
  }

  /** Commands are served in channel order, none twice; only a crash loses the one in hand. */
  ghost predicate ChannelOrder<S, Q, R>(g: Config<S, Q, R>) {
    && Distinct(g.accepted)
    && (forall id :: id in g.calls && g.calls[id].Waiting? ==> id in g.accepted)
    && (forall i :: 0 <= i < |g.accepted| ==> g.accepted[i] in g.calls && !g.calls[g.accepted[i]].Sending?)
    && (if g.goroutine.Exited?
        then Ids(g.log) <= g.accepted
        else g.accepted == Ids(g.log) + InHand(g) + InChannel(g))
  }

  /** Every command travels with its call, and was served no earlier than the call was made. */
  ghost predicate Carried<S, Q, R>(g: Config<S, Q, R>) {
    && (g.channel.Some? ==> Sent(g, g.channel.value.0, g.channel.value.1))
    && (g.goroutine.Working? ==> Sent(g, g.goroutine.id, g.goroutine.cmd))
    && (forall i :: 0 <= i < |g.log| ==> Sent(g, g.log[i].id, g.log[i].cmd) && g.calls[g.log[i].id].born <= i)
    && (forall id :: id in g.calls ==> g.calls[id].born <= |g.log|)
    && (g.channel.Some? ==> g.channel.value.0 !in Ids(g.log))
    && (g.goroutine.Working? ==> g.goroutine.id !in Ids(g.log))
  }

  /** Each served command is answered exactly once, with its own reply, into an empty channel. */
  ghost predicate Answered<S, Q, R>(g: Config<S, Q, R>) {
    && Ids(g.log) == g.answered + Unanswered(g)
    && (g.goroutine.Replying? ==> g.goroutine.reply == g.log[|g.log| - 1].reply)
    && (forall id :: id in g.replies ==> id in g.answered && id in g.calls && !g.calls[id].Returned?)
    && (forall i :: 0 <= i < |g.log| && g.log[i].id in g.replies ==> g.replies[g.log[i].id] == g.log[i].reply)
    && (forall i :: 0 <= i < |g.answered| ==> AnswerKept(g, g.answered[i]))
    && (forall id :: id in g.calls && g.calls[id].Returned? ==> id in g.answered)
    && (forall i :: 0 <= i < |g.log| && g.log[i].id in g.calls && g.calls[g.log[i].id].Returned? ==> g.calls[g.log[i].id].reply == g.log[i].reply)
  }

  predicate AnswerKept<S, Q, R>(g: Config<S, Q, R>, id: CallId) {
    id in g.replies || (id in g.calls && g.calls[id].Returned?)
  }

  ghost predicate Invariant<S(!new), Q(!new), R(!new)>(rules: Rules<S, Q, R>, g: Config<S, Q, R>) {
    && g.state == Sequential(rules, g.log)
    && SequentialReplies(rules, g.log)
    && ChannelOrder(g)
    && Carried(g)
    && Answered(g)
  }

  lemma IdsGrow<Q, R>(log: seq<Entry<Q, R>>, e: Entry<Q, R>)
    ensures Ids(log + [e]) == Ids(log) + [e.id]
  {}

  /** A step keeps the served log equal to a sequential run. */
  lemma StateKept<S(!new), Q(!new), R(!new)>(rules: Rules<S, Q, R>, g: Config<S, Q, R>, a: Action<Q>)
    requires Enabled(g, a)
    requires g.state == Sequential(rules, g.log) && SequentialReplies(rules, g.log)
    ensures var g' := Next(rules, g, a); g'.state == Sequential(rules, g'.log) && SequentialReplies(rules, g'.log)
  {
    hide Served;
    var g' := Next(rules, g, a);
    if a.Serve? {
      assert g'.log[..|g.log|] == g.log;
      assert forall i :: 0 <= i < |g.log| ==> g'.log[..i] == g.log[..i];
    }
  }

  lemma OrderKept<S(!new), Q(!new), R(!new)>(rules: Rules<S, Q, R>, g: Config<S, Q, R>, a: Action<Q>)
    requires Enabled(g, a) && ChannelOrder(g)
    ensures ChannelOrder(Next(rules, g, a))
  {
    hide Served;
    var g' := Next(rules, g, a);
    match a {
      case Serve => IdsGrow(g.log, g'.log[|g.log|]);
      case Enqueue(id) => EnqueuedInOrder(g, g', id);
      case _ =>
        hide ChannelOrder;
        OrderFrame(g, g');
    }
  }

  /** Steps that accept and serve nothing keep the order. */
  lemma OrderFrame<S, Q, R>(g: Config<S, Q, R>, g': Config<S, Q, R>)
    requires ChannelOrder(g) && g'.accepted == g.accepted && g'.log == g.log
    requires forall id :: id in g.calls && !g.calls[id].Sending? ==> id in g'.calls && !g'.calls[id].Sending?
    requires forall id :: id in g'.calls && g'.calls[id].Waiting? ==> id in g.calls && g.calls[id].Waiting?
    requires g'.goroutine.Exited? || (!g.goroutine.Exited? && InHand(g') + InChannel(g') == InHand(g) + InChannel(g))
    ensures ChannelOrder(g')
  {
    if !g'.goroutine.Exited? {
      assert Ids(g.log) + InHand(g) + InChannel(g) == Ids(g.log) + (InHand(g) + InChannel(g));
      assert Ids(g.log) + InHand(g') + InChannel(g') == Ids(g.log) + (InHand(g') + InChannel(g'));
    }
  }

  /** The caller was still sending, so its command is not in the channel order yet. */
  lemma EnqueuedInOrder<S, Q, R>(g: Config<S, Q, R>, g': Config<S, Q, R>, id: CallId)
    requires ChannelOrder(g) && Enabled(g, Enqueue(id))
    requires g'.accepted == g.accepted + [id] && g'.log == g.log && g'.goroutine == g.goroutine
    requires g'.channel == Some((id, g.calls[id].cmd)) && g'.calls == g.calls[id := Waiting(g.calls[id].cmd, g.calls[id].born)]
    ensures ChannelOrder(g')
  {
    assert id !in g.accepted;
    forall i, j | 0 <= i < j < |g'.accepted| ensures g'.accepted[i] != g'.accepted[j] {
      assert g'.accepted[i] == g.accepted[i];
    }
  }

  /** A command in the channel or in hand was not served yet. */
  lemma PendingIsNew<S, Q, R>(g: Config<S, Q, R>)
    requires ChannelOrder(g) && !g.goroutine.Exited?
    ensures g.goroutine.Working? ==> g.goroutine.id !in Ids(g.log)
    ensures g.goroutine.Working? && g.channel.Some? ==> g.goroutine.id != g.channel.value.0
    ensures g.channel.Some? ==> g.channel.value.0 !in Ids(g.log)
    ensures Distinct(Ids(g.log))
  {
    var n := |g.log|;
    assert forall i :: 0 <= i < n ==> g.accepted[i] == Ids(g.log)[i];
    if g.goroutine.Working? {
      assert g.accepted[n] == g.goroutine.id;
      if g.channel.Some? {
        assert g.accepted[n + 1] == g.channel.value.0;
      }
    } else if g.channel.Some? {
      assert g.accepted[n] == g.channel.value.0;
    }
  }

  lemma CarriedKept<S(!new), Q(!new), R(!new)>(rules: Rules<S, Q, R>, g: Config<S, Q, R>, a: Action<Q>)
    requires Enabled(g, a) && ChannelOrder(g) && Carried(g)
    ensures Carried(Next(rules, g, a))
  {
    hide Served;
    var g' := Next(rules, g, a);
    match a {
      case Serve =>
        hide Next;
        CarriedServed(rules, g);
      case Enqueue(id) =>
        assert id !in Ids(g.log);
      case _ =>
        hide ChannelOrder;
        CarriedFrame(g, g');
    }
  }

  lemma CarriedServed<S(!new), Q(!new), R(!new)>(rules: Rules<S, Q, R>, g: Config<S, Q, R>)
    requires Enabled(g, Serve) && ChannelOrder(g) && Carried(g)
    ensures Carried(Next(rules, g, Serve))
  {
    hide Served;
    PendingIsNew(g);
    hide ChannelOrder;
    IdsGrow(g.log, Next(rules, g, Serve).log[|g.log|]);
  }

  /** Steps that accept and serve nothing carry nothing new. */
  lemma CarriedFrame<S, Q, R>(g: Config<S, Q, R>, g': Config<S, Q, R>)
    requires Carried(g) && g'.log == g.log
    requires g'.channel.Some? ==> g'.channel == g.channel
    requires g'.goroutine.Working? ==>
      g'.goroutine == g.goroutine || (g.channel.Some? && (g'.goroutine.id, g'.goroutine.cmd) == g.channel.value)
    requires forall id :: id in g.calls ==>
      && id in g'.calls && g'.calls[id].cmd == g.calls[id].cmd && g'.calls[id].born == g.calls[id].born
      && (!g.calls[id].Sending? ==> !g'.calls[id].Sending?)
    requires forall id :: id in g'.calls && id !in g.calls ==> g'.calls[id].born <= |g.log|
    ensures Carried(g')
  {
    forall i | 0 <= i < |g'.log| ensures Sent(g', g'.log[i].id, g'.log[i].cmd) && g'.calls[g'.log[i].id].born <= i {
      assert Sent(g, g.log[i].id, g.log[i].cmd);
    }
  }

  /** The reply channel of the command in hand is empty: writing to it never blocks. */
  lemma ReplyFits<S, Q, R>(g: Config<S, Q, R>)
    requires ChannelOrder(g) && Answered(g) && g.goroutine.Replying?
    ensures Enabled(g, WriteReply)
    ensures g.goroutine.id !in g.answered
    ensures forall i :: 0 <= i < |g.log| && g.log[i].id == g.goroutine.id ==> i == |g.log| - 1
  {
    PendingIsNew(g);
    var last := |g.log| - 1;
    assert Ids(g.log)[last] == g.goroutine.id && g.answered == Ids(g.log)[..last];
    forall i | 0 <= i < |g.log| && g.log[i].id == g.goroutine.id ensures i == last {
      assert Ids(g.log)[i] == Ids(g.log)[last];
    }
  }

  lemma ReplyWritten<S(!new), Q(!new), R(!new)>(rules: Rules<S, Q, R>, g: Config<S, Q, R>)
    requires Enabled(g, WriteReply) && ChannelOrder(g) && Carried(g) && Answered(g)
    ensures Answered(Next(rules, g, WriteReply))
  {
    hide Served, ChannelOrder;
    ReplyFits(g);
    var g' := Next(rules, g, WriteReply);
    var last := |g.log| - 1;
    assert g'.answered == Ids(g'.log) == g.answered + [g.goroutine.id];
    assert Ids(g.log)[last] == g.goroutine.id;
    assert g'.calls == g.calls && g'.log == g.log && g'.replies == g.replies[g.goroutine.id := g.log[last].reply];
    forall i | 0 <= i < |g'.answered| ensures AnswerKept(g', g'.answered[i]) {
      assert i < |g.answered| ==> AnswerKept(g, g.answered[i]);
    }
    forall id | id in g'.replies ensures id in g'.answered && id in g'.calls && !g'.calls[id].Returned? {
      if id == g.goroutine.id {
        assert g'.answered[last] == id;
        assert Sent(g, g.log[last].id, g.log[last].cmd);
      }
    }
  }

  lemma ServedKept<S(!new), Q(!new), R(!new)>(rules: Rules<S, Q, R>, g: Config<S, Q, R>)
    requires Enabled(g, Serve) && ChannelOrder(g) && Carried(g) && Answered(g)
    ensures Answered(Next(rules, g, Serve))
  {
    hide Served;
    PendingIsNew(g);
    hide ChannelOrder;
    var g' := Next(rules, g, Serve);
    IdsGrow(g.log, g'.log[|g.log|]);
    forall i | 0 <= i < |g'.answered| ensures AnswerKept(g', g'.answered[i]) {
      assert AnswerKept(g, g.answered[i]);
    }
  }

  lemma ReceivedKept<S(!new), Q(!new), R(!new)>(rules: Rules<S, Q, R>, g: Config<S, Q, R>, id: CallId)
    requires Enabled(g, Receive(id)) && Answered(g)
    ensures Answered(Next(rules, g, Receive(id)))
  {
    var g' := Next(rules, g, Receive(id));
    forall i | 0 <= i < |g'.answered| ensures AnswerKept(g', g'.answered[i]) {
      assert AnswerKept(g, g.answered[i]);
    }
  }

  /** Steps that move neither commands nor replies keep the accounts. */
  lemma AnsweredFrame<S, Q, R>(g: Config<S, Q, R>, g': Config<S, Q, R>)
    requires Answered(g)
    requires g'.log == g.log && g'.answered == g.answered && g'.replies == g.replies
    requires Unanswered(g') == Unanswered(g) && (g'.goroutine.Replying? ==> g'.goroutine == g.goroutine)
    requires forall id :: id in g.calls ==> id in g'.calls
    requires forall id :: id in g'.calls && g'.calls[id].Returned? ==> id in g.calls && g'.calls[id] == g.calls[id]
    requires forall id :: id in g.calls && g.calls[id].Returned? ==> g'.calls[id] == g.calls[id]
    ensures Answered(g')
  {
    forall i | 0 <= i < |g'.answered| ensures AnswerKept(g', g'.answered[i]) {
      assert AnswerKept(g, g.answered[i]);
    }
  }

  lemma AnsweredKept<S(!new), Q(!new), R(!new)>(rules: Rules<S, Q, R>, g: Config<S, Q, R>, a: Action<Q>)
    requires Enabled(g, a) && ChannelOrder(g) && Carried(g) && Answered(g)
    ensures Answered(Next(rules, g, a))
  {
    match a {
      case Serve =>
        hide *;
        ServedKept(rules, g);
      case WriteReply =>
        hide *;
        ReplyWritten(rules, g);
      case Receive(id) =>
        hide ChannelOrder, Carried, Answered, Next;
        ReceivedKept(rules, g, id);
      case _ =>
        hide Served, ChannelOrder, Carried, Answered;
        AnsweredFrame(g, Next(rules, g, a));
    }
  }

  // ---------- Every run ----------

  lemma StepKeeps<S(!new), Q(!new), R(!new)>(rules: Rules<S, Q, R>, g: Config<S, Q, R>, a: Action<Q>)
    requires Enabled(g, a) && Invariant(rules, g)
    ensures Invariant(rules, Next(rules, g, a))
  {
    hide Enabled, Next, Sequential, SequentialReplies, ChannelOrder, Carried, Answered;
    StateKept(rules, g, a);
    OrderKept(rules, g, a);
    CarriedKept(rules, g, a);
    AnsweredKept(rules, g, a);
  }

  /** `actions` is a possible interleaving from `g`. */
  ghost predicate Feasible<S(!new), Q(!new), R(!new)>(rules: Rules<S, Q, R>, g: Config<S, Q, R>,
      actions: seq<Action<Q>>)
    decreases |actions|
  {
    actions == [] || (Enabled(g, actions[0]) && Feasible(rules, Next(rules, g, actions[0]), actions[1..]))
  }

  ghost function Ran<S(!new), Q(!new), R(!new)>(rules: Rules<S, Q, R>, g: Config<S, Q, R>,
      actions: seq<Action<Q>>): Config<S, Q, R>
    requires Feasible(rules, g, actions)
    decreases |actions|
  {
    if actions == [] then g else Ran(rules, Next(rules, g, actions[0]), actions[1..])
  }

  lemma {:induction false} RunKeeps<S(!new), Q(!new), R(!new)>(rules: Rules<S, Q, R>, g: Config<S, Q, R>,
      actions: seq<Action<Q>>)
    requires Feasible(rules, g, actions) && Invariant(rules, g)
    ensures Invariant(rules, Ran(rules, g, actions))
    decreases |actions|
  {
    if actions != [] {
      StepKeeps(rules, g, actions[0]);
      RunKeeps(rules, Next(rules, g, actions[0]), actions[1..]);
    }
  }

  /** One call's result is what the sequential run gives its command at the call's place in the log. */
  ghost predicate AnsweredSequentially<S(!new), Q(!new), R(!new)>(rules: Rules<S, Q, R>, g: Config<S, Q, R>,
      id: CallId, i: nat)
    requires id in g.calls && g.calls[id].Returned?
  {
    && i < |g.log| && g.log[i].id == id && g.log[i].cmd == g.calls[id].cmd
    && g.calls[id].reply == Served(rules, Sequential(rules, g.log[..i]), g.calls[id].cmd).1
  }

  lemma ReturnedIsLogged<S(!new), Q(!new), R(!new)>(rules: Rules<S, Q, R>, g: Config<S, Q, R>,
      id: CallId) returns (i: nat)
    requires SequentialReplies(rules, g.log) && Carried(g) && Answered(g)
    requires id in g.calls && g.calls[id].Returned?
    ensures AnsweredSequentially(rules, g, id, i)
  {
    hide Served, ChannelOrder;
    assert id in g.answered;
    assert id in Ids(g.log);
    i :| 0 <= i < |g.log| && Ids(g.log)[i] == id;
  }

  /** Whatever the interleaving, the game is the one the commands give when run one at a time in
      channel order; every delivered result is that run's; and no command is answered twice. */
  lemma EqualsSequentialRun<S(!new), Q(!new), R(!new)>(rules: Rules<S, Q, R>, actions: seq<Action<Q>>)
    requires Feasible(rules, Initial(), actions)
    ensures var g := Ran(rules, Initial(), actions);
            && g.state == Sequential(rules, g.log)
            && Ids(g.log) <= g.accepted && Distinct(g.accepted)
            && (forall id :: id in g.calls && g.calls[id].Returned? ==> exists i: nat :: AnsweredSequentially(rules, g, id, i))
            && Ids(g.log) == g.answered + Unanswered(g)
            && (g.goroutine.Replying? ==> Enabled(g, WriteReply))
  {
    hide Served;
    InitialOK(rules);
    RunKeeps(rules, Initial(), actions);
    var g := Ran(rules, Initial(), actions);
    forall id | id in g.calls && g.calls[id].Returned?
      ensures exists i: nat :: AnsweredSequentially(rules, g, id, i)
    {
      var i := ReturnedIsLogged(rules, g, id);
    }
    if g.goroutine.Replying? {
      ReplyFits(g);
    }
  }

  // ---------- What serving a command means ----------

  /** In terms of the rules alone: what a command makes of the game and which reply it gets. A new
      game replaces the old one unless it fails; without a game nothing is played. */
  ghost predicate Serves<S(!new), Q(!new), R(!new)>(rules: Rules<S, Q, R>, before: Option<S>, c: Command<Q>,
      reply: Reply<R>, after: Option<S>)
  {
    && (c.NewGame? && rules.newGame(c.args).Ok? ==>
          after == Some(rules.newGame(c.args).value.0) && reply == Answer(rules.newGame(c.args).value.1))
    && (c.NewGame? && rules.newGame(c.args).Err? ==> after == before && reply == Answer(rules.newGame(c.args).error))
    && (c.Tool? && before.Some? ==>
          after == Some(rules.dispatch(before.value, c.args).0) && reply == Answer(rules.dispatch(before.value, c.args).1))
    && (c.RunLoop? && before.Some? ==>
          after == Some(rules.loop(before.value, c.args).0) && reply == Answer(rules.loop(before.value, c.args).1))
    && (c.Inspect? ==> reply == Inspected)
    && (c.Inspect? && before.Some? ==> after == Some(rules.inspect(before.value, c.args)))
    && ((c.Tool? || c.RunLoop?) && before.None? ==> after == None && reply == NoActiveGame)
    && (c.Inspect? && before.None? ==> after == None)
    && (c.Unknown? ==> after == before && reply == UnknownCommand)
  }

  /** `states` are the games between the commands of the log, none at first. */
  ghost predicate History<S(!new), Q(!new), R(!new)>(rules: Rules<S, Q, R>, log: seq<Entry<Q, R>>, states: seq<Option<S>>) {
    && |states| == |log| + 1 && states[0] == None
    && forall i :: 0 <= i < |log| ==> Serves(rules, states[i], log[i].cmd, log[i].reply, states[i + 1])
  }

  /** Serving does what it is meant to, and nothing else would pass for it. */
  lemma ServedServes<S(!new), Q(!new), R(!new)>(rules: Rules<S, Q, R>, state: Option<S>, c: Command<Q>,
      reply: Reply<R>, after: Option<S>)
    ensures Serves(rules, state, c, reply, after) <==> (after, reply) == Served(rules, state, c)
  {
  }

  /** Whatever the interleaving: one after the other the served commands did to the game what the rules
      say, each on the game the one before had left, and got the reply that goes with it; the game
      now is the last of these. */
  lemma GameHistory<S(!new), Q(!new), R(!new)>(rules: Rules<S, Q, R>, actions: seq<Action<Q>>) returns (states: seq<Option<S>>)
    requires Feasible(rules, Initial(), actions)
    ensures var g := Ran(rules, Initial(), actions);
            && History(rules, g.log, states) && g.state == states[|g.log|]
            && (forall id :: id in g.calls && g.calls[id].Returned? ==>
                  exists i :: 0 <= i < |g.log| && g.log[i].id == id && g.log[i].cmd == g.calls[id].cmd && g.log[i].reply == g.calls[id].reply)
  {
    hide Served, Feasible, Ran, Carried, Answered, ChannelOrder, Serves;
    InitialOK(rules);
    RunKeeps(rules, Initial(), actions);
    EqualsSequentialRun(rules, actions);
    var g := Ran(rules, Initial(), actions);
    states := seq(|g.log| + 1, i requires 0 <= i <= |g.log| => Sequential(rules, g.log[..i]));
    assert g.log[..|g.log|] == g.log;
    forall i | 0 <= i < |g.log| ensures Serves(rules, states[i], g.log[i].cmd, g.log[i].reply, states[i + 1]) {
      assert g.log[..i + 1][..i] == g.log[..i];
      ServedServes(rules, states[i], g.log[i].cmd, g.log[i].reply, states[i + 1]);
    }
    forall id | id in g.calls && g.calls[id].Returned?
      ensures exists i :: 0 <= i < |g.log| && g.log[i].id == id && g.log[i].cmd == g.calls[id].cmd && g.log[i].reply == g.calls[id].reply
    {
      var i: nat :| AnsweredSequentially(rules, g, id, i);
    }
  }

  /** The game after playing `calls` on `start`, one after the other. */
  function Played<S(!new), Q(!new), R(!new)>(rules: Rules<S, Q, R>, start: S, calls: seq<Q>): S {
    if calls == [] then start
    else rules.dispatch(Played(rules, start, calls[..|calls| - 1]), calls[|calls| - 1]).0
  }

  ghost predicate AllTools<Q, R>(log: seq<Entry<Q, R>>) {
    forall i :: 0 <= i < |log| ==> log[i].cmd.Tool?
  }

  function Args<Q, R>(log: seq<Entry<Q, R>>): seq<Q>
    requires AllTools(log)
  {
    seq(|log|, i requires 0 <= i < |log| => log[i].cmd.args)
  }

  /** Every one of these calls got the result it has after the ones before it. */
  ghost predicate OwnResults<S(!new), Q(!new), R(!new)>(rules: Rules<S, Q, R>, start: S, log: seq<Entry<Q, R>>)
    requires AllTools(log)
  {
    forall i :: 0 <= i < |log| ==>
      log[i].reply == Answer(rules.dispatch(Played(rules, start, Args(log)[..i]), Args(log)[i]).1)
  }

  lemma OneMoreTool<S(!new), Q(!new), R(!new)>(rules: Rules<S, Q, R>, start: S, log: seq<Entry<Q, R>>, e: Entry<Q, R>,
      after: Option<S>)
    requires AllTools(log) && e.cmd.Tool? && OwnResults(rules, start, log)
    requires Serves(rules, Some(Played(rules, start, Args(log))), e.cmd, e.reply, after)
    ensures AllTools(log + [e]) && OwnResults(rules, start, log + [e])
    ensures after == Some(Played(rules, start, Args(log + [e])))
  {
    hide Played;
    assert Args(log + [e]) == Args(log) + [e.cmd.args];
    PlayedOnce(rules, start, Args(log), e.cmd.args);
    forall i | 0 <= i < |log| ensures Args(log + [e])[..i] == Args(log)[..i] {
    }
    assert Args(log + [e])[..|log|] == Args(log);
  }

  lemma PlayedOnce<S(!new), Q(!new), R(!new)>(rules: Rules<S, Q, R>, start: S, calls: seq<Q>, q: Q)
    ensures Played(rules, start, []) == start
    ensures Played(rules, start, calls + [q]) == rules.dispatch(Played(rules, start, calls), q).0
  {
    assert (calls + [q])[..|calls|] == calls;
  }

  /** From the last successful new_game on, with tool calls only: the game is the one these calls make
      of the new game in turn, and each gets its own result as its reply. */
  lemma {:induction false} ToolsFold<S(!new), Q(!new), R(!new)>(rules: Rules<S, Q, R>, log: seq<Entry<Q, R>>,
      states: seq<Option<S>>, p: nat, n: nat)
    requires History(rules, log, states) && p < n <= |log|
    requires log[p].cmd.NewGame? && rules.newGame(log[p].cmd.args).Ok?
    requires AllTools(log[p + 1..n])
    ensures var start := rules.newGame(log[p].cmd.args).value;
            && log[p].reply == Answer(start.1)
            && states[n] == Some(Played(rules, start.0, Args(log[p + 1..n])))
            && OwnResults(rules, start.0, log[p + 1..n])
    decreases n
  {
    hide OwnResults, Args, Played;
    var start := rules.newGame(log[p].cmd.args).value;
    assert Serves(rules, states[p], log[p].cmd, log[p].reply, states[p + 1]);
    if n == p + 1 {
      NoTools(rules, start.0);
      assert log[p + 1..n] == [];
    } else {
      var m := n - 1;
      assert log[p + 1..n] == log[p + 1..m] + [log[m]];
      assert log[p + 1..m] == log[p + 1..n][..m - p - 1] && log[m] == log[p + 1..n][m - p - 1];
      ToolsFold(rules, log, states, p, m);
      OneMoreTool(rules, start.0, log[p + 1..m], log[m], states[n]);
    }
  }

  lemma NoTools<S(!new), Q(!new), R(!new)>(rules: Rules<S, Q, R>, start: S)
    ensures OwnResults(rules, start, []) && Played(rules, start, Args<Q, R>([])) == start
  {
  }

  lemma InitialOK<S(!new), Q(!new), R(!new)>(rules: Rules<S, Q, R>)
    ensures Invariant(rules, Initial<S, Q, R>())
  {}

  // ---------- Real time ----------

  /** What later configurations keep of earlier ones. */
  ghost predicate Later<S, Q, R>(g: Config<S, Q, R>, g': Config<S, Q, R>) {
    && g.log <= g'.log
    && (forall id :: id in g.calls ==> id in g'.calls && g'.calls[id].born == g.calls[id].born)
    && (forall id :: id in g.calls && g.calls[id].Returned? ==> g'.calls[id] == g.calls[id])
    && (forall id :: id in g'.calls && id !in g.calls ==> |g.log| <= g'.calls[id].born)
  }

  lemma StepIsLater<S(!new), Q(!new), R(!new)>(rules: Rules<S, Q, R>, g: Config<S, Q, R>, a: Action<Q>)
    requires Enabled(g, a)
    ensures Later(g, Next(rules, g, a))
  {
    hide Served;
  }

  lemma LaterTransitive<S, Q, R>(g: Config<S, Q, R>, g': Config<S, Q, R>, g'': Config<S, Q, R>)
    requires Later(g, g') && Later(g', g'')
    ensures Later(g, g'')
  {}

  lemma {:induction false} RunIsLater<S(!new), Q(!new), R(!new)>(rules: Rules<S, Q, R>, g: Config<S, Q, R>,
      actions: seq<Action<Q>>)
    requires Feasible(rules, g, actions)
    ensures Later(g, Ran(rules, g, actions))
    decreases |actions|
  {
    hide Enabled, Next;
    if actions == [] {
    } else {
      hide Later;
      var g' := Next(rules, g, actions[0]);
      StepIsLater(rules, g, actions[0]);
      RunIsLater(rules, g', actions[1..]);
      LaterTransitive(g, g', Ran(rules, g', actions[1..]));
    }
  }

  /** Linearizability: a call that returned before another was made is served before it. */
  lemma RealTimeOrder<S(!new), Q(!new), R(!new)>(rules: Rules<S, Q, R>, before: seq<Action<Q>>,
      after: seq<Action<Q>>, first: CallId,
                                                 i: nat, j: nat)
    requires Feasible(rules, Initial(), before)
    requires var mid := Ran(rules, Initial(), before);
             && first in mid.calls && mid.calls[first].Returned?
             && Feasible(rules, mid, after)
             && var end := Ran(rules, mid, after);
                && i < |end.log| && end.log[i].id == first
                && j < |end.log| && end.log[j].id !in mid.calls
    ensures i < j
  {
    hide Served, Feasible, Ran;
    var mid := Ran(rules, Initial(), before);
    var end := Ran(rules, mid, after);
    InitialOK(rules);
    RunKeeps(rules, Initial(), before);
    RunKeeps(rules, mid, after);
    RunIsLater(rules, mid, after);
    var at := ReturnedIsLogged(rules, mid, first);
    PlacesDistinct(end, at, i);
    assert Sent(end, end.log[j].id, end.log[j].cmd);
  }

  lemma PlacesDistinct<S, Q, R>(g: Config<S, Q, R>, i: nat, j: nat)
    requires ChannelOrder(g) && i < |g.log| && j < |g.log| && g.log[i].id == g.log[j].id
    ensures i == j
  {
    var ids := Ids(g.log);
    assert ids <= g.accepted;
    assert g.accepted[i] == ids[i] && g.accepted[j] == ids[j];
  }

  // ---------- Every accepted command is answered ----------

  /** How many steps of the goroutine stand between a waiting call and its reply. */
  function StepsToReply<S, Q, R>(g: Config<S, Q, R>, id: CallId): nat {
    if id in g.replies then 0
    else match g.goroutine
      case Replying(now, _) => if now == id then 1 else 4
      case Working(now, _) => if now == id then 2 else 5
      case Ready => 3
      case Exited => 0
  }

  /** What the goroutine does next when it is neither stopped nor idle. */
  function GoroutineStep<S, Q, R>(g: Config<S, Q, R>): Action<Q>
    requires !g.goroutine.Exited?
  {
    match g.goroutine
    case Ready => Take
    case Working(_, _) => Serve
    case Replying(_, _) => WriteReply
  }

  lemma WaitingIsSomewhere<S, Q, R>(g: Config<S, Q, R>, id: CallId)
    requires ChannelOrder(g) && Answered(g) && !g.goroutine.Exited?
    requires id in g.calls && g.calls[id].Waiting?
    ensures id in g.replies || id in InHand(g) || id in InChannel(g) || id in Unanswered(g)
  {
    assert id in g.accepted;
    if id in Ids(g.log) && id !in Unanswered(g) {
      assert id in g.answered;
      assert AnswerKept(g, id);
    }
  }

  /** While its reply is missing, the goroutine can step, and each of its steps brings the reply one
      closer: after at most five of them it can be received. */
  lemma GoroutineAdvances<S(!new), Q(!new), R(!new)>(rules: Rules<S, Q, R>, g: Config<S, Q, R>, id: CallId)
    requires Invariant(rules, g) && !g.goroutine.Exited?
    requires id in g.calls && g.calls[id].Waiting? && !Enabled(g, Receive(id))
    ensures Enabled(g, GoroutineStep(g))
    ensures var g' := Next(rules, g, GoroutineStep(g));
            && StepsToReply(g', id) < StepsToReply(g, id) <= 5
            && (StepsToReply(g', id) == 0 <==> Enabled(g', Receive(id)))
  {
    hide Served, Sequential, SequentialReplies, Carried;
    WaitingIsSomewhere(g, id);
    if g.goroutine.Replying? {
      ReplyFits(g);
    } else {
      PendingIsNew(g);
    }
    Advances(rules, g, id);
  }

  lemma Advances<S(!new), Q(!new), R(!new)>(rules: Rules<S, Q, R>, g: Config<S, Q, R>, id: CallId)
    requires !g.goroutine.Exited? && Enabled(g, GoroutineStep(g))
    requires id in g.calls && g.calls[id].Waiting? && id !in g.replies
    requires id in InHand(g) || id in InChannel(g) || id in Unanswered(g)
    ensures var g' := Next(rules, g, GoroutineStep(g));
            && StepsToReply(g', id) < StepsToReply(g, id) <= 5
            && (StepsToReply(g', id) == 0 <==> Enabled(g', Receive(id)))
  {
    hide Served;
  }

  lemma GoroutineFrame<S(!new), Q(!new), R(!new)>(rules: Rules<S, Q, R>, g: Config<S, Q, R>)
    requires !g.goroutine.Exited? && Enabled(g, GoroutineStep(g))
    ensures var g' := Next(rules, g, GoroutineStep(g));
            g'.calls == g.calls && g'.accepted == g.accepted && g.log <= g'.log && !g'.goroutine.Exited?
  {
    hide Served;
  }

  /** No other client can push it back. */
  lemma OthersDoNotDelay<S(!new), Q(!new), R(!new)>(rules: Rules<S, Q, R>, g: Config<S, Q, R>, id: CallId, a: Action<Q>)
    requires Invariant(rules, g) && !g.goroutine.Exited? && Enabled(g, a)
    requires id in g.calls && g.calls[id].Waiting?
    requires var g' := Next(rules, g, a); id in g'.calls && g'.calls[id].Waiting? && !g'.goroutine.Exited?
    ensures StepsToReply(Next(rules, g, a), id) <= StepsToReply(g, id)
  {
    hide Served, Sequential, SequentialReplies, ChannelOrder, Carried, Answered, StepsToReply;
    WaitingIsSomewhere(g, id);
    hide Invariant;
    StepsKept(rules, g, id, a);
  }

  lemma StepsKept<S(!new), Q(!new), R(!new)>(rules: Rules<S, Q, R>, g: Config<S, Q, R>, id: CallId, a: Action<Q>)
    requires Enabled(g, a) && !g.goroutine.Exited?
    requires id in g.replies || id in InHand(g) || id in InChannel(g) || id in Unanswered(g)
    requires var g' := Next(rules, g, a); id in g'.calls && g'.calls[id].Waiting? && !g'.goroutine.Exited?
    ensures StepsToReply(Next(rules, g, a), id) <= StepsToReply(g, id)
  {
    hide Served;
  }

  // ---------- The program ----------

  class Game<!S(!new), !Q(!new), !R(!new)> {
    const rules: Rules<S, Q, R>
    var calls: map<CallId, Call<Q, R>>
    var commands: Option<(CallId, Command<Q>)>
    var replies: map<CallId, Reply<R>>
    var goroutine: Goroutine<Q, R>
    var state: Option<S>
    var cancelled: bool
    ghost var accepted: seq<CallId>
    ghost var log: seq<Entry<Q, R>>
    ghost var answered: seq<CallId>

    ghost function Snap(): Config<S, Q, R>
      reads this
    {
      Config(calls, commands, replies, goroutine, state, cancelled, accepted, log, answered)
    }

    constructor (rules: Rules<S, Q, R>)
      ensures this.rules == rules && Snap() == Initial()
    {
      this.rules := rules;
      calls, commands, replies, goroutine, state, cancelled := map[], None, map[], Ready, None, false;
      accepted, log, answered := [], [], [];
    }

    /** The first select of Send: the command goes into the channel. */
    method PutCommand(id: CallId)
      requires Enabled(Snap(), Enqueue(id))
      modifies this
      ensures Snap() == Next(rules, old(Snap()), Enqueue(id))
    {
      var call := calls[id];
      commands := Some((id, call.cmd));
      calls := calls[id := Waiting(call.cmd, call.born)];
      accepted := accepted + [id];
    }

    /** The second select of Send: the reply comes out. */
    method TakeReply(id: CallId) returns (reply: Reply<R>)
      requires Enabled(Snap(), Receive(id))
      modifies this
      ensures Snap() == Next(rules, old(Snap()), Receive(id))
      ensures reply == old(replies[id])
    {
      reply := replies[id];
      var call := calls[id];
      replies := replies - {id};
      calls := calls[id := Returned(call.cmd, call.born, reply)];
    }

    /** The other arms of both selects: the caller's context is done, or the goroutine is gone. What
        the call has put into a channel stays there. */
    method GiveUp(id: CallId, terminated: bool)
      requires Enabled(Snap(), if terminated then CallTerminated(id) else CallCancelled(id))
      modifies this
      ensures Snap() == Next(rules, old(Snap()), if terminated then CallTerminated(id) else CallCancelled(id))
    {
      calls := calls[id := GaveUp(calls[id].cmd, calls[id].born)];
    }

    /** The goroutine receives a command. */
    method TakeCommand()
      requires Enabled(Snap(), Take)
      modifies this
      ensures Snap() == Next(rules, old(Snap()), Take)
    {
      goroutine := Working(commands.value.0, commands.value.1);
      commands := None;
    }

    /** The goroutine runs the command in hand. A game that fails to start leaves the old one. */
    method ServeCommand()
      requires Enabled(Snap(), Serve)
      modifies this
      ensures Snap() == Next(rules, old(Snap()), Serve)
    {
      var id, cmd := goroutine.id, goroutine.cmd;
      var reply: Reply<R>;
      match cmd {
        case NewGame(args) =>
          match rules.newGame(args) {
            case Ok(started) =>
              state := Some(started.0);
              reply := Answer(started.1);
            case Err(e) =>
              reply := Answer(e);
          }
        case Tool(args) =>
          if state.None? {
            reply := NoActiveGame;
          } else {
            var played := rules.dispatch(state.value, args);
            state, reply := Some(played.0), Answer(played.1);
          }
        case RunLoop(args) =>
          if state.None? {
            reply := NoActiveGame;
          } else {
            var played := rules.loop(state.value, args);
            state, reply := Some(played.0), Answer(played.1);
          }
        case Inspect(args) =>
          if state.Some? {
            state := Some(rules.inspect(state.value, args));
          }
          reply := Inspected;
        case Unknown =>
          reply := UnknownCommand;
      }
      goroutine := Replying(id, reply);
      log := log + [Entry(id, cmd, reply)];
    }

    /** The goroutine answers and goes back to its select. */
    method PutReply()
      requires Enabled(Snap(), WriteReply)
      modifies this
      ensures Snap() == Next(rules, old(Snap()), WriteReply)
    {
      var id := goroutine.id;
      replies := replies[id := goroutine.reply];
      goroutine := Ready;
      answered := answered + [id];
    }

    /** One turn of the goroutine. */
    method Advance()
      requires !goroutine.Exited? && Enabled(Snap(), GoroutineStep(Snap()))
      modifies this
      ensures Snap() == Next(rules, old(Snap()), GoroutineStep(old(Snap())))
    {
      match goroutine {
        case Ready => TakeCommand();
        case Working(_, _) => ServeCommand();
        case Replying(_, _) => PutReply();
      }
    }

    /** The goroutine's loop, left to itself, reaches the reply of any waiting call; on the way it
        never waits on a reply channel. */
    method RunUntilAnswered(id: CallId)
      requires Invariant(rules, Snap()) && !goroutine.Exited?
      requires id in calls && calls[id].Waiting?
      modifies this
      ensures Invariant(rules, Snap()) && Enabled(Snap(), Receive(id))
      ensures old(log) <= log && calls == old(calls) && accepted == old(accepted)
    {
      hide Invariant, Next, Served, StepsToReply, GoroutineStep;
      while id !in replies
        invariant Invariant(rules, Snap()) && !goroutine.Exited?
        invariant old(log) <= log && calls == old(calls) && accepted == old(accepted)
        decreases StepsToReply(Snap(), id)
      {
        GoroutineAdvances(rules, Snap(), id);
        StepKeeps(rules, Snap(), GoroutineStep(Snap()));
        GoroutineFrame(rules, Snap());
        Advance();
      }
    }
  }
}
