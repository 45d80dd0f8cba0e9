/** The daemon's registry of sessions and games, shared by the handlers of all connections. Each
    handler runs game.new in several separately locked steps, so the steps of different handlers,
    even of one session, interleave. */
module Registry {
  import opened Wrappers

  type SessionId = string
  /** "" stands for no game. */
  type GameId = string
  type ConnId = nat

  /** How far a handler is with the request it is serving. */
  datatype Task =
    | Idle
    | Cleaned
    | Started(game: GameId)
    | Routed(game: GameId)

  datatype Conn = Conn(sess: Option<SessionId>, task: Task)

  /** `owner`, `cleaned` and `reached` are history: for which session a game was created, which
      sessions had their game cleaned up since it was bound, and which commands reached which game. */
  datatype State =
    State(sessions: map<SessionId, GameId>, games: set<GameId>, conns: map<ConnId, Conn>,
          owner: map<GameId, SessionId>, cleaned: set<SessionId>, reached: seq<(SessionId, GameId)>)

  const EMPTY: State := State(map[], {}, map[], map[], {}, [])

  datatype Action =
    | Connect(conn: ConnId)
    | Init(conn: ConnId, session: SessionId)
    | CleanUp(conn: ConnId)
    | StartGame(conn: ConnId, id: GameId)
    | StartFails(conn: ConnId)
    | NewGameDone(conn: ConnId)
    | NewGameFails(conn: ConnId)
    | Route(conn: ConnId)
    | Deliver(conn: ConnId)
    | Panic(conn: ConnId)
    | Disconnect(conn: ConnId)

  predicate Bound(r: State, s: SessionId) {
    s in r.sessions && r.sessions[s] != ""
  }

  /** The guards of the source. A generated id is assumed to be fresh. */
  predicate Enabled(r: State, a: Action) {
    if a.Connect? then a.conn !in r.conns
    else
      && a.conn in r.conns
      && (a.Init? || a.Disconnect? || a.Panic? || (r.conns[a.conn].sess.Some? && r.conns[a.conn].sess.value in r.sessions))
      && var task := r.conns[a.conn].task;
         match a
         case Init(_, s) => task.Idle? && s != ""
         case CleanUp(_) => task.Idle?
         case StartGame(_, g) => task.Cleaned? && g != "" && g !in r.owner
         case StartFails(_) => task.Cleaned?
         case NewGameDone(_) => task.Started?
         case NewGameFails(_) => task.Started?
         case Route(_) => task.Idle? && r.sessions[r.conns[a.conn].sess.value] in r.games - {""}
         case Deliver(_) => task.Routed?
         case Panic(_) => true
         case Disconnect(_) => task.Idle?
  }

  function WithTask(r: State, c: ConnId, t: Task): State
    requires c in r.conns
  {
    r.(conns := r.conns[c := r.conns[c].(task := t)])
  }

  function Next(r: State, a: Action): State
    requires Enabled(r, a)
  {
    if a.Connect? then r.(conns := r.conns[a.conn := Conn(None, Idle)])
    else if a.Init? then
      r.(sessions := if a.session in r.sessions then r.sessions else r.sessions[a.session := ""],
         conns := r.conns[a.conn := Conn(Some(a.session), Idle)])
    else if a.Disconnect? then r.(conns := r.conns - {a.conn})
    else if a.Panic? then WithTask(r, a.conn, Idle)
    else
      var s := r.conns[a.conn].sess.value;
      var task := r.conns[a.conn].task;
      match a
      case CleanUp(c) =>
        WithTask(r, c, Cleaned).(games := r.games - {r.sessions[s]}, cleaned := r.cleaned + {s})
      case StartGame(c, g) => WithTask(r, c, Started(g)).(games := r.games + {g}, owner := r.owner[g := s])
      case StartFails(c) => WithTask(r, c, Idle)
      case NewGameDone(c) =>
        WithTask(r, c, Idle).(sessions := r.sessions[s := task.game], cleaned := r.cleaned - {s},
                              reached := r.reached + [(s, task.game)])
      case NewGameFails(c) =>
        WithTask(r, c, Idle).(games := r.games - {task.game}, reached := r.reached + [(s, task.game)])
      case Route(c) => WithTask(r, c, Routed(r.sessions[s]))
      case Deliver(c) => WithTask(r, c, Idle).(reached := r.reached + [(s, task.game)])
  }

  // ---------- The invariant ----------

  predicate OwnedBy(r: State, g: GameId, s: SessionId) {
    g in r.owner && r.owner[g] == s
  }

  /** Bindings, registered games, and commands past and under way respect ownership. */
  ghost predicate OwnershipOK(r: State) {
    && "" !in r.owner
    && (forall s :: Bound(r, s) ==> OwnedBy(r, r.sessions[s], s))
    && (forall g :: g in r.games ==> g in r.owner)
    && (forall i :: 0 <= i < |r.reached| ==> OwnedBy(r, r.reached[i].1, r.reached[i].0))
    && (forall c :: c in r.conns ==> ConnOK(r, r.conns[c]))
  }

  ghost predicate ConnOK(r: State, conn: Conn) {
    && (conn.sess.Some? ==> conn.sess.value in r.sessions)
    && (!conn.task.Idle? ==> conn.sess.Some?)
    && (conn.task.Started? ==> OwnedBy(r, conn.task.game, conn.sess.value))
    && (conn.task.Routed? ==> OwnedBy(r, conn.task.game, conn.sess.value))
  }

  /** A game being set up is registered, bound to nobody yet, and known to one handler only. */
  ghost predicate StartingOK(r: State) {
    && (forall c :: c in r.conns && r.conns[c].task.Started? ==>
          r.conns[c].task.game in r.games && forall s :: s in r.sessions ==> r.sessions[s] != r.conns[c].task.game)
    && (forall c, d :: c in r.conns && d in r.conns && c != d && r.conns[c].task.Started? && r.conns[d].task.Started?
          ==> r.conns[c].task.game != r.conns[d].task.game)
  }

  /** A bound game is registered exactly while no game.new of its session has cleaned it up. */
  ghost predicate RegisteredOK(r: State) {
    forall s :: Bound(r, s) ==> (r.sessions[s] in r.games <==> s !in r.cleaned)
  }

  ghost predicate RegistryOK(r: State) {
    OwnershipOK(r) && StartingOK(r) && RegisteredOK(r)
  }

  lemma OnlyOwnedAreRegistered(r: State)
    requires RegistryOK(r)
    ensures r.games <= r.owner.Keys
  {}

  lemma StepKeepsConn(r: State, a: Action, c: ConnId)
    requires OwnershipOK(r) && Enabled(r, a) && c in Next(r, a).conns
    ensures ConnOK(Next(r, a), Next(r, a).conns[c])
  {
    assert c in r.conns ==> ConnOK(r, r.conns[c]);
  }

  lemma StepKeepsOwnership(r: State, a: Action)
    requires OwnershipOK(r) && Enabled(r, a)
    ensures OwnershipOK(Next(r, a))
  {
    var r' := Next(r, a);
    forall c | c in r'.conns ensures ConnOK(r', r'.conns[c]) {
      StepKeepsConn(r, a, c);
    }
    assert a.conn in r.conns ==> ConnOK(r, r.conns[a.conn]);
    hide ConnOK;
  }

  /** A game being set up belongs to the session of its handler, and is no empty id. */
  lemma StartedOwned(r: State, c: ConnId)
    requires OwnershipOK(r) && c in r.conns && r.conns[c].task.Started?
    ensures r.conns[c].sess.Some? && OwnedBy(r, r.conns[c].task.game, r.conns[c].sess.value) && r.conns[c].task.game != ""
  {
    assert ConnOK(r, r.conns[c]);
  }

  lemma StepKeepsStarting(r: State, a: Action)
    requires RegistryOK(r) && Enabled(r, a)
    ensures StartingOK(Next(r, a))
  {
    hide RegisteredOK, StartingOK, OwnershipOK;
    match a {
      case CleanUp(c) => CleanUpKeepsStarting(r, c);
      case StartGame(c, g) => StartKeepsStarting(r, c, g);
      case NewGameDone(c) => FinishKeepsStarting(r, c, a);
      case NewGameFails(c) => FinishKeepsStarting(r, c, a);
      case _ =>
        forall c | c in r.conns && r.conns[c].task.Started? ensures r.conns[c].task.game != "" {
          StartedOwned(r, c);
        }
        StartingFrame(r, Next(r, a));
    }
  }

  lemma CleanUpKeepsStarting(r: State, c: ConnId)
    requires OwnershipOK(r) && StartingOK(r) && Enabled(r, CleanUp(c))
    ensures StartingOK(Next(r, CleanUp(c)))
  {
    hide OwnershipOK;
  }

  lemma StartKeepsStarting(r: State, c: ConnId, g: GameId)
    requires OwnershipOK(r) && StartingOK(r) && Enabled(r, StartGame(c, g))
    ensures StartingOK(Next(r, StartGame(c, g)))
  {
    forall d | d in r.conns && r.conns[d].task.Started? ensures r.conns[d].task.game != g {
      StartedOwned(r, d);
    }
    forall s | s in r.sessions ensures r.sessions[s] != g {
      assert Bound(r, s) ==> OwnedBy(r, r.sessions[s], s);
    }
    hide OwnershipOK;
  }

  /** The handler that binds or removes its game is the only one that knew it. */
  lemma FinishKeepsStarting(r: State, c: ConnId, a: Action)
    requires StartingOK(r) && Enabled(r, a) && (a == NewGameDone(c) || a == NewGameFails(c))
    ensures StartingOK(Next(r, a))
  {
    forall d | d in r.conns && d != c && r.conns[d].task.Started? ensures r.conns[d].task.game != r.conns[c].task.game {
    }
  }

  /** Steps that neither create, bind nor unregister a game. */
  lemma StartingFrame(r: State, r': State)
    requires StartingOK(r) && r'.games == r.games
    requires forall c :: c in r'.conns && r'.conns[c].task.Started? ==> c in r.conns && r'.conns[c].task == r.conns[c].task
    requires forall c :: c in r.conns && r.conns[c].task.Started? ==> r.conns[c].task.game != ""
    requires forall s :: s in r'.sessions ==> r'.sessions[s] == "" || (s in r.sessions && r'.sessions[s] == r.sessions[s])
    ensures StartingOK(r')
  {}

  lemma StepKeepsRegistered(r: State, a: Action)
    requires RegistryOK(r) && Enabled(r, a)
    ensures RegisteredOK(Next(r, a))
  {
    assert a.conn in r.conns ==> ConnOK(r, r.conns[a.conn]);
  }

  ghost predicate Feasible(r: State, actions: seq<Action>)
    decreases |actions|
  {
    actions == [] || (Enabled(r, actions[0]) && Feasible(Next(r, actions[0]), actions[1..]))
  }

  ghost function Ran(r: State, actions: seq<Action>): State
    requires Feasible(r, actions)
    decreases |actions|
  {
    if actions == [] then r else Ran(Next(r, actions[0]), actions[1..])
  }

  lemma {:induction false} RunKeeps(r: State, actions: seq<Action>)
    requires Feasible(r, actions) && RegistryOK(r)
    ensures RegistryOK(Ran(r, actions))
    decreases |actions|
  {
    hide RegistryOK, OwnershipOK, StartingOK, RegisteredOK, Next, Enabled;
    if actions != [] {
      StepKeepsAll(r, actions[0]);
      RunKeeps(Next(r, actions[0]), actions[1..]);
    }
  }

  lemma StepKeepsAll(r: State, a: Action)
    requires RegistryOK(r) && Enabled(r, a)
    ensures RegistryOK(Next(r, a))
  {
    StepKeepsOwnership(r, a);
    StepKeepsStarting(r, a);
    StepKeepsRegistered(r, a);
  }

  // ---------- What every interleaving guarantees ----------

  /** Sessions never share a game, and every command a session's handler sent reached a game that
      was created for that session. */
  lemma GamesArePrivate(actions: seq<Action>)
    requires Feasible(EMPTY, actions)
    ensures var r := Ran(EMPTY, actions);
            && (forall s, t :: Bound(r, s) && Bound(r, t) && s != t ==> r.sessions[s] != r.sessions[t])
            && (forall i :: 0 <= i < |r.reached| ==> OwnedBy(r, r.reached[i].1, r.reached[i].0))
            && (forall c :: c in r.conns && r.conns[c].task.Routed? ==> ConnOK(r, r.conns[c]))
  {
    RunKeeps(EMPTY, actions);
    var r := Ran(EMPTY, actions);
    forall s, t | Bound(r, s) && Bound(r, t) && s != t ensures r.sessions[s] != r.sessions[t] {
      assert OwnedBy(r, r.sessions[s], s) && OwnedBy(r, r.sessions[t], t);
    }
  }

  /** A handler touches no session but its own: other bindings stay, and so do other bound games. */
  lemma StepsAreLocal(r: State, a: Action, t: SessionId)
    requires RegistryOK(r) && Enabled(r, a) && t in r.sessions
    requires !a.Connect? ==> r.conns[a.conn].sess != Some(t)
    ensures var r' := Next(r, a);
            && t in r'.sessions && r'.sessions[t] == r.sessions[t]
            && (r.sessions[t] in r.games ==> r'.sessions[t] in r'.games)
  {
    if Bound(r, t) && !a.Connect? {
      assert ConnOK(r, r.conns[a.conn]);
      assert OwnedBy(r, r.sessions[t], t);
      if r.conns[a.conn].sess.Some? && Bound(r, r.conns[a.conn].sess.value) {
        assert OwnedBy(r, r.sessions[r.conns[a.conn].sess.value], r.conns[a.conn].sess.value);
      }
    }
  }

  /** When a command on a bound session finds its game: exactly when no game.new of that session
      has started to clean up since the binding. */
  lemma FoundUnlessCleanedUp(actions: seq<Action>, conn: ConnId)
    requires Feasible(EMPTY, actions)
    requires var r := Ran(EMPTY, actions);
             conn in r.conns && r.conns[conn].task.Idle? && r.conns[conn].sess.Some? && Bound(r, r.conns[conn].sess.value)
    ensures var r := Ran(EMPTY, actions);
            Enabled(r, Route(conn)) <==> r.conns[conn].sess.value !in r.cleaned
  {
    RunKeeps(EMPTY, actions);
  }

  /** It does happen: after a second game.new that fails, the session is bound to a game that is gone. */
  lemma BindingsCanDangle()
    ensures var run := [Connect(0), Init(0, "s"), CleanUp(0), StartGame(0, "g"), NewGameDone(0), CleanUp(0), StartFails(0)];
            && Feasible(EMPTY, run)
            && Bound(Ran(EMPTY, run), "s") && Ran(EMPTY, run).sessions["s"] == "g" && "g" !in Ran(EMPTY, run).games
  {
    var r0 := EMPTY;
    var r1 := Next(r0, Connect(0));
    var r2 := Next(r1, Init(0, "s"));
    var r3 := Next(r2, CleanUp(0));
    var r4 := Next(r3, StartGame(0, "g"));
    var r5 := Next(r4, NewGameDone(0));
    var r6 := Next(r5, CleanUp(0));
    var r7 := Next(r6, StartFails(0));
    RunOne(r6, StartFails(0), []);
    RunOne(r5, CleanUp(0), [StartFails(0)]);
    RunOne(r4, NewGameDone(0), [CleanUp(0), StartFails(0)]);
    RunOne(r3, StartGame(0, "g"), [NewGameDone(0), CleanUp(0), StartFails(0)]);
    RunOne(r2, CleanUp(0), [StartGame(0, "g"), NewGameDone(0), CleanUp(0), StartFails(0)]);
    RunOne(r1, Init(0, "s"), [CleanUp(0), StartGame(0, "g"), NewGameDone(0), CleanUp(0), StartFails(0)]);
    RunOne(r0, Connect(0), [Init(0, "s"), CleanUp(0), StartGame(0, "g"), NewGameDone(0), CleanUp(0), StartFails(0)]);
  }

  lemma RunOne(r: State, a: Action, rest: seq<Action>)
    requires Enabled(r, a) && Feasible(Next(r, a), rest)
    ensures Feasible(r, [a] + rest) && Ran(r, [a] + rest) == Ran(Next(r, a), rest)
  {
    assert ([a] + rest)[1..] == rest;
  }

  // ---------- The program ----------

  class Server {
    var sessions: map<SessionId, GameId>
    var games: set<GameId>
    var conns: map<ConnId, Conn>
    ghost var owner: map<GameId, SessionId>
    ghost var cleaned: set<SessionId>
    ghost var reached: seq<(SessionId, GameId)>

    ghost function Snap(): State
      reads this
    {
      State(sessions, games, conns, owner, cleaned, reached)
    }

    constructor ()
      ensures Snap() == EMPTY && RegistryOK(Snap())
    {
      sessions, games, conns, owner, cleaned, reached := map[], {}, map[], map[], {}, [];
    }

    /** session.init: joins the session of that id, or makes it. */
    method InitSession(conn: ConnId, id: SessionId)
      requires Enabled(Snap(), Init(conn, id))
      modifies this
      ensures Snap() == Next(old(Snap()), Init(conn, id))
    {
      if id !in sessions {
        sessions := sessions[id := ""];
      }
      conns := conns[conn := Conn(Some(id), Idle)];
    }

    method CleanUpOldGame(conn: ConnId)
      requires RegistryOK(Snap()) && Enabled(Snap(), CleanUp(conn))
      modifies this
      ensures Snap() == Next(old(Snap()), CleanUp(conn))
    {
      var s := conns[conn].sess.value;
      if sessions[s] != "" && sessions[s] in games {
        games := games - {sessions[s]};
      }
      conns := conns[conn := conns[conn].(task := Cleaned)];
      cleaned := cleaned + {s};
    }

    method CreateAndStartGame(conn: ConnId, id: GameId)
      requires Enabled(Snap(), StartGame(conn, id))
      modifies this
      ensures Snap() == Next(old(Snap()), StartGame(conn, id))
    {
      games := games + {id};
      owner := owner[id := conns[conn].sess.value];
      conns := conns[conn := conns[conn].(task := Started(id))];
    }

    method BindGame(conn: ConnId)
      requires Enabled(Snap(), NewGameDone(conn))
      modifies this
      ensures Snap() == Next(old(Snap()), NewGameDone(conn))
    {
      var s, g := conns[conn].sess.value, conns[conn].task.game;
      sessions := sessions[s := g];
      conns := conns[conn := conns[conn].(task := Idle)];
      cleaned, reached := cleaned - {s}, reached + [(s, g)];
    }

    method RemoveGame(conn: ConnId)
      requires Enabled(Snap(), NewGameFails(conn))
      modifies this
      ensures Snap() == Next(old(Snap()), NewGameFails(conn))
    {
      var s, g := conns[conn].sess.value, conns[conn].task.game;
      games := games - {g};
      conns := conns[conn := conns[conn].(task := Idle)];
      reached := reached + [(s, g)];
    }

    /** None is the "no active game" or "game not found" answer. */
    method GameForSession(conn: ConnId) returns (game: Option<GameId>)
      requires RegistryOK(Snap())
      requires conn in conns && conns[conn].task.Idle? && conns[conn].sess.Some? && conns[conn].sess.value in sessions
      modifies this
      ensures game.Some? <==> old(Enabled(Snap(), Route(conn)))
      ensures game.Some? ==> Snap() == Next(old(Snap()), Route(conn)) && OwnedBy(Snap(), game.value, conns[conn].sess.value)
      ensures game.None? ==> Snap() == old(Snap())
    {
      var s := conns[conn].sess.value;
      if sessions[s] == "" || sessions[s] !in games {
        return None;
      }
      game := Some(sessions[s]);
      assert Bound(Snap(), s);
      conns := conns[conn := conns[conn].(task := Routed(game.value))];
    }

    /** game.new without interference. `id` is the generated id, if one could be generated, and
        `accepted` is the new game's own answer. Success binds the session to a registered new
        game; failure leaves the old binding without its game. Other sessions see nothing. */
    method NewGame(conn: ConnId, id: Option<GameId>, accepted: bool) returns (ok: bool)
      requires RegistryOK(Snap()) && Enabled(Snap(), CleanUp(conn))
      requires id.Some? ==> id.value != "" && id.value !in owner
      modifies this
      ensures RegistryOK(Snap())
      ensures ok <==> id.Some? && accepted
      ensures var s := old(conns[conn].sess.value);
              && sessions == old(if ok then sessions[s := id.value] else sessions)
              && games == old(games) - {old(sessions[s])} + (if ok then {id.value} else {})
      ensures conns == old(conns)
    {
      hide RegistryOK;
      OnlyOwnedAreRegistered(Snap());
      StepKeepsAll(Snap(), CleanUp(conn));
      CleanUpOldGame(conn);
      if id.None? {
        StepKeepsAll(Snap(), StartFails(conn));
        conns := conns[conn := conns[conn].(task := Idle)];
        return false;
      }
      StepKeepsAll(Snap(), StartGame(conn, id.value));
      CreateAndStartGame(conn, id.value);
      if accepted {
        StepKeepsAll(Snap(), NewGameDone(conn));
        BindGame(conn);
      } else {
        StepKeepsAll(Snap(), NewGameFails(conn));
        RemoveGame(conn);
      }
      return accepted;
    }
  }
}
