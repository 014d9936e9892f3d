/** The router and its event loop: each text posted in the saved-messages
    chat is parsed and, if it is a command, handled to completion before the
    next one. The agent's state is the alias file and the last channel
    listing. */
module Agent {
  import opened Wrappers
  import opened Commands
  import opened Channels
  import opened AliasStore
  import opened Handlers

  datatype AgentState = AgentState(file: AliasFile, lastList: map<int, Channel>)

  /** What the Telegram client answers while one event is handled. */
  datatype Client = Client(
    dialogs: seq<Entity>,
    resolve: Channel -> InputPeer,
    search: (ChannelRef, string) -> seq<Message>)

  /** The state after one event, what it put in the chat (replies and
      forwards in the order they appear), and the loading error a handler
      raised, if any. */
  datatype Outcome = Outcome(
    state: AgentState,
    posts: seq<Post>,
    failure: Option<LoadError>)

  /** Apply a store handler's effect: write the file only when it asks to.
      A store written with normal titles loads back as exactly that store. */
  function Commit(st: AgentState, r: Result<Effect, LoadError>): (o: Outcome)
    ensures r.Err? ==> o == Outcome(st, [], Some(r.error))
    ensures r.Ok? ==> o.posts == [Sent(r.value.reply)] && o.failure.None?
    ensures o.state.lastList == st.lastList
    ensures r.Ok? && r.value.written.None? ==> o.state == st
    ensures r.Ok? && r.value.written.Some? && Normal(r.value.written.value) ==>
      Load(o.state.file) == Ok(r.value.written.value)
  {
    match r
    case Err(e) => Outcome(st, [], Some(e))
    case Ok(Effect(None, reply)) => Outcome(st, [Sent(reply)], None)
    case Ok(Effect(Some(s), reply)) =>
      RoundTrip(s);
      Outcome(AgentState(Save(s), st.lastList), [Sent(reply)], None)
  }

  /** What handling `cmd` does: no command does nothing; help replies with
      the usage; `/canales` replaces the listing with the one its handler
      computes and leaves the file; `/setcanal` and `/delalias` commit their
      handler's effect; `/aliases` replies with the store's listing; `/buscar`
      posts its handler's replies and forwards. A handler that raises
      (the file did not load) changes nothing and replies nothing. */
  ghost predicate Handled(st: AgentState, cmd: Option<Command>, client: Client, o: Outcome) {
    match cmd
    case None => o == Outcome(st, [], None)
    case Some(Help) => o == Outcome(st, [Sent(Usage)], None)
    case Some(Canales(f)) =>
      && o.state.file == st.file && o.failure.None? && |o.posts| == 1 && o.posts[0].Sent?
      && IsListing(client.dialogs, f, o.posts[0].reply, o.state.lastList)
    case Some(SetCanal(i, a)) =>
      o == Commit(st, Handlers.SetCanal(st.lastList, i, a, client.resolve, st.file))
    case Some(Aliases) =>
      (match Load(st.file)
       case Err(e) => o == Outcome(st, [], Some(e))
       case Ok(s) =>
         && o.state == st && o.failure.None? && |o.posts| == 1 && o.posts[0].Sent?
         && IsAliasReply(s, o.posts[0].reply))
    case Some(DelAlias(a)) =>
      o == Commit(st, Handlers.DelAlias(st.file, a))
    case Some(Buscar(a, q, n)) =>
      (match Handlers.Buscar(st.file, a, q, n, client.search)
       case Err(e) => o == Outcome(st, [], Some(e))
       case Ok(posts) => o == Outcome(st, posts, None))
  }

  /** The router's branch on an already parsed command. Besides running the
      command's handler: only `/canales` replaces the listing; only
      `/setcanal` and `/delalias` rewrite the file, and a file that loads
      keeps loading; only `/buscar` forwards. */
  method Dispatch(st: AgentState, cmd: Option<Command>, client: Client) returns (o: Outcome)
    ensures Handled(st, cmd, client, o)
    ensures o.state.lastList != st.lastList ==> cmd.Some? && cmd.value.Canales?
    ensures o.state.file != st.file ==> cmd.Some? && (cmd.value.SetCanal? || cmd.value.DelAlias?)
    ensures Forwards(o.posts) != [] ==> cmd.Some? && cmd.value.Buscar?
    ensures |Forwards(o.posts)| <= MaxForwarded
    ensures o.failure.Some? ==> Load(st.file).Err? && o.state == st && o.posts == []
    ensures Load(st.file).Ok? ==> Load(o.state.file).Ok?
  {
    if cmd.None? {
      return Outcome(st, [], None);
    }
    match cmd.value {
      case Help =>
        o := Outcome(st, [Sent(Usage)], None);
        ForwardsOfSent(Usage);
      case Canales(filter) =>
        var reply, listing := ListChannels(client.dialogs, filter);
        o := Outcome(AgentState(st.file, listing), [Sent(reply)], None);
        ForwardsOfSent(reply);
      case SetCanal(idx, alias) =>
        var r := Handlers.SetCanal(st.lastList, idx, alias, client.resolve, st.file);
        o := Commit(st, r);
        if r.Ok? {
          ForwardsOfSent(r.value.reply);
        }
      case Aliases =>
        var r := ListAliases(st.file);
        if r.Err? {
          o := Outcome(st, [], Some(r.error));
        } else {
          o := Outcome(st, [Sent(r.value)], None);
          ForwardsOfSent(r.value);
        }
      case DelAlias(alias) =>
        var r := Handlers.DelAlias(st.file, alias);
        o := Commit(st, r);
        if r.Ok? {
          ForwardsOfSent(r.value.reply);
        }
      case Buscar(alias, query, count) =>
        var r := Handlers.Buscar(st.file, alias, query, count, client.search);
        if r.Err? {
          o := Outcome(st, [], Some(r.error));
        } else {
          o := Outcome(st, r.value, None);
        }
    }
  }

  /** `_on_saved_message`: one event, parsed and then dispatched. */
  method HandleMessage(st: AgentState, raw: string, client: Client) returns (o: Outcome)
    ensures Handled(st, Parse(raw), client, o)
    ensures o.state.lastList != st.lastList ==> Parse(raw).Some? && Parse(raw).value.Canales?
    ensures o.state.file != st.file ==>
      Parse(raw).Some? && (Parse(raw).value.SetCanal? || Parse(raw).value.DelAlias?)
    ensures Forwards(o.posts) != [] ==> Parse(raw).Some? && Parse(raw).value.Buscar?
    ensures |Forwards(o.posts)| <= MaxForwarded
    ensures o.failure.Some? ==> Load(st.file).Err? && o.state == st && o.posts == []
    ensures Load(st.file).Ok? ==> Load(o.state.file).Ok?
  {
    o := Dispatch(st, Parse(raw), client);
  }

  /** The state in which the `i`-th event of a run is handled. */
  function Before(st: AgentState, outs: seq<Outcome>, i: nat): AgentState
    requires i <= |outs|
  {
    if i == 0 then st else outs[i - 1].state
  }

  /** The chat a run leaves: each event's posts, event after event. */
  function AllPosts(outs: seq<Outcome>): seq<Post> {
    if |outs| == 0 then [] else AllPosts(outs[..|outs| - 1]) + outs[|outs| - 1].posts
  }

  /** `outs` are the outcomes of `events` handled in turn from `st`: one
      outcome per event, each the router step on its event's text in the
      state the previous one left. */
  ghost predicate IsTrace(st: AgentState, events: seq<(string, Client)>, outs: seq<Outcome>)
    decreases |outs|, 1
  {
    && |outs| == |events|
    && (|outs| > 0 ==> LastHandled(st, events, outs))
  }

  /** The outcomes before the last event form a trace, and the last event
      is handled from the state they leave, forwarding at most
      `MaxForwarded` messages. */
  ghost predicate LastHandled(st: AgentState, events: seq<(string, Client)>, outs: seq<Outcome>)
    requires 0 < |outs| == |events|
    decreases |outs|, 0
  {
    var n := |outs| - 1;
    && IsTrace(st, events[..n], outs[..n])
    && Handled(Before(st, outs, n), Parse(events[n].0), events[n].1, outs[n])
    && |Forwards(outs[n].posts)| <= MaxForwarded
  }

  /** Handling one more event extends a trace by its outcome. */
  lemma TraceExtend(
    st: AgentState, events: seq<(string, Client)>, outs: seq<Outcome>, o: Outcome)
    requires |outs| < |events| && IsTrace(st, events[..|outs|], outs)
    requires Handled(Before(st, outs, |outs|), Parse(events[|outs|].0), events[|outs|].1, o)
    requires |Forwards(o.posts)| <= MaxForwarded
    ensures IsTrace(st, events[..|outs| + 1], outs + [o])
  {
    var n := |outs|;
    assert (outs + [o])[..n] == outs;
    assert events[..n + 1][..n] == events[..n];
    assert LastHandled(st, events[..n + 1], outs + [o]);
  }

  /** The router step on the next event of a run, stated as the trace it
      extends. */
  method Step(st: AgentState, events: seq<(string, Client)>, outs: seq<Outcome>)
    returns (o: Outcome)
    requires |outs| < |events| && IsTrace(st, events[..|outs|], outs)
    ensures IsTrace(st, events[..|outs| + 1], outs + [o])
    ensures |Forwards(o.posts)| <= MaxForwarded
    ensures Load(Before(st, outs, |outs|).file).Ok? ==> Load(o.state.file).Ok?
    ensures Parse(events[|outs|].0).None? ==> o == Outcome(Before(st, outs, |outs|), [], None)
  {
    o := HandleMessage(Before(st, outs, |outs|), events[|outs|].0, events[|outs|].1);
    TraceExtend(st, events, outs, o);
  }

  /** What a run has gathered after the events `outs` answers: the state
      the last one left, the chat they posted in order, at most
      `MaxForwarded` forwards per event, a loadable file kept loadable,
      and nothing at all while no event was a command. */
  predicate Summary(
    st: AgentState, events: seq<(string, Client)>, outs: seq<Outcome>,
    final: AgentState, posts: seq<Post>)
    requires |outs| <= |events|
  {
    && (forall j :: 0 <= j < |outs| ==> |Forwards(outs[j].posts)| <= MaxForwarded)
    && final == Before(st, outs, |outs|)
    && posts == AllPosts(outs)
    && (Load(st.file).Ok? ==> Load(final.file).Ok?)
    && |Forwards(posts)| <= MaxForwarded * |outs|
    && ((forall j :: 0 <= j < |outs| ==> Parse(events[j].0).None?) ==>
          final == st && posts == [])
  }

  /** One more outcome with the step's guarantees extends the summary. */
  lemma SummaryExtend(
    st: AgentState, events: seq<(string, Client)>, outs: seq<Outcome>,
    final: AgentState, posts: seq<Post>, o: Outcome)
    requires |outs| < |events| && Summary(st, events, outs, final, posts)
    requires |Forwards(o.posts)| <= MaxForwarded
    requires Load(final.file).Ok? ==> Load(o.state.file).Ok?
    requires Parse(events[|outs|].0).None? ==> o == Outcome(final, [], None)
    ensures Summary(st, events, outs + [o], o.state, posts + o.posts)
  {
    var next := outs + [o];
    assert next[..|outs|] == outs;
    assert forall j :: 0 <= j < |outs| ==> next[j] == outs[j];
    ForwardsAppend(posts, o.posts);
  }

  /** The events of the saved-messages chat, each handled to completion
      before the next, in arrival order; the client's concurrent dispatch of
      updates is not modelled. A handler that raises is logged by the client
      and the loop goes on with the next event. `outs` holds the outcome of
      each event: the router step applied to its text in the state the
      previous event left. `posts` is the chat the run leaves behind. */
  method Run(st: AgentState, events: seq<(string, Client)>)
    returns (final: AgentState, posts: seq<Post>, outs: seq<Outcome>)
    ensures |outs| == |events| && IsTrace(st, events, outs)
    ensures forall i :: 0 <= i < |events| ==> |Forwards(outs[i].posts)| <= MaxForwarded
    ensures final == Before(st, outs, |outs|)
    ensures posts == AllPosts(outs)
    ensures Load(st.file).Ok? ==> Load(final.file).Ok?
    ensures |Forwards(posts)| <= MaxForwarded * |events|
    ensures (forall i :: 0 <= i < |events| ==> Parse(events[i].0).None?) ==>
      final == st && posts == []
  {
    final := st;
    posts := [];
    outs := [];
    var i := 0;
    while i < |events|
      invariant 0 <= i <= |events| && |outs| == i
      invariant IsTrace(st, events[..i], outs)
      invariant Summary(st, events, outs, final, posts)
    {
      var o := Step(st, events, outs);
      SummaryExtend(st, events, outs, final, posts, o);
      outs := outs + [o];
      final := o.state;
      posts := posts + o.posts;
      i := i + 1;
    }
    assert events[..i] == events;
  }
}
