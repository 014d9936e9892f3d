/** The five command handlers as state transitions. The Telegram client's
    answers (the dialog list, the peer a channel resolves to, the messages a
    search finds) are inputs; replies are tagged values carrying the data the
    Spanish reply texts interpolate. */
module Handlers {
  import opened Wrappers
  import opened Text
  import opened Channels
  import opened AliasStore

  /** One numbered line of a channel listing. */
  datatype ListedItem = ListedItem(index: int, kind: Kind, title: string, id: int)

  /** One line of the alias listing. */
  datatype AliasLine = AliasLine(name: string, title: Json, channelId: int)

  datatype Reply =
    | Usage                                             // the help text
    | NoResults                                         // nothing survived a listing
    | ChannelList(items: seq<ListedItem>)
    | InvalidIndex                                      // index not in the last listing
    | NotChannelPeer(typeName: string)                  // resolved peer of another kind
    | Saved(alias: string, title: Json, channelId: int)
    | NoAliases                                         // hint to use /canales and /setcanal
    | AliasList(lines: seq<AliasLine>)
    | AliasMissing                                      // /delalias of an unknown name
    | Deleted(alias: string, title: Json)
    | UnknownAlias(alias: string)                       // /buscar of an unknown name
    | UnsupportedAlias                                  // stored type is not a channel peer
    | BadCount                                          // /buscar with N < 1
    | Searching(title: Json, limit: int)
    | Forwarded(count: int)

  /** What `get_input_entity` returns for a channel: a channel peer with its
      id and access hash, or a peer of another type, named by its class. */
  datatype ChannelRef = ChannelRef(channelId: int, accessHash: int)
  datatype InputPeer = PeerChannel(ref: ChannelRef) | OtherPeer(typeName: string)

  datatype Message = Message(id: int)

  /** The store a handler writes back (`None`: the file is not touched), and
      its reply. */
  datatype Effect = Effect(written: Option<Store>, reply: Reply)

  /** One message the agent puts in the saved-messages chat: a reply of its
      own, or a message forwarded from a channel. */
  datatype Post = Sent(reply: Reply) | Fwd(msg: Message)

  /** The forwarded messages among `posts`, in chat order. */
  function Forwards(posts: seq<Post>): seq<Message> {
    if |posts| == 0 then []
    else (if posts[0].Fwd? then [posts[0].msg] else []) + Forwards(posts[1..])
  }

  /** Each message of `msgs` forwarded in turn. */
  function Fwds(msgs: seq<Message>): (posts: seq<Post>)
    ensures |posts| == |msgs|
    ensures forall i :: 0 <= i < |msgs| ==> posts[i] == Fwd(msgs[i])
  {
    if |msgs| == 0 then [] else [Fwd(msgs[0])] + Fwds(msgs[1..])
  }

  /** The forwards of two stretches of chat are those of the first followed
      by those of the second. */
  lemma {:induction false} ForwardsAppend(a: seq<Post>, b: seq<Post>)
    ensures Forwards(a + b) == Forwards(a) + Forwards(b)
    decreases |a|
  {
    if |a| > 0 {
      assert (a + b)[1..] == a[1..] + b;
      ForwardsAppend(a[1..], b);
    } else {
      assert a + b == b;
    }
  }

  /** Forwarding `msgs` puts exactly `msgs` in the chat. */
  lemma {:induction false} ForwardsOfFwds(msgs: seq<Message>)
    ensures Forwards(Fwds(msgs)) == msgs
    decreases |msgs|
  {
    if |msgs| > 0 {
      assert Fwds(msgs)[1..] == Fwds(msgs[1..]);
      ForwardsOfFwds(msgs[1..]);
    }
  }

  /** A reply alone forwards nothing. */
  lemma ForwardsOfSent(reply: Reply)
    ensures Forwards([Sent(reply)]) == []
  {
    assert [Sent(reply)][1..] == [];
  }

  /** The chat of a search that ran: the "searching" reply, each forwarded
      match, then the count of forwards. */
  function SearchChat(title: Json, limit: int, sent: seq<Message>): (posts: seq<Post>)
    ensures Forwards(posts) == sent
    ensures |posts| == |sent| + 2
  {
    ForwardsOfSent(Searching(title, limit));
    ForwardsOfFwds(sent);
    ForwardsOfSent(Forwarded(|sent|));
    ForwardsAppend([Sent(Searching(title, limit))], Fwds(sent));
    ForwardsAppend([Sent(Searching(title, limit))] + Fwds(sent), [Sent(Forwarded(|sent|))]);
    [Sent(Searching(title, limit))] + Fwds(sent) + [Sent(Forwarded(|sent|))]
  }

  /** `/buscar` never asks for more than this many results. */
  const MaxForwarded: nat := 50

  // ---------- /canales ----------

  /** `reply` and `lastList` are what `/canales` with `filterRaw` shows and
      remembers for `dialogs`: the listing's keys are exactly 1..min(n, 40)
      for the n surviving channels, key i is the i-th survivor, and the reply
      numbers the same channels in the same order. */
  ghost predicate IsListing(dialogs: seq<Entity>, filterRaw: Option<string>, reply: Reply, lastList: map<int, Channel>) {
    var s := Survivors(dialogs, NormalizeFilter(filterRaw));
    var n := Min(|s|, MaxListed);
    && (forall i :: i in lastList <==> 1 <= i <= n)
    && (forall i :: i in lastList ==> lastList[i] == s[i - 1])
    && (|s| == 0 ==> reply == NoResults)
    && (|s| > 0 ==> reply.ChannelList? && |reply.items| == n)
    && (|s| > 0 ==> forall j :: 0 <= j < n ==>
          reply.items[j] == ListedItem(j + 1, KindOf(s[j]), s[j].title, s[j].id))
  }

  /** `_cmd_canales`: filter the dialogs, number the first 40 survivors from 1
      and remember them as the new listing, which replaces the previous one
      even when nothing survives. */
  method ListChannels(dialogs: seq<Entity>, filterRaw: Option<string>)
    returns (reply: Reply, lastList: map<int, Channel>)
    ensures IsListing(dialogs, filterRaw, reply, lastList)
  {
    var filter := NormalizeFilter(filterRaw);
    lastList := map[];
    var items: seq<Channel> := [];
    var i := 0;
    while i < |dialogs|
      invariant 0 <= i <= |dialogs|
      invariant items == Survivors(dialogs[..i], filter)
    {
      assert dialogs[..i + 1][..i] == dialogs[..i];
      var e := dialogs[i];
      if e.ChannelEntity? && (e.channel.broadcast || e.channel.megagroup) {
        if |filter| > 0 && !Contains(Haystack(e.channel), filter) {
          // filtered out
        } else {
          items := items + [e.channel];
        }
      }
      i := i + 1;
    }
    assert dialogs[..|dialogs|] == dialogs;
    if |items| == 0 {
      reply := NoResults;
      return;
    }
    var n := Min(|items|, MaxListed);
    var lines: seq<ListedItem> := [];
    var j := 0;
    while j < n
      invariant 0 <= j <= n
      invariant forall k :: k in lastList <==> 1 <= k <= j
      invariant forall k :: k in lastList ==> lastList[k] == items[k - 1]
      invariant |lines| == j
      invariant forall k :: 0 <= k < j ==>
        lines[k] == ListedItem(k + 1, KindOf(items[k]), items[k].title, items[k].id)
    {
      var c := items[j];
      lastList := lastList[j + 1 := c];
      lines := lines + [ListedItem(j + 1, KindOf(c), c.title, c.id)];
      j := j + 1;
    }
    reply := ChannelList(lines);
  }

  // ---------- /setcanal ----------

  /** `_cmd_setcanal`: bind `alias` to the `idx`-th channel of the last
      listing. The store is loaded only after both checks pass. */
  function SetCanal(
    lastList: map<int, Channel>, idx: int, alias: string,
    resolve: Channel -> InputPeer, file: AliasFile): (r: Result<Effect, LoadError>)
    ensures idx !in lastList ==> r == Ok(Effect(None, InvalidIndex))
    ensures idx in lastList && resolve(lastList[idx]).OtherPeer? ==>
      r == Ok(Effect(None, NotChannelPeer(resolve(lastList[idx]).typeName)))
    ensures idx in lastList && resolve(lastList[idx]).PeerChannel? ==>
      (r.Err? <==> Load(file).Err?) && (r.Ok? ==> r.value.written.Some?)
    ensures r.Ok? && r.value.written.Some? ==>
      && idx in lastList && resolve(lastList[idx]).PeerChannel? && Load(file).Ok?
      && var before := Load(file).value;
         var after := r.value.written.value;
         var ent := lastList[idx];
         var ref := resolve(ent).ref;
         && after.Keys == before.Keys + {alias}
         && after[alias] == AliasEntry(ChannelPeerType, ref.channelId, ref.accessHash, JStr(ent.title))
         && (forall k :: k in before && k != alias ==> after[k] == before[k])
         && r.value.reply == Saved(alias, JStr(ent.title), ref.channelId)
    ensures r.Ok? && r.value.written.Some? ==> Normal(r.value.written.value)
  {
    if idx !in lastList then Ok(Effect(None, InvalidIndex))
    else
      var ent := lastList[idx];
      match resolve(ent)
      case OtherPeer(name) => Ok(Effect(None, NotChannelPeer(name)))
      case PeerChannel(ref) =>
        var aliases :- Load(file);
        var entry := AliasEntry(ChannelPeerType, ref.channelId, ref.accessHash, JStr(ent.title));
        Ok(Effect(Some(aliases[alias := entry]), Saved(alias, JStr(ent.title), ref.channelId)))
  }

  // ---------- /aliases ----------

  /** The sort key of `_cmd_aliases`: aliases compare by their lower-case form. */
  predicate KeyLe(a: string, b: string) {
    LexLe(LowerAscii(a), LowerAscii(b))
  }

  /** Every non-empty finite set of names has a first one in the sort order. */
  lemma {:induction false} FirstKeyExists(keys: set<string>) returns (first: string)
    requires keys != {}
    ensures first in keys && forall k :: k in keys ==> KeyLe(first, k)
    decreases keys
  {
    var x :| x in keys;
    var rest := keys - {x};
    LexLeTotal(LowerAscii(x), LowerAscii(x));
    if rest == {} {
      first := x;
      assert keys == {x};
    } else {
      var m := FirstKeyExists(rest);
      LexLeTotal(LowerAscii(x), LowerAscii(m));
      if KeyLe(x, m) {
        first := x;
        forall k | k in keys
          ensures KeyLe(first, k)
        {
          if k != x {
            assert k in rest;
            assert KeyLe(m, k);
            LexLeTransitive(LowerAscii(x), LowerAscii(m), LowerAscii(k));
          }
        }
      } else {
        first := m;
        forall k | k in keys
          ensures KeyLe(first, k)
        {
          if k != x {
            assert k in rest;
          }
        }
      }
    }
  }

  /** The names of `keys`, each once, in sort order (selection sort). */
  method SortKeys(keys: set<string>) returns (names: seq<string>)
    ensures |names| == |keys|
    ensures forall i :: 0 <= i < |names| ==> names[i] in keys
    ensures forall k :: k in keys ==> k in names
    ensures forall i, j :: 0 <= i < j < |names| ==> names[i] != names[j]
    ensures forall i, j :: 0 <= i < j < |names| ==> KeyLe(names[i], names[j])
  {
    var remaining := keys;
    names := [];
    while remaining != {}
      invariant remaining <= keys
      invariant forall k :: k in keys ==> (k in remaining <==> k !in names)
      invariant forall i :: 0 <= i < |names| ==> names[i] in keys
      invariant forall i, j :: 0 <= i < j < |names| ==> names[i] != names[j]
      invariant forall i, j :: 0 <= i < j < |names| ==> KeyLe(names[i], names[j])
      invariant forall i, k :: 0 <= i < |names| && k in remaining ==> KeyLe(names[i], k)
      invariant |names| + |remaining| == |keys|
      decreases |remaining|
    {
      ghost var least := FirstKeyExists(remaining);
      var first :| first in remaining && forall k :: k in remaining ==> KeyLe(first, k);
      names := names + [first];
      remaining := remaining - {first};
    }
  }

  function Names(lines: seq<AliasLine>): seq<string> {
    seq(|lines|, i requires 0 <= i < |lines| => lines[i].name)
  }

  /** `lines` shows every entry of `s` exactly once, with its title and
      channel id, ordered by lower-cased alias name. */
  predicate ListsStore(lines: seq<AliasLine>, s: Store) {
    && |lines| == |s|
    && (forall i :: 0 <= i < |lines| ==>
          && lines[i].name in s
          && lines[i].title == s[lines[i].name].title
          && lines[i].channelId == s[lines[i].name].channelId)
    && (forall k :: k in s ==> k in Names(lines))
    && (forall i, j :: 0 <= i < j < |lines| ==> lines[i].name != lines[j].name)
    && (forall i, j :: 0 <= i < j < |lines| ==> KeyLe(lines[i].name, lines[j].name))
  }

  /** The reply `/aliases` gives for store `s`: the hint when it is empty,
      otherwise every entry once, ordered by lower-cased name. */
  predicate IsAliasReply(s: Store, reply: Reply) {
    && (|s| == 0 ==> reply == NoAliases)
    && (|s| > 0 ==> reply.AliasList? && ListsStore(reply.lines, s))
  }

  /** One line per name, in the order of `names`. */
  function LinesFor(names: seq<string>, s: Store): (lines: seq<AliasLine>)
    requires forall i :: 0 <= i < |names| ==> names[i] in s
    ensures |lines| == |names|
    ensures forall i :: 0 <= i < |lines| ==> lines[i].name == names[i]
  {
    seq(|names|, i requires 0 <= i < |names| =>
      AliasLine(names[i], s[names[i]].title, s[names[i]].channelId))
  }

  /** The lines of a sorted enumeration of the keys list the store. */
  lemma SortedLinesListStore(names: seq<string>, s: Store)
    requires |names| == |s.Keys|
    requires forall i :: 0 <= i < |names| ==> names[i] in s.Keys
    requires forall k :: k in s.Keys ==> k in names
    requires forall i, j :: 0 <= i < j < |names| ==> names[i] != names[j]
    requires forall i, j :: 0 <= i < j < |names| ==> KeyLe(names[i], names[j])
    ensures ListsStore(LinesFor(names, s), s)
  {
    var lines := LinesFor(names, s);
    assert Names(lines) == names;
  }

  /** `_cmd_aliases`. Python's stable sort keeps aliases that differ only in
      case in file order; here any order among them may be chosen. */
  method ListAliases(file: AliasFile) returns (r: Result<Reply, LoadError>)
    ensures r.Err? <==> Load(file).Err?
    ensures r.Err? ==> r.error == Load(file).error
    ensures r.Ok? ==> IsAliasReply(Load(file).value, r.value)
  {
    var loaded := Load(file);
    if loaded.Err? {
      return Err(loaded.error);
    }
    var s := loaded.value;
    if |s| == 0 {
      return Ok(NoAliases);
    }
    var names := SortKeys(s.Keys);
    SortedLinesListStore(names, s);
    return Ok(AliasList(LinesFor(names, s)));
  }

  // ---------- /delalias ----------

  /** `_cmd_delalias`: an unknown name leaves the file alone; a known one is
      removed and the file rewritten. */
  function DelAlias(file: AliasFile, alias: string): (r: Result<Effect, LoadError>)
    ensures r.Err? <==> Load(file).Err?
    ensures r.Ok? && alias !in Load(file).value ==> r.value == Effect(None, AliasMissing)
    ensures r.Ok? && alias in Load(file).value ==>
      var before := Load(file).value;
      && r.value.written.Some?
      && r.value.written.value.Keys == before.Keys - {alias}
      && (forall k :: k in r.value.written.value ==> r.value.written.value[k] == before[k])
      && r.value.reply == Deleted(alias, before[alias].title)
    ensures r.Ok? && r.value.written.Some? ==> Normal(r.value.written.value)
  {
    var aliases :- Load(file);
    if alias !in aliases then Ok(Effect(None, AliasMissing))
    else Ok(Effect(Some(aliases - {alias}), Deleted(alias, aliases[alias].title)))
  }

  // ---------- /buscar ----------

  /** `_cmd_buscar`. `search` stands for the client's keyword search in a
      channel, all matches in the order it yields them; the handler forwards
      at most `min(count, 50)` of them, between its "searching" reply and
      its count reply, and every other outcome is one reply. */
  function Buscar(
    file: AliasFile, alias: string, query: string, count: int,
    search: (ChannelRef, string) -> seq<Message>): (r: Result<seq<Post>, LoadError>)
    ensures r.Err? <==> Load(file).Err?
    ensures r.Ok? ==> |Forwards(r.value)| <= MaxForwarded
    ensures r.Ok? ==>
      var s := Load(file).value;
      && (alias !in s ==> r.value == [Sent(UnknownAlias(alias))])
      && (alias in s && s[alias].peerType != ChannelPeerType ==>
            r.value == [Sent(UnsupportedAlias)])
      && (alias in s && s[alias].peerType == ChannelPeerType && count < 1 ==>
            r.value == [Sent(BadCount)])
      && (alias in s && s[alias].peerType == ChannelPeerType && count >= 1 ==>
            var e := s[alias];
            var limit := Min(count, MaxForwarded);
            var found := search(ChannelRef(e.channelId, e.accessHash), query);
            var sent := Forwards(r.value);
            && |sent| == Min(limit, |found|)
            && sent == found[..|sent|]
            && |r.value| == |sent| + 2
            && r.value[0] == Sent(Searching(e.title, limit))
            && (forall i :: 0 <= i < |sent| ==> r.value[i + 1] == Fwd(sent[i]))
            && r.value[|sent| + 1] == Sent(Forwarded(|sent|)))
  {
    var aliases :- Load(file);
    if alias !in aliases then Ok([Sent(UnknownAlias(alias))])
    else
      var info := aliases[alias];
      if info.peerType != ChannelPeerType then Ok([Sent(UnsupportedAlias)])
      else if count < 1 then Ok([Sent(BadCount)])
      else
        var limit := Min(count, MaxForwarded);
        var found := search(ChannelRef(info.channelId, info.accessHash), query);
        var sent := if |found| <= limit then found else found[..limit];
        Ok(SearchChat(info.title, limit, sent))
  }

  // ---------- Laws relating the handlers ----------

  /** Whatever `/setcanal` writes, reloading the file shows the new alias
      with the title cached from the listing, and all other aliases as they
      were. */
  lemma BindThenReload(
    lastList: map<int, Channel>, idx: int, alias: string,
    resolve: Channel -> InputPeer, file: AliasFile)
    requires SetCanal(lastList, idx, alias, resolve, file).Ok?
    requires SetCanal(lastList, idx, alias, resolve, file).value.written.Some?
    ensures var after := SetCanal(lastList, idx, alias, resolve, file).value.written.value;
      && Load(Save(after)) == Ok(after)
      && after[alias].title == JStr(lastList[idx].title)
      && after[alias].peerType == ChannelPeerType
  {
    RoundTrip(SetCanal(lastList, idx, alias, resolve, file).value.written.value);
  }

  /** `/delalias` on a file holding `s` removes exactly the one key. */
  lemma DelAliasOnSaved(s: Store, alias: string)
    requires Normal(s) && alias in s
    ensures DelAlias(Save(s), alias) == Ok(Effect(Some(s - {alias}), Deleted(alias, s[alias].title)))
  {
    RoundTrip(s);
  }

  /** Binding a fresh alias and then deleting it restores the store: the two
      handlers are inverse on names that were not bound before. */
  lemma DeleteUndoesBind(
    lastList: map<int, Channel>, idx: int, alias: string,
    resolve: Channel -> InputPeer, file: AliasFile)
    requires Load(file).Ok? && alias !in Load(file).value
    requires SetCanal(lastList, idx, alias, resolve, file).Ok?
    requires SetCanal(lastList, idx, alias, resolve, file).value.written.Some?
    ensures var bound := Save(SetCanal(lastList, idx, alias, resolve, file).value.written.value);
      DelAlias(bound, alias) == Ok(Effect(Some(Load(file).value), Deleted(alias, JStr(lastList[idx].title))))
  {
    var before := Load(file).value;
    var r := SetCanal(lastList, idx, alias, resolve, file);
    var after := r.value.written.value;
    assert after.Keys == before.Keys + {alias};
    assert forall k :: k in before ==> after[k] == before[k];
    assert after - {alias} == before;
    BindThenReload(lastList, idx, alias, resolve, file);
    DelAliasOnSaved(after, alias);
  }

  /** A second `/delalias` of the same name finds nothing and leaves the
      file untouched. */
  lemma DeleteTwice(file: AliasFile, alias: string)
    requires DelAlias(file, alias).Ok?
    requires DelAlias(file, alias).value.written.Some?
    ensures var once := Save(DelAlias(file, alias).value.written.value);
      DelAlias(once, alias) == Ok(Effect(None, AliasMissing))
  {
    RoundTrip(DelAlias(file, alias).value.written.value);
  }

  /** `/setcanal` on a file whose store already binds `alias` to the entry
      the listing would produce writes that store back unchanged. */
  lemma SetCanalRebinds(
    lastList: map<int, Channel>, idx: int, alias: string,
    resolve: Channel -> InputPeer, file: AliasFile, s: Store)
    requires Load(file) == Ok(s)
    requires idx in lastList && resolve(lastList[idx]).PeerChannel?
    requires var ref := resolve(lastList[idx]).ref;
      alias in s && s[alias] == AliasEntry(ChannelPeerType, ref.channelId, ref.accessHash, JStr(lastList[idx].title))
    ensures SetCanal(lastList, idx, alias, resolve, file).Ok?
    ensures SetCanal(lastList, idx, alias, resolve, file).value.written == Some(s)
  {
    assert s[alias := s[alias]] == s;
  }

  /** Binding the same alias twice from the same listing leaves one entry,
      the same as binding it once. */
  lemma BindTwice(
    lastList: map<int, Channel>, idx: int, alias: string,
    resolve: Channel -> InputPeer, file: AliasFile)
    requires SetCanal(lastList, idx, alias, resolve, file).Ok?
    requires SetCanal(lastList, idx, alias, resolve, file).value.written.Some?
    ensures var once := SetCanal(lastList, idx, alias, resolve, file).value.written.value;
      var twice := SetCanal(lastList, idx, alias, resolve, Save(once));
      twice.Ok? && twice.value.written == Some(once)
  {
    var once := SetCanal(lastList, idx, alias, resolve, file).value.written.value;
    BindThenReload(lastList, idx, alias, resolve, file);
    SetCanalRebinds(lastList, idx, alias, resolve, Save(once), once);
  }

  /** When the aliased channel has no match, the search forwards nothing
      and, if it ran, reports zero. */
  lemma EmptySearchForwardsNothing(
    file: AliasFile, alias: string, query: string, count: int,
    search: (ChannelRef, string) -> seq<Message>)
    requires Buscar(file, alias, query, count, search).Ok?
    requires var s := Load(file).value;
      alias in s ==> search(ChannelRef(s[alias].channelId, s[alias].accessHash), query) == []
    ensures Forwards(Buscar(file, alias, query, count, search).value) == []
    ensures forall i :: 0 <= i < |Buscar(file, alias, query, count, search).value| ==>
      var post := Buscar(file, alias, query, count, search).value[i];
      post.Sent? && post.reply.Forwarded? ==> post.reply.count == 0
  {
    var r := Buscar(file, alias, query, count, search).value;
    var s := Load(file).value;
    if alias in s && s[alias].peerType == ChannelPeerType && count >= 1 {
      assert |Forwards(r)| == 0;
      forall i | 0 <= i < |r| && r[i].Sent? && r[i].reply.Forwarded?
        ensures r[i].reply.count == 0
      {
        assert i == 0 || i == |r| - 1;
      }
    }
  }
}
