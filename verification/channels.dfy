/** The dialog entities `/canales` looks at, and the reference definition of
    which of them survive the filter: broadcast channels and supergroups, in the
    order the client returned them, narrowed by the optional filter. */
module Channels {
  import opened Wrappers
  import opened Text

  /** The fields of a Telegram `Channel` entity the agent reads. */
  datatype Channel = Channel(
    id: int,
    title: string,
    username: Option<string>,
    broadcast: bool,
    megagroup: bool)

  /** The entity behind one dialog: a channel-like chat, or anything else
      (a user, a bot, a basic group). */
  datatype Entity = ChannelEntity(channel: Channel) | OtherEntity

  datatype Kind = Broadcast | Supergroup

  /** At most this many survivors are numbered and remembered. */
  const MaxListed: nat := 40

  /** Only broadcast channels and supergroups are listed. */
  predicate Listable(e: Entity) {
    e.ChannelEntity? && (e.channel.broadcast || e.channel.megagroup)
  }

  /** A channel flagged as both is labelled a broadcast channel. */
  function KindOf(c: Channel): Kind {
    if c.broadcast then Broadcast else Supergroup
  }

  /** `f"{title} {username}".lower()` with a missing username read as "". */
  function Haystack(c: Channel): string {
    LowerAscii(c.title + " " + c.username.GetOr(""))
  }

  /** `(filtro_raw or "").strip().lower()` */
  function NormalizeFilter(raw: Option<string>): string {
    LowerAscii(Strip(raw.GetOr("")))
  }

  /** An empty filter keeps everything; otherwise the haystack must contain it. */
  predicate PassesFilter(c: Channel, filter: string) {
    |filter| == 0 || Contains(Haystack(c), filter)
  }

  predicate Keeps(e: Entity, filter: string) {
    Listable(e) && PassesFilter(e.channel, filter)
  }

  /** Every channel of `ds` that survives the filter, in dialog order. */
  function Survivors(ds: seq<Entity>, filter: string): seq<Channel> {
    if |ds| == 0 then []
    else
      var last := ds[|ds| - 1];
      Survivors(ds[..|ds| - 1], filter) + (if Keeps(last, filter) then [last.channel] else [])
  }

  /** A channel survives exactly when one of its dialogs is listable and
      passes the filter. */
  lemma {:induction false} SurvivorsMembership(ds: seq<Entity>, filter: string, c: Channel)
    ensures c in Survivors(ds, filter) <==> ChannelEntity(c) in ds && Keeps(ChannelEntity(c), filter)
  {
    if |ds| > 0 {
      var front := ds[..|ds| - 1];
      SurvivorsMembership(front, filter, c);
      assert ds == front + [ds[|ds| - 1]];
    }
  }

  /** Survivors keep the relative order of their dialogs: the i-th survivor
      comes from dialog `pos[i]`, and the positions strictly increase. */
  lemma {:induction false} SurvivorsInDialogOrder(ds: seq<Entity>, filter: string) returns (pos: seq<nat>)
    ensures |pos| == |Survivors(ds, filter)|
    ensures forall i :: 0 <= i < |pos| ==> pos[i] < |ds| && ds[pos[i]] == ChannelEntity(Survivors(ds, filter)[i])
    ensures forall i, j :: 0 <= i < j < |pos| ==> pos[i] < pos[j]
  {
    if |ds| == 0 {
      pos := [];
    } else {
      var n := |ds| - 1;
      var front := ds[..n];
      var p := SurvivorsInDialogOrder(front, filter);
      if Keeps(ds[n], filter) {
        pos := p + [n];
      } else {
        pos := p;
      }
    }
  }

  /** With a non-empty filter, every survivor's haystack contains it. */
  lemma SurvivorsMatchFilter(ds: seq<Entity>, filter: string)
    requires |filter| > 0
    ensures forall c :: c in Survivors(ds, filter) ==> Contains(Haystack(c), filter)
  {
    forall c | c in Survivors(ds, filter)
      ensures Contains(Haystack(c), filter)
    {
      SurvivorsMembership(ds, filter, c);
    }
  }
}
