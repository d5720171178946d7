/**
 * The trading desk sees the position table through one value: the side of the newest open
 * row of its account. Syncing the table and syncing that value come to the same.
 */
module DeskPosition {
  import opened Common
  import ExchangeSync
  import Lifecycle
  import SignalDesk

  function TrendOf(side: ExchangeSync.Side): SignalDesk.Trend {
    if side.Long? then SignalDesk.Long else SignalDesk.Short
  }

  /** What the desk is told about the exchange. */
  function Seen(s: ExchangeSync.Snapshot): SignalDesk.Exchange {
    if ExchangeSync.Flat(s) then SignalDesk.Flat
    else SignalDesk.Live(TrendOf(s.value.side), ExchangeSync.Price(s.value).Some?)
  }

  /** The side of the newest open row of the account, if there is one. */
  ghost function SideInTable(t: ExchangeSync.Table, c: ExchangeSync.Config): Option<SignalDesk.Trend> {
    var ids := ExchangeSync.OpenIds(t, c);
    if ids == {} then None else Some(TrendOf(t.rows[ExchangeSync.Newest(ids)].side))
  }

  function SideOnDesk(d: SignalDesk.Desk): Option<SignalDesk.Trend> {
    if d.position.None? then None else Some(d.position.value.side)
  }

  lemma NewestOfOne(id: int)
    ensures ExchangeSync.Newest({id}) == id
  {
    assert ExchangeSync.IsNewest(ExchangeSync.Newest({id}), {id});
  }

  /**
   * The desk's own sync, which never closes rows that the exchange misses, and the sync of
   * other callers, which does, both act on the desk's view as they act on the table.
   */
  lemma TableSyncIsDeskSync(t: ExchangeSync.Table, q: ExchangeSync.Request, d: SignalDesk.Desk, demo: bool,
                            hash: Lifecycle.Hash)
    requires SideOnDesk(d) == SideInTable(t, q.config)
    ensures !q.closeMissing
            ==> SideOnDesk(SignalDesk.Sync(d, Seen(q.snapshot))) == SideInTable(ExchangeSync.Synced(t, q), q.config)
    ensures q.closeMissing
            ==> (SideOnDesk(SignalDesk.Next(d, SignalDesk.SyncElsewhere(Seen(q.snapshot)), demo, hash))
                 == SideInTable(ExchangeSync.Synced(t, q), q.config))
    ensures var side := SideInTable(ExchangeSync.Synced(t, q), q.config);
            ExchangeSync.IsLive(q) && side.Some?
            ==> && (side.value.Long? <==> q.snapshot.value.side.Long?)
                && (side.value.Short? <==> q.snapshot.value.side.Short?)
  {
    ExchangeSync.OpenAfter(t, q);
    var ids, after := ExchangeSync.OpenIds(t, q.config), ExchangeSync.Synced(t, q);
    if !ExchangeSync.Flat(q.snapshot) && ids != {} {
      var top := ExchangeSync.Newest(ids);
      NewestOfOne(top);
      assert after.rows[top].side == q.snapshot.value.side;
    } else if !ExchangeSync.Flat(q.snapshot) && ExchangeSync.Price(q.snapshot.value).Some? {
      NewestOfOne(t.next);
      assert after.rows[t.next].side == q.snapshot.value.side;
    }
  }
}
