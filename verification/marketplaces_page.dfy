/**
 * The marketplaces page: connecting and disconnecting a marketplace and
 * refreshing its item count. The clock reading and the simulated change in
 * the item count are inputs.
 */
module MarketplacesPage {
  import opened Wrappers
  import opened Seqs

  datatype Status = Active | Inactive | Failing

  datatype Marketplace = Marketplace(
    id: string,
    name: string,
    status: Status,
    isConnected: bool,
    lastUpdated: Option<int>,
    itemCount: Option<int>)

  /** The status shown agrees with the connection: active iff connected. */
  predicate StatusAgrees(m: Marketplace) {
    m.status == (if m.isConnected then Active else Inactive)
  }

  function Toggled(m: Marketplace, now: int): (r: Marketplace)
    ensures r.isConnected == !m.isConnected
    ensures StatusAgrees(r)
    ensures r.lastUpdated == if r.isConnected then Some(now) else m.lastUpdated
    ensures r.(isConnected := m.isConnected, status := m.status, lastUpdated := m.lastUpdated) == m
  {
    var connected := !m.isConnected;
    m.(isConnected := connected, status := if connected then Active else Inactive,
       lastUpdated := if connected then Some(now) else m.lastUpdated)
  }

  /**
   * `toggleConnection`: the marketplaces with that id change connection; their
   * status follows it, so a failing status never survives a toggle, and the
   * update time is set on connecting and kept on disconnecting.
   */
  function ToggleConnection(ms: seq<Marketplace>, id: string, now: int): (r: seq<Marketplace>)
    ensures |r| == |ms|
    ensures forall k :: 0 <= k < |ms| && ms[k].id == id ==> r[k] == Toggled(ms[k], now) && r[k].status != Failing
    ensures forall k :: 0 <= k < |ms| && ms[k].id != id ==> r[k] == ms[k]
  {
    Map(ms, (m: Marketplace) => if m.id == id then Toggled(m, now) else m)
  }

  /** Toggling keeps every status in agreement with its connection once they all agree. */
  lemma ToggleKeepsAgreement(ms: seq<Marketplace>, id: string, now: int)
    requires forall k :: 0 <= k < |ms| ==> StatusAgrees(ms[k])
    ensures forall k :: 0 <= k < |ToggleConnection(ms, id, now)| ==> StatusAgrees(ToggleConnection(ms, id, now)[k])
  {
  }

  /** Disconnecting and connecting again restores the connection and stamps the second time. */
  lemma ToggleTwice(ms: seq<Marketplace>, id: string, t1: int, t2: int)
    ensures forall k :: 0 <= k < |ms| ==> ToggleConnection(ToggleConnection(ms, id, t1), id, t2)[k].isConnected == ms[k].isConnected
    ensures forall k :: 0 <= k < |ms| && ms[k].id == id && !ms[k].isConnected ==>
      ToggleConnection(ToggleConnection(ms, id, t1), id, t2)[k].lastUpdated == Some(t1)
  {
  }

  /**
   * `refreshMarketplace` once its delay is over: the item count moves by
   * `change` (a missing count counts as 0) and never drops below 0; the
   * update time becomes `now`.
   */
  function Refresh(ms: seq<Marketplace>, id: string, change: int, now: int): (r: seq<Marketplace>)
    ensures |r| == |ms|
    ensures forall k :: 0 <= k < |ms| && ms[k].id == id ==>
      r[k].itemCount.Some? && r[k].itemCount.value >= 0 && r[k].lastUpdated == Some(now)
    ensures forall k :: 0 <= k < |ms| && ms[k].id == id ==>
      (ms[k].itemCount.GetOr(0) + change >= 0 ==> r[k].itemCount == Some(ms[k].itemCount.GetOr(0) + change))
    ensures forall k :: 0 <= k < |ms| && ms[k].id == id ==>
      (ms[k].itemCount.GetOr(0) + change < 0 ==> r[k].itemCount == Some(0))
    ensures forall k :: 0 <= k < |ms| && ms[k].id == id ==>
      r[k].(itemCount := ms[k].itemCount, lastUpdated := ms[k].lastUpdated) == ms[k]
    ensures forall k :: 0 <= k < |ms| && ms[k].id != id ==> r[k] == ms[k]
  {
    Map(ms, (m: Marketplace) =>
      if m.id == id then
        var count := m.itemCount.GetOr(0) + change;
        m.(lastUpdated := Some(now), itemCount := Some(if count > 0 then count else 0))
      else m)
  }

  /** The refresh button is shown only for a connected marketplace. */
  predicate RefreshOffered(m: Marketplace) {
    m.isConnected
  }

  /** A refresh never changes which marketplaces are connected, so it never adds or removes a refresh button. */
  lemma RefreshKeepsOffers(ms: seq<Marketplace>, id: string, change: int, now: int)
    ensures forall k :: 0 <= k < |ms| ==> (RefreshOffered(Refresh(ms, id, change, now)[k]) <==> RefreshOffered(ms[k]))
  {
  }
}
