/** The pooled accounts as the router sees them: weights, regions and the
    read-only view of snapshots, bridges and configuration. */
module Accounts {
  import opened Common

  const DEFAULT_ACCOUNT_WEIGHT := 1
  const MAX_ACCOUNT_WEIGHT := 100

  datatype Account = Account(id: string, region: string, weight: int)

  function Weight(acc: Account): (w: nat)
    ensures 1 <= w <= MAX_ACCOUNT_WEIGHT
    ensures 1 <= acc.weight <= MAX_ACCOUNT_WEIGHT ==> w == acc.weight
  {
    if acc.weight < 1 then DEFAULT_ACCOUNT_WEIGHT
    else if acc.weight > MAX_ACCOUNT_WEIGHT then MAX_ACCOUNT_WEIGHT
    else acc.weight
  }

  function Weights(cs: seq<Account>): (ws: seq<int>)
    ensures |ws| == |cs| && forall i :: 0 <= i < |cs| ==> ws[i] == Weight(cs[i])
  {
    seq(|cs|, i requires 0 <= i < |cs| => Weight(cs[i]))
  }

  ghost predicate DistinctIds(cs: seq<Account>) {
    forall i, j :: 0 <= i < j < |cs| ==> cs[i].id != cs[j].id
  }

  function Ids(cs: seq<Account>): set<string> {
    set acc | acc in cs :: acc.id
  }

  lemma CandidateIds(cs: seq<Account>)
    ensures forall i :: 0 <= i < |cs| ==> cs[i].id in Ids(cs)
  {
  }

  predicate Uniform(cs: seq<Account>) {
    forall acc :: acc in cs ==> Weight(acc) == Weight(cs[0])
  }

  datatype RegionFilter = RegionDefault | RegionCN | RegionGlobal | RegionAuto

  function FilterName(filter: RegionFilter): string {
    match filter
    case RegionCN => "cn"
    case RegionGlobal => "global"
    case RegionAuto => "auto"
    case RegionDefault => "default"
  }

  function AccountRegion(acc: Account): string {
    if acc.region == "global" then "global" else "cn"
  }

  datatype Snapshot = Snapshot(remaining: real, total: real, isExceeded: bool, cooldownUntil: int)

  /** What the router reads of one account's bridge. */
  datatype BridgeView = BridgeView(inFlight: int, capacity: int, catalog: Option<set<string>>)

  datatype Strategy = Sticky | RoundRobin | LeastInFlight

  datatype Config = Config(enabled: bool, threshold: real, strategy: Strategy, stickyLimit: int, maxRetryAccounts: int)

  /** The dependencies of one routing decision, read at one instant.
      `now` is the clock in nanoseconds. */
  datatype View = View(accounts: seq<Account>, snapshots: map<string, Snapshot>,
                       bridges: map<string, BridgeView>, config: Config, now: int)

  const SECOND := 1_000_000_000

  /** Whole seconds of the view's clock (`now.Unix()`). */
  function UnixSeconds(now: int): int { now / SECOND }

  predicate Cooling(acc: Account, view: View) {
    acc.id in view.snapshots && view.snapshots[acc.id].cooldownUntil > UnixSeconds(view.now)
  }

  predicate Exhausted(acc: Account, view: View) {
    acc.id in view.snapshots && view.snapshots[acc.id].isExceeded
  }

  predicate LowCredit(acc: Account, view: View) {
    && acc.id in view.snapshots
    && view.config.enabled
    && view.snapshots[acc.id].total > 0.0
    && view.snapshots[acc.id].remaining <= view.config.threshold
  }

  predicate Usable(acc: Account, exclude: set<string>, view: View, applyThreshold: bool) {
    if acc.id in exclude then false
    else if acc.id !in view.snapshots then true
    else
      var snap := view.snapshots[acc.id];
      if snap.cooldownUntil > UnixSeconds(view.now) then false
      else if snap.isExceeded then false
      else if applyThreshold && view.config.enabled && snap.total > 0.0 &&
          snap.remaining <= view.config.threshold then false
      else true
  }

  predicate InRegionBase(acc: Account, accounts: seq<Account>, filter: RegionFilter) {
    && acc in accounts
    && match filter
       case RegionCN => AccountRegion(acc) == "cn"
       case RegionGlobal => AccountRegion(acc) == "global"
       case RegionAuto => true
       case RegionDefault =>
         AccountRegion(acc) == "cn" || forall other :: other in accounts ==> AccountRegion(other) != "cn"
  }

  predicate NotSaturated(acc: Account, view: View) {
    acc.id !in view.bridges || view.bridges[acc.id].capacity <= 0 ||
    view.bridges[acc.id].inFlight < view.bridges[acc.id].capacity
  }

  /** Known not to serve the model: its catalog has been fetched and lacks it. */
  predicate KnownUnsupported(acc: Account, view: View, model: string) {
    && model != ""
    && acc.id in view.bridges
    && view.bridges[acc.id].catalog.Some?
    && model !in view.bridges[acc.id].catalog.value
  }

  function InFlight(acc: Account, view: View): int {
    if acc.id in view.bridges then view.bridges[acc.id].inFlight else 0
  }
}
