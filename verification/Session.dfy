/** The session core as a state machine (`core.rs`): what one input does to the state and which
    effects it emits. The class in `SessionCore.dfy` is proved to do exactly this. */
module Session {
  import opened Common
  import opened Wire

  type Requests = map<Id, Request>

  /** The eight maps a host mirrors. */
  datatype View = View(
    login: Requests,
    sign: Requests,
    signMessage: Requests,
    receiveAddress: Requests,
    assetBalance: Requests,
    pay: Requests,
    fund: Requests,
    holdings: map<string, Report>)

  const EMPTY_VIEW: View := View(map[], map[], map[], map[], map[], map[], map[], map[])

  function Get(v: View, k: Kind): Requests {
    match k
    case LoginKind => v.login
    case SignKind => v.sign
    case SignMessageKind => v.signMessage
    case ReceiveAddressKind => v.receiveAddress
    case AssetBalanceKind => v.assetBalance
    case PayKind => v.pay
    case FundKind => v.fund
  }

  function Put(v: View, k: Kind, m: Requests): View {
    match k
    case LoginKind => v.(login := m)
    case SignKind => v.(sign := m)
    case SignMessageKind => v.(signMessage := m)
    case ReceiveAddressKind => v.(receiveAddress := m)
    case AssetBalanceKind => v.(assetBalance := m)
    case PayKind => v.(pay := m)
    case FundKind => v.(fund := m)
  }

  datatype State = State(
    connected: bool,
    loginSucceed: bool,
    view: View,
    userActions: map<ReqId, UserAction>,
    nextActionId: ReqId,
    mobileRequests: set<Id>,
    fcmToken: Option<string>)

  const INITIAL: State := State(false, false, EMPTY_VIEW, map[], 1, {}, None)

  predicate LoggedIn(s: State) { s.connected && s.loginSucceed }

  // ----- Snapshot synchronisation -----

  function IdSet(list: seq<Request>): set<Id> { set r | r in list :: r.id }

  function Keep<V>(m: map<string, V>, ids: set<string>): map<string, V> {
    map id | id in m && id in ids :: m[id]
  }

  /** Insert the requests whose id is not there yet, front to back. */
  function Insert(m: Requests, list: seq<Request>): Requests {
    if list == [] then m
    else
      var m' := Insert(m, list[..|list| - 1]);
      var r := list[|list| - 1];
      if r.id in m' then m' else m'[r.id := r]
  }

  /** The requests `Insert` puts in, in order. */
  function Inserted(m: Requests, list: seq<Request>): seq<Request> {
    if list == [] then []
    else
      var r := list[|list| - 1];
      Inserted(m, list[..|list| - 1]) + if r.id in Insert(m, list[..|list| - 1]) then [] else [r]
  }

  function Removes(k: Kind, ids: seq<Id>): (s: seq<Effect>)
    ensures |s| == |ids|
  {
    seq(|ids|, i requires 0 <= i < |ids| => RemoveRequest(k, ids[i]))
  }

  function Adds(list: seq<Request>): (s: seq<Effect>)
    ensures |s| == |list|
  {
    seq(|list|, i requires 0 <= i < |list| => AddRequest(list[i]))
  }

  function SyncMap(m: Requests, list: seq<Request>): Requests { Insert(Keep(m, IdSet(list)), list) }

  ghost function SyncEffects(k: Kind, m: Requests, list: seq<Request>): seq<Effect> {
    Removes(k, Ascending(m.Keys - IdSet(list))) + Adds(Inserted(Keep(m, IdSet(list)), list))
  }

  function Domains(reports: seq<Report>): set<string> { set r | r in reports :: r.domain }

  /** Store every non-empty report, front to back. */
  function SetReports(m: map<string, Report>, reports: seq<Report>): map<string, Report> {
    if reports == [] then m
    else
      var r := reports[|reports| - 1];
      var m' := SetReports(m, reports[..|reports| - 1]);
      if r.holdings == [] then m' else m'[r.domain := r]
  }

  function SetEffects(reports: seq<Report>): seq<Effect> {
    if reports == [] then []
    else
      var r := reports[|reports| - 1];
      SetEffects(reports[..|reports| - 1]) + if r.holdings == [] then [] else [SetHoldings(r)]
  }

  function Clears(domains: seq<string>): (s: seq<Effect>)
    ensures |s| == |domains|
  {
    seq(|domains|, i requires 0 <= i < |domains| => ClearHoldings(domains[i]))
  }

  function SyncHoldingsMap(m: map<string, Report>, reports: seq<Report>): map<string, Report> {
    SetReports(Keep(m, Domains(reports)), reports)
  }

  ghost function SyncHoldingsEffects(m: map<string, Report>, reports: seq<Report>): seq<Effect> {
    Clears(Ascending(m.Keys - Domains(reports))) + SetEffects(reports)
  }

  /** The six request lists of a login response, synchronised in this order. */
  function SyncLists(v: View, p: Snapshot): View {
    v.(sign := SyncMap(v.sign, p.sign), signMessage := SyncMap(v.signMessage, p.signMessage),
       pay := SyncMap(v.pay, p.pay), fund := SyncMap(v.fund, p.fund),
       receiveAddress := SyncMap(v.receiveAddress, p.receiveAddress),
       assetBalance := SyncMap(v.assetBalance, p.assetBalance))
  }

  ghost function SyncListsEffects(v: View, p: Snapshot): seq<Effect> {
    SyncEffects(SignKind, v.sign, p.sign) + SyncEffects(SignMessageKind, v.signMessage, p.signMessage)
    + SyncEffects(PayKind, v.pay, p.pay) + SyncEffects(FundKind, v.fund, p.fund)
    + SyncEffects(ReceiveAddressKind, v.receiveAddress, p.receiveAddress)
    + SyncEffects(AssetBalanceKind, v.assetBalance, p.assetBalance)
  }

  function SyncView(v: View, p: Snapshot): View {
    SyncLists(v, p).(holdings := SyncHoldingsMap(v.holdings, p.holdings))
  }

  ghost function SyncViewEffects(v: View, p: Snapshot): seq<Effect> {
    SyncListsEffects(v, p) + SyncHoldingsEffects(v.holdings, p.holdings)
  }

  // ----- Steps -----

  function ActionFrame(id: ReqId, a: UserAction): Frame { Frame(id, Act(a)) }

  /** Every pending action re-sent under its own id, in id order. */
  function Replay(actions: map<ReqId, UserAction>, ids: seq<ReqId>): (s: seq<Effect>)
    requires forall id :: id in ids ==> id in actions
    ensures |s| == |ids|
  {
    seq(|ids|, i requires 0 <= i < |ids| => assert ids[i] in ids; Send(ActionFrame(ids[i], actions[ids[i]])))
  }

  function ReplayAll(actions: map<ReqId, UserAction>): seq<Effect> {
    AscendingIntsHas(actions.Keys);
    Replay(actions, AscendingInts(actions.Keys))
  }

  function PushEffects(s: State): seq<Effect> {
    if s.fcmToken.Some? && LoggedIn(s) then [Send(Frame(0, RegisterFcm(s.fcmToken.value)))] else []
  }

  ghost function OnResponse(c: Config, s: State, id: ReqId, resp: Resp): (State, seq<Effect>) {
    match resp
    case ChallengeResp(challenge) => (s, [Send(Frame(0, Login(c.publicKey, c.signChallenge(challenge), c.installId)))])
    case LoginResp(p) =>
      var s' := s.(loginSucceed := true, view := SyncView(s.view, p));
      (s', ReplayAll(s.userActions) + SyncViewEffects(s.view, p) + [SessionList(p.sessions)] + PushEffects(s'))
    case UserActionResp => (s.(userActions := s.userActions - {id}), [])
    case RegisterFcmResp => (s, [])
  }

  function OnNotification(s: State, n: Notif): (State, seq<Effect>) {
    var v := s.view;
    match n
    case NotifySessionCreated(session) => (s, [SessionCreated(session)])
    case NotifySessionRemoved(id) => (s, [SessionRemoved(id)])
    case RequestCreated(r) =>
      (s.(view := Put(v, r.Kind(), Get(v, r.Kind())[r.id := r])), [AddRequest(r)])
    case RequestRemoved(k, id) =>
      (s.(view := Put(v, k, Get(v, k) - {id})), [RemoveRequest(k, id)])
    case HoldingsUpdated(r) =>
      if r.holdings == [] then (s.(view := v.(holdings := v.holdings - {r.domain})), [ClearHoldings(r.domain)])
      else (s.(view := v.(holdings := v.holdings[r.domain := r])), [SetHoldings(r)])
    case HoldingsRemoved(d) =>
      (s.(view := v.(holdings := v.holdings - {d})), if d in v.holdings then [ClearHoldings(d)] else [])
  }

  ghost function OnMessage(c: Config, s: State, msg: From): (State, seq<Effect>) {
    match msg
    case RespFrom(id, resp) => OnResponse(c, s, id, resp)
    case ErrorFrom(id, message) =>
      if id in s.userActions
      then (s.(userActions := s.userActions - {id}), [ActionFailed(s.userActions[id], message)])
      else (s, [])
    case NotifFrom(n) => OnNotification(s, n)
  }

  function WantsBinding(s: State, id: Id): bool {
    id in s.view.login && s.view.login[id].LoginRequest? && s.view.login[id].serviceChallenge.Some?
  }

  function SignedDigest(c: Config, s: State, id: Id): Option<string> {
    if id in s.view.signMessage && s.view.signMessage[id].SignMessageRequest?
       && DecodeDigest(s.view.signMessage[id].digest).Some?
    then Some(c.signDigest(DecodeDigest(s.view.signMessage[id].digest).value))
    else None
  }

  /** The action an input queues, if it queues one. */
  function Queued(c: Config, s: State, input: Input): Option<UserAction> {
    match input
    case Connected | Recv(_) | Disconnected | RegisterFcmToken(_) => None
    case AppLink(linkType, id, _) => if linkType == LinkLoginType then Some(LinkLogin(id)) else None
    case LoginAccepted(id, binding) =>
      if WantsBinding(s, id) && binding.None? then None
      else Some(AcceptLogin(id, c.descriptor,
                            if binding.Some? then Some(binding.value.key) else None,
                            if binding.Some? then Some(binding.value.signature) else None))
    case SignAccepted(id, pset) => Some(AcceptSign(id, pset))
    case SignMessageAccepted(id) =>
      if SignedDigest(c, s, id).Some? then Some(AcceptSignMessage(id, SignedDigest(c, s, id).value)) else None
    case SignMessageSigned(id, signature) =>
        if id in s.view.signMessage then Some(AcceptSignMessage(id, signature)) else None
    case ReceiveAddressProvided(id, address) =>
        if id in s.view.receiveAddress then Some(AcceptReceiveAddress(id, address)) else None
    case AssetBalanceProvided(id, amount) =>
        if id in s.view.assetBalance then Some(AcceptAssetBalance(id, amount)) else None
    case PayBuilt(id, txid) => if id in s.view.pay then Some(AcceptPay(id, txid)) else None
    case FundSigned(id, pset) => if id in s.view.fund then Some(AcceptFund(id, pset)) else None
    case Rejected(k, id) => Some(Cancel(k, id))
    case StopSessionInput(id) => Some(StopSession(id))
  }

  function Enqueue(s: State, a: UserAction): (State, seq<Effect>) {
    var n := s.nextActionId;
    (s.(nextActionId := n + 1, userActions := s.userActions[n := a]), if s.connected then [Send(ActionFrame(n, a))]
        else [])
  }

  function EnqueueIf(s: State, a: Option<UserAction>): (State, seq<Effect>) {
    if a.Some? then Enqueue(s, a.value) else (s, [])
  }

  function Finish(s: State, id: Id): (State, seq<Effect>) {
    (s.(mobileRequests := s.mobileRequests - {id}), if id in s.mobileRequests then [MinimizeMobileApp] else [])
  }

  /** Queue the input's action, then hand a mobile user back to the browser. */
  function Answer(c: Config, s: State, input: Input, id: Id): (State, seq<Effect>) {
    var (s1, fx1) := EnqueueIf(s, Queued(c, s, input));
    var (s2, fx2) := Finish(s1, id);
    (s2, fx1 + fx2)
  }

  /** One call of `handle`. */
  ghost function Step(c: Config, s: State, input: Input): (State, seq<Effect>) {
    match input
    case Connected => (s.(connected := true), [Send(Frame(0, Challenge))])
    case Recv(msg) => if msg.Some? then OnMessage(c, s, msg.value) else (s, [])
    case Disconnected => (s.(connected := false, loginSucceed := false), [])
    case AppLink(_, id, isMobile) =>
      EnqueueIf(if isMobile then s.(mobileRequests := s.mobileRequests + {id}) else s, Queued(c, s, input))
    case LoginAccepted(id, binding) =>
      if WantsBinding(s, id) && binding.None?
      then (s, [ActionFailed(Cancel(LoginKind, id), "this login needs a service key and none was supplied")])
      else Answer(c, s, input, id)
    case RegisterFcmToken(token) =>
      var s' := s.(fcmToken := Some(token));
      (s', PushEffects(s'))
    case StopSessionInput(_) => EnqueueIf(s, Queued(c, s, input))
    case SignAccepted(id, _) => Answer(c, s, input, id)
    case SignMessageAccepted(id) => Answer(c, s, input, id)
    case SignMessageSigned(id, _) => Answer(c, s, input, id)
    case ReceiveAddressProvided(id, _) => Answer(c, s, input, id)
    case AssetBalanceProvided(id, _) => Answer(c, s, input, id)
    case PayBuilt(id, _) => Answer(c, s, input, id)
    case FundSigned(id, _) => Answer(c, s, input, id)
    case Rejected(_, id) => Answer(c, s, input, id)
  }

  /** A whole run from the start: the final state and everything emitted. */
  ghost function Run(c: Config, inputs: seq<Input>): (State, seq<Effect>) {
    if inputs == [] then (INITIAL, [])
    else
      var (s, fx) := Run(c, inputs[..|inputs| - 1]);
      var (s', fx') := Step(c, s, inputs[|inputs| - 1]);
      (s', fx + fx')
  }

  /** The state before the `i`-th input. */
  ghost function StateAt(c: Config, inputs: seq<Input>, i: nat): State
    requires i <= |inputs|
  {
    Run(c, inputs[..i]).0
  }

  // ----- The host's side -----

  /** How a host folds one effect into its own view. */
  function Apply(v: View, e: Effect): View {
    match e
    case AddRequest(r) => Put(v, r.Kind(), Get(v, r.Kind())[r.id := r])
    case RemoveRequest(k, id) => Put(v, k, Get(v, k) - {id})
    case SetHoldings(r) => v.(holdings := v.holdings[r.domain := r])
    case ClearHoldings(d) => v.(holdings := v.holdings - {d})
    case _ => v
  }

  function Mirror(v: View, effects: seq<Effect>): View {
    if effects == [] then v else Apply(Mirror(v, effects[..|effects| - 1]), effects[|effects| - 1])
  }
}
