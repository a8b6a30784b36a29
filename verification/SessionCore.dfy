/** The session core in its own form (`core.rs`): an object whose methods update its maps, its
    pending queue and its flags, each proved to do what `Session` specifies. */
module SessionCore {
  import opened Common
  import opened Wire
  import opened Session

  /** First loop of a `sync_*_requests` routine: drop what the list no longer names, in id order. */
  method RemoveVanished(k: Kind, m: Requests, ids: set<Id>) returns (m': Requests, effects: seq<Effect>)
    ensures m' == Keep(m, ids) && effects == Removes(k, Ascending(m.Keys - ids))
  {
    hide IsLeastString, StringLeq;
    m' := m;
    effects := [];
    var gone := m.Keys - ids;
    ghost var removed: seq<Id> := [];
    while gone != {}
      invariant gone <= m.Keys - ids
      invariant removed + Ascending(gone) == Ascending(m.Keys - ids)
      invariant effects == Removes(k, removed)
      invariant m' == Keep(m, ids + gone)
    {
      LeastStringExists(gone);
      var id: string :| id in gone && IsLeastString(id, gone);
      AscendingStep(gone, id);
      m' := m' - {id};
      effects := effects + [RemoveRequest(k, id)];
      removed := removed + [id];
      gone := gone - {id};
    }
    assert ids + {} == ids;
    assert removed == Ascending(m.Keys - ids);
  }

  lemma AddsStep(list: seq<Request>, r: Request)
    ensures Adds(list + [r]) == Adds(list) + [AddRequest(r)]
  {
  }

  /** Second loop of a `sync_*_requests` routine: take what is new, in list order. */
  method InsertNew(m: Requests, list: seq<Request>) returns (m': Requests, effects: seq<Effect>)
    ensures m' == Insert(m, list) && effects == Adds(Inserted(m, list))
  {
    hide Adds;
    m' := m;
    effects := [];
    assert Adds([]) == [];
    for i := 0 to |list|
      invariant m' == Insert(m, list[..i])
      invariant effects == Adds(Inserted(m, list[..i]))
    {
      var r := list[i];
      assert list[..i + 1][..i] == list[..i];
      if r.id !in m' {
        m' := m'[r.id := r];
        effects := effects + [AddRequest(r)];
        AddsStep(Inserted(m, list[..i]), r);
      } else {
        assert Inserted(m, list[..i]) + [] == Inserted(m, list[..i]);
      }
    }
    assert list[..|list|] == list;
  }

  /** One of the six `sync_*_requests` routines, which differ only in the request type. */
  method SyncRequests(k: Kind, m: Requests, list: seq<Request>) returns (m': Requests, effects: seq<Effect>)
    ensures m' == SyncMap(m, list) && effects == SyncEffects(k, m, list)
  {
    hide Keep, Insert, Inserted, Removes, Adds, Ascending, IdSet;
    var kept, removes := RemoveVanished(k, m, IdSet(list));
    var adds;
    m', adds := InsertNew(kept, list);
    effects := removes + adds;
  }

  lemma AscendingStep(s: set<string>, x: string)
    requires IsLeastString(x, s)
    ensures Ascending(s) == [x] + Ascending(s - {x})
  {
    LeastStringUnique(s, x, FirstString(s));
  }

  lemma LeastStringUnique(s: set<string>, x: string, y: string)
    requires IsLeastString(x, s) && IsLeastString(y, s)
    ensures x == y
  {
    StringLeqTotal(x, y);
  }

  method ClearVanished(m: map<string, Report>, domains: set<string>)
      returns (m': map<string, Report>, effects: seq<Effect>)
    ensures m' == Keep(m, domains) && effects == Clears(Ascending(m.Keys - domains))
  {
    hide IsLeastString, StringLeq;
    m' := m;
    effects := [];
    var gone := m.Keys - domains;
    ghost var removed: seq<string> := [];
    while gone != {}
      invariant gone <= m.Keys - domains
      invariant removed + Ascending(gone) == Ascending(m.Keys - domains)
      invariant effects == Clears(removed)
      invariant m' == Keep(m, domains + gone)
    {
      LeastStringExists(gone);
      var d: string :| d in gone && IsLeastString(d, gone);
      AscendingStep(gone, d);
      m' := m' - {d};
      effects := effects + [ClearHoldings(d)];
      removed := removed + [d];
      gone := gone - {d};
    }
    assert domains + {} == domains;
    assert removed == Ascending(m.Keys - domains);
  }

  method StoreReports(m: map<string, Report>, reports: seq<Report>)
      returns (m': map<string, Report>, effects: seq<Effect>)
    ensures m' == SetReports(m, reports) && effects == SetEffects(reports)
  {
    m' := m;
    effects := [];
    for i := 0 to |reports|
      invariant m' == SetReports(m, reports[..i])
      invariant effects == SetEffects(reports[..i])
    {
      var r := reports[i];
      assert reports[..i + 1][..i] == reports[..i];
      if r.holdings == [] {
        assert SetEffects(reports[..i]) + [] == SetEffects(reports[..i]);
        continue;
      }
      m' := m'[r.domain := r];
      effects := effects + [SetHoldings(r)];
    }
    assert reports[..|reports|] == reports;
  }

  /** `sync_holdings`. */
  method SyncHoldings(m: map<string, Report>, reports: seq<Report>)
      returns (m': map<string, Report>, effects: seq<Effect>)
    ensures m' == SyncHoldingsMap(m, reports) && effects == SyncHoldingsEffects(m, reports)
  {
    hide Keep, SetReports, SetEffects, Clears, Ascending, Domains;
    var kept, clears := ClearVanished(m, Domains(reports));
    var sets;
    m', sets := StoreReports(kept, reports);
    effects := clears + sets;
  }

  method ReplayActions(actions: map<ReqId, UserAction>) returns (effects: seq<Effect>)
    ensures effects == ReplayAll(actions)
  {
    AscendingIntsHas(actions.Keys);
    effects := [];
    var ids := AscendingInts(actions.Keys);
    for i := 0 to |ids|
      invariant |effects| == i
      invariant forall j :: 0 <= j < i ==> effects[j] == Replay(actions, ids)[j]
    {
      assert ids[i] in ids;
      effects := effects + [Send(ActionFrame(ids[i], actions[ids[i]]))];
    }
  }

  class WalletConnectCore {
    const config: Config
    var connected: bool
    var loginSucceed: bool
    var loginRequests: Requests
    var signRequests: Requests
    var signMessageRequests: Requests
    var receiveAddressRequests: Requests
    var assetBalanceRequests: Requests
    var holdings: map<string, Report>
    var payRequests: Requests
    var fundRequests: Requests
    var userActions: map<ReqId, UserAction>
    var nextActionId: ReqId
    var mobileRequests: set<Id>
    var fcmToken: Option<string>

    ghost function Abs(): State
      reads this
    {
      State(connected, loginSucceed,
            View(loginRequests, signRequests, signMessageRequests, receiveAddressRequests, assetBalanceRequests,
                 payRequests, fundRequests, holdings),
            userActions, nextActionId, mobileRequests, fcmToken)
    }

    constructor (config: Config)
      ensures Abs() == INITIAL && this.config == config
    {
      this.config := config;
      connected, loginSucceed := false, false;
      loginRequests, signRequests, signMessageRequests, receiveAddressRequests := map[], map[], map[], map[];
      assetBalanceRequests, payRequests, fundRequests, holdings := map[], map[], map[], map[];
      userActions, nextActionId, mobileRequests, fcmToken := map[], 1, {}, None;
    }

    function IsLoggedIn(): bool
      reads this
    {
      connected && loginSucceed
    }

    /** `add_user_action`. */
    method AddUserAction(action: UserAction) returns (effects: seq<Effect>)
      modifies this
      ensures (Abs(), effects) == Enqueue(old(Abs()), action)
    {
      var id := nextActionId;
      nextActionId := nextActionId + 1;
      userActions := userActions[id := action];
      effects := [];
      if connected {
        effects := [Send(ActionFrame(id, action))];
      }
    }

    /** `finish_request`. */
    method FinishRequest(id: Id) returns (effects: seq<Effect>)
      modifies this
      ensures (Abs(), effects) == Finish(old(Abs()), id)
    {
      effects := [];
      if id in mobileRequests {
        effects := [MinimizeMobileApp];
      }
      mobileRequests := mobileRequests - {id};
    }

    /** `send_fcm_token`. */
    method SendFcmToken() returns (effects: seq<Effect>)
      ensures effects == PushEffects(Abs())
    {
      effects := [];
      if fcmToken.Some? {
        if connected && loginSucceed {
          effects := [Send(Frame(0, RegisterFcm(fcmToken.value)))];
        }
      }
    }

    /** The login branch of `handle_response`: replay, then synchronise each list in turn. */
    method HandleLogin(p: LoginSnapshot, ghost id: ReqId) returns (effects: seq<Effect>)
      modifies this
      ensures (Abs(), effects) == OnResponse(config, old(Abs()), id, LoginResp(p))
    {
      hide SyncMap, SyncEffects, SyncHoldingsMap, SyncHoldingsEffects, ReplayAll;
      loginSucceed := true;
      effects := ReplayActions(userActions);
      var fx := SyncAll(p);
      effects := effects + fx;
      effects := effects + [SessionList(p.sessions)];
      fx := SendFcmToken();
      effects := effects + fx;
    }

    /** The first three `sync_*` calls of a login response, in the source's order. */
    method SyncFirst(p: LoginSnapshot) returns (effects: seq<Effect>)
      modifies `signRequests, `signMessageRequests, `payRequests
      ensures signRequests == SyncMap(old(signRequests), p.sign)
      ensures signMessageRequests == SyncMap(old(signMessageRequests), p.signMessage)
      ensures payRequests == SyncMap(old(payRequests), p.pay)
      ensures effects == SyncEffects(SignKind, old(signRequests), p.sign)
                         + SyncEffects(SignMessageKind, old(signMessageRequests), p.signMessage)
                         + SyncEffects(PayKind, old(payRequests), p.pay)
    {
      hide SyncMap, SyncEffects;
      var fx;
      signRequests, effects := SyncRequests(SignKind, signRequests, p.sign);
      signMessageRequests, fx := SyncRequests(SignMessageKind, signMessageRequests, p.signMessage);
      effects := effects + fx;
      payRequests, fx := SyncRequests(PayKind, payRequests, p.pay);
      effects := effects + fx;
    }

    /** The next three. */
    method SyncSecond(p: LoginSnapshot, fx0: seq<Effect>) returns (effects: seq<Effect>)
      modifies `fundRequests, `receiveAddressRequests, `assetBalanceRequests
      ensures fundRequests == SyncMap(old(fundRequests), p.fund)
      ensures receiveAddressRequests == SyncMap(old(receiveAddressRequests), p.receiveAddress)
      ensures assetBalanceRequests == SyncMap(old(assetBalanceRequests), p.assetBalance)
      ensures effects == fx0 + SyncEffects(FundKind, old(fundRequests), p.fund)
                         + SyncEffects(ReceiveAddressKind, old(receiveAddressRequests), p.receiveAddress)
                         + SyncEffects(AssetBalanceKind, old(assetBalanceRequests), p.assetBalance)
    {
      hide SyncMap, SyncEffects;
      var fx;
      fundRequests, fx := SyncRequests(FundKind, fundRequests, p.fund);
      effects := fx0 + fx;
      receiveAddressRequests, fx := SyncRequests(ReceiveAddressKind, receiveAddressRequests, p.receiveAddress);
      effects := effects + fx;
      assetBalanceRequests, fx := SyncRequests(AssetBalanceKind, assetBalanceRequests, p.assetBalance);
      effects := effects + fx;
    }

    /** All the `sync_*` calls of a login response. */
    method SyncAll(p: LoginSnapshot) returns (effects: seq<Effect>)
      modifies this
      ensures Abs() == old(Abs()).(view := SyncView(old(Abs()).view, p))
      ensures effects == SyncViewEffects(old(Abs()).view, p)
    {
      hide SyncMap, SyncEffects, SyncHoldingsMap, SyncHoldingsEffects;
      effects := SyncFirst(p);
      effects := SyncSecond(p, effects);
      var fx;
      holdings, fx := SyncHoldings(holdings, p.holdings);
      effects := effects + fx;
    }

    /** `handle_response`. */
    method HandleResponse(id: ReqId, resp: Resp) returns (effects: seq<Effect>)
      modifies this
      ensures (Abs(), effects) == OnResponse(config, old(Abs()), id, resp)
    {
      hide SyncView, SyncViewEffects, ReplayAll;
      effects := [];
      match resp {
        case ChallengeResp(challenge) =>
          effects := [Send(Frame(0, Login(config.publicKey, config.signChallenge(challenge), config.installId)))];
        case LoginResp(p) =>
          effects := HandleLogin(p, id);
        case UserActionResp =>
          userActions := userActions - {id};
        case RegisterFcmResp =>
      }
    }

    /** `handle_notification`. */
    method HandleNotification(n: Notif) returns (effects: seq<Effect>)
      modifies this
      ensures (Abs(), effects) == OnNotification(old(Abs()), n)
    {
      match n {
        case NotifySessionCreated(session) =>
          effects := [SessionCreated(session)];
        case NotifySessionRemoved(id) =>
          effects := [SessionRemoved(id)];
        case RequestCreated(r) =>
          match r.Kind() {
            case LoginKind => loginRequests := loginRequests[r.id := r];
            case SignKind => signRequests := signRequests[r.id := r];
            case SignMessageKind => signMessageRequests := signMessageRequests[r.id := r];
            case ReceiveAddressKind => receiveAddressRequests := receiveAddressRequests[r.id := r];
            case AssetBalanceKind => assetBalanceRequests := assetBalanceRequests[r.id := r];
            case PayKind => payRequests := payRequests[r.id := r];
            case FundKind => fundRequests := fundRequests[r.id := r];
          }
          effects := [AddRequest(r)];
        case RequestRemoved(k, id) =>
          match k {
            case LoginKind => loginRequests := loginRequests - {id};
            case SignKind => signRequests := signRequests - {id};
            case SignMessageKind => signMessageRequests := signMessageRequests - {id};
            case ReceiveAddressKind => receiveAddressRequests := receiveAddressRequests - {id};
            case AssetBalanceKind => assetBalanceRequests := assetBalanceRequests - {id};
            case PayKind => payRequests := payRequests - {id};
            case FundKind => fundRequests := fundRequests - {id};
          }
          effects := [RemoveRequest(k, id)];
        case HoldingsUpdated(r) =>
          if r.holdings == [] {
            holdings := holdings - {r.domain};
            effects := [ClearHoldings(r.domain)];
          } else {
            holdings := holdings[r.domain := r];
            effects := [SetHoldings(r)];
          }
        case HoldingsRemoved(d) =>
          effects := [];
          if d in holdings {
            effects := [ClearHoldings(d)];
          }
          holdings := holdings - {d};
      }
    }

    /** `handle_server_message`. */
    method HandleServerMessage(msg: From) returns (effects: seq<Effect>)
      modifies this
      ensures (Abs(), effects) == OnMessage(config, old(Abs()), msg)
    {
      hide OnResponse, OnNotification;
      match msg {
        case RespFrom(id, resp) =>
          effects := HandleResponse(id, resp);
        case ErrorFrom(id, message) =>
          effects := [];
          if id in userActions {
            effects := [ActionFailed(userActions[id], message)];
            userActions := userActions - {id};
          }
        case NotifFrom(n) =>
          effects := HandleNotification(n);
      }
    }

    /** The common tail of an answer: queue the action if there is one, then finish the request. */
    method Reply(ghost input: Input, action: Option<UserAction>, id: Id) returns (effects: seq<Effect>)
      requires action == Queued(config, Abs(), input)
      modifies this
      ensures (Abs(), effects) == Answer(config, old(Abs()), input, id)
    {
      hide Queued;
      effects := [];
      if action.Some? {
        effects := AddUserAction(action.value);
      }
      var fx := FinishRequest(id);
      effects := effects + fx;
    }

    /** `sign_message_digest`: a signature over the stored digest, or nothing. */
    method SignMessageDigest(id: Id) returns (signature: Option<string>)
      ensures signature == SignedDigest(config, Abs(), id)
    {
      if id !in signMessageRequests || !signMessageRequests[id].SignMessageRequest? {
        return None;
      }
      var digest := DecodeDigest(signMessageRequests[id].digest);
      signature := if digest.None? then None else Some(config.signDigest(digest.value));
    }

    /** The approvals and refusals of `handle`. */
    method HandleAnswer(input: Input) returns (effects: seq<Effect>)
      requires input.LoginAccepted? || input.SignAccepted? || input.SignMessageAccepted? || input.SignMessageSigned?
               || input.ReceiveAddressProvided? || input.AssetBalanceProvided? || input.PayBuilt? || input.FundSigned?
               || input.Rejected?
      modifies this
      ensures (Abs(), effects) == Step(config, old(Abs()), input)
    {
      hide Answer, OnMessage, SignedDigest;
      match input {
        case LoginAccepted(id, binding) =>
          var wanted := id in loginRequests && loginRequests[id].LoginRequest?
              && loginRequests[id].serviceChallenge.Some?;
          if wanted && binding.None? {
            return [ActionFailed(Cancel(LoginKind, id), "this login needs a service key and none was supplied")];
          }
          var key := if binding.Some? then Some(binding.value.key) else None;
          var signature := if binding.Some? then Some(binding.value.signature) else None;
          effects := Reply(input, Some(AcceptLogin(id, config.descriptor, key, signature)), id);
        case SignAccepted(id, pset) =>
          effects := Reply(input, Some(AcceptSign(id, pset)), id);
        case SignMessageAccepted(id) =>
          var signature := SignMessageDigest(id);
          effects := Reply(input, if signature.Some? then Some(AcceptSignMessage(id, signature.value)) else None, id);
        case SignMessageSigned(id, signature) =>
          effects := Reply(input, if id in signMessageRequests then Some(AcceptSignMessage(id, signature))
              else None, id);
        case ReceiveAddressProvided(id, address) =>
          effects := Reply(input, if id in receiveAddressRequests then Some(AcceptReceiveAddress(id, address))
              else None, id);
        case AssetBalanceProvided(id, amount) =>
          effects := Reply(input, if id in assetBalanceRequests then Some(AcceptAssetBalance(id, amount))
              else None, id);
        case PayBuilt(id, txid) =>
          effects := Reply(input, if id in payRequests then Some(AcceptPay(id, txid)) else None, id);
        case FundSigned(id, pset) =>
          effects := Reply(input, if id in fundRequests then Some(AcceptFund(id, pset)) else None, id);
        case Rejected(k, id) =>
          effects := Reply(input, Some(Cancel(k, id)), id);
      }
    }

    /** `handle`: one input in, the effects out. */
    method Handle(input: Input) returns (effects: seq<Effect>)
      modifies this
      ensures (Abs(), effects) == Step(config, old(Abs()), input)
    {
      hide Answer, OnMessage;
      effects := [];
      match input {
        case Connected =>
          connected := true;
          effects := [Send(Frame(0, Challenge))];
        case Recv(msg) =>
          if msg.Some? {
            effects := HandleServerMessage(msg.value);
          }
        case Disconnected =>
          connected := false;
          loginSucceed := false;
        case AppLink(linkType, id, isMobile) =>
          if isMobile {
            mobileRequests := mobileRequests + {id};
          }
          if linkType == LinkLoginType {
            effects := AddUserAction(LinkLogin(id));
          }
        case RegisterFcmToken(token) =>
          fcmToken := Some(token);
          effects := SendFcmToken();
        case StopSessionInput(id) =>
          effects := AddUserAction(StopSession(id));
        case _ =>
          effects := HandleAnswer(input);
      }
    }
  }
}
