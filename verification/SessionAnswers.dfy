/** What each input of the session core makes the wallet say (`core.rs`), as a table over the input's own fields:
    the action it causes, the notifications and responses it takes in, and when a mobile user is handed back. */
module SessionAnswers {
  import opened Common
  import opened Wire
  import opened Session
  import opened SessionMirror
  import opened SessionSync
  import opened SessionRuns

  // ----- Digests -----

  /** `c` is the hexadecimal digit of `n`, in either case. */
  predicate SpellsDigit(c: char, n: int) {
    0 <= n < 16 && (c == "0123456789abcdef"[n] || c == "0123456789ABCDEF"[n])
  }

  /** Sixty-four digits, two for each byte, the high one first. */
  predicate SpellsDigest(s: string, d: Bytes32) {
    |s| == 64 && forall i :: 0 <= i < 32 ==> SpellsDigit(s[2 * i], d[i] / 16) && SpellsDigit(s[2 * i + 1], d[i] % 16)
  }

  lemma DigitIff(c: char, n: int)
    requires 0 <= n < 16
    ensures SpellsDigit(c, n) <==> IsHex(c) && HexValue(c) == n
  {
  }

  lemma HexBelow(c: char)
    ensures HexValue(c) < 16
  {
  }

  lemma Nibbles(h: nat, l: nat, b: byte)
    requires h < 16 && l < 16
    ensures (h * 16 + l) % 256 == b <==> h == b / 16 && l == b % 16
  {
  }

  lemma PairIff(hi: char, lo: char, b: byte)
    ensures SpellsDigit(hi, b / 16) && SpellsDigit(lo, b % 16)
            <==> IsHex(hi) && IsHex(lo) && (HexValue(hi) * 16 + HexValue(lo)) % 256 == b
  {
    hide SpellsDigit, IsHex, HexValue;
    DigitIff(hi, b / 16);
    DigitIff(lo, b % 16);
    HexBelow(hi);
    HexBelow(lo);
    Nibbles(HexValue(hi), HexValue(lo), b);
  }

  /** Decoding finds the digest that the text spells, and fails exactly when the text is not 64 digits. */
  lemma DigestIff(s: string, d: Bytes32)
    ensures DecodeDigest(s) == Some(d) <==> SpellsDigest(s, d)
    ensures DecodeDigest(s).None? <==> forall d' :: !SpellsDigest(s, d')
  {
    hide SpellsDigit, IsHex, HexValue;
    DigestFound(s, d);
    if DecodeDigest(s).Some? {
      DigestFound(s, DecodeDigest(s).value);
    } else {
      forall d' ensures !SpellsDigest(s, d') { DigestFound(s, d'); }
    }
  }

  lemma DigestFound(s: string, d: Bytes32)
    ensures DecodeDigest(s) == Some(d) <==> SpellsDigest(s, d)
  {
    hide SpellsDigit, IsHex, HexValue;
    if |s| == 64 {
      forall i | 0 <= i < 32
        ensures SpellsDigit(s[2 * i], d[i] / 16) && SpellsDigit(s[2 * i + 1], d[i] % 16)
                <==> IsHex(s[2 * i]) && IsHex(s[2 * i + 1])
                     && (HexValue(s[2 * i]) * 16 + HexValue(s[2 * i + 1])) % 256 == d[i]
      {
        PairIff(s[2 * i], s[2 * i + 1], d[i]);
      }
      if SpellsDigest(s, d) {
        forall j | 0 <= j < 64 ensures IsHex(s[j]) {
          var i := j / 2;
          assert SpellsDigit(s[2 * i], d[i] / 16) && (j == 2 * i || j == 2 * i + 1);
        }
      }
      if DecodeDigest(s).Some? && DecodeDigest(s).value != d {
        assert exists i :: 0 <= i < 32 && DecodeDigest(s).value[i] != d[i];
      }
    }
  }

  // ----- The table -----

  /** The request `id` that `SignMessageAccepted` answers is live with a digest that `d` is. */
  predicate LiveDigest(s: State, id: Id, d: Bytes32) {
    id in s.view.signMessage && s.view.signMessage[id].SignMessageRequest?
    && SpellsDigest(s.view.signMessage[id].digest, d)
  }

  /** The live request asks for a key of the service. */
  predicate AsksForKey(s: State, id: Id) {
    id in s.view.login && s.view.login[id].LoginRequest? && s.view.login[id].serviceChallenge.Some?
  }

  /** Which input makes the wallet say `a`. */
  ghost predicate Causes(c: Config, s: State, input: Input, a: UserAction) {
    match a
    case LinkLogin(id) => exists mobile :: input == AppLink(LinkLoginType, id, mobile)
    case AcceptLogin(id, descriptor, key, signature) =>
      descriptor == c.descriptor
      && ((input == LoginAccepted(id, None) && key == None && signature == None && !AsksForKey(s, id))
          || exists b :: input == LoginAccepted(id, Some(b)) && key == Some(b.key) && signature == Some(b.signature))
    case AcceptSign(id, pset) => input == SignAccepted(id, pset)
    case AcceptSignMessage(id, signature) =>
      || (input == SignMessageSigned(id, signature) && id in s.view.signMessage)
      || (input == SignMessageAccepted(id) && exists d :: LiveDigest(s, id, d) && signature == c.signDigest(d))
    case AcceptReceiveAddress(id, address) =>
      input == ReceiveAddressProvided(id, address) && id in s.view.receiveAddress
    case AcceptAssetBalance(id, amount) => input == AssetBalanceProvided(id, amount) && id in s.view.assetBalance
    case AcceptPay(id, txid) => input == PayBuilt(id, txid) && id in s.view.pay
    case AcceptFund(id, pset) => input == FundSigned(id, pset) && id in s.view.fund
    case Cancel(kind, id) => input == Rejected(kind, id)
    case StopSession(id) => input == StopSessionInput(id)
  }

  /** The action an input queues is the one the table gives it. */
  lemma QueuedIff(c: Config, s: State, input: Input, a: UserAction)
    ensures Queued(c, s, input) == Some(a) <==> Causes(c, s, input, a)
  {
    hide DecodeDigest, SpellsDigest;
    if input.SignMessageAccepted? && input.id in s.view.signMessage
       && s.view.signMessage[input.id].SignMessageRequest?
    {
      var text := s.view.signMessage[input.id].digest;
      forall d ensures DecodeDigest(text) == Some(d) <==> SpellsDigest(text, d) { DigestIff(text, d); }
    }
  }

  ghost predicate CausesAt(c: Config, inputs: seq<Input>, i: nat, a: UserAction)
    requires i < |inputs|
  {
    Causes(c, StateAt(c, inputs, i), inputs[i], a)
  }

  // ----- What a step adds -----

  /** Step `i` puts `a` into the queue under the next id and, on a live connection, sends that and no other action;
      what is known of requests, connection and token stays. */
  ghost predicate AddsAction(c: Config, inputs: seq<Input>, i: nat, a: UserAction)
    requires i < |inputs|
  {
    var s, s' := StateAt(c, inputs, i), StateAt(c, inputs, i + 1);
    && s'.userActions == s.userActions[s.nextActionId := a] && s'.nextActionId == s.nextActionId + 1
    && ActionFrames(EffectsAt(c, inputs, i)) == (if s.connected then [Frame(s.nextActionId, Act(a))] else [])
    && s'.view == s.view && s'.connected == s.connected && s'.loginSucceed == s.loginSucceed
    && s'.fcmToken == s.fcmToken
  }

  /** It adds nothing, and sends no action except a login response's replays. */
  ghost predicate AddsNothing(c: Config, inputs: seq<Input>, i: nat)
    requires i < |inputs|
  {
    var s, s' := StateAt(c, inputs, i), StateAt(c, inputs, i + 1);
    && s'.nextActionId == s.nextActionId
    && (forall id :: id in s'.userActions ==> id in s.userActions && s'.userActions[id] == s.userActions[id])
    && (!IsLoginResponse(inputs[i]) ==> ActionFrames(EffectsAt(c, inputs, i)) == [])
  }

  lemma QueuingInputs(c: Config, s: State, input: Input)
    requires Queued(c, s, input).Some?
    ensures !input.Connected? && !input.Recv? && !input.Disconnected? && !input.RegisterFcmToken?
    ensures input.LoginAccepted? ==> !(WantsBinding(s, input.id) && input.binding.None?)
  {
  }

  /** The state after `a` is added, and the effects: its frame, then perhaps the hand-back to the browser. */
  ghost predicate Added(s: State, a: UserAction, s': State, fx: seq<Effect>) {
    && s'.userActions == s.userActions[s.nextActionId := a] && s'.nextActionId == s.nextActionId + 1
    && s'.view == s.view && s'.connected == s.connected && s'.loginSucceed == s.loginSucceed
    && s'.fcmToken == s.fcmToken
    && exists back ::
         SendsNoAction(back) && fx == (if s.connected then [Send(Frame(s.nextActionId, Act(a)))] else []) + back
  }

  lemma AnswerAdds(c: Config, s: State, input: Input, id: Id, a: UserAction)
    requires Queued(c, s, input) == Some(a)
    ensures Added(s, a, Answer(c, s, input, id).0, Answer(c, s, input, id).1)
  {
    hide Queued;
    var back := Finish(Enqueue(s, a).0, id).1;
    assert SendsNoAction(back);
    assert Answer(c, s, input, id).1 == Enqueue(s, a).1 + back;
  }

  lemma LinkAdds(c: Config, s: State, input: Input, a: UserAction)
    requires Queued(c, s, input) == Some(a) && (input.AppLink? || input.StopSessionInput?)
    ensures Added(s, a, Step(c, s, input).0, Step(c, s, input).1)
  {
    hide Queued;
    var fx := Step(c, s, input).1;
    assert SendsNoAction([]) && fx == fx + [];
  }

  lemma StepAnswers(c: Config, s: State, input: Input, a: UserAction)
    requires Queued(c, s, input) == Some(a)
    ensures Added(s, a, Step(c, s, input).0, Step(c, s, input).1)
  {
    QueuingInputs(c, s, input);
    if input.AppLink? || input.StopSessionInput? {
      LinkAdds(c, s, input, a);
    } else {
      AnswerAdds(c, s, input, input.id, a);
      hide Queued, Answer, Added;
    }
  }

  lemma AddedFrames(s: State, a: UserAction, s': State, fx: seq<Effect>)
    requires Added(s, a, s', fx)
    ensures ActionFrames(fx) == if s.connected then [Frame(s.nextActionId, Act(a))] else []
  {
    var first := if s.connected then [Send(Frame(s.nextActionId, Act(a)))] else [];
    var back :| SendsNoAction(back) && fx == first + back;
    ActionFramesConcat(first, back);
    NoActionFrames(back);
    if s.connected {
      OneActionFrame(first[0]);
    }
  }

  lemma OneActionFrame(e: Effect)
    requires e.Send? && e.frame.req.Act?
    ensures ActionFrames([e]) == [e.frame]
  {
    assert [e][..0] == [];
  }

  lemma NoneAdded(c: Config, s: State, input: Input)
    requires Queued(c, s, input) == None && !IsLoginResponse(input)
    ensures SendsNoAction(Step(c, s, input).1)
  {
    if input.Recv? {
      OtherMessagesQueue(c, s, input);
    } else {
      hide Queued;
    }
  }

  /** What step `i` adds is what its input causes, if it causes anything. */
  lemma StepAdds(c: Config, inputs: seq<Input>, i: nat)
    requires i < |inputs|
    ensures forall a :: CausesAt(c, inputs, i, a) ==> AddsAction(c, inputs, i, a)
    ensures (forall a :: !CausesAt(c, inputs, i, a)) ==> AddsNothing(c, inputs, i)
  {
    hide Step, Queued, Run, Causes;
    RunStep(c, inputs, i);
    RunQueues(c, inputs, i);
    var s := StateAt(c, inputs, i);
    forall a ensures Queued(c, s, inputs[i]) == Some(a) <==> CausesAt(c, inputs, i, a) {
      QueuedIff(c, s, inputs[i], a);
    }
    if Queued(c, s, inputs[i]).Some? {
      var a := Queued(c, s, inputs[i]).value;
      StepAnswers(c, s, inputs[i], a);
      AddedFrames(s, a, StateAt(c, inputs, i + 1), EffectsAt(c, inputs, i));
    } else if !IsLoginResponse(inputs[i]) {
      NoneAdded(c, s, inputs[i]);
      NoActionFrames(EffectsAt(c, inputs, i));
    }
  }

  /** The table read by input, over every run: what each answer of the user or the host adds. */
  lemma AnswersAdd(c: Config, inputs: seq<Input>, i: nat)
    requires i < |inputs|
    ensures var v := StateAt(c, inputs, i).view;
            match inputs[i]
            case Rejected(kind, id) => AddsAction(c, inputs, i, Cancel(kind, id))
            case SignAccepted(id, pset) => AddsAction(c, inputs, i, AcceptSign(id, pset))
            case StopSessionInput(id) => AddsAction(c, inputs, i, StopSession(id))
            case AppLink(linkType, id, _) =>
              if linkType == LinkLoginType then AddsAction(c, inputs, i, LinkLogin(id)) else AddsNothing(c, inputs, i)
            case SignMessageSigned(id, signature) =>
              if id in v.signMessage then AddsAction(c, inputs, i, AcceptSignMessage(id, signature))
              else AddsNothing(c, inputs, i)
            case ReceiveAddressProvided(id, address) =>
              if id in v.receiveAddress then AddsAction(c, inputs, i, AcceptReceiveAddress(id, address))
              else AddsNothing(c, inputs, i)
            case AssetBalanceProvided(id, amount) =>
              if id in v.assetBalance then AddsAction(c, inputs, i, AcceptAssetBalance(id, amount))
              else AddsNothing(c, inputs, i)
            case PayBuilt(id, txid) =>
              if id in v.pay then AddsAction(c, inputs, i, AcceptPay(id, txid)) else AddsNothing(c, inputs, i)
            case FundSigned(id, pset) =>
              if id in v.fund then AddsAction(c, inputs, i, AcceptFund(id, pset)) else AddsNothing(c, inputs, i)
            case LoginAccepted(id, binding) =>
              if binding.Some? then
                AddsAction(c, inputs, i,
                           AcceptLogin(id, c.descriptor, Some(binding.value.key), Some(binding.value.signature)))
              else if AsksForKey(StateAt(c, inputs, i), id) then AddsNothing(c, inputs, i)
              else AddsAction(c, inputs, i, AcceptLogin(id, c.descriptor, None, None))
            case SignMessageAccepted(id) =>
              && (forall d :: LiveDigest(StateAt(c, inputs, i), id, d) ==>
                                AddsAction(c, inputs, i, AcceptSignMessage(id, c.signDigest(d))))
              && ((forall d :: !LiveDigest(StateAt(c, inputs, i), id, d)) ==> AddsNothing(c, inputs, i))
            case Connected | Recv(_) | Disconnected | RegisterFcmToken(_) => AddsNothing(c, inputs, i)
  {
    hide AddsAction, AddsNothing, StateAt, LiveDigest;
    StepAdds(c, inputs, i);
    CausedBy(c, StateAt(c, inputs, i), inputs[i]);
  }

  /** The table read by input, in one state. */
  lemma CausedBy(c: Config, s: State, input: Input)
    ensures forall a :: Causes(c, s, input, a) <==>
              match input
              case Rejected(kind, id) => a == Cancel(kind, id)
              case SignAccepted(id, pset) => a == AcceptSign(id, pset)
              case StopSessionInput(id) => a == StopSession(id)
              case AppLink(linkType, id, _) => linkType == LinkLoginType && a == LinkLogin(id)
              case SignMessageSigned(id, signature) => id in s.view.signMessage && a == AcceptSignMessage(id, signature)
              case ReceiveAddressProvided(id, address) =>
                id in s.view.receiveAddress && a == AcceptReceiveAddress(id, address)
              case AssetBalanceProvided(id, amount) =>
                id in s.view.assetBalance && a == AcceptAssetBalance(id, amount)
              case PayBuilt(id, txid) => id in s.view.pay && a == AcceptPay(id, txid)
              case FundSigned(id, pset) => id in s.view.fund && a == AcceptFund(id, pset)
              case LoginAccepted(id, binding) =>
                if binding.Some?
                then a == AcceptLogin(id, c.descriptor, Some(binding.value.key), Some(binding.value.signature))
                else !AsksForKey(s, id) && a == AcceptLogin(id, c.descriptor, None, None)
              case SignMessageAccepted(id) =>
                exists d :: LiveDigest(s, id, d) && a == AcceptSignMessage(id, c.signDigest(d))
              case Connected | Recv(_) | Disconnected | RegisterFcmToken(_) => false
  {
    hide LiveDigest;
  }

  // ----- Over every run -----

  /** Input `k` caused `a` under `id`, and no response or error with that id came between it and step `n`. */
  ghost predicate CausedAndUnanswered(c: Config, inputs: seq<Input>, n: nat, k: nat, id: ReqId, a: UserAction)
    requires n <= |inputs|
  {
    && k < n && CausesAt(c, inputs, k, a) && StateAt(c, inputs, k).nextActionId == id
    && forall j :: k < j < n ==> !IsReplyTo(inputs[j], id)
  }

  ghost predicate IsReplyTo(input: Input, id: ReqId) {
    || input == Recv(Some(RespFrom(id, UserActionResp)))
    || exists message :: input == Recv(Some(ErrorFrom(id, message)))
  }

  lemma UnansweredIff(c: Config, inputs: seq<Input>, n: nat, k: nat, id: ReqId, a: UserAction)
    requires n <= |inputs|
    ensures Unanswered(c, inputs, n, k, id, a) <==> CausedAndUnanswered(c, inputs, n, k, id, a)
  {
    hide Queued, Causes, StateAt;
    assert forall j :: 0 <= j < |inputs| ==> (Answers(inputs[j], id) <==> IsReplyTo(inputs[j], id));
    if k < n {
      QueuedIff(c, StateAt(c, inputs, k), inputs[k], a);
    }
  }

  /** An action is pending exactly when some input caused it, under that id, and it has not been answered. */
  lemma PendingIsCaused(c: Config, inputs: seq<Input>, n: nat, id: ReqId, a: UserAction)
    requires n <= |inputs|
    ensures (id in StateAt(c, inputs, n).userActions && StateAt(c, inputs, n).userActions[id] == a)
            <==> exists k :: CausedAndUnanswered(c, inputs, n, k, id, a)
  {
    hide Unanswered, CausedAndUnanswered, StateAt;
    PendingExactly(c, inputs, n, id, a);
    forall k ensures Unanswered(c, inputs, n, k, id, a) <==> CausedAndUnanswered(c, inputs, n, k, id, a) {
      UnansweredIff(c, inputs, n, k, id, a);
    }
  }

  /** Every action frame ever sent goes back to an input that causes that action. */
  lemma FramesAreCaused(c: Config, inputs: seq<Input>, i: nat, id: ReqId, a: UserAction) returns (k: nat)
    requires i < |inputs| && Send(Frame(id, Act(a))) in EffectsAt(c, inputs, i)
    ensures k <= i && CausesAt(c, inputs, k, a) && StateAt(c, inputs, k).nextActionId == id
  {
    hide Queued, Causes, StateAt, EffectsAt;
    k := FrameProvenance(c, inputs, i, Send(Frame(id, Act(a))), id, a);
    QueuedIff(c, StateAt(c, inputs, k), inputs[k], a);
  }

  /** What an answer says: its action's frame, and the hand-back. */
  lemma AnswerSays(c: Config, s: State, input: Input, id: Id)
    ensures forall e :: e in Answer(c, s, input, id).1 ==> e == MinimizeMobileApp || (e.Send? && e.frame.req.Act?)
    ensures MinimizeMobileApp in Answer(c, s, input, id).1 <==> id in s.mobileRequests
    ensures Answer(c, s, input, id).0.mobileRequests == s.mobileRequests - {id}
  {
    hide Queued;
    var (s1, fx1) := EnqueueIf(s, Queued(c, s, input));
    if id in s.mobileRequests {
      assert Answer(c, s, input, id).1[|fx1|] == MinimizeMobileApp;
    }
  }

  /** The inputs that `Step` hands to `Answer`. */
  predicate IsAnswer(s: State, input: Input) {
    match input
    case Connected | Recv(_) | Disconnected | AppLink(_, _, _) | RegisterFcmToken(_) | StopSessionInput(_) => false
    case LoginAccepted(id, binding) => !WantsBinding(s, id) || binding.Some?
    case _ => true
  }

  lemma StepIsAnswer(c: Config, s: State, input: Input)
    requires IsAnswer(s, input)
    ensures Step(c, s, input) == Answer(c, s, input, input.id)
  {
    hide Answer;
  }

  // ----- What the server says -----

  /** The `i`-th input is this notification, response or error. */
  predicate Says(inputs: seq<Input>, i: nat, msg: From)
    requires i < |inputs|
  {
    inputs[i] == Recv(Some(msg))
  }

  /** Step `i` changes the maps to `v` and nothing else, and tells the host `fx`. */
  ghost predicate Shows(c: Config, inputs: seq<Input>, i: nat, v: View, fx: seq<Effect>)
    requires i < |inputs|
  {
    StateAt(c, inputs, i + 1) == StateAt(c, inputs, i).(view := v) && EffectsAt(c, inputs, i) == fx
  }

  /** A created request enters the map of its own kind, under its id, whatever was there; the host is told. */
  lemma CreatedEnters(c: Config, inputs: seq<Input>, i: nat, r: Request)
    requires i < |inputs| && Says(inputs, i, NotifFrom(RequestCreated(r)))
    ensures var v := StateAt(c, inputs, i).view;
            match r
            case LoginRequest(id, _, _, _) => Shows(c, inputs, i, v.(login := v.login[id := r]), [AddRequest(r)])
            case SignRequest(id, _, _, _) => Shows(c, inputs, i, v.(sign := v.sign[id := r]), [AddRequest(r)])
            case SignMessageRequest(id, _, _, _, _) =>
              Shows(c, inputs, i, v.(signMessage := v.signMessage[id := r]), [AddRequest(r)])
            case ReceiveAddressRequest(id, _, _, _) =>
              Shows(c, inputs, i, v.(receiveAddress := v.receiveAddress[id := r]), [AddRequest(r)])
            case AssetBalanceRequest(id, _, _, _, _) =>
              Shows(c, inputs, i, v.(assetBalance := v.assetBalance[id := r]), [AddRequest(r)])
            case PayRequest(id, _, _, _, _, _, _) => Shows(c, inputs, i, v.(pay := v.pay[id := r]), [AddRequest(r)])
            case FundRequest(id, _, _, _, _, _, _) => Shows(c, inputs, i, v.(fund := v.fund[id := r]), [AddRequest(r)])
  {
    hide StateAt;
    RunSteps(c, inputs, i);
  }

  /** A removed request leaves the map of the kind that is named, and no other. */
  lemma RemovedLeaves(c: Config, inputs: seq<Input>, i: nat, kind: Kind, id: Id)
    requires i < |inputs| && Says(inputs, i, NotifFrom(RequestRemoved(kind, id)))
    ensures var v := StateAt(c, inputs, i).view;
            Shows(c, inputs, i,
                  match kind {
                    case LoginKind => v.(login := v.login - {id})
                    case SignKind => v.(sign := v.sign - {id})
                    case SignMessageKind => v.(signMessage := v.signMessage - {id})
                    case ReceiveAddressKind => v.(receiveAddress := v.receiveAddress - {id})
                    case AssetBalanceKind => v.(assetBalance := v.assetBalance - {id})
                    case PayKind => v.(pay := v.pay - {id})
                    case FundKind => v.(fund := v.fund - {id})
                  },
                  [RemoveRequest(kind, id)])
  {
    hide StateAt;
    RunSteps(c, inputs, i);
  }

  /** A report replaces the domain's last one, an empty one clears it, and so does a removal, which is told only if
      there is something to clear; sessions are told and not kept. */
  lemma HoldingsFollow(c: Config, inputs: seq<Input>, i: nat, n: Notif)
    requires i < |inputs| && Says(inputs, i, NotifFrom(n)) && !n.RequestCreated? && !n.RequestRemoved?
    ensures var v := StateAt(c, inputs, i).view;
            match n
            case HoldingsUpdated(r) =>
              if |r.holdings| > 0 then
                Shows(c, inputs, i, v.(holdings := v.holdings[r.domain := r]), [SetHoldings(r)])
              else Shows(c, inputs, i, v.(holdings := v.holdings - {r.domain}), [ClearHoldings(r.domain)])
            case HoldingsRemoved(d) =>
              if d in v.holdings then
                Shows(c, inputs, i, v.(holdings := v.holdings - {d}), [ClearHoldings(d)])
              else Shows(c, inputs, i, v, [])
            case NotifySessionCreated(session) => Shows(c, inputs, i, v, [SessionCreated(session)])
            case NotifySessionRemoved(id) => Shows(c, inputs, i, v, [SessionRemoved(id)])
            case _ => true
  {
    hide StateAt;
    RunSteps(c, inputs, i);
    NothingCleared(StateAt(c, inputs, i).view);
  }

  lemma NothingCleared(v: View)
    ensures forall d :: d !in v.holdings ==> v.holdings - {d} == v.holdings
  {
  }

  lemma RunSteps(c: Config, inputs: seq<Input>, i: nat)
    requires i < |inputs|
    ensures StateAt(c, inputs, i + 1) == Step(c, StateAt(c, inputs, i), inputs[i]).0
  {
    hide Step, Run;
    RunStep(c, inputs, i);
  }

  /** Every frame that carries no action has id 0. A challenge is asked for exactly when the connection is made; a
      login frame answers a challenge with the key, the signature over that challenge and the installation. */
  lemma PlumbingFrames(c: Config, inputs: seq<Input>, i: nat, id: ReqId, req: Req)
    requires i < |inputs| && !req.Act?
    ensures Send(Frame(id, req)) in EffectsAt(c, inputs, i) ==> id == 0
    ensures Send(Frame(0, Challenge)) in EffectsAt(c, inputs, i) <==> inputs[i] == Connected
    ensures req.Login? ==>
              (Send(Frame(0, req)) in EffectsAt(c, inputs, i) <==>
               exists k, x :: Says(inputs, i, RespFrom(k, ChallengeResp(x)))
                              && req == Login(c.publicKey, c.signChallenge(x), c.installId))
  {
    hide StateAt;
    var s := StateAt(c, inputs, i);
    if IsLoginResponse(inputs[i]) {
      LoginPlumbing(c, s, inputs[i]);
    } else {
      OtherPlumbing(c, s, inputs[i], Frame(id, req));
      OtherPlumbing(c, s, inputs[i], Frame(0, req));
      OtherPlumbing(c, s, inputs[i], Frame(0, Challenge));
    }
  }

  lemma LoginPlumbing(c: Config, s: State, input: Input)
    requires IsLoginResponse(input)
    ensures forall e :: e in Step(c, s, input).1 && e.Send? && !e.frame.req.Act? ==>
              e.frame.id == 0 && e.frame.req.RegisterFcm?
  {
    hide SyncView, SyncViewEffects, ReplayAll;
    SyncViewPlain(s.view, input.msg.value.resp.snapshot);
    ReplaysAct(s.userActions);
  }

  lemma ReplaysAct(actions: map<ReqId, UserAction>)
    ensures forall e :: e in ReplayAll(actions) ==> e.Send? && e.frame.req.Act?
  {
  }

  lemma OtherPlumbing(c: Config, s: State, input: Input, f: Frame)
    requires !IsLoginResponse(input) && !f.req.Act?
    ensures Send(f) in Step(c, s, input).1 ==> f.id == 0 && !f.req.Act?
    ensures f.req.Challenge? ==> (Send(f) in Step(c, s, input).1 <==> f.id == 0 && input.Connected?)
    ensures f.req.Login? ==>
              (Send(f) in Step(c, s, input).1 <==>
               f.id == 0 && exists k, x :: input == Recv(Some(RespFrom(k, ChallengeResp(x))))
                                           && f.req == Login(c.publicKey, c.signChallenge(x), c.installId))
  {
    hide Get, Put, Queued, Answer;
    if IsAnswer(s, input) {
      StepIsAnswer(c, s, input);
      AnswerSays(c, s, input, input.id);
    }
    if input.Recv? && input.msg.Some? && input.msg.value.RespFrom? && input.msg.value.resp.ChallengeResp? {
      var x := input.msg.value.resp.challenge;
      assert Step(c, s, input).1[0] == Send(Frame(0, Login(c.publicKey, c.signChallenge(x), c.installId)));
    }
    if input.Connected? {
      assert Step(c, s, input).1[0] == Send(Frame(0, Challenge));
    }
  }

  // ----- Failures -----

  /** The host is told that an action failed exactly when the server refuses a pending one, with the server's own
      words, or when a login is accepted without the key it asks for. */
  lemma FailuresTell(c: Config, inputs: seq<Input>, i: nat, a: UserAction, message: string)
    requires i < |inputs|
    ensures ActionFailed(a, message) in EffectsAt(c, inputs, i)
            <==>
            || (exists id :: Says(inputs, i, ErrorFrom(id, message))
                             && id in StateAt(c, inputs, i).userActions && StateAt(c, inputs, i).userActions[id] == a)
            || (exists id :: inputs[i] == LoginAccepted(id, None) && AsksForKey(StateAt(c, inputs, i), id)
                             && a == Cancel(LoginKind, id)
                             && message == "this login needs a service key and none was supplied")
  {
    hide StateAt;
    var s := StateAt(c, inputs, i);
    if IsLoginResponse(inputs[i]) {
      LoginFailsNothing(c, s, inputs[i]);
    } else if inputs[i].Recv? {
      MessageFails(c, s, inputs[i], a, message);
    } else {
      AnswerFails(c, s, inputs[i], a, message);
    }
  }

  lemma LoginFailsNothing(c: Config, s: State, input: Input)
    requires IsLoginResponse(input)
    ensures forall e :: e in Step(c, s, input).1 ==> !e.ActionFailed?
  {
    hide SyncView, SyncViewEffects, ReplayAll;
    SyncViewPlain(s.view, input.msg.value.resp.snapshot);
    ReplaysAct(s.userActions);
  }

  lemma MessageFails(c: Config, s: State, input: Input, a: UserAction, message: string)
    requires input.Recv? && !IsLoginResponse(input)
    ensures ActionFailed(a, message) in Step(c, s, input).1
            <==> exists id :: input == Recv(Some(ErrorFrom(id, message)))
                              && id in s.userActions && s.userActions[id] == a
  {
    hide Get, Put;
    if input.msg.Some? && input.msg.value.ErrorFrom? && input.msg.value.id in s.userActions {
      assert Step(c, s, input).1[0] == ActionFailed(s.userActions[input.msg.value.id], input.msg.value.message);
    }
  }

  lemma AnswerFails(c: Config, s: State, input: Input, a: UserAction, message: string)
    requires !input.Recv?
    ensures ActionFailed(a, message) in Step(c, s, input).1
            <==> exists id :: input == LoginAccepted(id, None) && AsksForKey(s, id) && a == Cancel(LoginKind, id)
                              && message == "this login needs a service key and none was supplied"
  {
    if input.LoginAccepted? && AsksForKey(s, input.id) && input.binding == None {
      LoginRefused(c, s, input.id);
      hide Step, AsksForKey;
    } else {
      OthersFailNothing(c, s, input);
      hide Step;
    }
  }

  lemma LoginRefused(c: Config, s: State, id: Id)
    requires AsksForKey(s, id)
    ensures Step(c, s, LoginAccepted(id, None)).1
            == [ActionFailed(Cancel(LoginKind, id), "this login needs a service key and none was supplied")]
  {
    hide Answer;
  }

  lemma OthersFailNothing(c: Config, s: State, input: Input)
    requires !input.Recv? && !(input.LoginAccepted? && AsksForKey(s, input.id) && input.binding == None)
    ensures forall e :: e in Step(c, s, input).1 ==> !e.ActionFailed?
  {
    hide Queued, Answer;
    if IsAnswer(s, input) {
      StepIsAnswer(c, s, input);
      AnswerSays(c, s, input, input.id);
      hide Step;
    }
  }

  // ----- Mobile users -----

  /** The input answers request `id`, for good or ill; a login that lacks its key is no answer. */
  predicate Settles(s: State, input: Input, id: Id) {
    match input
    case LoginAccepted(id', binding) => id' == id && (binding.Some? || !AsksForKey(s, id))
    case SignAccepted(id', _) => id' == id
    case SignMessageAccepted(id') => id' == id
    case SignMessageSigned(id', _) => id' == id
    case ReceiveAddressProvided(id', _) => id' == id
    case AssetBalanceProvided(id', _) => id' == id
    case PayBuilt(id', _) => id' == id
    case FundSigned(id', _) => id' == id
    case Rejected(_, id') => id' == id
    case _ => false
  }

  predicate FromMobile(input: Input, id: Id) { input.AppLink? && input.isMobile && input.id == id }

  /** A mobile link for `id` was opened at step `k`, and `id` has not been settled before step `n`. */
  ghost predicate WaitsSince(c: Config, inputs: seq<Input>, n: nat, k: nat, id: Id)
    requires n <= |inputs|
  {
    k < n && FromMobile(inputs[k], id) && forall j :: k < j < n ==> !Settles(StateAt(c, inputs, j), inputs[j], id)
  }

  lemma StepMobile(c: Config, s: State, input: Input)
    ensures forall id :: id in Step(c, s, input).0.mobileRequests <==>
                         FromMobile(input, id) || (id in s.mobileRequests && !Settles(s, input, id))
    ensures MinimizeMobileApp in Step(c, s, input).1 <==> exists id :: id in s.mobileRequests && Settles(s, input, id)
  {
    hide Queued, Get, Put, Answer;
    if IsLoginResponse(input) {
      LoginMinimizesNothing(c, s, input);
    } else if IsAnswer(s, input) {
      StepIsAnswer(c, s, input);
      AnswerSays(c, s, input, input.id);
    }
  }

  lemma LoginMinimizesNothing(c: Config, s: State, input: Input)
    requires IsLoginResponse(input)
    ensures MinimizeMobileApp !in Step(c, s, input).1 && Step(c, s, input).0.mobileRequests == s.mobileRequests
  {
    hide SyncView, SyncViewEffects, ReplayAll;
    SyncViewPlain(s.view, input.msg.value.resp.snapshot);
    ReplaysAct(s.userActions);
  }

  /** Over every run a request waits for its mobile user exactly from a link until an answer, and the user is handed
      back exactly at that answer. */
  lemma {:induction false} MobileHandBack(c: Config, inputs: seq<Input>, n: nat, id: Id)
    requires n <= |inputs|
    ensures id in StateAt(c, inputs, n).mobileRequests <==> exists k :: WaitsSince(c, inputs, n, k, id)
    ensures n < |inputs| ==>
              (MinimizeMobileApp in EffectsAt(c, inputs, n) <==>
               exists k, id' :: WaitsSince(c, inputs, n, k, id') && Settles(StateAt(c, inputs, n), inputs[n], id'))
  {
    hide Step, Run, Settles, FromMobile;
    Waiting(c, inputs, n, id);
    if n < |inputs| {
      StepMobile(c, StateAt(c, inputs, n), inputs[n]);
      forall id'
        ensures id' in StateAt(c, inputs, n).mobileRequests <==> exists k :: WaitsSince(c, inputs, n, k, id')
      {
        Waiting(c, inputs, n, id');
      }
      hide StateAt, WaitsSince;
    }
  }

  lemma {:induction false} Waiting(c: Config, inputs: seq<Input>, n: nat, id: Id)
    requires n <= |inputs|
    ensures id in StateAt(c, inputs, n).mobileRequests <==> exists k :: WaitsSince(c, inputs, n, k, id)
  {
    hide Step, Run, Settles, FromMobile;
    if n == 0 {
      StartsEmpty(c, inputs);
    } else {
      var m := n - 1;
      Waiting(c, inputs, m, id);
      RunStep(c, inputs, m);
      StepMobile(c, StateAt(c, inputs, m), inputs[m]);
      assert FromMobile(inputs[m], id) ==> WaitsSince(c, inputs, n, m, id);
      if k: nat :| WaitsSince(c, inputs, m, k, id) {
        assert !Settles(StateAt(c, inputs, m), inputs[m], id) ==> WaitsSince(c, inputs, n, k, id);
      }
      if k: nat :| WaitsSince(c, inputs, n, k, id) {
        assert k < m ==> WaitsSince(c, inputs, m, k, id);
      }
    }
  }

  // ----- Logging in -----

  /** `m'` holds exactly the listed ids: what `m` has of them, and of the others the first that is listed. */
  ghost predicate Takes(m: Requests, list: seq<Request>, m': Requests) {
    && (forall id :: id in m' <==> exists j :: 0 <= j < |list| && list[j].id == id)
    && (forall id :: id in m' && id in m ==> m'[id] == m[id])
    && (forall j :: 0 <= j < |list| && list[j].id !in m && IsFirst(list, j) ==>
          list[j].id in m' && m'[list[j].id] == list[j])
  }

  predicate IsFirst(list: seq<Request>, j: nat)
    requires j < |list|
  {
    forall k :: 0 <= k < j ==> list[k].id != list[j].id
  }

  lemma SyncTakes(m: Requests, list: seq<Request>)
    ensures Takes(m, list, SyncMap(m, list))
  {
    hide SyncMap;
    SnapshotReconciles(m, list);
    assert forall j :: 0 <= j < |list| ==> list[j].id in IdSet(list);
    forall j | 0 <= j < |list| && list[j].id !in m && IsFirst(list, j) ensures NewAt(m, list, j) { }
  }

  /** A login response brings each of the six lists into the map of its own kind, leaves the login requests, and
      tells the host of the sessions; push registration follows if there is a token. */
  lemma LoginTakesTheLists(c: Config, inputs: seq<Input>, i: nat, id: ReqId, p: LoginSnapshot)
    requires i < |inputs| && Says(inputs, i, RespFrom(id, LoginResp(p)))
    ensures var v, v' := StateAt(c, inputs, i).view, StateAt(c, inputs, i + 1).view;
            && v'.login == v.login && Takes(v.sign, p.sign, v'.sign)
            && Takes(v.signMessage, p.signMessage, v'.signMessage) && Takes(v.pay, p.pay, v'.pay)
            && Takes(v.fund, p.fund, v'.fund) && Takes(v.receiveAddress, p.receiveAddress, v'.receiveAddress)
            && Takes(v.assetBalance, p.assetBalance, v'.assetBalance)
            && v'.holdings == SyncHoldingsMap(v.holdings, p.holdings)
    ensures SessionList(p.sessions) in EffectsAt(c, inputs, i)
  {
    hide StateAt, SyncMap, SyncHoldingsMap, Takes, ReplayAll, SyncViewEffects;
    RunSteps(c, inputs, i);
    var s := StateAt(c, inputs, i);
    SyncTakes(s.view.sign, p.sign);
    SyncTakes(s.view.signMessage, p.signMessage);
    SyncTakes(s.view.pay, p.pay);
    SyncTakes(s.view.fund, p.fund);
    SyncTakes(s.view.receiveAddress, p.receiveAddress);
    SyncTakes(s.view.assetBalance, p.assetBalance);
    var before := ReplayAll(s.userActions) + SyncViewEffects(s.view, p);
    assert EffectsAt(c, inputs, i)[|before|] == SessionList(p.sessions);
  }

  /** Push registration is sent exactly at a login response or a registration that finds a token, a login and a live
      connection. */
  lemma PushesExactly(c: Config, inputs: seq<Input>, i: nat, token: string)
    requires i < |inputs|
    ensures Send(Frame(0, RegisterFcm(token))) in EffectsAt(c, inputs, i)
            <==>
            && (IsLoginResponse(inputs[i]) || inputs[i].RegisterFcmToken?)
            && var s' := StateAt(c, inputs, i + 1); s'.connected && s'.loginSucceed && s'.fcmToken == Some(token)
  {
    hide StateAt;
    RunSteps(c, inputs, i);
    var s := StateAt(c, inputs, i);
    if IsLoginResponse(inputs[i]) {
      LoginPushes(c, s, inputs[i], token);
    } else {
      OtherPushes(c, s, inputs[i], token);
    }
  }

  lemma LoginPushes(c: Config, s: State, input: Input, token: string)
    requires IsLoginResponse(input)
    ensures var (s', fx) := Step(c, s, input);
            Send(Frame(0, RegisterFcm(token))) in fx <==>
            s'.connected && s'.loginSucceed && s'.fcmToken == Some(token)
  {
    hide SyncView, SyncViewEffects, ReplayAll;
    var p := input.msg.value.resp.snapshot;
    var (s', fx) := Step(c, s, input);
    SyncViewPlain(s.view, p);
    ReplaysAct(s.userActions);
    var before := ReplayAll(s.userActions) + SyncViewEffects(s.view, p) + [SessionList(p.sessions)];
    assert fx == before + PushEffects(s');
    if PushEffects(s') != [] {
      assert fx[|before|] == PushEffects(s')[0];
    }
  }

  lemma OtherPushes(c: Config, s: State, input: Input, token: string)
    requires !IsLoginResponse(input)
    ensures var (s', fx) := Step(c, s, input);
            Send(Frame(0, RegisterFcm(token))) in fx <==>
            input.RegisterFcmToken? && s'.connected && s'.loginSucceed && s'.fcmToken == Some(token)
  {
    hide Queued, Get, Put, Answer;
    if IsAnswer(s, input) {
      StepIsAnswer(c, s, input);
      AnswerSays(c, s, input, input.id);
    }
    if input.RegisterFcmToken? && PushEffects(s.(fcmToken := Some(input.token))) != [] {
      assert Step(c, s, input).1[0] == Send(Frame(0, RegisterFcm(input.token)));
    }
  }
}
