/** What holds over every run of the session core: pending actions, the frames that carry them,
    and what the host had been shown when they were queued (`core.rs`). */
module SessionRuns {
  import opened Common
  import opened Wire
  import opened Session
  import opened SessionMirror
  import opened SessionSync

  /** The action the `i`-th input queues. */
  ghost function QueuedAt(c: Config, inputs: seq<Input>, i: nat): Option<UserAction>
    requires i < |inputs|
  {
    Queued(c, StateAt(c, inputs, i), inputs[i])
  }

  /** The id the `i`-th input's action gets. */
  ghost function IdAt(c: Config, inputs: seq<Input>, i: nat): ReqId
    requires i <= |inputs|
  {
    StateAt(c, inputs, i).nextActionId
  }

  ghost function EffectsAt(c: Config, inputs: seq<Input>, i: nat): seq<Effect>
    requires i < |inputs|
  {
    Step(c, StateAt(c, inputs, i), inputs[i]).1
  }

  /** The server's response or error for `id` arrives. */
  predicate Answers(input: Input, id: ReqId) {
    input.Recv? && input.msg.Some? && match input.msg.value {
      case RespFrom(id', resp) => id' == id && resp.UserActionResp?
      case ErrorFrom(id', _) => id' == id
      case NotifFrom(_) => false
    }
  }

  predicate IsLoginResponse(input: Input) {
    input.Recv? && input.msg.Some? && input.msg.value.RespFrom? && input.msg.value.resp.LoginResp?
  }

  /** `e` sends action `a` under `id`. */
  predicate Sends(e: Effect, id: ReqId, a: UserAction) {
    e == Send(ActionFrame(id, a))
  }

  predicate SendsNoAction(fx: seq<Effect>) {
    forall e :: e in fx ==> !(e.Send? && e.frame.req.Act?)
  }

  // ----- One step -----

  /** What a step does to the pending queue. */
  ghost predicate QueueStep(s: State, input: Input, q: Option<UserAction>, s': State) {
    if q.Some? then
      s'.nextActionId == s.nextActionId + 1 && s'.userActions == s.userActions[s.nextActionId := q.value]
    else
      && s'.nextActionId == s.nextActionId
      && (forall id :: id in s'.userActions <==> id in s.userActions && !Answers(input, id))
      && (forall id :: id in s'.userActions ==> s'.userActions[id] == s.userActions[id])
  }

  /** Where the action frames of a step come from. */
  ghost predicate FramesStep(s: State, input: Input, q: Option<UserAction>, fx: seq<Effect>) {
    forall e, id, a :: e in fx && Sends(e, id, a) ==>
      || (q == Some(a) && id == s.nextActionId && s.connected)
      || (IsLoginResponse(input) && id in s.userActions && s.userActions[id] == a)
  }

  lemma AnswerQueues(c: Config, s: State, input: Input, id: Id)
    requires !input.Recv?
    ensures var (s', fx) := Answer(c, s, input, id);
            QueueStep(s, input, Queued(c, s, input), s') && FramesStep(s, input, Queued(c, s, input), fx)
  {
    hide Queued;
  }

  lemma ReplaySendsPending(actions: map<ReqId, UserAction>)
    ensures forall e, id, a :: e in ReplayAll(actions) && Sends(e, id, a) ==> id in actions && actions[id] == a
    ensures forall id :: id in actions ==> Send(ActionFrame(id, actions[id])) in ReplayAll(actions)
  {
    hide AscendingInts;
    AscendingIntsHas(actions.Keys);
    var ids := AscendingInts(actions.Keys);
    forall id | id in actions ensures Send(ActionFrame(id, actions[id])) in ReplayAll(actions) {
      assert id in ids;
      var j :| 0 <= j < |ids| && ids[j] == id;
      assert ReplayAll(actions)[j] == Send(ActionFrame(id, actions[id]));
    }
    forall e, id, a | e in ReplayAll(actions) && Sends(e, id, a) ensures id in actions && actions[id] == a {
      var j :| 0 <= j < |ids| && ReplayAll(actions)[j] == e;
      assert ids[j] in ids;
    }
  }

  lemma LoginQueues(c: Config, s: State, input: Input)
    requires IsLoginResponse(input)
    ensures var (s', fx) := Step(c, s, input);
            QueueStep(s, input, None, s') && FramesStep(s, input, None, fx)
  {
    hide SyncView, SyncViewEffects, ReplayAll;
    var p := input.msg.value.resp.snapshot;
    SyncViewPlain(s.view, p);
    ReplaySendsPending(s.userActions);
  }

  lemma OtherMessagesQueue(c: Config, s: State, input: Input)
    requires input.Recv? && !IsLoginResponse(input)
    ensures var (s', fx) := Step(c, s, input);
            QueueStep(s, input, None, s') && SendsNoAction(fx)
  {
    hide Get, Put;
  }

  lemma StepQueues(c: Config, s: State, input: Input)
    ensures var (s', fx) := Step(c, s, input);
            QueueStep(s, input, Queued(c, s, input), s') && FramesStep(s, input, Queued(c, s, input), fx)
  {
    hide Answer, OnMessage, QueueStep, FramesStep;
    var (s', fx) := Step(c, s, input);
    match input
    case Recv(_) =>
      if IsLoginResponse(input) {
        LoginQueues(c, s, input);
      } else {
        OtherMessagesQueue(c, s, input);
        SilentFrames(s, input, fx);
      }
    case Connected | Disconnected | RegisterFcmToken(_) | AppLink(_, _, _) | StopSessionInput(_) =>
        PlainQueues(c, s, input);
    case LoginAccepted(id, binding) =>
      if WantsBinding(s, id) && binding.None? { PlainQueues(c, s, input); } else { AnswerQueues(c, s, input, id); }
    case _ => AnswerQueues(c, s, input, input.id);
  }

  lemma SilentFrames(s: State, input: Input, fx: seq<Effect>)
    requires SendsNoAction(fx)
    ensures FramesStep(s, input, None, fx)
  {
  }

  lemma PlainQueues(c: Config, s: State, input: Input)
    requires input.Connected? || input.Disconnected? || input.RegisterFcmToken? || input.AppLink?
             || input.StopSessionInput?
             || (input.LoginAccepted? && WantsBinding(s, input.id) && input.binding.None?)
    ensures var (s', fx) := Step(c, s, input);
            QueueStep(s, input, Queued(c, s, input), s') && FramesStep(s, input, Queued(c, s, input), fx)
  {
    hide Answer, OnMessage;
  }

  // ----- Every run -----

  lemma RunStep(c: Config, inputs: seq<Input>, i: nat)
    requires i < |inputs|
    ensures StateAt(c, inputs, i + 1) == Step(c, StateAt(c, inputs, i), inputs[i]).0
    ensures Run(c, inputs[..i + 1]).1 == Run(c, inputs[..i]).1 + EffectsAt(c, inputs, i)
  {
    hide Step;
    assert inputs[..i + 1][..i] == inputs[..i];
  }

  lemma RunQueues(c: Config, inputs: seq<Input>, i: nat)
    requires i < |inputs|
    ensures QueueStep(StateAt(c, inputs, i), inputs[i], QueuedAt(c, inputs, i), StateAt(c, inputs, i + 1))
    ensures FramesStep(StateAt(c, inputs, i), inputs[i], QueuedAt(c, inputs, i), EffectsAt(c, inputs, i))
  {
    hide Step, QueueStep, FramesStep, Run, Queued;
    RunStep(c, inputs, i);
    StepQueues(c, StateAt(c, inputs, i), inputs[i]);
  }

  /** Action ids start at 1 and never repeat. */
  lemma {:induction false} IdsAdvance(c: Config, inputs: seq<Input>, i: nat, j: nat)
    requires i <= j <= |inputs|
    ensures 1 <= IdAt(c, inputs, i) <= IdAt(c, inputs, j)
    ensures i < j && QueuedAt(c, inputs, i).Some? ==> IdAt(c, inputs, i) < IdAt(c, inputs, j)
    decreases i + j
  {
    hide Step, Queued, Run;
    if i < j {
      IdsAdvance(c, inputs, i, j - 1);
      RunQueues(c, inputs, j - 1);
    } else if 0 < i {
      IdsAdvance(c, inputs, i - 1, i - 1);
      RunQueues(c, inputs, i - 1);
    } else {
      StartsEmpty(c, inputs);
    }
  }

  lemma StartsEmpty(c: Config, inputs: seq<Input>)
    ensures StateAt(c, inputs, 0) == INITIAL
  {
  }

  /** Input `k` queued `a` under `id`, and nothing has answered it before step `n`. */
  ghost predicate Unanswered(c: Config, inputs: seq<Input>, n: nat, k: nat, id: ReqId, a: UserAction)
    requires n <= |inputs|
  {
    && k < n && QueuedAt(c, inputs, k) == Some(a) && IdAt(c, inputs, k) == id
    && forall j :: k < j < n ==> !Answers(inputs[j], id)
  }

  ghost predicate Pending(s: State, id: ReqId, a: UserAction) {
    id in s.userActions && s.userActions[id] == a
  }

  /** No approval is lost and none is made up: over every run, whatever connections drop and whatever
      is lost on the way, an action is pending under an id exactly when some input queued it under that
      id and no response or error with that id has arrived since. */
  lemma {:induction false} PendingExactly(c: Config, inputs: seq<Input>, n: nat, id: ReqId, a: UserAction)
    requires n <= |inputs|
    ensures Pending(StateAt(c, inputs, n), id, a) <==> exists k :: Unanswered(c, inputs, n, k, id, a)
  {
    hide Step, Queued, Run;
    if n == 0 {
      StartsEmpty(c, inputs);
    } else {
      var m := n - 1;
      PendingExactly(c, inputs, m, id, a);
      RunQueues(c, inputs, m);
      QueuingAnswersNothing(c, inputs, m, id);
      if Unanswered(c, inputs, n, m, id, a) {
      } else if exists k :: Unanswered(c, inputs, n, k, id, a) {
        var k :| Unanswered(c, inputs, n, k, id, a);
        IdsAdvance(c, inputs, k, m);
        assert Unanswered(c, inputs, m, k, id, a);
      } else if Pending(StateAt(c, inputs, n), id, a) {
        var k :| Unanswered(c, inputs, m, k, id, a);
        assert Unanswered(c, inputs, n, k, id, a);
      }
    }
  }

  lemma QueuingAnswersNothing(c: Config, inputs: seq<Input>, i: nat, id: ReqId)
    requires i < |inputs|
    ensures QueuedAt(c, inputs, i).Some? ==> !Answers(inputs[i], id)
  {
  }

  /** Every action frame ever sent was queued by an earlier or the same input, under the id it carries,
      and had not been answered when it was sent. */
  lemma {:induction false} FrameProvenance(c: Config, inputs: seq<Input>, i: nat, e: Effect, id: ReqId, a: UserAction)
      returns (k: nat)
    requires i < |inputs| && e in EffectsAt(c, inputs, i) && Sends(e, id, a)
    ensures k <= i && QueuedAt(c, inputs, k) == Some(a) && IdAt(c, inputs, k) == id && 1 <= id
    ensures forall j :: k < j < i ==> !Answers(inputs[j], id)
  {
    hide Step, Queued, Run, QueueStep;
    RunQueues(c, inputs, i);
    if QueuedAt(c, inputs, i) == Some(a) && id == IdAt(c, inputs, i) {
      k := i;
    } else {
      PendingExactly(c, inputs, i, id, a);
      assert Pending(StateAt(c, inputs, i), id, a);
      k :| Unanswered(c, inputs, i, k, id, a);
    }
    IdsAdvance(c, inputs, k, k);
  }

  /** Frames with equal action ids carry equal actions, however often they are re-sent. */
  lemma {:induction false} EqualIdsEqualActions(c: Config, inputs: seq<Input>, i: nat, j: nat, e: Effect, f: Effect,
      id: ReqId, a: UserAction, b: UserAction)
    requires i < |inputs| && e in EffectsAt(c, inputs, i) && Sends(e, id, a)
    requires j < |inputs| && f in EffectsAt(c, inputs, j) && Sends(f, id, b)
    ensures a == b
  {
    hide Step, Queued, Run, Sends;
    var k := FrameProvenance(c, inputs, i, e, id, a);
    var l := FrameProvenance(c, inputs, j, f, id, b);
    if k < l {
      IdsAdvance(c, inputs, k, l);
    } else if l < k {
      IdsAdvance(c, inputs, l, k);
    }
  }

  /** The action frames among some effects, in order. */
  function ActionFrames(fx: seq<Effect>): seq<Frame> {
    if fx == [] then []
    else
      var e := fx[|fx| - 1];
      ActionFrames(fx[..|fx| - 1]) + if e.Send? && e.frame.req.Act? then [e.frame] else []
  }

  lemma {:induction false} ActionFramesConcat(a: seq<Effect>, b: seq<Effect>)
    ensures ActionFrames(a + b) == ActionFrames(a) + ActionFrames(b)
  {
    if b == [] {
      assert a + b == a;
    } else {
      ActionFramesConcat(a, b[..|b| - 1]);
      assert (a + b)[..|a + b| - 1] == a + b[..|b| - 1];
    }
  }

  lemma {:induction false} NoActionFrames(fx: seq<Effect>)
    requires SendsNoAction(fx)
    ensures ActionFrames(fx) == []
  {
    if fx != [] {
      NoActionFrames(fx[..|fx| - 1]);
      assert fx[|fx| - 1] in fx;
    }
  }

  lemma {:induction false} ReplayedFrames(actions: map<ReqId, UserAction>, ids: seq<ReqId>)
    requires forall id :: id in ids ==> id in actions
    ensures |ActionFrames(Replay(actions, ids))| == |ids|
    ensures forall j :: 0 <= j < |ids| ==>
              ids[j] in ids && ActionFrames(Replay(actions, ids))[j] == ActionFrame(ids[j], actions[ids[j]])
  {
    if ids != [] {
      var n := |ids| - 1;
      ReplayedFrames(actions, ids[..n]);
      assert ids[n] in ids;
      assert Replay(actions, ids)[..n] == Replay(actions, ids[..n]);
    }
  }

  /** Each login response re-sends the whole pending set, each action once under its own id, in
      ascending id order, and sends no other action. */
  lemma LoginResendsPending(c: Config, inputs: seq<Input>, i: nat) returns (ids: seq<ReqId>)
    requires i < |inputs| && IsLoginResponse(inputs[i])
    ensures forall j, k :: 0 <= j < k < |ids| ==> ids[j] < ids[k]
    ensures forall id :: id in ids <==> id in StateAt(c, inputs, i).userActions
    ensures var frames := ActionFrames(EffectsAt(c, inputs, i));
            |frames| == |ids|
            && forall j :: 0 <= j < |ids| ==>
                 ids[j] in ids && frames[j] == ActionFrame(ids[j], StateAt(c, inputs, i).userActions[ids[j]])
  {
    hide SyncView, SyncViewEffects, Run, Replay;
    var s := StateAt(c, inputs, i);
    var p := inputs[i].msg.value.resp.snapshot;
    AscendingIntsHas(s.userActions.Keys);
    ids := AscendingInts(s.userActions.Keys);
    ReplayedFrames(s.userActions, ids);
    var replay, sync := ReplayAll(s.userActions), SyncViewEffects(s.view, p);
    var rest := [SessionList(p.sessions)] + PushEffects(Step(c, s, inputs[i]).0);
    SyncViewPlain(s.view, p);
    NoActionFrames(sync);
    NoActionFrames(rest);
    ActionFramesConcat(replay, sync);
    ActionFramesConcat(replay + sync, rest);
    assert EffectsAt(c, inputs, i) == replay + sync + rest;
  }

  // ----- What the host had been shown -----

  /** `e` says something about request `(k, id)`. */
  predicate About(e: Effect, k: Kind, id: Id) {
    (e.AddRequest? && e.request.Kind() == k && e.request.id == id) || (e.RemoveRequest? && e.kind == k && e.id == id)
  }

  /** The `j`-th effect is the last word about `(k, id)`, and it shows `r`. */
  predicate LastShows(fx: seq<Effect>, j: nat, k: Kind, id: Id, r: Request) {
    && j < |fx| && fx[j] == AddRequest(r) && About(fx[j], k, id)
    && forall l :: j < l < |fx| ==> !About(fx[l], k, id)
  }

  lemma {:induction false} MirrorIsLatest(fx: seq<Effect>, k: Kind, id: Id, r: Request)
    ensures id in Get(Mirror(EMPTY_VIEW, fx), k) && Get(Mirror(EMPTY_VIEW, fx), k)[id] == r
            <==> exists j :: LastShows(fx, j, k, id, r)
  {
    hide Mirror;
    if fx == [] {
      MirrorNothing(EMPTY_VIEW);
    } else {
      var n := |fx| - 1;
      var front := fx[..n];
      MirrorIsLatest(front, k, id, r);
      MirrorLast(fx);
      ApplyKeepsOthers(Mirror(EMPTY_VIEW, front), fx[n], k, id);
      if About(fx[n], k, id) {
        if fx[n] == AddRequest(r) {
          assert LastShows(fx, n, k, id, r);
        }
      } else {
        if j :| LastShows(front, j, k, id, r) {
          assert LastShows(fx, j, k, id, r);
        }
        if j :| LastShows(fx, j, k, id, r) {
          assert LastShows(front, j, k, id, r);
        }
      }
    }
  }

  lemma MirrorLast(fx: seq<Effect>)
    requires fx != []
    ensures Mirror(EMPTY_VIEW, fx) == Apply(Mirror(EMPTY_VIEW, fx[..|fx| - 1]), fx[|fx| - 1])
  {
  }

  lemma ApplyKeepsOthers(v: View, e: Effect, k: Kind, id: Id)
    ensures !About(e, k, id) ==> (id in Get(Apply(v, e), k) <==> id in Get(v, k))
    ensures !About(e, k, id) && id in Get(v, k) ==> Get(Apply(v, e), k)[id] == Get(v, k)[id]
    ensures About(e, k, id) && e.AddRequest? ==> id in Get(Apply(v, e), k) && Get(Apply(v, e), k)[id] == e.request
    ensures About(e, k, id) && e.RemoveRequest? ==> id !in Get(Apply(v, e), k)
  {
    if e.AddRequest? {
      LensLaws(v, e.request.Kind(), Get(v, e.request.Kind())[e.request.id := e.request], k, map[]);
    } else if e.RemoveRequest? {
      LensLaws(v, e.kind, Get(v, e.kind) - {e.id}, k, map[]);
    }
  }

  /** A request is live in the core before input `i` exactly when the host's latest news of it is
      that addition. */
  lemma {:induction false} LiveIffShown(c: Config, inputs: seq<Input>, i: nat, k: Kind, id: Id, r: Request)
    requires i <= |inputs|
    ensures id in Get(StateAt(c, inputs, i).view, k) && Get(StateAt(c, inputs, i).view, k)[id] == r
            <==> exists j :: LastShows(Run(c, inputs[..i]).1, j, k, id, r)
  {
    hide Mirror, Run, Get, LastShows;
    HostMirrorsCore(c, inputs[..i]);
    MirrorIsLatest(Run(c, inputs[..i]).1, k, id, r);
  }

  /** What is shown is what is signed: a signature queued by `SignMessageAccepted` is over the digest
      of the latest request the host was shown under that id, with no removal since. */
  lemma {:induction false} ShownIsSigned(c: Config, inputs: seq<Input>, i: nat, a: UserAction)
      returns (j: nat, r: Request)
    requires i < |inputs| && inputs[i].SignMessageAccepted? && QueuedAt(c, inputs, i) == Some(a)
    ensures LastShows(Run(c, inputs[..i]).1, j, SignMessageKind, inputs[i].id, r) && r.SignMessageRequest?
    ensures DecodeDigest(r.digest).Some?
            && a == AcceptSignMessage(inputs[i].id, c.signDigest(DecodeDigest(r.digest).value))
  {
    hide Run, DecodeDigest, Mirror;
    var id := inputs[i].id;
    var m := StateAt(c, inputs, i).view.signMessage;
    r := m[id];
    LiveIffShown(c, inputs, i, SignMessageKind, id, r);
    j :| LastShows(Run(c, inputs[..i]).1, j, SignMessageKind, id, r);
  }

  // ----- Gating -----

  /** The kind of request an acceptance may only answer while it is live, if there is one. */
  function GatedKind(a: UserAction): Option<Kind> {
    match a
    case AcceptSignMessage(_, _) => Some(SignMessageKind)
    case AcceptPay(_, _) => Some(PayKind)
    case AcceptFund(_, _) => Some(FundKind)
    case AcceptReceiveAddress(_, _) => Some(ReceiveAddressKind)
    case AcceptAssetBalance(_, _) => Some(AssetBalanceKind)
    case _ => None
  }

  lemma QueuedIsGated(c: Config, s: State, input: Input)
    ensures var q := Queued(c, s, input);
            q.Some? && GatedKind(q.value).Some? ==>
              q.value.id in Get(s.view, GatedKind(q.value).value) && AnswersRequest(input, q.value.id)
  {
  }

  /** The input is the user's (or host's) own answer to request `id`. */
  predicate AnswersRequest(input: Input, id: Id) {
    match input
    case SignMessageAccepted(id') => id' == id
    case SignMessageSigned(id', _) => id' == id
    case ReceiveAddressProvided(id', _) => id' == id
    case AssetBalanceProvided(id', _) => id' == id
    case PayBuilt(id', _) => id' == id
    case FundSigned(id', _) => id' == id
    case _ => false
  }

  /** Every sign-message, pay, fund, receive-address or asset-balance acceptance ever sent goes back
      to an input answering that request, given while the host's latest news of it was an addition. */
  lemma {:induction false} AcceptsWereShown(c: Config, inputs: seq<Input>, i: nat, e: Effect, id: ReqId, a: UserAction)
      returns (k: nat, j: nat, r: Request)
    requires i < |inputs| && e in EffectsAt(c, inputs, i) && Sends(e, id, a) && GatedKind(a).Some?
    ensures k <= i && QueuedAt(c, inputs, k) == Some(a) && AnswersRequest(inputs[k], a.id)
    ensures LastShows(Run(c, inputs[..k]).1, j, GatedKind(a).value, a.id, r)
  {
    hide Run, Step, Queued, Get, AnswersRequest, LastShows;
    k := FrameProvenance(c, inputs, i, e, id, a);
    QueuedIsGated(c, StateAt(c, inputs, k), inputs[k]);
    r := Get(StateAt(c, inputs, k).view, GatedKind(a).value)[a.id];
    LiveIffShown(c, inputs, k, GatedKind(a).value, a.id, r);
    j :| LastShows(Run(c, inputs[..k]).1, j, GatedKind(a).value, a.id, r);
  }

  lemma ShownWantsBinding(c: Config, inputs: seq<Input>, i: nat, j: nat, id: Id, r: Request)
    requires i <= |inputs| && LastShows(Run(c, inputs[..i]).1, j, LoginKind, id, r)
    requires r.LoginRequest? && r.serviceChallenge.Some?
    ensures WantsBinding(StateAt(c, inputs, i), id)
  {
    hide Run, LastShows;
    LiveIffShown(c, inputs, i, LoginKind, id, r);
  }

  /** Every login acceptance ever sent goes back to a `LoginAccepted` input for that request; and when
      the host's latest news of it was a request with a service challenge, it carries both a key and a
      signature. */
  lemma {:induction false} LoginsAreBound(c: Config, inputs: seq<Input>, i: nat, e: Effect, id: ReqId, a: UserAction)
      returns (k: nat)
    requires i < |inputs| && e in EffectsAt(c, inputs, i) && Sends(e, id, a) && a.AcceptLogin?
    ensures k <= i && QueuedAt(c, inputs, k) == Some(a)
    ensures inputs[k].LoginAccepted? && inputs[k].id == a.id && a.descriptor == c.descriptor
    ensures forall j, r :: LastShows(Run(c, inputs[..k]).1, j, LoginKind, a.id, r)
                           && r.LoginRequest? && r.serviceChallenge.Some?
                           ==> a.serviceKey.Some? && a.serviceSignature.Some?
  {
    hide Run, Step, LastShows;
    k := FrameProvenance(c, inputs, i, e, id, a);
    forall j, r | LastShows(Run(c, inputs[..k]).1, j, LoginKind, a.id, r) && r.LoginRequest? && r.serviceChallenge.Some?
      ensures a.serviceKey.Some? && a.serviceSignature.Some?
    {
      ShownWantsBinding(c, inputs, k, j, a.id, r);
    }
  }

  // ----- Connection flags and the push token -----

  /** What one input does to the flags and the token. */
  lemma StepFlags(c: Config, s: State, input: Input)
    ensures var s' := Step(c, s, input).0;
            && s'.connected == (input.Connected? || (s.connected && !input.Disconnected?))
            && s'.loginSucceed == (IsLoginResponse(input) || (s.loginSucceed && !input.Disconnected?))
            && s'.fcmToken == if input.RegisterFcmToken? then Some(input.token) else s.fcmToken
  {
    hide SyncView, SyncViewEffects, ReplayAll, Get, Put, Queued;
  }

  /** Input `k` brought a login response, and the connection has not been lost before step `n`. */
  predicate LoggedInBy(inputs: seq<Input>, n: nat, k: nat)
    requires n <= |inputs|
  {
    k < n && IsLoginResponse(inputs[k]) && forall j :: k < j < n ==> !inputs[j].Disconnected?
  }

  predicate ConnectedBy(inputs: seq<Input>, n: nat, k: nat)
    requires n <= |inputs|
  {
    k < n && inputs[k].Connected? && forall j :: k < j < n ==> !inputs[j].Disconnected?
  }

  predicate TokenBy(inputs: seq<Input>, n: nat, k: nat, token: string)
    requires n <= |inputs|
  {
    k < n && inputs[k] == RegisterFcmToken(token) && forall j :: k < j < n ==> !inputs[j].RegisterFcmToken?
  }

  ghost predicate SomeLogin(inputs: seq<Input>, n: nat)
    requires n <= |inputs|
  {
    exists k :: LoggedInBy(inputs, n, k)
  }

  ghost predicate SomeConnect(inputs: seq<Input>, n: nat)
    requires n <= |inputs|
  {
    exists k :: ConnectedBy(inputs, n, k)
  }

  ghost predicate SomeToken(inputs: seq<Input>, n: nat, token: string)
    requires n <= |inputs|
  {
    exists k :: TokenBy(inputs, n, k, token)
  }

  /** The flags and the token say exactly what has happened since the connection was last lost. */
  lemma {:induction false} FlagsTell(c: Config, inputs: seq<Input>, n: nat, token: string)
    requires n <= |inputs|
    ensures StateAt(c, inputs, n).loginSucceed <==> SomeLogin(inputs, n)
    ensures StateAt(c, inputs, n).connected <==> SomeConnect(inputs, n)
    ensures StateAt(c, inputs, n).fcmToken == Some(token) <==> SomeToken(inputs, n, token)
  {
    hide Step, Run, IsLoginResponse;
    if n == 0 {
      StartsEmpty(c, inputs);
    } else {
      FlagsTell(c, inputs, n - 1, token);
      RunStep(c, inputs, n - 1);
      StepFlags(c, StateAt(c, inputs, n - 1), inputs[n - 1]);
      OneMoreLogin(inputs, n);
      OneMoreConnect(inputs, n);
      OneMoreToken(inputs, n, token);
    }
  }

  lemma OneMoreLogin(inputs: seq<Input>, n: nat)
    requires 0 < n <= |inputs|
    ensures SomeLogin(inputs, n) <==>
            IsLoginResponse(inputs[n - 1]) || (SomeLogin(inputs, n - 1) && !inputs[n - 1].Disconnected?)
  {
    if k: nat :| LoggedInBy(inputs, n, k) { assert k < n - 1 ==> LoggedInBy(inputs, n - 1, k); }
    if SomeLogin(inputs, n - 1) {
      var k :| LoggedInBy(inputs, n - 1, k);
      assert !inputs[n - 1].Disconnected? ==> LoggedInBy(inputs, n, k);
    }
    assert IsLoginResponse(inputs[n - 1]) ==> LoggedInBy(inputs, n, n - 1);
  }

  lemma OneMoreConnect(inputs: seq<Input>, n: nat)
    requires 0 < n <= |inputs|
    ensures SomeConnect(inputs, n)
            <==> inputs[n - 1].Connected? || (SomeConnect(inputs, n - 1) && !inputs[n - 1].Disconnected?)
  {
    if k: nat :| ConnectedBy(inputs, n, k) { assert k < n - 1 ==> ConnectedBy(inputs, n - 1, k); }
    if SomeConnect(inputs, n - 1) {
      var k :| ConnectedBy(inputs, n - 1, k);
      assert !inputs[n - 1].Disconnected? ==> ConnectedBy(inputs, n, k);
    }
    assert inputs[n - 1].Connected? ==> ConnectedBy(inputs, n, n - 1);
  }

  lemma OneMoreToken(inputs: seq<Input>, n: nat, token: string)
    requires 0 < n <= |inputs|
    ensures SomeToken(inputs, n, token)
            <==>
            || inputs[n - 1] == RegisterFcmToken(token)
            || (SomeToken(inputs, n - 1, token) && !inputs[n - 1].RegisterFcmToken?)
  {
    if k: nat :| TokenBy(inputs, n, k, token) { assert k < n - 1 ==> TokenBy(inputs, n - 1, k, token); }
    if SomeToken(inputs, n - 1, token) {
      var k :| TokenBy(inputs, n - 1, k, token);
      assert !inputs[n - 1].RegisterFcmToken? ==> TokenBy(inputs, n, k, token);
    }
    assert inputs[n - 1] == RegisterFcmToken(token) ==> TokenBy(inputs, n, n - 1, token);
  }

  predicate Pushes(e: Effect, token: string) {
    e.Send? && e.frame.req == RegisterFcm(token)
  }

  predicate PushesNothing(fx: seq<Effect>) {
    forall e :: e in fx ==> !(e.Send? && e.frame.req.RegisterFcm?)
  }

  lemma {:induction false} SetEffectsPushNothing(reports: seq<Report>)
    ensures PushesNothing(SetEffects(reports))
  {
    if reports != [] {
      SetEffectsPushNothing(reports[..|reports| - 1]);
    }
  }

  lemma SyncViewPushesNothing(v: View, p: Snapshot)
    ensures PushesNothing(SyncViewEffects(v, p))
  {
    hide Ascending, SetEffects, Inserted, Keep, IdSet, Domains;
    SetEffectsPushNothing(p.holdings);
  }

  lemma StepPushes(c: Config, s: State, input: Input, e: Effect, token: string)
    requires e in Step(c, s, input).1 && Pushes(e, token)
    ensures var s' := Step(c, s, input).0; LoggedIn(s') && s'.fcmToken == Some(token)
  {
    hide SyncView, SyncViewEffects, ReplayAll, Get, Put, Queued;
    if IsLoginResponse(input) {
      SyncViewPushesNothing(s.view, input.msg.value.resp.snapshot);
      ReplayPushesNothing(s.userActions);
    }
  }

  lemma ReplayPushesNothing(actions: map<ReqId, UserAction>)
    ensures PushesNothing(ReplayAll(actions))
  {
  }

  /** Push registration is sent only between a login response and the next disconnect, on a live
      connection, and with the token registered last. */
  lemma {:induction false} PushesOnlyLoggedIn(c: Config, inputs: seq<Input>, i: nat, e: Effect, token: string)
    requires i < |inputs| && e in EffectsAt(c, inputs, i) && Pushes(e, token)
    ensures SomeLogin(inputs, i + 1) && SomeConnect(inputs, i + 1) && SomeToken(inputs, i + 1, token)
  {
    hide Step, Run, SomeLogin, SomeConnect, SomeToken;
    RunStep(c, inputs, i);
    StepPushes(c, StateAt(c, inputs, i), inputs[i], e, token);
    FlagsTell(c, inputs, i + 1, token);
  }
}
