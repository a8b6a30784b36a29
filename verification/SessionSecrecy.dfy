/** The wallet's descriptor leaves the core only inside login acceptances (`core.rs`): two wallets
    that differ in their descriptor alone behave the same up to that field, over every run. */
module SessionSecrecy {
  import opened Common
  import opened Wire
  import opened Session
  import opened SessionSync

  /** `a` as a wallet with descriptor `d` would have queued it. */
  function RetellAction(a: UserAction, d: string): UserAction {
    if a.AcceptLogin? then a.(descriptor := d) else a
  }

  function RetellEffect(e: Effect, d: string): Effect {
    match e
    case Send(Frame(id, Act(a))) => Send(Frame(id, Act(RetellAction(a, d))))
    case ActionFailed(a, message) => ActionFailed(RetellAction(a, d), message)
    case _ => e
  }

  function Retell(fx: seq<Effect>, d: string): (r: seq<Effect>)
    ensures |r| == |fx|
  {
    seq(|fx|, i requires 0 <= i < |fx| => RetellEffect(fx[i], d))
  }

  function RetellPending(m: map<ReqId, UserAction>, d: string): map<ReqId, UserAction> {
    map id | id in m :: RetellAction(m[id], d)
  }

  function RetellState(s: State, d: string): State { s.(userActions := RetellPending(s.userActions, d)) }

  lemma RetellConcat(a: seq<Effect>, b: seq<Effect>, d: string)
    ensures Retell(a + b, d) == Retell(a, d) + Retell(b, d)
  {
  }

  lemma RetellPlain(fx: seq<Effect>, d: string)
    requires Plain(fx)
    ensures Retell(fx, d) == fx
  {
    forall i | 0 <= i < |fx| ensures RetellEffect(fx[i], d) == fx[i] {
      assert fx[i] in fx;
    }
  }

  lemma QueuedRetold(c: Config, s: State, input: Input, d: string)
    ensures var q, q' := Queued(c, s, input), Queued(c.(descriptor := d), RetellState(s, d), input);
            q' == if q.Some? then Some(RetellAction(q.value, d)) else None
  {
  }

  lemma AnswerRetold(c: Config, s: State, input: Input, id: Id, d: string)
    ensures var (s', fx) := Answer(c, s, input, id);
            Answer(c.(descriptor := d), RetellState(s, d), input, id) == (RetellState(s', d), Retell(fx, d))
  {
    hide Queued, RetellAction;
    QueuedRetold(c, s, input, d);
    EnqueueRetold(s, Queued(c, s, input), d);
    var (s1, fx1) := EnqueueIf(s, Queued(c, s, input));
    var (s2, fx2) := Finish(s1, id);
    RetellPlain(fx2, d);
    RetellConcat(fx1, fx2, d);
  }

  lemma EnqueueRetold(s: State, q: Option<UserAction>, d: string)
    ensures var (s', fx) := EnqueueIf(s, q);
            EnqueueIf(RetellState(s, d), if q.Some? then Some(RetellAction(q.value, d)) else None)
            == (RetellState(s', d), Retell(fx, d))
  {
    hide RetellAction;
    if q.Some? {
      var n := s.nextActionId;
      assert RetellPending(s.userActions[n := q.value], d)
          == RetellPending(s.userActions, d)[n := RetellAction(q.value, d)];
      assert s.connected ==>
          Retell([Send(ActionFrame(n, q.value))], d) == [Send(ActionFrame(n, RetellAction(q.value, d)))];
    }
  }

  lemma ReplayRetold(actions: map<ReqId, UserAction>, d: string)
    ensures Retell(ReplayAll(actions), d) == ReplayAll(RetellPending(actions, d))
  {
    hide AscendingInts, RetellAction;
    AscendingIntsHas(actions.Keys);
    assert RetellPending(actions, d).Keys == actions.Keys;
    var ids := AscendingInts(actions.Keys);
    forall j | 0 <= j < |ids| ensures Retell(ReplayAll(actions), d)[j] == ReplayAll(RetellPending(actions, d))[j] {
      assert ids[j] in ids;
    }
  }

  lemma ResponseRetold(c: Config, s: State, id: ReqId, resp: Resp, d: string)
    ensures var (s', fx) := OnResponse(c, s, id, resp);
            OnResponse(c.(descriptor := d), RetellState(s, d), id, resp) == (RetellState(s', d), Retell(fx, d))
  {
    hide SyncView, SyncViewEffects, ReplayAll, RetellAction;
    match resp
    case LoginResp(p) =>
      var s' := s.(loginSucceed := true, view := SyncView(s.view, p));
      var rest := SyncViewEffects(s.view, p) + [SessionList(p.sessions)] + PushEffects(s');
      SyncViewPlain(s.view, p);
      RetellPlain(rest, d);
      ReplayRetold(s.userActions, d);
      RetellConcat(ReplayAll(s.userActions), rest, d);
      assert OnResponse(c, s, id, resp).1 == ReplayAll(s.userActions) + rest;
      assert OnResponse(c.(descriptor := d), RetellState(s, d), id, resp).1
          == ReplayAll(RetellPending(s.userActions, d)) + rest;
    case UserActionResp =>
      assert RetellPending(s.userActions - {id}, d) == RetellPending(s.userActions, d) - {id};
    case _ =>
      RetellPlain(OnResponse(c, s, id, resp).1, d);
  }

  lemma NotificationRetold(s: State, n: Notif, d: string)
    ensures var (s', fx) := OnNotification(s, n);
            OnNotification(RetellState(s, d), n) == (RetellState(s', d), Retell(fx, d))
  {
    hide Get, Put, RetellAction;
    RetellPlain(OnNotification(s, n).1, d);
  }

  lemma ErrorRetold(c: Config, s: State, msg: From, d: string)
    requires msg.ErrorFrom?
    ensures var (s', fx) := OnMessage(c, s, msg);
            OnMessage(c.(descriptor := d), RetellState(s, d), msg) == (RetellState(s', d), Retell(fx, d))
  {
    hide RetellAction;
    var id := msg.id;
    assert RetellPending(s.userActions - {id}, d) == RetellPending(s.userActions, d) - {id};
    if id in s.userActions {
      var a := s.userActions[id];
      assert Retell([ActionFailed(a, msg.message)], d) == [ActionFailed(RetellAction(a, d), msg.message)];
    }
  }

  lemma MessageRetold(c: Config, s: State, msg: From, d: string)
    ensures var (s', fx) := OnMessage(c, s, msg);
            OnMessage(c.(descriptor := d), RetellState(s, d), msg) == (RetellState(s', d), Retell(fx, d))
  {
    hide OnResponse, OnNotification, RetellAction;
    match msg
    case RespFrom(id, resp) => ResponseRetold(c, s, id, resp, d);
    case NotifFrom(n) => NotificationRetold(s, n, d);
    case ErrorFrom(id, _) => ErrorRetold(c, s, msg, d);
  }

  lemma StepRetold(c: Config, s: State, input: Input, d: string)
    ensures var (s', fx) := Step(c, s, input);
            Step(c.(descriptor := d), RetellState(s, d), input) == (RetellState(s', d), Retell(fx, d))
  {
    hide Answer, OnMessage, Queued, EnqueueIf, RetellAction, RetellPending;
    match input
    case Recv(msg) => if msg.Some? { MessageRetold(c, s, msg.value, d); }
    case AppLink(_, id, isMobile) =>
      var s1 := if isMobile then s.(mobileRequests := s.mobileRequests + {id}) else s;
      QueuedRetold(c, s, input, d);
      EnqueueRetold(s1, Queued(c, s, input), d);
    case StopSessionInput(_) =>
      QueuedRetold(c, s, input, d);
      EnqueueRetold(s, Queued(c, s, input), d);
    case Connected | Disconnected | RegisterFcmToken(_) =>
      RetellPlain(Step(c, s, input).1, d);
    case LoginAccepted(id, binding) =>
      if WantsBinding(s, id) && binding.None? {
        CancelRetold(Step(c, s, input).1, d);
      } else {
        AnswerRetold(c, s, input, id, d);
      }
    case _ => AnswerRetold(c, s, input, input.id, d);
  }

  lemma CancelRetold(fx: seq<Effect>, d: string)
    requires |fx| == 1 && fx[0].ActionFailed? && fx[0].action.Cancel?
    ensures Retell(fx, d) == fx
  {
  }

  /** The descriptor leaves only in login acceptances: over every run, changing the wallet's descriptor
      changes that field of the login acceptances it queues and sends, and nothing else. */
  lemma {:induction false} DescriptorIsConfined(c: Config, inputs: seq<Input>, d: string)
    ensures var (s, fx) := Run(c, inputs);
            Run(c.(descriptor := d), inputs) == (RetellState(s, d), Retell(fx, d))
  {
    hide Step, Retell, RetellPending;
    if inputs == [] {
      NothingRetold(d);
    } else {
      var n := |inputs| - 1;
      DescriptorIsConfined(c, inputs[..n], d);
      var (s, fx) := Run(c, inputs[..n]);
      StepRetold(c, s, inputs[n], d);
      RetellConcat(fx, Step(c, s, inputs[n]).1, d);
    }
  }

  lemma NothingRetold(d: string)
    ensures RetellState(INITIAL, d) == INITIAL && Retell([], d) == []
  {
    assert RetellPending(map[], d) == map[];
  }

  lemma DescriptorUnread(c: Config, s: State, input: Input, d: string)
    requires !input.LoginAccepted?
    ensures Step(c.(descriptor := d), s, input) == Step(c, s, input)
  {
    hide SyncView, SyncViewEffects, ReplayAll, OnNotification;
  }

  /** Until the user approves a login the descriptor has no influence at all. */
  lemma {:induction false} DescriptorUnusedBeforeLogin(c: Config, inputs: seq<Input>, d: string)
    requires forall i :: 0 <= i < |inputs| ==> !inputs[i].LoginAccepted?
    ensures Run(c.(descriptor := d), inputs) == Run(c, inputs)
  {
    hide Step;
    if inputs != [] {
      var n := |inputs| - 1;
      DescriptorUnusedBeforeLogin(c, inputs[..n], d);
      DescriptorUnread(c, Run(c, inputs[..n]).0, inputs[n], d);
    }
  }
}
