/** What the transport's order of steps guarantees, over every script of network and host moves. */
module TransportTheorems {
  import opened Common
  import opened Wire
  import opened Session
  import opened SessionMirror
  import opened SessionSync
  import opened SessionRuns
  import opened Transport

  // ----- Order of frames and events -----

  ghost predicate Lists(at: seq<nat>, fx: seq<Effect>, sends: bool) {
    StrictlyAscending(at) && forall i: nat :: i in at <==> i < |fx| && fx[i].Send? == sends
  }

  lemma {:induction false} FramePositions(fx: seq<Effect>) returns (at: seq<nat>)
    ensures Lists(at, fx, true) && |Frames(fx)| == |at|
    ensures forall i :: 0 <= i < |at| ==> at[i] < |fx| && fx[at[i]] == Send(Frames(fx)[i])
  {
    hide Lists;
    at := [];
    if fx == [] {
      ListsNothing(true);
    } else {
      var n := |fx| - 1;
      at := FramePositions(fx[..n]);
      ListMore(at, fx, true);
      if fx[n].Send? { at := at + [n]; }
    }
  }

  lemma {:induction false} EventPositions(fx: seq<Effect>) returns (at: seq<nat>)
    ensures Lists(at, fx, false) && |Events(fx)| == |at|
    ensures forall i :: 0 <= i < |at| ==> at[i] < |fx| && Told(fx[at[i]]) == Events(fx)[i]
  {
    hide Lists;
    at := [];
    if fx == [] {
      ListsNothing(false);
    } else {
      var n := |fx| - 1;
      at := EventPositions(fx[..n]);
      ListMore(at, fx, false);
      if !fx[n].Send? { at := at + [n]; }
    }
  }

  lemma ListsNothing(sends: bool)
    ensures Lists([], [], sends)
  {
  }

  /** Nothing is lost or reordered: frames and events stand at exactly the positions, in order, of the
      effects they come from. */
  lemma ApplyKeepsOrder(fx: seq<Effect>) returns (sends: seq<nat>, tells: seq<nat>)
    ensures StrictlyAscending(sends) && forall i: nat :: i in sends <==> i < |fx| && fx[i].Send?
    ensures StrictlyAscending(tells) && forall i: nat :: i in tells <==> i < |fx| && !fx[i].Send?
    ensures |Frames(fx)| == |sends|
    ensures forall i :: 0 <= i < |sends| ==> sends[i] < |fx| && fx[sends[i]] == Send(Frames(fx)[i])
    ensures |Events(fx)| == |tells|
    ensures forall i :: 0 <= i < |tells| ==> tells[i] < |fx| && Told(fx[tells[i]]) == Events(fx)[i]
  {
    hide Frames, Events;
    sends := FramePositions(fx);
    tells := EventPositions(fx);
  }

  lemma ListMore(at: seq<nat>, fx: seq<Effect>, sends: bool)
    requires fx != [] && Lists(at, fx[..|fx| - 1], sends)
    ensures Lists(if fx[|fx| - 1].Send? == sends then at + [|fx| - 1] else at, fx, sends)
  {
    var n := |fx| - 1;
    var at' := if fx[n].Send? == sends then at + [n] else at;
    forall i, j | 0 <= i < j < |at'| ensures at'[i] < at'[j] { assert at[i] in at; }
  }

  // ----- The host's events -----

  /** The core effects among the events. */
  function Shown(events: seq<Event>): seq<Effect> {
    if events == [] then []
    else
      var e := events[|events| - 1];
      Shown(events[..|events| - 1]) + if e.Told? then [e.effect] else []
  }

  lemma {:induction false} ShownConcat(a: seq<Event>, b: seq<Event>)
    ensures Shown(a + b) == Shown(a) + Shown(b)
  {
    if b == [] {
      assert a + b == a;
    } else {
      ShownConcat(a, b[..|b| - 1]);
      assert (a + b)[..|a + b| - 1] == a + b[..|b| - 1];
    }
  }

  lemma {:induction false} FramesAreSilent(v: View, fx: seq<Effect>)
    ensures Mirror(v, Shown(Events(fx))) == Mirror(v, fx)
  {
    if fx != [] {
      var n := |fx| - 1;
      FramesAreSilent(v, fx[..n]);
      if fx[n].Send? {
        assert Events(fx) == Events(fx[..n]);
      } else {
        ShownConcat(Events(fx[..n]), [Told(fx[n])]);
        assert Shown([Told(fx[n])]) == [fx[n]];
        MirrorConcat(v, Shown(Events(fx[..n])), [fx[n]]);
        MirrorOne(Mirror(v, fx[..n]), fx[n]);
      }
    }
  }

  /** The life of a connection as the host sees it. */
  datatype Phase = Off | On | In

  function Feed(p: Option<Phase>, e: Event): Option<Phase> {
    match (p, e)
    case (_, Told(_)) => p
    case (Some(Off), ConnectedEvent) => Some(On)
    case (Some(On), LoggedInEvent) => Some(In)
    case (Some(On), DisconnectedEvent) => Some(Off)
    case (Some(In), DisconnectedEvent) => Some(Off)
    case (_, _) => None
  }

  /** Where a sequence of events leaves the host; `None` if it is not a repetition of connected, at
      most one logged-in, and disconnected. */
  function PhaseAfter(events: seq<Event>): Option<Phase> {
    if events == [] then Some(Off) else Feed(PhaseAfter(events[..|events| - 1]), events[|events| - 1])
  }

  lemma PhaseOneMore(events: seq<Event>, e: Event)
    ensures PhaseAfter(events + [e]) == Feed(PhaseAfter(events), e)
  {
    assert (events + [e])[..|events|] == events;
  }

  lemma ToldChangesNothing(p: Option<Phase>, e: Effect)
    ensures Feed(p, Told(e)) == p
  {
  }

  lemma EventsLast(fx: seq<Effect>)
    requires fx != []
    ensures Events(fx) == Events(fx[..|fx| - 1]) + if fx[|fx| - 1].Send? then [] else [Told(fx[|fx| - 1])]
  {
  }

  lemma {:induction false} TellingKeepsPhase(events: seq<Event>, fx: seq<Effect>)
    ensures PhaseAfter(events + Events(fx)) == PhaseAfter(events)
  {
    if fx == [] {
      assert events + Events(fx) == events;
    } else {
      hide PhaseAfter, Feed, Events;
      var n := |fx| - 1;
      TellingKeepsPhase(events, fx[..n]);
      EventsLast(fx);
      var front := events + Events(fx[..n]);
      if fx[n].Send? {
        assert events + Events(fx) == front;
      } else {
        assert events + Events(fx) == front + [Told(fx[n])];
        PhaseOneMore(front, Told(fx[n]));
        ToldChangesNothing(PhaseAfter(front), fx[n]);
      }
    }
  }

  // ----- Invariants of every reachable state -----

  ghost predicate Delivered(n: Net, s: State) {
    forall id :: id in s.userActions ==> ActionFrame(id, s.userActions[id]) in n.delivered
  }

  ghost predicate NetInv(n: Net) {
    && n.core.connected == !n.status.Down?
    && (n.core.loginSucceed ==> n.core.connected)
    && (!n.status.Down? ==> n.wasLoggedIn == n.core.loginSucceed)
    && PhaseAfter(n.events) == Some(if n.status.Down? then Off else if n.wasLoggedIn then In else On)
    && Mirror(EMPTY_VIEW, Shown(n.events)) == n.core.view
    && (n.status.Up? && n.core.loginSucceed ==> Delivered(n, n.core))
  }

  lemma StepTells(c: Config, n: Net, input: Input)
    requires Mirror(EMPTY_VIEW, Shown(n.events)) == n.core.view
    ensures var n' := CoreStep(c, n, input).0; Mirror(EMPTY_VIEW, Shown(n'.events)) == n'.core.view
  {
    hide Step, Mirror, Shown, Events;
    var fx := Step(c, n.core, input).1;
    MirrorStep(c, n.core, input);
    ShownConcat(n.events, Events(fx));
    MirrorConcat(EMPTY_VIEW, Shown(n.events), Shown(Events(fx)));
    FramesAreSilent(n.core.view, fx);
  }

  lemma OwnEventsShowNothing(events: seq<Event>, e: Event)
    requires !e.Told?
    ensures Shown(events + [e]) == Shown(events)
  {
    assert (events + [e])[..|events|] == events;
  }

  /** A step sends every pending action it does not find already queued, and a login response sends
      them all. */
  lemma StepSendsNew(c: Config, s: State, input: Input, id: ReqId)
    requires s.connected && !input.Disconnected?
    ensures var (s', fx) := Step(c, s, input);
            id in s'.userActions ==>
              || Send(ActionFrame(id, s'.userActions[id])) in fx
              || (!IsLoginResponse(input) && id in s.userActions && s.userActions[id] == s'.userActions[id])
  {
    hide SyncView, SyncViewEffects, ReplayAll, Get, Put, Queued;
    if IsLoginResponse(input) {
      ReplaySendsPending(s.userActions);
    }
  }

  lemma {:induction false} SentIsFramed(fx: seq<Effect>, f: Frame)
    ensures Send(f) in fx <==> f in Frames(fx)
  {
    if fx != [] {
      SentIsFramed(fx[..|fx| - 1], f);
      assert fx == fx[..|fx| - 1] + [fx[|fx| - 1]];
    }
  }

  /** If the sink takes every frame of a step, the new state's pending actions have been delivered. */
  lemma AllTaken(c: Config, n: Net, input: Input)
    requires n.core.connected && !input.Disconnected? && (n.core.loginSucceed ==> Delivered(n, n.core))
    ensures var (n', frames) := CoreStep(c, n, input);
            n'.core.loginSucceed ==> Delivered(n'.(delivered := n'.delivered + frames), n'.core)
  {
    hide Step, Frames;
    var (s', fx) := Step(c, n.core, input);
    StepFlags(c, n.core, input);
    if s'.loginSucceed {
      forall id | id in s'.userActions ensures ActionFrame(id, s'.userActions[id]) in n.delivered + Frames(fx) {
        StepSendsNew(c, n.core, input, id);
        SentIsFramed(fx, ActionFrame(id, s'.userActions[id]));
      }
    }
  }

  lemma HandlePhase(c: Config, n: Net, input: Input)
    ensures PhaseAfter(CoreStep(c, n, input).0.events) == PhaseAfter(n.events)
  {
    hide Step;
    TellingKeepsPhase(n.events, Step(c, n.core, input).1);
  }

  lemma DisconnectKeepsInv(c: Config, n: Net)
    requires PhaseAfter(n.events) in {Some(On), Some(In)} && Mirror(EMPTY_VIEW, Shown(n.events)) == n.core.view
    ensures NetInv(Disconnect(c, n))
  {
    hide Step, Mirror, Shown, PhaseAfter, Delivered;
    var n' := CoreStep(c, n, Disconnected).0;
    StepTells(c, n, Disconnected);
    HandlePhase(c, n, Disconnected);
    StepFlags(c, n.core, Disconnected);
    PhaseOneMore(n'.events, DisconnectedEvent);
    OwnEventsShowNothing(n'.events, DisconnectedEvent);
  }

  lemma ConnectKeepsInv(c: Config, n: Net, accepted: nat)
    requires NetInv(n) && n.status.Down?
    ensures NetInv(NetStep(c, n, Connects(accepted)))
  {
    hide Step, Mirror, Shown, PhaseAfter, Delivered, Frames, Events;
    var n' := CoreStep(c, n, Connected).0;
    StepTells(c, n, Connected);
    HandlePhase(c, n, Connected);
    StepFlags(c, n.core, Connected);
    PhaseOneMore(n'.events, ConnectedEvent);
    OwnEventsShowNothing(n'.events, ConnectedEvent);
  }

  /** The frames of a handled input, whether the sink takes them all or not. */
  lemma SendKeepsInv(c: Config, n: Net, frames: seq<Frame>, accepted: nat)
    requires n.status.Up? && n.core.connected && n.wasLoggedIn == n.core.loginSucceed
    requires PhaseAfter(n.events) == Some(if n.wasLoggedIn then In else On)
             && Mirror(EMPTY_VIEW, Shown(n.events)) == n.core.view
    requires n.core.loginSucceed ==> Delivered(n.(delivered := n.delivered + frames), n.core)
    ensures NetInv(SendAll(c, n, frames, accepted))
  {
    hide Mirror, Shown, PhaseAfter, Delivered, Disconnect;
    if accepted < |frames| {
      DisconnectKeepsInv(c, n.(delivered := n.delivered + frames[..accepted]));
    }
  }

  lemma NoteLoginKeeps(n: Net)
    requires n.core.connected && (n.wasLoggedIn ==> n.core.loginSucceed)
             && PhaseAfter(n.events) == Some(if n.wasLoggedIn then In else On)
    ensures var n' := NoteLogin(n);
            && n' == n.(wasLoggedIn := n'.wasLoggedIn, events := n'.events) && n'.wasLoggedIn == n.core.loginSucceed
            && PhaseAfter(n'.events) == Some(if n'.wasLoggedIn then In else On) && Shown(n'.events) == Shown(n.events)
  {
    hide PhaseAfter, Shown;
    PhaseOneMore(n.events, LoggedInEvent);
    OwnEventsShowNothing(n.events, LoggedInEvent);
  }

  lemma ReceiveKeepsInv(c: Config, n: Net, msg: Option<From>, accepted: nat)
    requires NetInv(n) && n.status.Up?
    ensures NetInv(NetStep(c, n, Receives(msg, accepted)))
  {
    hide Step, Mirror, Shown, PhaseAfter, Delivered, Frames, Events, SendAll, NoteLogin;
    var (n', frames) := CoreStep(c, n, Recv(msg));
    StepTells(c, n, Recv(msg));
    HandlePhase(c, n, Recv(msg));
    StepFlags(c, n.core, Recv(msg));
    AllTaken(c, n, Recv(msg));
    NoteLoginKeeps(n');
    var n2 := NoteLogin(n');
    SameDelivered(n'.(delivered := n'.delivered + frames), n2.(delivered := n2.delivered + frames), n'.core);
    SendKeepsInv(c, n2, frames, accepted);
  }

  lemma SameDelivered(a: Net, b: Net, s: State)
    requires a.delivered == b.delivered
    ensures Delivered(a, s) == Delivered(b, s)
  {
  }

  lemma TakeKeepsInv(c: Config, n: Net, accepted: nat)
    requires NetInv(n) && n.status.Up? && n.waiting != []
    ensures NetInv(NetStep(c, n, Takes(accepted)))
  {
    hide Step, Mirror, Shown, PhaseAfter, Delivered, Frames, Events, SendAll;
    var input, n0 := n.waiting[0], n.(waiting := n.waiting[1..]);
    var (n', frames) := CoreStep(c, n0, input);
    SameDelivered(n, n0, n.core);
    StepTells(c, n0, input);
    HandlePhase(c, n0, input);
    StepFlags(c, n.core, input);
    AllTaken(c, n0, input);
    SendKeepsInv(c, n', frames, accepted);
  }

  lemma GiveKeepsInv(c: Config, n: Net, input: HostInput)
    requires NetInv(n)
    ensures NetInv(NetStep(c, n, Gives(input)))
  {
    hide Mirror, Shown, PhaseAfter;
  }

  lemma NetStepKeepsInv(c: Config, n: Net, m: Move)
    requires NetInv(n)
    ensures NetInv(NetStep(c, n, m))
  {
    hide Step, Mirror, Shown, PhaseAfter, Delivered, SendAll, Disconnect, CoreStep;
    match m
    case Connects(accepted) => if n.status.Down? { ConnectKeepsInv(c, n, accepted); }
    case Receives(msg, accepted) => if n.status.Up? { ReceiveKeepsInv(c, n, msg, accepted); }
    case Gives(input) => GiveKeepsInv(c, n, input);
    case Takes(accepted) => if n.status.Up? && n.waiting != [] { TakeKeepsInv(c, n, accepted); }
    case Drops => if n.status.Up? { DisconnectKeepsInv(c, n); }
    case _ =>
  }

  lemma {:induction false} NetAlways(c: Config, moves: seq<Move>)
    ensures NetInv(NetAfter(c, moves))
  {
    hide NetStep, NetInv;
    if moves == [] {
      StartHoldsInv();
    } else {
      NetAlways(c, moves[..|moves| - 1]);
      NetStepKeepsInv(c, NetAfter(c, moves[..|moves| - 1]), moves[|moves| - 1]);
    }
  }

  lemma StartHoldsInv()
    ensures NetInv(START)
  {
  }

  /** `login_succeed` implies `connected`, and both follow the loop. */
  lemma {:induction false} LoginImpliesConnected(c: Config, moves: seq<Move>)
    ensures var n := NetAfter(c, moves);
            && (n.core.loginSucceed ==> n.core.connected) && (n.core.connected <==> !n.status.Down?)
            && (n.core.connected ==> n.wasLoggedIn == n.core.loginSucceed)
  {
    hide NetAfter, PhaseAfter, Mirror, Shown, Delivered;
    NetAlways(c, moves);
  }

  /** A host that folds the events it is sent holds the core's maps after every move. */
  lemma {:induction false} HostMirrorsThroughEvents(c: Config, moves: seq<Move>)
    ensures Mirror(EMPTY_VIEW, Shown(NetAfter(c, moves).events)) == NetAfter(c, moves).core.view
  {
    hide NetAfter, PhaseAfter, Mirror, Shown, Delivered;
    NetAlways(c, moves);
  }

  /** While a logged-in connection is up, every approval not yet answered has been delivered on this
      very connection, whatever earlier connections lost. */
  lemma {:induction false} PendingIsDelivered(c: Config, moves: seq<Move>, id: ReqId)
    requires var n := NetAfter(c, moves); n.status.Up? && n.core.loginSucceed && id in n.core.userActions
    ensures ActionFrame(id, NetAfter(c, moves).core.userActions[id]) in NetAfter(c, moves).delivered
  {
    hide NetAfter, PhaseAfter, Mirror, Shown;
    NetAlways(c, moves);
  }

  lemma {:induction false} PhaseOfPrefix(events: seq<Event>, i: nat)
    requires i <= |events| && PhaseAfter(events).Some?
    ensures PhaseAfter(events[..i]).Some?
    decreases |events| - i
  {
    if i < |events| {
      PhaseOfPrefix(events, i + 1);
      assert events[..i + 1][..i] == events[..i];
    } else {
      assert events[..i] == events;
    }
  }

  lemma {:induction false} StaysIn(events: seq<Event>, i: nat, j: nat)
    requires i < j <= |events| && PhaseAfter(events).Some? && events[i].LoggedInEvent?
    requires forall k :: i < k < j ==> !events[k].DisconnectedEvent?
    ensures PhaseAfter(events[..j]) == Some(In)
  {
    PhaseOfPrefix(events, j);
    assert events[..j][..j - 1] == events[..j - 1];
    if i + 1 < j {
      StaysIn(events, i, j - 1);
    }
  }

  /** Each connection yields at most one logged-in event: between two of them the host is told of a
      disconnect. */
  lemma {:induction false} OneLoggedInPerConnection(c: Config, moves: seq<Move>, i: nat, j: nat)
    requires i < j < |NetAfter(c, moves).events|
    requires NetAfter(c, moves).events[i].LoggedInEvent? && NetAfter(c, moves).events[j].LoggedInEvent?
    ensures exists k :: i < k < j && NetAfter(c, moves).events[k].DisconnectedEvent?
  {
    hide NetAfter, Mirror, Shown, Delivered;
    NetAlways(c, moves);
    var events := NetAfter(c, moves).events;
    PhaseOfPrefix(events, j + 1);
    assert events[..j + 1][..j] == events[..j];
    if forall k :: i < k < j ==> !events[k].DisconnectedEvent? {
      StaysIn(events, i, j);
    }
  }

  // ----- The core's own run -----

  lemma HandleRuns(c: Config, n: Net, input: Input)
    requires n.core == Run(c, n.inputs).0
    ensures var n' := CoreStep(c, n, input).0; n'.core == Run(c, n'.inputs).0 && n'.inputs == n.inputs + [input]
  {
    hide Step;
    assert (n.inputs + [input])[..|n.inputs|] == n.inputs;
  }

  /** Every state the transport's core reaches is one a run of the core reaches, so what holds over
      every run of the core holds here. */
  lemma {:induction false} CoreRuns(c: Config, moves: seq<Move>)
    ensures var n := NetAfter(c, moves); n.core == Run(c, n.inputs).0
  {
    hide Step, CoreStep, Run, Frames, Events;
    if moves == [] {
      RunOfNothing(c);
    } else {
      CoreRuns(c, moves[..|moves| - 1]);
      var n := NetAfter(c, moves[..|moves| - 1]);
      CoreStepRuns(c, n, moves[|moves| - 1]);
    }
  }

  lemma RunOfNothing(c: Config)
    ensures Run(c, []).0 == INITIAL
  {
  }

  lemma CoreStepRuns(c: Config, n: Net, m: Move)
    requires n.core == Run(c, n.inputs).0
    ensures var n' := NetStep(c, n, m); n'.core == Run(c, n'.inputs).0
  {
    hide Step, CoreStep, Run, Frames, Events;
    match m
    case Connects(accepted) => HandleRuns(c, n, Connected);
    case Receives(msg, accepted) =>
      HandleRuns(c, n, Recv(msg));
      SendRuns(c, NoteLogin(CoreStep(c, n, Recv(msg)).0), CoreStep(c, n, Recv(msg)).1, accepted);
    case Takes(accepted) =>
      if n.waiting != [] {
        var input, n0 := n.waiting[0], n.(waiting := n.waiting[1..]);
        HandleRuns(c, n0, input);
        SendRuns(c, CoreStep(c, n0, input).0, CoreStep(c, n0, input).1, accepted);
      }
    case Drops => HandleRuns(c, n, Disconnected);
    case _ =>
  }

  lemma SendRuns(c: Config, n: Net, frames: seq<Frame>, accepted: nat)
    requires n.core == Run(c, n.inputs).0
    ensures var n' := SendAll(c, n, frames, accepted); n'.core == Run(c, n'.inputs).0
  {
    hide Step, CoreStep, Run;
    if accepted < |frames| {
      HandleRuns(c, n.(delivered := n.delivered + frames[..accepted]), Disconnected);
    }
  }

  // ----- The input channel -----

  predicate FromHost(input: Input) { !input.Connected? && !input.Recv? && !input.Disconnected? }

  /** The host's inputs among those handled, in order. */
  function HostInputs(inputs: seq<Input>): seq<HostInput> {
    if inputs == [] then []
    else
      var i := inputs[|inputs| - 1];
      HostInputs(inputs[..|inputs| - 1]) + if FromHost(i) then [i] else []
  }

  /** Every input given has been handled, in order, or still waits. */
  ghost predicate NoneDropped(n: Net) { n.given == HostInputs(n.inputs) + n.waiting }

  lemma OneMoreInput(inputs: seq<Input>, i: Input)
    ensures HostInputs(inputs + [i]) == HostInputs(inputs) + if FromHost(i) then [i] else []
  {
    assert (inputs + [i])[..|inputs|] == inputs;
  }

  lemma SendDropsNone(c: Config, n: Net, frames: seq<Frame>, accepted: nat)
    requires NoneDropped(n)
    ensures NoneDropped(SendAll(c, n, frames, accepted))
  {
    hide Step, HostInputs;
    OneMoreInput(n.inputs, Disconnected);
  }

  lemma StepDropsNone(c: Config, n: Net, m: Move)
    requires NoneDropped(n)
    ensures NoneDropped(NetStep(c, n, m))
  {
    hide Step, HostInputs, Frames, Events, SendAll;
    match m
    case Connects(accepted) => OneMoreInput(n.inputs, Connected);
    case Receives(msg, accepted) =>
      OneMoreInput(n.inputs, Recv(msg));
      var (n', frames) := CoreStep(c, n, Recv(msg));
      SendDropsNone(c, NoteLogin(n'), frames, accepted);
    case Takes(accepted) =>
      if n.status.Up? && n.waiting != [] {
        OneMoreInput(n.inputs, n.waiting[0]);
        var (n', frames) := CoreStep(c, n.(waiting := n.waiting[1..]), n.waiting[0]);
        assert n.waiting == [n.waiting[0]] + n.waiting[1..];
        SendDropsNone(c, n', frames, accepted);
      }
    case Drops => OneMoreInput(n.inputs, Disconnected);
    case _ =>
  }

  /** No input is lost on the way to the core: after every script of moves, however connections came and
      went, the host's inputs that were handled are a prefix of those given, and the rest waits in order. */
  lemma {:induction false} InputsWait(c: Config, moves: seq<Move>)
    ensures var n := NetAfter(c, moves); HostInputs(n.inputs) <= n.given && n.given == HostInputs(n.inputs) + n.waiting
  {
    hide NetStep;
    if moves != [] {
      InputsWait(c, moves[..|moves| - 1]);
      StepDropsNone(c, NetAfter(c, moves[..|moves| - 1]), moves[|moves| - 1]);
    }
  }

  lemma {:induction false} HandledAt(inputs: seq<Input>, k: nat) returns (i: nat)
    requires k < |HostInputs(inputs)|
    ensures i < |inputs| && FromHost(inputs[i]) && inputs[i] == HostInputs(inputs)[k]
    ensures |HostInputs(inputs[..i])| == k
  {
    var n := |inputs| - 1;
    if k < |HostInputs(inputs[..n])| {
      i := HandledAt(inputs[..n], k);
      assert inputs[..n][..i] == inputs[..i];
    } else {
      i := n;
    }
  }

  /** Over every script of moves: the `k`-th input the host gave still waits, or it was handled after exactly
      the `k` before it. If it was handled and queued `a`, then `a` is pending under the id it got there, or
      a response or error with that id was handled after it; and while it is pending and a logged-in
      connection is up, it has been delivered on that connection. */
  lemma NoApprovalIsLost(c: Config, moves: seq<Move>, k: nat) returns (i: nat)
    requires k < |NetAfter(c, moves).given|
    ensures var n := NetAfter(c, moves);
            if k < |HostInputs(n.inputs)| then
              && i < |n.inputs| && n.inputs[i] == n.given[k] && |HostInputs(n.inputs[..i])| == k
              && forall a :: QueuedAt(c, n.inputs, i) == Some(a) ==>
                   var id := IdAt(c, n.inputs, i);
                   && (Pending(n.core, id, a) || exists j :: i < j < |n.inputs| && Answers(n.inputs[j], id))
                   && (Pending(n.core, id, a) && n.status.Up? && n.core.loginSucceed ==>
                         ActionFrame(id, a) in n.delivered)
            else
              k - |HostInputs(n.inputs)| < |n.waiting| && n.waiting[k - |HostInputs(n.inputs)|] == n.given[k]
  {
    hide NetAfter, Run, Queued, Answers, HostInputs;
    var n := NetAfter(c, moves);
    InputsWait(c, moves);
    i := 0;
    if k < |HostInputs(n.inputs)| {
      i := HandledAt(n.inputs, k);
      forall a | QueuedAt(c, n.inputs, i) == Some(a)
        ensures var id := IdAt(c, n.inputs, i);
                && (Pending(n.core, id, a) || exists j :: i < j < |n.inputs| && Answers(n.inputs[j], id))
                && (Pending(n.core, id, a) && n.status.Up? && n.core.loginSucceed ==> ActionFrame(id, a) in n.delivered)
      {
        HandledIsPending(c, moves, i, a);
      }
    }
  }

  lemma HandledIsPending(c: Config, moves: seq<Move>, i: nat, a: UserAction)
    requires i < |NetAfter(c, moves).inputs| && QueuedAt(c, NetAfter(c, moves).inputs, i) == Some(a)
    ensures var n := NetAfter(c, moves);
            var id := IdAt(c, n.inputs, i);
            && (Pending(n.core, id, a) || exists j :: i < j < |n.inputs| && Answers(n.inputs[j], id))
            && (Pending(n.core, id, a) && n.status.Up? && n.core.loginSucceed ==> ActionFrame(id, a) in n.delivered)
  {
    hide NetAfter, Run, Queued, Answers;
    var n := NetAfter(c, moves);
    var id := IdAt(c, n.inputs, i);
    PendingMeansQueued(c, moves, id, a);
    assert Unanswered(c, n.inputs, |n.inputs|, i, id, a)
           || exists j :: i < j < |n.inputs| && Answers(n.inputs[j], id);
  }

  /** Over every script of moves, an approval is pending exactly when an input the core handled queued
      it and no handled response or error has answered it since; and while a logged-in connection is
      up it has then been delivered there. */
  lemma PendingMeansQueued(c: Config, moves: seq<Move>, id: ReqId, a: UserAction)
    ensures var n := NetAfter(c, moves);
            && (Pending(n.core, id, a) <==> exists k :: Unanswered(c, n.inputs, |n.inputs|, k, id, a))
            && (Pending(n.core, id, a) && n.status.Up? && n.core.loginSucceed ==> ActionFrame(id, a) in n.delivered)
  {
    hide NetAfter, Run, Unanswered;
    var n := NetAfter(c, moves);
    CoreRuns(c, moves);
    assert n.inputs[..|n.inputs|] == n.inputs;
    PendingExactly(c, n.inputs, |n.inputs|, id, a);
    if Pending(n.core, id, a) && n.status.Up? && n.core.loginSucceed {
      PendingIsDelivered(c, moves, id);
    }
  }

  // ----- A new connection -----

  /** From any state without a connection, a connection made is up and told, starts with nothing delivered but the
      challenge, and has delivered that if the sink takes one frame; what waits still waits. */
  lemma ConnectDelivers(c: Config, n: Net, accepted: nat)
    requires n.status.Down?
    ensures var n' := NetStep(c, n, Connects(accepted));
            && n'.status == Up && !n'.wasLoggedIn && n'.core == n.core.(connected := true)
            && n'.delivered == (if accepted >= 1 then [Frame(0, Challenge)] else [])
            && n'.events == n.events + [ConnectedEvent] && n'.inputs == n.inputs + [Connected]
            && n'.waiting == n.waiting && n'.given == n.given
  {
    var challenge := [Send(Frame(0, Challenge))];
    assert challenge[..0] == [];
    SplitStep(challenge, 0);
    assert challenge[..1] == challenge;
    SplitNothing();
    hide Frames, Events;
    assert Step(c, n.core, Connected) == (n.core.(connected := true), challenge);
    assert Frames(challenge) == [Frame(0, Challenge)] && Events(challenge) == [];
    assert n.events + [] == n.events;
  }

  /** A connection that is lost is told, whatever its state was, and the core is neither connected nor logged in. */
  lemma DropDisconnects(c: Config, n: Net)
    requires n.status.Up?
    ensures var n' := NetStep(c, n, Drops);
            && n'.status == Down && n'.core == n.core.(connected := false, loginSucceed := false)
            && n'.events == n.events + [DisconnectedEvent] && n'.waiting == n.waiting
  {
    SplitNothing();
    hide Frames, Events;
    assert Step(c, n.core, Disconnected) == (n.core.(connected := false, loginSucceed := false), []);
    assert n.events + [] == n.events;
  }

  /** What a live connection survives: a round goes on exactly when the sink takes all its frames; the loop ends
      exactly when no handle is left and nothing waits; pings and inputs given meanwhile change nothing. */
  lemma StatusExactly(c: Config, n: Net, m: Move)
    requires n.status.Up?
    ensures var status := NetStep(c, n, m).status;
            match m
            case Receives(msg, accepted) =>
              status == if |Frames(Step(c, n.core, Recv(msg)).1)| <= accepted then Up else Down
            case Takes(accepted) =>
              status == if n.waiting == [] || |Frames(Step(c, n.core, n.waiting[0]).1)| <= accepted then Up else Down
            case Drops => status == Down
            case HandlesGone => status == if n.waiting == [] then Ended else Up
            case ConnectFails | Connects(_) | Idles | Gives(_) => status == Up
  {
    hide Step, Frames, Events;
  }
}
