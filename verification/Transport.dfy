/** The connection loop around the session core (`transport.rs`), without its sockets: the network's
    and the host's behaviour is a script of moves, and a frame is delivered when the sink takes it. */
module Transport {
  import opened Common
  import opened Wire
  import opened Session
  import opened SessionCore

  /** What the host is told: one event per effect that is not a frame, and the connection's own three. */
  datatype Event = Told(effect: Effect) | ConnectedEvent | LoggedInEvent | DisconnectedEvent

  /** The frames among some effects, in order. */
  function Frames(fx: seq<Effect>): (r: seq<Frame>) {
    if fx == [] then []
    else
      var e := fx[|fx| - 1];
      Frames(fx[..|fx| - 1]) + if e.Send? then [e.frame] else []
  }

  /** The events among some effects, in order. */
  function Events(fx: seq<Effect>): (r: seq<Event>) {
    if fx == [] then []
    else
      var e := fx[|fx| - 1];
      Events(fx[..|fx| - 1]) + if e.Send? then [] else [Told(e)]
  }

  lemma SplitStep(fx: seq<Effect>, i: nat)
    requires i < |fx|
    ensures Frames(fx[..i + 1]) == Frames(fx[..i]) + if fx[i].Send? then [fx[i].frame] else []
    ensures Events(fx[..i + 1]) == Events(fx[..i]) + if fx[i].Send? then [] else [Told(fx[i])]
  {
    assert fx[..i + 1][..i] == fx[..i];
  }

  lemma SplitNothing()
    ensures Frames([]) == [] && Events([]) == []
  {
  }

  /** `apply_effects`. */
  method ApplyEffects(effects: seq<Effect>, outgoing: seq<Frame>, sent: seq<Event>)
      returns (outgoing': seq<Frame>, sent': seq<Event>)
    ensures outgoing' == outgoing + Frames(effects)
    ensures sent' == sent + Events(effects)
  {
    SplitNothing();
    hide Frames, Events;
    outgoing', sent' := outgoing, sent;
    for i := 0 to |effects|
      invariant outgoing' == outgoing + Frames(effects[..i])
      invariant sent' == sent + Events(effects[..i])
    {
      SplitStep(effects, i);
      match effects[i]
      case Send(frame) =>
        outgoing' := outgoing' + [frame];
        continue;
      case e =>
        sent' := sent' + [Told(e)];
    }
    assert effects[..|effects|] == effects;
  }

  datatype Status = Down | Up | Ended

  /** An input a host may give: everything but the transport's own. */
  type HostInput = i: Input | !i.Connected? && !i.Recv? && !i.Disconnected? witness StopSessionInput("")

  /** What the outside does next. `accepted` is how many frames the sink takes before it fails;
      anything from the number of frames up means that it does not fail. */
  datatype Move =
    | Gives(input: HostInput) // a handle sends an input into the channel
    | ConnectFails
    | Connects(accepted: nat)
    | Receives(msg: Option<From>, accepted: nat)
    | Takes(accepted: nat)    // the loop takes the next waiting input
    | Idles                   // pings, pongs and messages that are not text
    | Drops                   // the socket errs or closes, or a ping fails
    | HandlesGone             // every handle is dropped and the channel is empty

  /** The loop's state: the inputs that wait in the channel; what it handled and told so far, what it was
      given in all, and what the sink took since it connected. */
  datatype Net = Net(
    core: State,
    status: Status,
    wasLoggedIn: bool,
    waiting: seq<HostInput>,
    given: seq<HostInput>,
    delivered: seq<Frame>,
    events: seq<Event>,
    inputs: seq<Input>)

  const START: Net := Net(INITIAL, Down, false, [], [], [], [], [])

  /** One call of the core's `handle`, with its events passed on. */
  ghost function CoreStep(c: Config, n: Net, input: Input): (Net, seq<Frame>) {
    var (s, fx) := Step(c, n.core, input);
    (n.(core := s, events := n.events + Events(fx), inputs := n.inputs + [input]), Frames(fx))
  }

  ghost function Disconnect(c: Config, n: Net): Net {
    var n' := CoreStep(c, n, Disconnected).0;
    n'.(status := Down, events := n'.events + [DisconnectedEvent])
  }

  function NoteLogin(n: Net): Net {
    if LoggedIn(n.core) && !n.wasLoggedIn then n.(wasLoggedIn := true, events := n.events + [LoggedInEvent]) else n
  }

  /** The lossy send of the connected loop. */
  ghost function SendAll(c: Config, n: Net, frames: seq<Frame>, accepted: nat): Net {
    if |frames| <= accepted then n.(delivered := n.delivered + frames)
    else Disconnect(c, n.(delivered := n.delivered + frames[..accepted]))
  }

  function Take(frames: seq<Frame>, accepted: nat): seq<Frame> {
    if |frames| <= accepted then frames else frames[..accepted]
  }

  /** A move that does not fit the status changes nothing. */
  ghost function NetStep(c: Config, n: Net, m: Move): Net {
    match m
    case Gives(input) =>
      if n.status.Ended? then n else n.(waiting := n.waiting + [input], given := n.given + [input])
    case Connects(accepted) =>
      if n.status.Down? then
        var (n', frames) := CoreStep(c, n, Connected);
        n'.(status := Up, wasLoggedIn := false, delivered := Take(frames, accepted),
            events := n'.events + [ConnectedEvent])
      else n
    case Receives(msg, accepted) =>
      if n.status.Up? then
        var (n', frames) := CoreStep(c, n, Recv(msg));
        SendAll(c, NoteLogin(n'), frames, accepted)
      else n
    case Takes(accepted) =>
      if n.status.Up? && n.waiting != [] then
        var (n', frames) := CoreStep(c, n.(waiting := n.waiting[1..]), n.waiting[0]);
        SendAll(c, n', frames, accepted)
      else n
    case Drops => if n.status.Up? then Disconnect(c, n) else n
    case HandlesGone => if n.status.Up? && n.waiting == [] then n.(status := Ended) else n
    case ConnectFails | Idles => n
  }

  ghost function NetAfter(c: Config, moves: seq<Move>): Net {
    if moves == [] then START else NetStep(c, NetAfter(c, moves[..|moves| - 1]), moves[|moves| - 1])
  }

  lemma AfterNext(c: Config, moves: seq<Move>, i: nat)
    requires i < |moves|
    ensures NetAfter(c, moves[..i + 1]) == NetStep(c, NetAfter(c, moves[..i]), moves[i])
  {
    assert moves[..i + 1][..i] == moves[..i];
  }

  lemma {:induction false} EndedStays(c: Config, moves: seq<Move>, i: nat)
    requires i <= |moves| && NetAfter(c, moves[..i]).status.Ended?
    ensures NetAfter(c, moves) == NetAfter(c, moves[..i])
    decreases |moves| - i
  {
    hide NetAfter;
    if i < |moves| {
      AfterNext(c, moves, i);
      EndedStays(c, moves, i + 1);
    } else {
      assert moves[..i] == moves;
    }
  }

  /** `run`'s state while it runs: the core it owns, the channel it reads, its locals, and what it has told
      the host. */
  class Runner {
    const config: Config
    const core: WalletConnectCore
    var status: Status
    var wasLoggedIn: bool
    var waiting: seq<HostInput>
    var delivered: seq<Frame>
    var events: seq<Event>
    ghost var given: seq<HostInput>
    ghost var inputs: seq<Input>

    ghost function Abs(): Net
      reads this, core
    {
      Net(core.Abs(), status, wasLoggedIn, waiting, given, delivered, events, inputs)
    }

    constructor (config: Config)
      ensures Abs() == START && core.config == config && this.config == config && fresh(core)
    {
      this.config := config;
      core := new WalletConnectCore(config);
      status, wasLoggedIn, waiting, given, delivered, events, inputs := Down, false, [], [], [], [], [];
    }

    /** `input_tx.send(input)`: the channel has no bound, and takes an input whatever the connection does. */
    method Give(input: HostInput)
      requires !status.Ended?
      modifies this
      ensures Abs() == NetStep(config, old(Abs()), Gives(input))
    {
      waiting := waiting + [input];
      given := given + [input];
    }

    /** `apply_effects(core.handle(input), ..)`. */
    method HandleInput(input: Input) returns (outgoing: seq<Frame>)
      requires core.config == config
      modifies this, core
      ensures (Abs(), outgoing) == CoreStep(config, old(Abs()), input)
    {
      hide Step, Frames, Events;
      var effects := core.Handle(input);
      outgoing, events := ApplyEffects(effects, [], events);
      inputs := inputs + [input];
      assert outgoing == [] + Frames(effects) == Frames(effects);
    }

    /** The tail of the outer loop, after `break 'connected`. */
    method AfterLoop()
      requires core.config == config
      modifies this, core
      ensures Abs() == Disconnect(config, old(Abs()))
    {
      hide CoreStep;
      var _ := HandleInput(Disconnected);
      status := Down;
      events := events + [DisconnectedEvent];
    }

    /** The send loop of the connected loop: the first failure breaks the connection. */
    method SendFrames(outgoing: seq<Frame>, accepted: nat)
      requires core.config == config
      modifies this, core
      ensures Abs() == SendAll(config, old(Abs()), outgoing, accepted)
    {
      hide Disconnect;
      ghost var was := Abs();
      for i := 0 to |outgoing|
        invariant i <= accepted
        invariant Abs() == was.(delivered := was.delivered + outgoing[..i])
      {
        if i == accepted {
          AfterLoop();
          return;
        }
        delivered := delivered + [outgoing[i]];
        assert outgoing[..i + 1] == outgoing[..i] + [outgoing[i]];
      }
      assert outgoing[..|outgoing|] == outgoing;
    }

    /** From a connection made to the connected loop. */
    method Connect(accepted: nat)
      requires core.config == config && status.Down?
      modifies this, core
      ensures Abs() == NetStep(config, old(Abs()), Connects(accepted))
    {
      hide Step, Frames, Events;
      var outgoing := HandleInput(Connected);
      events := events + [ConnectedEvent];
      status, wasLoggedIn, delivered := Up, false, [];
      ghost var was := Abs();
      for i := 0 to |outgoing|
        invariant i <= accepted
        invariant Abs() == was.(delivered := outgoing[..i])
      {
        if i == accepted {
          return;
        }
        delivered := delivered + [outgoing[i]];
        assert outgoing[..i + 1] == outgoing[..i] + [outgoing[i]];
      }
      assert outgoing[..|outgoing|] == outgoing;
    }

    /** One round of the connected loop, or an input given meanwhile. */
    method Round(m: Move)
      requires core.config == config && status.Up?
      modifies this, core
      ensures Abs() == NetStep(config, old(Abs()), m)
    {
      hide CoreStep, SendAll, Disconnect;
      match m {
        case Gives(input) =>
          Give(input);
        case Receives(msg, accepted) =>
          var outgoing := HandleInput(Recv(msg));
          if core.IsLoggedIn() && !wasLoggedIn {
            wasLoggedIn := true;
            events := events + [LoggedInEvent];
          }
          SendFrames(outgoing, accepted);
        case Takes(accepted) =>
          if waiting != [] {
            var input := waiting[0];
            waiting := waiting[1..];
            var outgoing := HandleInput(input);
            SendFrames(outgoing, accepted);
          }
        case Drops =>
          AfterLoop();
        case HandlesGone =>
          if waiting == [] {
            status := Ended;
          }
        case ConnectFails | Connects(_) | Idles =>
      }
    }

    /** `run`: connect, serve the connection until it breaks, and start over. */
    method Run(moves: seq<Move>)
      requires core.config == config && Abs() == START
      modifies this, core
      ensures Abs() == NetAfter(config, moves)
    {
      hide NetStep;
      var i := 0;
      assert moves[..0] == [];
      while i < |moves| && !status.Ended?
        invariant i <= |moves|
        invariant !status.Ended? && i < |moves| ==> status.Down?
        invariant Abs() == NetAfter(config, moves[..i])
      {
        AfterNext(config, moves, i);
        if moves[i].Gives? {
          Give(moves[i].input);
          StillDown(config, NetAfter(config, moves[..i]), moves[i]);
          i := i + 1;
          continue;
        }
        if !moves[i].Connects? {
          NotConnecting(config, Abs(), moves[i]);
          i := i + 1;
          continue;
        }
        Connect(moves[i].accepted);
        i := i + 1;
        while i < |moves| && status.Up?
          invariant i <= |moves|
          invariant Abs() == NetAfter(config, moves[..i])
          decreases |moves| - i
        {
          AfterNext(config, moves, i);
          Round(moves[i]);
          i := i + 1;
        }
      }
      if status.Ended? {
        EndedStays(config, moves, i);
      } else {
        assert moves[..i] == moves;
      }
    }
  }

  lemma StillDown(c: Config, n: Net, m: Move)
    requires n.status.Down? && m.Gives?
    ensures NetStep(c, n, m).status.Down?
  {
  }

  lemma NotConnecting(c: Config, n: Net, m: Move)
    requires n.status.Down? && !m.Connects? && !m.Gives?
    ensures NetStep(c, n, m) == n
  {
  }
}
