/** The two streams that leave the loop, over every script of moves: what the live connection has carried, and what
    the host has been told (`transport.rs`). */
module TransportStream {
  import opened Common
  import opened Wire
  import opened Session
  import opened Transport
  import opened TransportTheorems

  lemma {:induction false} FramesConcat(a: seq<Effect>, b: seq<Effect>)
    ensures Frames(a + b) == Frames(a) + Frames(b) && Events(a + b) == Events(a) + Events(b)
  {
    if b == [] {
      assert a + b == a;
    } else {
      FramesConcat(a, b[..|b| - 1]);
      assert (a + b)[..|a + b| - 1] == a + b[..|b| - 1];
    }
  }

  /** Everything the core has said in a run. */
  ghost function Said(c: Config, inputs: seq<Input>): seq<Effect> { Run(c, inputs).1 }

  predicate OwnInput(input: Input) { input.Connected? || input.Disconnected? }

  /** The connection made by the `k`-th input is still the one, and `delivered` is exactly what the core has said
      since, less `lost`. */
  ghost predicate CarriesSince(c: Config, n: Net, k: nat, lost: seq<Frame>) {
    && k < |n.inputs| && n.inputs[k] == Connected && (forall j :: k < j < |n.inputs| ==> !OwnInput(n.inputs[j]))
    && Frames(Said(c, n.inputs)) == Frames(Said(c, n.inputs[..k])) + (lost + n.delivered)
    && (lost == [] || lost == [Frame(0, Challenge)])
  }

  ghost predicate Carries(c: Config, n: Net) { exists k, lost :: CarriesSince(c, n, k, lost) }

  ghost predicate StreamInv(c: Config, n: Net) {
    && n.core == Run(c, n.inputs).0
    && Shown(n.events) == Shown(Events(Said(c, n.inputs)))
    && (n.status.Up? ==> Carries(c, n))
  }

  /** One more input is handled. */
  lemma SaidMore(c: Config, n: Net, input: Input)
    requires n.core == Run(c, n.inputs).0 && Shown(n.events) == Shown(Events(Said(c, n.inputs)))
    ensures var (n', frames) := CoreStep(c, n, input);
            && n'.core == Run(c, n'.inputs).0 && Shown(n'.events) == Shown(Events(Said(c, n'.inputs)))
            && Frames(Said(c, n'.inputs)) == Frames(Said(c, n.inputs)) + frames
  {
    hide Step, Frames, Events, Shown;
    var fx := Step(c, n.core, input).1;
    assert (n.inputs + [input])[..|n.inputs|] == n.inputs;
    assert Said(c, n.inputs + [input]) == Said(c, n.inputs) + fx;
    FramesConcat(Said(c, n.inputs), fx);
    ShownConcat(n.events, Events(fx));
    ShownConcat(Events(Said(c, n.inputs)), Events(fx));
  }

  lemma DisconnectStream(c: Config, n: Net)
    requires n.core == Run(c, n.inputs).0 && Shown(n.events) == Shown(Events(Said(c, n.inputs)))
    ensures StreamInv(c, Disconnect(c, n))
  {
    hide CoreStep, Shown, Said, Run;
    SaidMore(c, n, Disconnected);
    OwnEventsShowNothing(CoreStep(c, n, Disconnected).0.events, DisconnectedEvent);
  }

  lemma ConnectStream(c: Config, n: Net, accepted: nat)
    requires StreamInv(c, n) && n.status.Down?
    ensures StreamInv(c, NetStep(c, n, Connects(accepted)))
  {
    hide CoreStep, Shown, Said, Run, Frames, Events;
    SaidMore(c, n, Connected);
    ConnectDelivers(c, n, accepted);
    ConnectDelivers(c, n, 1);
    var (n1, frames) := CoreStep(c, n, Connected);
    OwnEventsShowNothing(n1.events, ConnectedEvent);
    var n' := NetStep(c, n, Connects(accepted));
    ChallengeOnly(c, n);
    assert n'.inputs == n.inputs + [Connected] && n'.inputs[..|n.inputs|] == n.inputs;
    assert CarriesSince(c, n', |n.inputs|, if accepted >= 1 then [] else [Frame(0, Challenge)]);
  }

  lemma ChallengeOnly(c: Config, n: Net)
    ensures CoreStep(c, n, Connected).1 == [Frame(0, Challenge)]
    ensures CoreStep(c, n, Connected).0.inputs == n.inputs + [Connected]
  {
    var challenge := [Send(Frame(0, Challenge))];
    assert challenge[..0] == [];
    SplitStep(challenge, 0);
    assert challenge[..1] == challenge;
    SplitNothing();
  }

  /** The connection goes on with one more input, whose frames the sink takes or not. */
  lemma SendStream(c: Config, n: Net, n1: Net, input: Input, accepted: nat)
    requires StreamInv(c, n) && n.status.Up? && !OwnInput(input)
    requires n1.core == CoreStep(c, n, input).0.core && n1.status.Up? && n1.delivered == n.delivered
             && n1.inputs == n.inputs + [input] && Shown(n1.events) == Shown(CoreStep(c, n, input).0.events)
    ensures StreamInv(c, SendAll(c, n1, CoreStep(c, n, input).1, accepted))
  {
    hide Shown, Run, Frames, Events, Disconnect, Step;
    SaidMore(c, n, input);
    var frames := CoreStep(c, n, input).1;
    if |frames| <= accepted {
      var k: nat, lost: seq<Frame> :| CarriesSince(c, n, k, lost);
      hide CoreStep;
      assert (n.inputs + [input])[..k] == n.inputs[..k];
      assert CarriesSince(c, n1.(delivered := n1.delivered + frames), k, lost) by {
        hide Said;
        assert Frames(Said(c, n1.inputs)) == Frames(Said(c, n.inputs[..k])) + (lost + (n.delivered + frames));
      }
    } else {
      hide CoreStep, Said;
      DisconnectStream(c, n1.(delivered := n1.delivered + frames[..accepted]));
    }
  }

  lemma SameStream(c: Config, n: Net, n': Net)
    requires StreamInv(c, n) && n'.core == n.core && n'.events == n.events && n'.inputs == n.inputs
    requires n'.delivered == n.delivered && (n'.status.Up? ==> n.status.Up?)
    ensures StreamInv(c, n')
  {
    hide Shown, Run, Frames, Events;
    if n'.status.Up? {
      var k: nat, lost: seq<Frame> :| CarriesSince(c, n, k, lost);
      assert CarriesSince(c, n', k, lost);
    }
  }

  lemma NetStepStream(c: Config, n: Net, m: Move)
    requires StreamInv(c, n)
    ensures StreamInv(c, NetStep(c, n, m))
  {
    hide Step, Shown, Run, Frames, Events, Carries, Said, SendAll, Disconnect;
    match m
    case Connects(accepted) => if n.status.Down? { ConnectStream(c, n, accepted); }
    case Receives(msg, accepted) =>
      if n.status.Up? {
        var n' := CoreStep(c, n, Recv(msg)).0;
        OwnEventsShowNothing(n'.events, LoggedInEvent);
        SendStream(c, n, NoteLogin(n'), Recv(msg), accepted);
      }
    case Takes(accepted) =>
      if n.status.Up? && n.waiting != [] {
        var n0 := n.(waiting := n.waiting[1..]);
        SameStream(c, n, n0);
        SendStream(c, n0, CoreStep(c, n0, n.waiting[0]).0, n.waiting[0], accepted);
      }
    case Drops => if n.status.Up? { DisconnectStream(c, n); }
    case _ => SameStream(c, n, NetStep(c, n, m));
  }

  lemma StartStream(c: Config)
    ensures StreamInv(c, START)
  {
  }

  lemma {:induction false} StreamAlways(c: Config, moves: seq<Move>)
    ensures StreamInv(c, NetAfter(c, moves))
  {
    hide StreamInv, NetStep;
    if moves == [] {
      StartStream(c);
    } else {
      StreamAlways(c, moves[..|moves| - 1]);
      NetStepStream(c, NetAfter(c, moves[..|moves| - 1]), moves[|moves| - 1]);
    }
  }

  /** A live connection has carried, in order and once each, exactly the frames the core has produced since it was
      made: all of them, or all but the first challenge. */
  lemma CarriedInOrder(c: Config, moves: seq<Move>) returns (k: nat, lost: seq<Frame>)
    requires NetAfter(c, moves).status.Up?
    ensures CarriesSince(c, NetAfter(c, moves), k, lost)
  {
    hide NetAfter, Said, Frames;
    StreamAlways(c, moves);
    k, lost :| CarriesSince(c, NetAfter(c, moves), k, lost);
  }

  /** The effects that are not frames. */
  function Untold(fx: seq<Effect>): seq<Effect> {
    if fx == [] then []
    else Untold(fx[..|fx| - 1]) + if fx[|fx| - 1].Send? then [] else [fx[|fx| - 1]]
  }

  lemma {:induction false} ShownIsUntold(fx: seq<Effect>)
    ensures Shown(Events(fx)) == Untold(fx)
  {
    if fx != [] {
      var n := |fx| - 1;
      ShownIsUntold(fx[..n]);
      EventsLast(fx);
      hide Events;
      if !fx[n].Send? {
        ShownConcat(Events(fx[..n]), [Told(fx[n])]);
        assert Shown([Told(fx[n])]) == [fx[n]];
      } else {
        assert Events(fx) == Events(fx[..n]);
      }
    }
  }

  /** The host has been told, in order and once each, exactly the effects of the run that are not frames, whatever
      the connection did. */
  lemma ToldInOrder(c: Config, moves: seq<Move>)
    ensures Shown(NetAfter(c, moves).events) == Untold(Run(c, NetAfter(c, moves).inputs).1)
  {
    hide NetAfter, Run, Shown, Events, Untold, Carries;
    StreamAlways(c, moves);
    ShownIsUntold(Run(c, NetAfter(c, moves).inputs).1);
  }
}
