/** The host mirror: a host that folds the core's effects holds the core's maps. */
module SessionMirror {
  import opened Wire
  import opened Session

  lemma LensLaws(v: View, k: Kind, m: Requests, k': Kind, m': Requests)
    ensures Get(Put(v, k, m), k) == m
    ensures k != k' ==> Get(Put(v, k, m), k') == Get(v, k')
    ensures Put(v, k, Get(v, k)) == v
    ensures Put(Put(v, k, m), k, m') == Put(v, k, m')
    ensures Put(v, k, m).holdings == v.holdings
  {
  }

  lemma {:induction false} MirrorConcat(v: View, a: seq<Effect>, b: seq<Effect>)
    ensures Mirror(v, a + b) == Mirror(Mirror(v, a), b)
  {
    hide Apply;
    if b == [] {
      assert a + b == a;
    } else {
      var n := |b| - 1;
      MirrorConcat(v, a, b[..n]);
      assert (a + b)[..|a + b| - 1] == a + b[..n] && (a + b)[|a + b| - 1] == b[n];
    }
  }

  lemma MirrorNothing(v: View)
    ensures Mirror(v, []) == v
  {
  }

  lemma MirrorOne(v: View, e: Effect)
    ensures Mirror(v, [e]) == Apply(v, e)
  {
    assert [e][..0] == [];
  }

  // ----- Requests -----

  function Without(m: Requests, ids: seq<Id>): Requests { m - set id | id in ids }

  lemma {:induction false} MirrorRemoves(v: View, k: Kind, ids: seq<Id>)
    ensures Mirror(v, Removes(k, ids)) == Put(v, k, Without(Get(v, k), ids))
  {
    hide Get, Put;
    LensLaws(v, k, Get(v, k), k, map[]);
    if ids == [] {
      assert Without(Get(v, k), ids) == Get(v, k);
    } else {
      var n := |ids| - 1;
      MirrorRemoves(v, k, ids[..n]);
      assert Removes(k, ids)[..n] == Removes(k, ids[..n]);
      var m := Without(Get(v, k), ids[..n]);
      LensLaws(v, k, m, k, m - {ids[n]});
      assert ids == ids[..n] + [ids[n]];
      assert m - {ids[n]} == Without(Get(v, k), ids);
    }
  }

  lemma {:induction false} MirrorInserts(v: View, k: Kind, list: seq<Request>)
    requires AllOf(k, list)
    ensures Mirror(v, Adds(Inserted(Get(v, k), list))) == Put(v, k, Insert(Get(v, k), list))
  {
    hide Get, Put;
    var m := Get(v, k);
    LensLaws(v, k, m, k, map[]);
    if list != [] {
      var n := |list| - 1;
      var r := list[n];
      assert r in list;
      MirrorInserts(v, k, list[..n]);
      var m' := Insert(m, list[..n]);
      if r.id in m' {
        assert Inserted(m, list) == Inserted(m, list[..n]);
      } else {
        assert Inserted(m, list) == Inserted(m, list[..n]) + [r];
        assert Adds(Inserted(m, list))[..|Inserted(m, list)| - 1] == Adds(Inserted(m, list[..n]));
        LensLaws(v, k, m', k, m'[r.id := r]);
      }
    }
  }

  lemma MirrorSync(v: View, k: Kind, list: seq<Request>)
    requires AllOf(k, list)
    ensures Mirror(v, SyncEffects(k, Get(v, k), list)) == Put(v, k, SyncMap(Get(v, k), list))
  {
    hide Get, Put, Insert, Inserted, Mirror, Apply;
    var m := Get(v, k);
    var gone := m.Keys - IdSet(list);
    var kept := Keep(m, IdSet(list));
    AscendingHas(gone);
    assert Without(m, Ascending(gone)) == kept;
    MirrorRemoves(v, k, Ascending(gone));
    var v1 := Put(v, k, kept);
    LensLaws(v, k, kept, k, SyncMap(m, list));
    MirrorInserts(v1, k, list);
    MirrorConcat(v, Removes(k, Ascending(gone)), Adds(Inserted(kept, list)));
  }

  /** One more list: effects so far lead to `v'`, whose `k`-map is still `v`'s. */
  lemma MirrorNext(v: View, fx: seq<Effect>, v': View, k: Kind, list: seq<Request>)
    requires Mirror(v, fx) == v' && Get(v', k) == Get(v, k) && AllOf(k, list)
    ensures Mirror(v, fx + SyncEffects(k, Get(v, k), list)) == Put(v', k, SyncMap(Get(v, k), list))
  {
    hide Mirror, SyncEffects, SyncMap, Get, Put, AllOf;
    MirrorSync(v', k, list);
    MirrorConcat(v, fx, SyncEffects(k, Get(v, k), list));
  }

  lemma MirrorSyncLists(v: View, p: LoginSnapshot)
    ensures Mirror(v, SyncListsEffects(v, p)) == SyncLists(v, p)
  {
    hide Mirror, SyncEffects, SyncMap, AllOf;
    MirrorSync(v, SignKind, p.sign);
    var fx1 := SyncEffects(SignKind, v.sign, p.sign);
    var v1 := Put(v, SignKind, SyncMap(v.sign, p.sign));
    MirrorNext(v, fx1, v1, SignMessageKind, p.signMessage);
    var fx2 := fx1 + SyncEffects(SignMessageKind, v.signMessage, p.signMessage);
    var v2 := Put(v1, SignMessageKind, SyncMap(v.signMessage, p.signMessage));
    MirrorNext(v, fx2, v2, PayKind, p.pay);
    var fx3 := fx2 + SyncEffects(PayKind, v.pay, p.pay);
    var v3 := Put(v2, PayKind, SyncMap(v.pay, p.pay));
    MirrorNext(v, fx3, v3, FundKind, p.fund);
    var fx4 := fx3 + SyncEffects(FundKind, v.fund, p.fund);
    var v4 := Put(v3, FundKind, SyncMap(v.fund, p.fund));
    MirrorNext(v, fx4, v4, ReceiveAddressKind, p.receiveAddress);
    var fx5 := fx4 + SyncEffects(ReceiveAddressKind, v.receiveAddress, p.receiveAddress);
    var v5 := Put(v4, ReceiveAddressKind, SyncMap(v.receiveAddress, p.receiveAddress));
    MirrorNext(v, fx5, v5, AssetBalanceKind, p.assetBalance);
  }

  // ----- Holdings -----

  lemma {:induction false} MirrorClears(v: View, domains: seq<string>)
    ensures Mirror(v, Clears(domains)) == v.(holdings := v.holdings - set d | d in domains)
  {
    if domains == [] {
      assert v.holdings - (set d | d in domains) == v.holdings;
    } else {
      var n := |domains| - 1;
      MirrorClears(v, domains[..n]);
      assert Clears(domains)[..n] == Clears(domains[..n]);
      assert domains == domains[..n] + [domains[n]];
      assert v.holdings - (set d | d in domains[..n]) - {domains[n]} == v.holdings - set d | d in domains;
    }
  }

  lemma {:induction false} MirrorSets(v: View, reports: seq<Report>)
    ensures Mirror(v, SetEffects(reports)) == v.(holdings := SetReports(v.holdings, reports))
  {
    if reports != [] {
      var n := |reports| - 1;
      MirrorSets(v, reports[..n]);
      var fx := SetEffects(reports[..n]);
      if reports[n].holdings != [] {
        MirrorConcat(v, fx, [SetHoldings(reports[n])]);
        MirrorOne(Mirror(v, fx), SetHoldings(reports[n]));
      } else {
        assert fx + [] == fx;
      }
    }
  }

  lemma MirrorSyncHoldings(v: View, reports: seq<Report>)
    ensures Mirror(v, SyncHoldingsEffects(v.holdings, reports)) == v.(holdings := SyncHoldingsMap(v.holdings, reports))
  {
    hide Mirror, SetReports, SetEffects;
    var gone := v.holdings.Keys - Domains(reports);
    AscendingHas(gone);
    MirrorClears(v, Ascending(gone));
    assert v.holdings - (set d | d in Ascending(gone)) == Keep(v.holdings, Domains(reports));
    var v1 := v.(holdings := Keep(v.holdings, Domains(reports)));
    MirrorSets(v1, reports);
    MirrorConcat(v, Clears(Ascending(gone)), SetEffects(reports));
  }

  lemma ListsKeepHoldings(v: View, p: Snapshot)
    ensures SyncLists(v, p).holdings == v.holdings
  {
  }

  lemma MirrorSyncView(v: View, p: LoginSnapshot)
    ensures Mirror(v, SyncViewEffects(v, p)) == SyncView(v, p)
  {
    hide Mirror, SyncLists, SyncListsEffects, SyncHoldingsEffects, SyncHoldingsMap;
    MirrorSyncLists(v, p);
    var v' := SyncLists(v, p);
    ListsKeepHoldings(v, p);
    MirrorSyncHoldings(v', p.holdings);
    MirrorConcat(v, SyncListsEffects(v, p), SyncHoldingsEffects(v.holdings, p.holdings));
  }

  // ----- Every step, and every run -----

  /** Effects a host's view ignores. */
  predicate Silent(fx: seq<Effect>) {
    forall e :: e in fx ==> !e.AddRequest? && !e.RemoveRequest? && !e.SetHoldings? && !e.ClearHoldings?
  }

  lemma {:induction false} MirrorSilent(v: View, fx: seq<Effect>)
    requires Silent(fx)
    ensures Mirror(v, fx) == v
  {
    if fx != [] {
      MirrorSilent(v, fx[..|fx| - 1]);
      assert fx[|fx| - 1] in fx;
    }
  }

  lemma MirrorLogin(c: Config, s: State, id: ReqId, p: LoginSnapshot)
    ensures var (s', fx) := OnResponse(c, s, id, LoginResp(p)); Mirror(s.view, fx) == s'.view
  {
    hide Mirror, SyncView, SyncViewEffects;
    var replay := ReplayAll(s.userActions);
    var sync := SyncViewEffects(s.view, p);
    var s' := s.(loginSucceed := true, view := SyncView(s.view, p));
    assert Silent(replay);
    MirrorSilent(s.view, replay);
    MirrorConcat(s.view, replay, sync);
    MirrorSyncView(s.view, p);
    MirrorConcat(s.view, replay + sync, [SessionList(p.sessions)]);
    MirrorSilent(s'.view, [SessionList(p.sessions)]);
    MirrorConcat(s.view, replay + sync + [SessionList(p.sessions)], PushEffects(s'));
    MirrorSilent(s'.view, PushEffects(s'));
  }

  lemma OtherResponses(c: Config, s: State, id: ReqId, resp: Resp)
    requires !resp.LoginResp?
    ensures var (s', fx) := OnResponse(c, s, id, resp); s'.view == s.view && Silent(fx)
  {
  }

  lemma MirrorNotification(s: State, n: Notif)
    ensures var (s', fx) := OnNotification(s, n); Mirror(s.view, fx) == s'.view
  {
    hide Get, Put;
    var (s', fx) := OnNotification(s, n);
    if fx == [] {
      if n.HoldingsRemoved? {
        assert s.view.holdings - {n.domain} == s.view.holdings;
      }
    } else {
      assert fx == [fx[0]];
      MirrorOne(s.view, fx[0]);
    }
  }

  lemma MirrorAnswer(c: Config, s: State, input: Input, id: Id)
    ensures var (s', fx) := Answer(c, s, input, id); s'.view == s.view && Silent(fx)
  {
    hide Queued;
  }

  lemma {:induction false} MirrorStep(c: Config, s: State, input: Input)
    ensures var (s', fx) := Step(c, s, input); Mirror(s.view, fx) == s'.view
  {
    hide Mirror, SyncView, SyncViewEffects, Queued, OnNotification, OnResponse, Answer, ReplayAll;
    var (s', fx) := Step(c, s, input);
    match input
    case Recv(Some(RespFrom(id, LoginResp(p)))) => MirrorLogin(c, s, id, p);
    case Recv(Some(RespFrom(id, resp))) =>
      OtherResponses(c, s, id, resp);
      MirrorSilent(s.view, fx);
    case Recv(Some(NotifFrom(n))) => MirrorNotification(s, n);
    case Recv(Some(ErrorFrom(_, _))) => MirrorSilent(s.view, fx);
    case Recv(None) => MirrorSilent(s.view, fx);
    case Connected | Disconnected | RegisterFcmToken(_) | AppLink(_, _, _) | StopSessionInput(_) =>
        MirrorSilent(s.view, fx);
    case LoginAccepted(id, _) => MirrorAnswer(c, s, input, id); MirrorSilent(s.view, fx);
    case _ => MirrorAnswer(c, s, input, input.id); MirrorSilent(s.view, fx);
  }

  /** The host mirror: over every run, across reconnects, overwriting notifications and login
      snapshots, a host that folds the effects from empty maps holds exactly the core's maps. */
  lemma {:induction false} HostMirrorsCore(c: Config, inputs: seq<Input>)
    ensures Mirror(EMPTY_VIEW, Run(c, inputs).1) == Run(c, inputs).0.view
  {
    hide Mirror, Step, Apply;
    if inputs == [] {
      MirrorNothing(EMPTY_VIEW);
    } else {
      var n := |inputs| - 1;
      HostMirrorsCore(c, inputs[..n]);
      var (s, fx) := Run(c, inputs[..n]);
      MirrorStep(c, s, inputs[n]);
      MirrorConcat(EMPTY_VIEW, fx, Step(c, s, inputs[n]).1);
    }
  }
}
