/** What synchronising with a login snapshot does, for any previous map and any list, duplicates
    included (`core.rs`). */
module SessionSync {
  import opened Common
  import opened Wire
  import opened Session

  // ----- Request lists -----

  predicate FirstAt(list: seq<Request>, i: nat)
    requires i < |list|
  {
    forall j :: 0 <= j < i ==> list[j].id != list[i].id
  }

  /** Position `i` introduces an id that is neither known nor earlier in the list. */
  predicate NewAt(m: Requests, list: seq<Request>, i: nat)
    requires i < |list|
  {
    list[i].id !in m && FirstAt(list, i)
  }

  predicate StrictlyAscending(at: seq<int>) {
    forall i, j :: 0 <= i < j < |at| ==> at[i] < at[j]
  }

  lemma FirstMeansUnlisted(list: seq<Request>, i: nat)
    requires i < |list|
    ensures list[i].id in IdSet(list[..i]) <==> !FirstAt(list, i)
    ensures list[i].id in IdSet(list)
  {
    if list[i].id in IdSet(list[..i]) {
      var r :| r in list[..i] && r.id == list[i].id;
    }
    if !FirstAt(list, i) {
      var j :| 0 <= j < i && list[j].id == list[i].id;
      assert list[..i][j] in list[..i];
    }
    assert list[i] in list;
  }

  lemma NewInFront(m: Requests, list: seq<Request>, n: nat)
    requires n <= |list|
    ensures forall i :: 0 <= i < n ==> NewAt(m, list[..n], i) == NewAt(m, list, i)
  {
  }

  lemma {:induction false} InsertSpec(m: Requests, list: seq<Request>)
    ensures Insert(m, list).Keys == m.Keys + IdSet(list)
    ensures forall id :: id in m ==> Insert(m, list)[id] == m[id]
    ensures forall i :: 0 <= i < |list| && NewAt(m, list, i) ==>
              list[i].id in Insert(m, list) && Insert(m, list)[list[i].id] == list[i]
  {
    if list != [] {
      var n := |list| - 1;
      InsertSpec(m, list[..n]);
      assert list == list[..n] + [list[n]];
      assert IdSet(list) == IdSet(list[..n]) + {list[n].id};
      FirstMeansUnlisted(list, n);
      NewInFront(m, list, n);
    }
  }

  function Pick(list: seq<Request>, at: seq<nat>): (s: seq<Request>)
    requires forall i :: i in at ==> i < |list|
    ensures |s| == |at|
  {
    seq(|at|, j requires 0 <= j < |at| => assert at[j] in at; list[at[j]])
  }

  lemma PickFront(list: seq<Request>, n: nat, at: seq<nat>)
    requires n < |list| && forall i :: i in at ==> i < n
    ensures Pick(list[..n], at) == Pick(list, at)
    ensures Pick(list, at + [n]) == Pick(list, at) + [list[n]]
  {
    forall j | 0 <= j < |at| ensures Pick(list[..n], at)[j] == Pick(list, at)[j] {
      assert at[j] in at;
    }
  }

  /** `at` lists, in order, the positions of the new ids. */
  ghost predicate NewPositions(m: Requests, list: seq<Request>, at: seq<nat>) {
    StrictlyAscending(at) && forall i: nat :: i in at <==> i < |list| && NewAt(m, list, i)
  }

  lemma ExtendPositions(m: Requests, list: seq<Request>, at: seq<nat>)
    requires list != [] && NewPositions(m, list[..|list| - 1], at)
    ensures NewPositions(m, list, if NewAt(m, list, |list| - 1) then at + [|list| - 1] else at)
  {
    var n := |list| - 1;
    NewInFront(m, list, n);
    var at' := if NewAt(m, list, n) then at + [n] else at;
    forall i, j | 0 <= i < j < |at'| ensures at'[i] < at'[j] { assert at[i] in at; }
  }

  /** The positions `Insert` takes, in order. */
  lemma {:induction false} InsertedAt(m: Requests, list: seq<Request>) returns (at: seq<nat>)
    ensures NewPositions(m, list, at) && Inserted(m, list) == Pick(list, at)
  {
    hide NewPositions, StrictlyAscending, IdSet, NewAt;
    if list == [] {
      at := [];
      assert NewPositions(m, list, at) by { PositionsOfNothing(m); }
    } else {
      var n := |list| - 1;
      var front := InsertedAt(m, list[..n]);
      InsertSpec(m, list[..n]);
      FirstMeansUnlisted(list, n);
      NewDefinition(m, list, n);
      ExtendPositions(m, list, front);
      PositionsInRange(m, list[..n], front);
      at := if NewAt(m, list, n) then front + [n] else front;
      PositionsInRange(m, list, at);
      PickFront(list, n, front);
    }
  }

  lemma PositionsOfNothing(m: Requests)
    ensures NewPositions(m, [], [])
  {
  }

  lemma NewDefinition(m: Requests, list: seq<Request>, i: nat)
    requires i < |list|
    ensures NewAt(m, list, i) <==> list[i].id !in m && FirstAt(list, i)
  {
  }

  lemma PositionsInRange(m: Requests, list: seq<Request>, at: seq<nat>)
    requires NewPositions(m, list, at)
    ensures forall i :: i in at ==> i < |list|
  {
  }

  lemma KeptPositions(m: Requests, list: seq<Request>, at: seq<nat>)
    ensures NewPositions(Keep(m, IdSet(list)), list, at) == NewPositions(m, list, at)
  {
    forall i | 0 <= i < |list| ensures NewAt(Keep(m, IdSet(list)), list, i) == NewAt(m, list, i) {
      FirstMeansUnlisted(list, i);
    }
  }

  /** After a login each request list holds exactly the listed ids; known ids keep their stored body,
      new ones take their first occurrence. */
  lemma {:induction false} SnapshotReconciles(m: Requests, list: seq<Request>)
    ensures SyncMap(m, list).Keys == IdSet(list)
    ensures forall id :: id in m && id in IdSet(list) ==> SyncMap(m, list)[id] == m[id]
    ensures forall i :: 0 <= i < |list| && NewAt(m, list, i) ==>
              list[i].id in IdSet(list) && SyncMap(m, list)[list[i].id] == list[i]
  {
    hide Insert;
    var kept := Keep(m, IdSet(list));
    InsertSpec(kept, list);
    forall i | 0 <= i < |list| && NewAt(m, list, i) ensures NewAt(kept, list, i) && list[i].id in IdSet(list) {
      FirstMeansUnlisted(list, i);
    }
  }

  /** The host is told of one removal per vanished id, in id order, and then of one addition per new
      id, in list order, each with that id's first occurrence. */
  lemma {:induction false} SnapshotIsAnnounced(k: Kind, m: Requests, list: seq<Request>)
      returns (gone: seq<Id>, at: seq<nat>)
    ensures forall id :: id in gone <==> id in m && id !in IdSet(list)
    ensures forall i, j :: 0 <= i < j < |gone| ==> gone[i] != gone[j] && StringLeq(gone[i], gone[j])
    ensures StrictlyAscending(at) && forall i: nat :: i in at <==> i < |list| && NewAt(m, list, i)
    ensures SyncEffects(k, m, list) == Removes(k, gone) + Adds(Pick(list, at))
  {
    hide StringLeq, Insert, Inserted, Ascending, Keep, IdSet, NewAt;
    AscendingHas(m.Keys - IdSet(list));
    gone := Ascending(m.Keys - IdSet(list));
    at := InsertedAt(Keep(m, IdSet(list)), list);
    KeptPositions(m, list, at);
  }

  // ----- Holdings -----

  predicate Mentions(reports: seq<Report>, d: string) { exists i :: 0 <= i < |reports| && reports[i].domain == d }

  predicate Holds(reports: seq<Report>, d: string) {
    exists i :: 0 <= i < |reports| && reports[i].domain == d && reports[i].holdings != []
  }

  /** The report at `i` is the last of `d`, or the last non-empty one. */
  predicate LastAt(reports: seq<Report>, d: string, i: nat, held: bool) {
    && i < |reports| && reports[i].domain == d && (held ==> reports[i].holdings != [])
    && forall j :: i < j < |reports| ==> reports[j].domain != d || (held && reports[j].holdings == [])
  }

  lemma LastOfFront(reports: seq<Report>, d: string, held: bool)
    requires reports != [] && !LastAt(reports, d, |reports| - 1, held)
    ensures forall i :: LastAt(reports[..|reports| - 1], d, i, held) ==> LastAt(reports, d, i, held)
  {
  }

  /** The last report of `d`. */
  function Last(reports: seq<Report>, d: string): (r: Report)
    requires Mentions(reports, d)
    ensures exists i: nat :: LastAt(reports, d, i, false) && reports[i] == r
  {
    var n := |reports| - 1;
    if reports[n].domain == d then assert LastAt(reports, d, n, false); reports[n]
    else
      var i :| 0 <= i < |reports| && reports[i].domain == d;
      assert reports[..n][i].domain == d;
      LastOfFront(reports, d, false);
      Last(reports[..n], d)
  }

  /** The last non-empty report of `d`. */
  function LastHeld(reports: seq<Report>, d: string): (r: Report)
    requires Holds(reports, d)
    ensures exists i: nat :: LastAt(reports, d, i, true) && reports[i] == r
  {
    var n := |reports| - 1;
    if reports[n].domain == d && reports[n].holdings != [] then assert LastAt(reports, d, n, true); reports[n]
    else
      var i :| 0 <= i < |reports| && reports[i].domain == d && reports[i].holdings != [];
      assert reports[..n][i].domain == d;
      LastOfFront(reports, d, true);
      LastHeld(reports[..n], d)
  }

  lemma {:induction false} SetReportsSpec(m: map<string, Report>, reports: seq<Report>)
    ensures forall d :: d in SetReports(m, reports) <==> d in m || Holds(reports, d)
    ensures forall d :: d in SetReports(m, reports) ==>
              SetReports(m, reports)[d] == if Holds(reports, d) then LastHeld(reports, d) else m[d]
  {
    if reports != [] {
      var n := |reports| - 1;
      var front := reports[..n];
      SetReportsSpec(m, front);
      forall d ensures Holds(reports, d) <==> Holds(front, d) || (reports[n].domain == d && reports[n].holdings != []) {
        if Holds(front, d) {
          var i :| 0 <= i < |front| && front[i].domain == d && front[i].holdings != [];
          assert reports[i].domain == d;
        }
        if Holds(reports, d) {
          var i :| 0 <= i < |reports| && reports[i].domain == d && reports[i].holdings != [];
          assert i < n ==> front[i].domain == d;
        }
      }
    }
  }

  lemma DomainsMention(reports: seq<Report>)
    ensures forall d :: d in Domains(reports) <==> Mentions(reports, d)
    ensures forall d :: Holds(reports, d) ==> Mentions(reports, d)
  {
    forall d ensures d in Domains(reports) <==> Mentions(reports, d) {
      if Mentions(reports, d) {
        var i :| 0 <= i < |reports| && reports[i].domain == d;
        assert reports[i] in reports;
      }
    }
  }

  /** Holdings after a login: only reported domains; the last non-empty report of each, or what was
      there before when all its reports are empty; and never an empty report. */
  lemma {:induction false} HoldingsReconcile(m: map<string, Report>, reports: seq<Report>)
    ensures var m' := SyncHoldingsMap(m, reports);
            && (forall d :: d in m' <==> Holds(reports, d) || (d in m && Mentions(reports, d)))
            && (forall d :: d in m' ==> m'[d] == if Holds(reports, d) then LastHeld(reports, d) else m[d])
            && ((forall d :: d in m ==> m[d].holdings != []) ==> forall d :: d in m' ==> m'[d].holdings != [])
  {
    hide SetReports, LastHeld;
    DomainsMention(reports);
    SetReportsSpec(Keep(m, Domains(reports)), reports);
  }

  /** What one `HoldingsUpdated` notification makes of the holdings: an empty report is a clear. */
  function Notified(m: map<string, Report>, r: Report): map<string, Report> {
    if r.holdings == [] then m - {r.domain} else m[r.domain := r]
  }

  /** The same reports delivered one by one as notifications to a wallet that holds nothing. */
  function NotifiedAll(reports: seq<Report>): map<string, Report> {
    if reports == [] then map[] else Notified(NotifiedAll(reports[..|reports| - 1]), reports[|reports| - 1])
  }

  lemma {:induction false} NotificationNotifies(s: State, r: Report)
    ensures OnNotification(s, HoldingsUpdated(r)).0.view.holdings == Notified(s.view.holdings, r)
  {
    hide Get, Put;
    var v := s.view;
    var s' := OnNotification(s, HoldingsUpdated(r)).0;
    if r.holdings == [] {
      assert s' == s.(view := v.(holdings := v.holdings - {r.domain}));
    } else {
      assert s' == s.(view := v.(holdings := v.holdings[r.domain := r]));
    }
  }

  lemma {:induction false} NotifiedAllSpec(reports: seq<Report>)
    ensures forall d :: d in NotifiedAll(reports) <==> Mentions(reports, d) && Last(reports, d).holdings != []
    ensures forall d :: d in NotifiedAll(reports) ==> NotifiedAll(reports)[d] == Last(reports, d)
  {
    if reports != [] {
      var n := |reports| - 1;
      var front := reports[..n];
      NotifiedAllSpec(front);
      forall d ensures Mentions(reports, d) <==> Mentions(front, d) || reports[n].domain == d {
        if Mentions(front, d) {
          var i :| 0 <= i < |front| && front[i].domain == d;
          assert reports[i].domain == d;
        }
        if Mentions(reports, d) {
          var i :| 0 <= i < |reports| && reports[i].domain == d;
          assert i < n ==> front[i].domain == d;
        }
      }
    }
  }

  lemma LastIsHeld(reports: seq<Report>, d: string)
    requires Mentions(reports, d) && Last(reports, d).holdings != []
    ensures Holds(reports, d) && LastHeld(reports, d) == Last(reports, d)
  {
  }

  /** A domain whose last report is empty but which the wallet still has something to show for. */
  predicate Stale(m: map<string, Report>, reports: seq<Report>, d: string) {
    Mentions(reports, d) && Last(reports, d).holdings == [] && (d in m || Holds(reports, d))
  }

  lemma {:induction false} SyncedIsNotifiedIff(m: map<string, Report>, reports: seq<Report>)
    ensures SyncHoldingsMap(m, reports) == NotifiedAll(reports) <==> forall d :: !Stale(m, reports, d)
  {
    hide SetReports, Last, LastHeld, SyncHoldingsMap, NotifiedAll;
    HoldingsReconcile(m, reports);
    NotifiedAllSpec(reports);
    var m', all := SyncHoldingsMap(m, reports), NotifiedAll(reports);
    forall d | Mentions(reports, d) && Last(reports, d).holdings != []
      ensures Holds(reports, d) && LastHeld(reports, d) == Last(reports, d)
    {
      LastIsHeld(reports, d);
    }
    DomainsMention(reports);
    if forall d :: !Stale(m, reports, d) {
      forall d ensures d in m' <==> d in all {
        assert !Stale(m, reports, d);
      }
      assert m'.Keys == all.Keys;
      assert m' == all;
    } else {
      var d :| Stale(m, reports, d);
      assert d in m' && d !in all;
    }
  }

  function Notification(r: Report): Input { Recv(Some(NotifFrom(HoldingsUpdated(r)))) }

  /** A new wallet connects, and the reports arrive one by one as notifications. */
  function Notifications(reports: seq<Report>): (s: seq<Input>)
    ensures |s| == 1 + |reports|
  {
    [Connected] + seq(|reports|, i requires 0 <= i < |reports| => Notification(reports[i]))
  }

  lemma RunMore(c: Config, inputs: seq<Input>, input: Input)
    ensures var (s, fx) := Run(c, inputs);
            Run(c, inputs + [input]) == (Step(c, s, input).0, fx + Step(c, s, input).1)
  {
    hide Step;
    assert (inputs + [input])[..|inputs|] == inputs;
  }

  lemma StepConnects(c: Config, s: State)
    ensures Step(c, s, Connected) == (s.(connected := true), [Send(Frame(0, Challenge))])
  {
    hide OnMessage, Answer, Queued;
  }

  lemma RunsFromStart(c: Config)
    ensures Run(c, []) == (INITIAL, [])
  {
    hide Step;
  }

  lemma RunConnects(c: Config)
    ensures Run(c, [Connected]) == (INITIAL.(connected := true), [Send(Frame(0, Challenge))])
  {
    var none: seq<Input> := [];
    RunsFromStart(c);
    hide Run, Step;
    assert none + [Connected] == [Connected];
    RunMore(c, none, Connected);
    StepConnects(c, INITIAL);
    assert [] + [Send(Frame(0, Challenge))] == [Send(Frame(0, Challenge))];
  }

  lemma {:induction false} NotificationsRun(c: Config, reports: seq<Report>)
    ensures Run(c, Notifications(reports)).0.view.holdings == NotifiedAll(reports)
  {
    hide Notified, OnNotification;
    if reports == [] {
      RunConnects(c);
      assert Notifications(reports) == [Connected];
    } else {
      var n := |reports| - 1;
      NotificationsRun(c, reports[..n]);
      assert Notifications(reports) == Notifications(reports[..n]) + [Notification(reports[n])];
      RunMore(c, Notifications(reports[..n]), Notification(reports[n]));
      NotificationNotifies(Run(c, Notifications(reports[..n])).0, reports[n]);
    }
  }

  /** The comment on `sync_holdings` says that what the server holds is the truth. A login response
      leaves, in any state, the holdings that the same reports leave as notifications to a new wallet
      exactly when no domain is stale. */
  lemma SnapshotIsTheTruthIff(c: Config, s: State, id: ReqId, p: LoginSnapshot)
    ensures OnResponse(c, s, id, LoginResp(p)).0.view.holdings == Run(c, Notifications(p.holdings)).0.view.holdings
            <==> forall d :: !Stale(s.view.holdings, p.holdings, d)
  {
    hide Run, SyncHoldingsMap, SyncLists, SyncViewEffects, ReplayAll, Stale, NotifiedAll;
    SyncedIsNotifiedIff(s.view.holdings, p.holdings);
    NotificationsRun(c, p.holdings);
    assert OnResponse(c, s, id, LoginResp(p)).0.view == SyncView(s.view, p);
  }

  function EmptySnapshot(reports: seq<Report>): LoginSnapshot { Snapshot([], [], [], [], [], [], [], reports) }

  lemma NothingToSync(m: Requests, k: Kind)
    requires m == map[]
    ensures SyncMap(m, []) == map[] && SyncEffects(k, m, []) == []
  {
    assert m.Keys - IdSet([]) == {};
    assert Ascending({}) == [];
    assert Removes(k, []) + Adds([]) == [];
  }

  lemma OnlyAnEmptyReport(shown: Report, empty: Report)
    requires shown.domain == empty.domain && empty.holdings == []
    ensures var m := map[shown.domain := shown];
            SyncHoldingsMap(m, [empty]) == m && SyncHoldingsEffects(m, [empty]) == []
  {
    var d, m := shown.domain, map[shown.domain := shown];
    assert [empty][0] in [empty];
    assert Domains([empty]) == {d};
    assert [empty][..0] == [];
    var none := m.Keys - Domains([empty]);
    assert none == {};
    assert Ascending(none) == [] && SetEffects([empty]) == SetEffects([]) + [];
    assert Keep(m, {d}) == m;
    assert SetReports(m, [empty]) == SetReports(m, []);
  }

  lemma EmptyReportSync(shown: Report, empty: Report)
    requires shown.domain == empty.domain && empty.holdings == []
    ensures var v := EMPTY_VIEW.(holdings := map[shown.domain := shown]);
            SyncView(v, EmptySnapshot([empty])) == v && SyncViewEffects(v, EmptySnapshot([empty])) == []
  {
    hide SyncMap, SyncEffects, SyncHoldingsMap, SyncHoldingsEffects;
    OnlyAnEmptyReport(shown, empty);
    NothingToSync(map[], SignKind);
    NothingToSync(map[], SignMessageKind);
    NothingToSync(map[], PayKind);
    NothingToSync(map[], FundKind);
    NothingToSync(map[], ReceiveAddressKind);
    NothingToSync(map[], AssetBalanceKind);
  }

  lemma ShownRun(c: Config, shown: Report)
    requires shown.holdings != []
    ensures Run(c, Notifications([shown])).0
            == INITIAL.(connected := true, view := EMPTY_VIEW.(holdings := map[shown.domain := shown]))
  {
    RunConnects(c);
    hide Run;
    assert Notifications([shown]) == [Connected] + [Notification(shown)];
    RunMore(c, [Connected], Notification(shown));
  }

  /** A wallet connects and is shown a holding. A login whose only report for the domain is empty leaves
      it standing and tells the host nothing about it; the same report as a notification clears it. */
  lemma EmptyReportAtLoginIsIgnored(c: Config, shown: Report, empty: Report)
    requires shown.holdings != [] && empty == Report(shown.domain, [], empty.asOf)
    ensures var before := Notifications([shown]);
            var login := Recv(Some(RespFrom(0, LoginResp(EmptySnapshot([empty])))));
            && Run(c, before + [login]).0.view.holdings == map[shown.domain := shown]
            && Run(c, before + [login]).1 == Run(c, before).1 + [SessionList([])]
            && Run(c, before + [Notification(empty)]).0.view.holdings == map[]
            && Run(c, before + [Notification(empty)]).1 == Run(c, before).1 + [ClearHoldings(shown.domain)]
  {
    hide Run, SyncView, SyncViewEffects, Notifications;
    var before := Notifications([shown]);
    ShownRun(c, shown);
    RunMore(c, before, Recv(Some(RespFrom(0, LoginResp(EmptySnapshot([empty]))))));
    EmptyReportSync(shown, empty);
    NoReplay();
    RunMore(c, before, Notification(empty));
    assert map[shown.domain := shown] - {shown.domain} == map[];
  }

  lemma NoReplay()
    ensures ReplayAll(map[]) == []
  {
    AscendingIntsHas({});
    var none: map<ReqId, UserAction> := map[];
    assert none.Keys == {};
    assert AscendingInts({}) == [];
  }

  // ----- Synchronising sends no action -----

  /** Effects that carry no user action. */
  predicate Plain(fx: seq<Effect>) {
    forall e :: e in fx ==> !(e.Send? && e.frame.req.Act?) && !e.ActionFailed?
  }

  /** Nothing but changes to the host's maps. */
  predicate OnlyMaps(fx: seq<Effect>) {
    forall e :: e in fx ==> e.AddRequest? || e.RemoveRequest? || e.SetHoldings? || e.ClearHoldings?
  }

  lemma SyncPlain(k: Kind, m: Requests, list: seq<Request>)
    ensures OnlyMaps(SyncEffects(k, m, list))
  {
    hide Ascending, Inserted, Keep, IdSet;
  }

  lemma {:induction false} SetEffectsPlain(reports: seq<Report>)
    ensures OnlyMaps(SetEffects(reports))
  {
    if reports != [] {
      SetEffectsPlain(reports[..|reports| - 1]);
    }
  }

  lemma SyncViewPlain(v: View, p: Snapshot)
    ensures OnlyMaps(SyncViewEffects(v, p)) && Plain(SyncViewEffects(v, p))
  {
    hide SyncEffects, Ascending, SetEffects;
    SyncPlain(SignKind, v.sign, p.sign);
    SyncPlain(SignMessageKind, v.signMessage, p.signMessage);
    SyncPlain(PayKind, v.pay, p.pay);
    SyncPlain(FundKind, v.fund, p.fund);
    SyncPlain(ReceiveAddressKind, v.receiveAddress, p.receiveAddress);
    SyncPlain(AssetBalanceKind, v.assetBalance, p.assetBalance);
    SetEffectsPlain(p.holdings);
  }
}
