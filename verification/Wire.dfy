/** The wallet-side protocol as values (`wire.rs`, `link.rs`): requests, actions, frames, and
    what goes into and comes out of the session core. */
module Wire {
  import opened Common

  type Id = string

  datatype Kind = LoginKind | SignKind | SignMessageKind | ReceiveAddressKind | AssetBalanceKind | PayKind | FundKind

  /** The seven request structs of the protocol. */
  datatype Request =
    | LoginRequest(id: Id, domain: string, ttl: u64, serviceChallenge: Option<string>)
    | SignRequest(id: Id, domain: string, ttl: u64, pset: string)
    | SignMessageRequest(id: Id, domain: string, ttl: u64, digest: string, description: Option<string>)
    | ReceiveAddressRequest(id: Id, domain: string, ttl: u64, description: Option<string>)
    | AssetBalanceRequest(id: Id, domain: string, ttl: u64, description: Option<string>, assetId: string)
    | PayRequest(id: Id, domain: string, ttl: u64, recipient: string, assetId: string, amount: u64,
        memo: Option<string>)
    | FundRequest(id: Id, domain: string, ttl: u64, template: string, assetId: string, amount: u64,
        memo: Option<string>)
  {
    function Kind(): Kind {
      match this
      case LoginRequest(_, _, _, _) => LoginKind
      case SignRequest(_, _, _, _) => SignKind
      case SignMessageRequest(_, _, _, _, _) => SignMessageKind
      case ReceiveAddressRequest(_, _, _, _) => ReceiveAddressKind
      case AssetBalanceRequest(_, _, _, _, _) => AssetBalanceKind
      case PayRequest(_, _, _, _, _, _, _) => PayKind
      case FundRequest(_, _, _, _, _, _, _) => FundKind
    }
  }

  datatype Holding = Holding(lbl: string, kind: string, assetId: Option<string>, units: string, amount: int,
      precision: byte)
  datatype Report = Report(domain: string, holdings: seq<Holding>, asOf: int)
  datatype Session = Session(sessionId: string, domain: string, isLocal: bool)

  datatype UserAction =
    | LinkLogin(id: Id)
    | AcceptLogin(id: Id, descriptor: string, serviceKey: Option<string>, serviceSignature: Option<string>)
    | AcceptSign(id: Id, pset: string)
    | AcceptSignMessage(id: Id, signature: string)
    | AcceptReceiveAddress(id: Id, address: string)
    | AcceptAssetBalance(id: Id, amount: u64)
    | AcceptPay(id: Id, txid: string)
    | AcceptFund(id: Id, pset: string)
    | Cancel(kind: Kind, id: Id)
    | StopSession(sessionId: string)

  type ReqId = int

  datatype Req =
    | Challenge
    | Login(publicKey: string, signature: string, installId: string)
    | Act(action: UserAction)
    | RegisterFcm(token: string)

  /** `To::Req`: what the wallet sends. */
  datatype Frame = Frame(id: ReqId, req: Req)

  /** The login response's request lists, each of its own kind, and holdings. */
  datatype Snapshot = Snapshot(
    sessions: seq<Session>,
    sign: seq<Request>,
    signMessage: seq<Request>,
    pay: seq<Request>,
    fund: seq<Request>,
    receiveAddress: seq<Request>,
    assetBalance: seq<Request>,
    holdings: seq<Report>)

  predicate AllOf(kind: Kind, requests: seq<Request>) {
    forall r :: r in requests ==> r.Kind() == kind
  }

  /** What deserialisation guarantees: every list holds requests of its own kind. */
  predicate Typed(p: Snapshot) {
    && AllOf(SignKind, p.sign) && AllOf(SignMessageKind, p.signMessage) && AllOf(PayKind, p.pay)
    && AllOf(FundKind, p.fund) && AllOf(ReceiveAddressKind, p.receiveAddress) && AllOf(AssetBalanceKind, p.assetBalance)
  }

  type LoginSnapshot = p: Snapshot | Typed(p) witness Snapshot([], [], [], [], [], [], [], [])

  datatype Resp =
    | ChallengeResp(challenge: string)
    | LoginResp(snapshot: LoginSnapshot)
    | UserActionResp
    | RegisterFcmResp

  datatype Notif =
    | NotifySessionCreated(session: Session)
    | NotifySessionRemoved(sessionId: string)
    | RequestCreated(request: Request)
    | RequestRemoved(kind: Kind, id: Id)
    | HoldingsUpdated(report: Report)
    | HoldingsRemoved(domain: string)

  datatype From =
    | RespFrom(id: ReqId, resp: Resp)
    | ErrorFrom(id: ReqId, message: string)
    | NotifFrom(notif: Notif)

  datatype LinkType = LinkLoginType | LinkSignType | LinkOpenType

  datatype ServiceBinding = ServiceBinding(key: string, signature: string)

  datatype Input =
    | Connected
    | Recv(msg: Option<From>)     // `None`: text that does not parse, logged and dropped
    | Disconnected
    | AppLink(linkType: LinkType, id: Id, isMobile: bool)
    | LoginAccepted(id: Id, binding: Option<ServiceBinding>)
    | SignAccepted(id: Id, signedPset: string)
    | SignMessageAccepted(id: Id)
    | SignMessageSigned(id: Id, signature: string)
    | ReceiveAddressProvided(id: Id, address: string)
    | AssetBalanceProvided(id: Id, amount: u64)
    | PayBuilt(id: Id, txid: string)
    | FundSigned(id: Id, pset: string)
    | Rejected(kind: Kind, id: Id)
    | RegisterFcmToken(token: string)
    | StopSessionInput(sessionId: string)

  datatype Effect =
    | Send(frame: Frame)
    | AddRequest(request: Request)
    | RemoveRequest(kind: Kind, id: Id)
    | SetHoldings(report: Report)
    | ClearHoldings(domain: string)
    | SessionList(sessions: seq<Session>)
    | SessionCreated(session: Session)
    | SessionRemoved(sessionId: string)
    | MinimizeMobileApp
    | ActionFailed(action: UserAction, message: string)

  /** What never changes during a run: the wallet's identity, its descriptor and its key's signers. */
  datatype Config = Config(
    installId: string,
    descriptor: string,
    publicKey: string,
    signChallenge: string -> string,
    signDigest: Bytes32 -> string)

  // ----- Orders of the maps the core iterates -----

  /** The order of string keys. */
  predicate StringLeq(a: string, b: string) {
    a == [] || (b != [] && (a[0] < b[0] || (a[0] == b[0] && StringLeq(a[1..], b[1..]))))
  }

  lemma {:induction false} StringLeqTotal(a: string, b: string)
    ensures StringLeq(a, b) || StringLeq(b, a)
    ensures StringLeq(a, b) && StringLeq(b, a) ==> a == b
  {
    if a != [] && b != [] {
      StringLeqTotal(a[1..], b[1..]);
      assert a == [a[0]] + a[1..] && b == [b[0]] + b[1..];
    }
  }

  lemma {:induction false} StringLeqTransitive(a: string, b: string, c: string)
    requires StringLeq(a, b) && StringLeq(b, c)
    ensures StringLeq(a, c)
  {
    if a != [] && a[0] == b[0] && b[0] == c[0] {
      StringLeqTransitive(a[1..], b[1..], c[1..]);
    }
  }

  /** It is the order of a dictionary: the smaller string is a prefix of the other, or has the smaller character where
      they first differ. */
  lemma {:induction false} StringLeqIff(a: string, b: string)
    ensures StringLeq(a, b) <==>
            a <= b || exists i :: 0 <= i < |a| && i < |b| && a[..i] == b[..i] && a[i] < b[i]
  {
    if a != [] && b != [] {
      StringLeqIff(a[1..], b[1..]);
      if a[0] == b[0] {
        if i :| 0 <= i < |a[1..]| && i < |b[1..]| && a[1..][..i] == b[1..][..i] && a[1..][i] < b[1..][i] {
          assert a[..i + 1] == [a[0]] + a[1..][..i] && b[..i + 1] == [b[0]] + b[1..][..i];
        }
        if i :| 0 <= i < |a| && i < |b| && a[..i] == b[..i] && a[i] < b[i] {
          assert i > 0 && a[1..][..i - 1] == a[..i][1..] && b[1..][..i - 1] == b[..i][1..];
          assert a[1..][i - 1] == a[i] && b[1..][i - 1] == b[i];
        }
        assert a[1..] <= b[1..] <==> a <= b;
      } else if a[0] < b[0] {
        assert a[..0] == b[..0];
      } else {
        FirstAgrees(a, b);
      }
    }
  }

  lemma FirstAgrees(a: string, b: string)
    requires a != [] && b != []
    ensures forall i :: 0 < i <= |a| && i <= |b| && a[..i] == b[..i] ==> a[0] == b[0]
  {
    forall i | 0 < i <= |a| && i <= |b| && a[..i] == b[..i] ensures a[0] == b[0] {
      assert a[..i][0] == a[0] && b[..i][0] == b[0];
    }
  }

  predicate IsLeastString(x: string, s: set<string>) {
    x in s && forall y :: y in s ==> StringLeq(x, y)
  }

  lemma {:induction false} LeastString(s: set<string>) returns (x: string)
    requires s != {}
    ensures IsLeastString(x, s)
  {
    x :| x in s;
    if s == {x} {
      StringLeqTotal(x, x);
    } else {
      var y := LeastString(s - {x});
      StringLeqTotal(x, y);
      StringLeqTotal(x, x);
      if StringLeq(x, y) {
        forall z | z in s ensures StringLeq(x, z) {
          if z != x {
            StringLeqTransitive(x, y, z);
          }
        }
      } else {
        x := y;
      }
    }
  }

  lemma LeastStringExists(s: set<string>)
    requires s != {}
    ensures exists x :: x in s && IsLeastString(x, s)
  {
    var x := LeastString(s);
  }

  ghost function FirstString(s: set<string>): (x: string)
    requires s != {}
    ensures IsLeastString(x, s)
  {
    LeastStringExists(s);
    var x :| x in s && IsLeastString(x, s);
    x
  }

  /** The elements of a set of strings in ascending order. */
  ghost function Ascending(s: set<string>): seq<string> {
    if s == {} then [] else [FirstString(s)] + Ascending(s - {FirstString(s)})
  }

  lemma {:induction false} AscendingHas(s: set<string>)
    ensures |Ascending(s)| == |s| && forall x :: x in Ascending(s) <==> x in s
    ensures forall i, j :: 0 <= i < j < |Ascending(s)| ==> Ascending(s)[i] != Ascending(s)[j]
    ensures forall i, j :: 0 <= i < j < |Ascending(s)| ==> StringLeq(Ascending(s)[i], Ascending(s)[j])
  {
    if s != {} {
      var x := FirstString(s);
      AscendingHas(s - {x});
      var rest := Ascending(s - {x});
      assert Ascending(s) == [x] + rest;
      forall i, j | 0 <= i < j < |Ascending(s)|
        ensures Ascending(s)[i] != Ascending(s)[j] && StringLeq(Ascending(s)[i], Ascending(s)[j])
      {
        assert rest[j - 1] in rest;
      }
    }
  }

  predicate IsLeast(x: int, s: set<int>) {
    x in s && forall y :: y in s ==> x <= y
  }

  lemma NoElements(s: set<int>)
    ensures (forall x: int :: x !in s) ==> s == {}
  {
    if forall x: int :: x !in s {
      assert s == {};
    }
  }

  lemma {:induction false} LeastExists(s: set<int>)
    requires s != {}
    ensures exists x :: IsLeast(x, s)
  {
    NoElements(s);
    var x :| x in s;
    if s == {x} {
      assert IsLeast(x, s);
    } else {
      LeastExists(s - {x});
      var y :| IsLeast(y, s - {x});
      var m := if y <= x then y else x;
      forall z | z in s ensures m <= z { if z != x { assert z in s - {x}; } }
      assert IsLeast(m, s);
    }
  }

  function Least(s: set<int>): (x: int)
    requires s != {}
    ensures IsLeast(x, s)
  {
    LeastExists(s);
    var x :| x in s && IsLeast(x, s);
    x
  }

  function AscendingInts(s: set<int>): seq<int> {
    if s == {} then [] else [Least(s)] + AscendingInts(s - {Least(s)})
  }

  lemma {:induction false} AscendingIntsHas(s: set<int>)
    ensures forall x :: x in AscendingInts(s) <==> x in s
    ensures forall i, j :: 0 <= i < j < |AscendingInts(s)| ==> AscendingInts(s)[i] < AscendingInts(s)[j]
  {
    if s != {} {
      var x := Least(s);
      AscendingIntsHas(s - {x});
      var rest := AscendingInts(s - {x});
      forall i, j | 0 <= i < j < |AscendingInts(s)| ensures AscendingInts(s)[i] < AscendingInts(s)[j] {
        assert rest[j - 1] in rest;
      }
    }
  }

  // ----- Hex digests -----

  predicate IsHex(c: char) { '0' <= c <= '9' || 'a' <= c <= 'f' || 'A' <= c <= 'F' }

  function HexValue(c: char): nat {
    if '0' <= c <= '9' then (c - '0') as nat
    else if 'a' <= c <= 'f' then 10 + (c - 'a') as nat
    else if 'A' <= c <= 'F' then 10 + (c - 'A') as nat
    else 0
  }

  /** `hex::decode_to_slice` into 32 bytes. */
  function DecodeDigest(s: string): Option<Bytes32> {
    if |s| == 64 && forall i :: 0 <= i < 64 ==> IsHex(s[i])
    then Some(seq(32, i requires 0 <= i < 32 => (HexValue(s[2 * i]) * 16 + HexValue(s[2 * i + 1])) % 256))
    else None
  }
}
