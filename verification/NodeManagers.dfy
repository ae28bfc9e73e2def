/** The node manager: the server's local agent of one connected client.  It keeps the client's
    neighbourhood and links, the keys of the requests the client still has to answer, and the
    reports about its peers. */
module NodeManagers {
  import opened Sets
  import opened Ids
  import opened Views
  import opened Overlay

  datatype Op =
    | CLOSE | HEARTBEAT | UPDATE_NODE_POSITION | CONNECT_NODE | DISCONNECT_NODE | REPORT_NODE
    | SEND_OFFER | ANSWER_OFFER
    | VERIFY_NODE_CONNECTED | INIT_POOL | ADD_NODE | REMOVE_NODE | ADD_USER | REMOVE_USER

  type ReportCode = int

  const REPORT_CODE_FINAL: ReportCode := -1
  const REPORT_CODE_NOT_CONNECTING: ReportCode := -2
  const REPORT_CODE_DISCONNECT: ReportCode := 0

  const MAX_UNIQUE_REPORTS := 3
  const MAX_REPORTS := 5

  /** The empty key. */
  const NO_KEY := 0

  datatype Body =
    | SuccessResponse(success: bool)
    | SdpResponse(success: bool)
    | ReportNode(nodeID: Id, reportCode: ReportCode)
    | OtherData

  datatype ClientMessage = ClientMessage(op: Op, key: int, data: Body)

  /** What the pool puts on a node's channel for the client or about a report. */
  datatype PoolMessage =
    | Offer(fromNodeID: Id)
    | Answer(fromNodeID: Id)
    | Connected(fromNodeID: Id)
    | News(op: Op)
    | NotifyReport(fromNodeID: Id, reportCode: ReportCode)

  datatype Incoming =
    | Received(message: ClientMessage)
    | FromPool(post: PoolMessage)
    | Position(position: PositionMessage)

  datatype AckPending = AckPending(expireTime: int, responseOp: Op, targetNodeID: Id)

  /** What a manager does to the outside: requests to its client, which are to be answered with
      responseOp; messages to other nodes of the pool; and, for the record, confirmed links. */
  datatype Event =
    | Asked(op: Op, responseOp: Op, target: Id)
    | Posted(target: Id, post: PoolMessage)
    | Verified(target: Id)

  datatype Manager = Manager(
    nodeID: Id,
    clientErr: bool,
    curReports: map<Id, ReportCode>,
    curReportsCount: nat,
    curNodePosition: NodePosition,
    nodeStates: set<Id>,
    ackPending: map<int, AckPending>,
    events: seq<Event>)

  predicate OpNoKeyRequired(op: Op) {
    op == HEARTBEAT || op == REPORT_NODE
  }

  predicate ReportCodeIsFromClient(code: ReportCode) {
    code == REPORT_CODE_DISCONNECT
  }

  predicate ReportCodeRequiresReconnect(code: ReportCode) {
    code == REPORT_CODE_NOT_CONNECTING || code == REPORT_CODE_DISCONNECT
  }

  // ---- What one message does ----

  /** A request: what is asked, and what chance decides, namely the key, the deadline, and whether
      the client could be reached. */
  datatype Question = Question(op: Op, responseOp: Op, target: Id, key: int, expireTime: int, written: bool)

  function Ask(m: Manager, q: Question): Manager {
    m.(ackPending := m.ackPending[q.key := AckPending(q.expireTime, q.responseOp, q.target)],
       clientErr := !q.written,
       events := m.events + [Asked(q.op, q.responseOp, q.target)])
  }

  function AskAll(m: Manager, qs: seq<Question>): Manager {
    if qs == [] then m else Ask(AskAll(m, qs[..|qs|-1]), qs[|qs|-1])
  }

  function Post(m: Manager, target: Id, post: PoolMessage): Manager {
    m.(events := m.events + [Posted(target, post)])
  }

  function NotCompliant(m: Manager): Manager {
    m.(clientErr := true)
  }

  function ClearReport(m: Manager, target: Id): Manager {
    m.(curReports := m.curReports - {target}, curReportsCount := 0)
  }

  /** The reports that are not final. */
  function Pending(reports: map<Id, ReportCode>): set<Id> {
    set id | id in reports && reports[id] != REPORT_CODE_FINAL
  }

  /** Whether a report about `target` is taken up. */
  predicate TakesReport(m: Manager, target: Id, code: ReportCode) {
    && target in m.nodeStates && m.curReportsCount + 1 < MAX_REPORTS && code != REPORT_CODE_FINAL
    && (code == REPORT_CODE_DISCONNECT ==> target !in m.curReports)
    && |Pending(m.curReports)| < MAX_UNIQUE_REPORTS
  }

  function Report(m: Manager, target: Id, code: ReportCode): Manager {
    if target !in m.nodeStates then m
    else
      var n := m.(curReportsCount := m.curReportsCount + 1);
      if TakesReport(m, target, code) then n.(curReports := n.curReports[target := code])
      else if n.curReportsCount >= MAX_REPORTS then
        if code == REPORT_CODE_FINAL then NotCompliant(n)
        else Post(NotCompliant(n), target, NotifyReport(m.nodeID, REPORT_CODE_FINAL))
      else if code == REPORT_CODE_FINAL || (code == REPORT_CODE_DISCONNECT && target in m.curReports) then n
      else NotCompliant(n)
  }

  function ClientReport(m: Manager, target: Id, code: ReportCode): Manager {
    if TakesReport(m, target, code) then Post(Report(m, target, code), target, NotifyReport(m.nodeID, code))
    else Report(m, target, code)
  }

  /** The client's answer, once its key has been accepted. */
  function OnAnswer(m: Manager, op: Op, data: Body, target: Id): Manager {
    match op
    case CONNECT_NODE =>
      if !data.SuccessResponse? then NotCompliant(m)
      else if target !in m.nodeStates then m
      else if data.success then Post(ClearReport(m, target), target, Connected(m.nodeID))
      else ClientReport(m, target, REPORT_CODE_NOT_CONNECTING)
    case SEND_OFFER =>
      if !data.SdpResponse? then NotCompliant(m)
      else if target !in m.nodeStates then m
      else if data.success then Post(m, target, Offer(m.nodeID))
      else NotCompliant(m)
    case ANSWER_OFFER =>
      if !data.SdpResponse? then NotCompliant(m)
      else if target !in m.nodeStates then m
      else if data.success then Post(m, target, Answer(m.nodeID))
      else NotCompliant(m)
    case VERIFY_NODE_CONNECTED =>
      if !data.SuccessResponse? then NotCompliant(m)
      else if target !in m.nodeStates then m
      else if data.success then ClearReport(m, target).(events := m.events + [Verified(target)])
      else ClientReport(m, target, REPORT_CODE_NOT_CONNECTING)
    case REPORT_NODE =>
      if !data.ReportNode? || !ReportCodeIsFromClient(data.reportCode) then NotCompliant(m)
      else ClientReport(m, data.nodeID, data.reportCode)
    case _ => m
  }

  function OnClient(m: Manager, c: ClientMessage): Manager {
    if c.key != NO_KEY then
      if c.key in m.ackPending && m.ackPending[c.key].responseOp == c.op then
        OnAnswer(m.(ackPending := m.ackPending - {c.key}), c.op, c.data, m.ackPending[c.key].targetNodeID)
      else NotCompliant(m)
    else if OpNoKeyRequired(c.op) then OnAnswer(m, c.op, c.data, NOBODY)
    else NotCompliant(m)
  }

  /** Whether a message of the pool leads to a request to the client. */
  predicate CallsFor(m: Manager, p: PoolMessage) {
    match p
    case Offer(f) => f in m.nodeStates
    case Answer(f) => f in m.nodeStates
    case Connected(f) => f in m.nodeStates
    case News(_) => true
    case NotifyReport(f, code) => TakesReport(m, f, code) && ReportCodeRequiresReconnect(code)
  }

  /** The request to which a message of the pool leads, apart from what chance decides. */
  predicate Suits(m: Manager, p: PoolMessage, q: Question) {
    match p
    case Offer(f) => q.op == SEND_OFFER && q.responseOp == ANSWER_OFFER && q.target == f
    case Answer(f) => q.op == ANSWER_OFFER && q.responseOp == CONNECT_NODE && q.target == f
    case Connected(f) => q.op == q.responseOp == VERIFY_NODE_CONNECTED && q.target == f
    case News(op) => q.op == q.responseOp == op && q.target == m.nodeID
    case NotifyReport(f, _) => q.op == CONNECT_NODE && q.responseOp == SEND_OFFER && q.target == f
  }

  lemma SomeQuestionSuits(m: Manager, p: PoolMessage) returns (q: Question)
    ensures Suits(m, p, q)
  {
    q := match p
      case Offer(f) => Question(SEND_OFFER, ANSWER_OFFER, f, NO_KEY, 0, true)
      case Answer(f) => Question(ANSWER_OFFER, CONNECT_NODE, f, NO_KEY, 0, true)
      case Connected(f) => Question(VERIFY_NODE_CONNECTED, VERIFY_NODE_CONNECTED, f, NO_KEY, 0, true)
      case News(op) => Question(op, op, m.nodeID, NO_KEY, 0, true)
      case NotifyReport(f, _) => Question(CONNECT_NODE, SEND_OFFER, f, NO_KEY, 0, true);
  }

  function OnPool(m: Manager, p: PoolMessage, q: Question): Manager {
    var n := if p.NotifyReport? then Report(m, p.fromNodeID, p.reportCode) else m;
    if CallsFor(m, p) then Ask(n, q) else n
  }

  /** The timer finds a request whose answer is overdue, or it does not. */
  function Tick(m: Manager, now: int): Manager {
    if exists k :: k in m.ackPending && m.ackPending[k].expireTime < now then NotCompliant(m) else m
  }

  /** No node is listed twice. */
  ghost predicate NoTwins(v: NodePosition)
    requires v.WellShaped()
  {
    forall p: nat, q: nat | p < 15 && q < 15 && v.At(p) == v.At(q) != NOBODY :: p == q
  }

  /** One request with these op codes for each of these nodes. */
  ghost predicate AsksEach(qs: seq<Question>, op: Op, responseOp: Op, ids: set<Id>) {
    && (forall q | q in qs :: q.op == op && q.responseOp == responseOp && q.target in ids)
    && (forall i, j | 0 <= i < j < |qs| :: qs[i].target != qs[j].target)
    && (forall id | id in ids :: exists q :: q in qs && q.target == id)
  }

  /** The requests that a new position leads to: the client is told the position, asked to connect
      to new peers, and to disconnect from those who are no peers any more. */
  ghost predicate UpdateRequests(m: Manager, v: NodePosition, promoted: bool, first: Question, cs: seq<Question>,
                                 ds: seq<Question>)
    requires v.WellShaped()
  {
    && first.op == first.responseOp == UPDATE_NODE_POSITION && first.target == m.nodeID
    && (exists ids :: AsksEach(cs, CONNECT_NODE, SEND_OFFER, ids)
          && ids <= Peers(v) - m.nodeStates && (NoTwins(v) ==> ids == Asks(m.nodeStates, v, promoted)))
    && AsksEach(ds, DISCONNECT_NODE, DISCONNECT_NODE, m.nodeStates - Peers(v))
  }

  /** What the new position v and its requests make of a manager. */
  function Repositioned(m: Manager, v: NodePosition, qs: seq<Question>): Manager
    requires v.WellShaped()
  {
    var gone := m.nodeStates - Peers(v);
    AskAll(m, qs).(
      curNodePosition := v, nodeStates := Peers(v),
      curReports := m.curReports - gone, curReportsCount := if gone == {} then m.curReportsCount else 0)
  }

  ghost predicate Updates(m: Manager, v: NodePosition, promoted: bool, m': Manager)
    requires v.WellShaped()
  {
    exists first, cs, ds ::
      UpdateRequests(m, v, promoted, first, cs, ds) && m' == Repositioned(m, v, [first] + cs + ds)
  }

  /** The manager can process the message.  A single position that comes before any full one finds an
      empty path, whose last element cannot be read: the server does not survive that. */
  predicate CanTake(m: Manager, i: Incoming) {
    i.Position? ==>
      Acceptable(i.position) && (m.clientErr || i.position.Full? || m.curNodePosition.path != [])
  }

  /** What processing one message may do.  A manager whose client has failed does nothing any more. */
  ghost predicate Steps(m: Manager, i: Incoming, m': Manager)
    requires m.curNodePosition.WellShaped() && CanTake(m, i)
  {
    if m.clientErr then m' == m
    else match i
      case Received(c) => m' == OnClient(m, c)
      case FromPool(p) => exists q :: Suits(m, p, q) && m' == OnPool(m, p, q)
      case Position(p) => Updates(m, Receive(m.curNodePosition, p), p.Full?, m')
  }

  // ---- What every manager keeps ----

  const START := Manager(NOBODY, false, map[], 0, NEW_POSITION, {}, map[], [])

  /** The reports: few, never final, about linked nodes only, and not many in a row. */
  ghost predicate Orderly(m: Manager) {
    && m.curNodePosition.WellShaped()
    && |m.curReports| <= MAX_UNIQUE_REPORTS
    && (forall id | id in m.curReports :: id in m.nodeStates && m.curReports[id] != REPORT_CODE_FINAL)
    && (!m.clientErr ==> m.curReportsCount < MAX_REPORTS)
  }

  lemma NothingIsFinal(reports: map<Id, ReportCode>)
    requires forall id | id in reports :: reports[id] != REPORT_CODE_FINAL
    ensures |Pending(reports)| == |reports|
  {
    forall id
      ensures id in Pending(reports) <==> id in reports.Keys
    {
    }
    assert Pending(reports) == reports.Keys;
  }

  lemma ReportKeepsOrder(m: Manager, target: Id, code: ReportCode)
    requires Orderly(m) && !m.clientErr
    ensures Orderly(Report(m, target, code)) && Orderly(ClientReport(m, target, code))
  {
    NothingIsFinal(m.curReports);
  }

  lemma FewerReports(reports: map<Id, ReportCode>, gone: set<Id>)
    ensures |reports - gone| <= |reports|
  {
  }

  lemma AnswerKeepsOrder(m: Manager, op: Op, data: Body, target: Id)
    requires Orderly(m) && !m.clientErr
    ensures Orderly(OnAnswer(m, op, data, target))
  {
    hide Report, ClientReport;
    FewerReports(m.curReports, {target});
    ReportKeepsOrder(m, target, REPORT_CODE_NOT_CONNECTING);
    if data.ReportNode? { ReportKeepsOrder(m, data.nodeID, data.reportCode); }
  }

  /** Every message keeps the reports in order, whatever client, pool and chance do. */
  lemma StepKeepsOrder(m: Manager, i: Incoming, m': Manager)
    requires Orderly(m) && CanTake(m, i) && Steps(m, i, m')
    ensures Orderly(m')
  {
    hide Orderly, OnClient, OnPool, Updates;
    if !m.clientErr {
      match i
      case Received(c) => ClientKeepsOrder(m, c);
      case FromPool(p) =>
        var q :| Suits(m, p, q) && m' == OnPool(m, p, q);
        PoolKeepsOrder(m, p, q);
      case Position(p) =>
        ViewsAreShaped(m, i);
        PositionKeepsOrder(m, Receive(m.curNodePosition, p), p.Full?, m');
    }
  }

  lemma ViewsAreShaped(m: Manager, i: Incoming)
    requires Orderly(m) && CanTake(m, i)
    ensures m.curNodePosition.WellShaped() && (i.Position? ==> Acceptable(i.position))
  {
  }

  lemma ClientKeepsOrder(m: Manager, c: ClientMessage)
    requires Orderly(m) && !m.clientErr
    ensures Orderly(OnClient(m, c))
  {
    hide OnAnswer;
    if c.key != NO_KEY && c.key in m.ackPending {
      AnswerKeepsOrder(m.(ackPending := m.ackPending - {c.key}), c.op, c.data, m.ackPending[c.key].targetNodeID);
    }
    AnswerKeepsOrder(m, c.op, c.data, NOBODY);
  }

  lemma PoolKeepsOrder(m: Manager, p: PoolMessage, q: Question)
    requires Orderly(m) && !m.clientErr
    ensures Orderly(OnPool(m, p, q))
  {
    if p.NotifyReport? { ReportKeepsOrder(m, p.fromNodeID, p.reportCode); }
  }

  lemma PositionKeepsOrder(m: Manager, v: NodePosition, promoted: bool, m': Manager)
    requires Orderly(m) && !m.clientErr && v.WellShaped() && Updates(m, v, promoted, m')
    ensures Orderly(m')
  {
    var first, cs, ds :|
      UpdateRequests(m, v, promoted, first, cs, ds) && m' == Repositioned(m, v, [first] + cs + ds);
    FewerReports(m.curReports, m.nodeStates - Peers(v));
  }

  ghost predicate ManagerStep(m: Manager, m': Manager) {
    && m.curNodePosition.WellShaped()
    && ((exists i: Incoming :: CanTake(m, i) && Steps(m, i, m'))
     || (exists now :: m' == Tick(m, now)))
  }

  ghost predicate ManagerStepAt(run: seq<Manager>, i: nat)
    requires i + 1 < |run|
  {
    ManagerStep(run[i], run[i+1])
  }

  /** A manager from its start on, with any messages in any order, except that a full position comes
      before any single one, and the timer in between. */
  ghost predicate IsManagerRun(run: seq<Manager>) {
    && |run| > 0 && run[0] == START.(nodeID := run[0].nodeID)
    && forall i: nat | i < |run| - 1 :: ManagerStepAt(run, i)
  }

  lemma ManagerStepKeepsOrder(m: Manager, m': Manager)
    requires Orderly(m) && ManagerStep(m, m')
    ensures Orderly(m')
  {
    hide Orderly, Steps, Tick;
    if i: Incoming :| CanTake(m, i) && Steps(m, i, m') {
      StepKeepsOrder(m, i, m');
    } else {
      var now :| m' == Tick(m, now);
      TickKeepsOrder(m, now);
    }
  }

  lemma TickKeepsOrder(m: Manager, now: int)
    requires Orderly(m)
    ensures Orderly(Tick(m, now))
  {
  }

  lemma {:induction false} RunsStayOrderly(run: seq<Manager>, n: nat)
    requires IsManagerRun(run) && n < |run|
    ensures Orderly(run[n])
  {
    hide *;
    if n == 0 {
      RunStartsOrderly(run);
    } else {
      RunsStayOrderly(run, n - 1);
      RunSteps(run, n - 1);
      ManagerStepKeepsOrder(run[n-1], run[n]);
    }
  }

  lemma RunStartsOrderly(run: seq<Manager>)
    requires IsManagerRun(run)
    ensures Orderly(run[0])
  {
  }

  lemma RunSteps(run: seq<Manager>, i: nat)
    requires IsManagerRun(run) && i + 1 < |run|
    ensures ManagerStep(run[i], run[i+1])
  {
    hide ManagerStep;
    assert ManagerStepAt(run, i);
  }

  /** While no client error comes up, position messages are all processed. */
  ghost predicate Positioned(run: seq<Manager>, ms: seq<PositionMessage>) {
    && |run| == |ms| + 1
    && forall i: nat | i < |ms| :: PositionedAt(run, ms, i)
  }

  ghost predicate PositionedAt(run: seq<Manager>, ms: seq<PositionMessage>, i: nat)
    requires i < |ms| && |run| == |ms| + 1
  {
    && !run[i].clientErr && run[i].curNodePosition.WellShaped() && CanTake(run[i], Position(ms[i]))
    && Steps(run[i], Position(ms[i]), run[i+1])
  }

  /** A manager's view is the replay of its position messages, and its links are the peers of its view. */
  lemma {:induction false} LinksFollowViews(run: seq<Manager>, ms: seq<PositionMessage>, n: nat)
    requires Positioned(run, ms) && n <= |ms| && run[0].curNodePosition.WellShaped()
    requires forall x | x in ms :: Acceptable(x)
    ensures run[n].curNodePosition == ReceiveAll(run[0].curNodePosition, ms[..n])
    ensures n > 0 ==> run[n].nodeStates == Peers(run[n].curNodePosition)
  {
    if n > 0 {
      LinksFollowViews(run, ms, n - 1);
      assert PositionedAt(run, ms, n - 1);
      assert ms[..n][..n-1] == ms[..n-1];
    }
  }

  /** Views stay free of duplicates, so it is always settled who asks. */
  lemma ReceiveKeepsNoTwins(v: NodePosition, m: PositionMessage)
    requires v.WellShaped() && NoTwins(v) && Acceptable(m) && (m.Full? ==> NoTwins(m.view))
    ensures NoTwins(Receive(v, m))
  {
    if m.Single? && m.nodeID != NOBODY {
      var w := Clear(v, m.nodeID);
      forall p: nat | p < 15
        ensures w.At(p) != m.nodeID && (w.At(p) == v.At(p) || w.At(p) == NOBODY)
      {
        ClearRemoves(v, m.nodeID, p);
      }
    }
  }

  lemma ClearRemoves(v: NodePosition, id: Id, p: nat)
    requires v.WellShaped() && NoTwins(v) && id != NOBODY && p < 15
    ensures Clear(v, id).At(p) != id
    ensures Clear(v, id).At(p) == v.At(p) || Clear(v, id).At(p) == NOBODY
  {
    ClearEntry(v, id, p);
    if p < 9 {
      RowIsUnique(v, p / 3, id);
      ClearRowRemoves(v.parentClusterNodeIDs[p / 3], id, p % 3);
    } else {
      RowIsUnique(v, p / 3, id);
      ClearRowRemoves(v.childClusterNodeIDs[p / 3 - 3], id, p % 3);
      if v.At(p) == id { NotAmongParents(v, p); }
    }
  }

  ghost predicate AtMostOnce(row: seq<Id>, id: Id) {
    forall a, b | 0 <= a < |row| && 0 <= b < |row| && row[a] == row[b] == id :: a == b
  }

  lemma ClearRowRemoves(row: seq<Id>, id: Id, j: nat)
    requires |row| == 3 && id != NOBODY && j < 3
    requires AtMostOnce(row, id)
    ensures ClearRow(row, id)[j] != id
  {
  }

  lemma RowIsUnique(v: NodePosition, k: nat, id: Id)
    requires v.WellShaped() && NoTwins(v) && id != NOBODY && k < 5
    ensures AtMostOnce(if k < 3 then v.parentClusterNodeIDs[k] else v.childClusterNodeIDs[k - 3], id)
  {
    var row := if k < 3 then v.parentClusterNodeIDs[k] else v.childClusterNodeIDs[k - 3];
    forall a, b | 0 <= a < 3 && 0 <= b < 3 && row[a] == row[b] == id
      ensures a == b
    {
      assert v.At(3 * k + a) == row[a] && v.At(3 * k + b) == row[b];
    }
  }

  lemma NotAmongParents(v: NodePosition, p: nat)
    requires v.WellShaped() && NoTwins(v) && 9 <= p < 15 && v.At(p) != NOBODY
    ensures forall i | 0 <= i < 3 :: v.At(p) !in v.parentClusterNodeIDs[i]
  {
    forall i, j | 0 <= i < 3 && 0 <= j < 3
      ensures v.parentClusterNodeIDs[i][j] != v.At(p)
    {
      assert v.At(3 * i + j) == v.parentClusterNodeIDs[i][j];
    }
  }

  // ---- The peer rule as it is computed ----

  /** `connectNodes` has exactly the nodes at the positions in `marked`, each with whether this
      node is the one that asks. */
  ghost predicate Marked(v: NodePosition, promoted: bool, connectNodes: map<Id, bool>, marked: set<nat>)
    requires v.WellShaped()
  {
    && (forall p | p in marked :: p < 15 && v.At(p) != NOBODY && v.At(p) in connectNodes)
    && (forall id | id in connectNodes :: exists p :: p in marked && p < 15 && v.At(p) == id)
    && (NoTwins(v) ==> forall p | p in marked && p < 15 && v.At(p) in connectNodes ::
          connectNodes[v.At(p)] == Initiates(v, promoted, p))
  }

  lemma MarkMore(v: NodePosition, promoted: bool, connectNodes: map<Id, bool>, marked: set<nat>, p: nat)
    requires v.WellShaped() && p < 15 && v.At(p) != NOBODY && Marked(v, promoted, connectNodes, marked)
    ensures Marked(v, promoted, connectNodes[v.At(p) := Initiates(v, promoted, p)], marked + {p})
  {
  }

  /** Positions in the node's own panel, and those that answer for its slot in the others. */
  predicate AcrossOrMate(v: NodePosition, p: nat)
    requires v.WellShaped() && p < 9
  {
    var m, s, k := v.PanelNumber(), v.partnerInt, p / 3;
    v.At(p) != NOBODY &&
    if k == m then p % 3 != s else p % 3 == StandIn(v.parentClusterNodeIDs[k], s, m > Third(k, m))
  }

  /** Positions that answer for its slot in the panels below. */
  predicate Beneath(v: NodePosition, p: nat)
    requires v.WellShaped() && 9 <= p < 15
  {
    v.At(p) != NOBODY && p % 3 == StandIn(v.childClusterNodeIDs[p / 3 - 3], v.partnerInt, true)
  }

  /** Positions of other panels and other slots, which fall to a node without panel mates. */
  predicate Stray(v: NodePosition, p: nat)
    requires v.WellShaped() && p < 9
  {
    v.At(p) != NOBODY && p / 3 != v.PanelNumber() && p % 3 != v.partnerInt
  }

  function Mates(v: NodePosition): nat
    requires v.WellShaped()
  {
    var own, s := v.parentClusterNodeIDs[v.PanelNumber()], v.partnerInt;
    (if own[(s + 1) % 3] != NOBODY then 1 else 0) + (if own[(s + 2) % 3] != NOBODY then 1 else 0)
  }

  /** With one panel mate, the position in the third slot of the lower or of the higher other panel. */
  function Adopted(v: NodePosition): (p: nat)
    requires v.WellShaped()
    ensures p < 9
  {
    var m, s := v.PanelNumber(), v.partnerInt;
    if v.parentClusterNodeIDs[m][(s + 1) % 3] == NOBODY
    then 3 * (if m == 0 then 1 else 0) + (s + 1) % 3
    else 3 * (if m == 2 then 1 else 2) + (s + 2) % 3
  }

  /** The parts of the computation together name exactly the peers. */
  lemma PeersAreMarked(v: NodePosition, p: nat)
    requires v.WellShaped() && p < 15
    ensures PeerAt(v, p) <==>
      || (p < 9 && AcrossOrMate(v, p)) || (p >= 9 && Beneath(v, p))
      || (Mates(v) == 0 && p < 9 && Stray(v, p))
      || (Mates(v) == 1 && p == Adopted(v) && v.At(p) != NOBODY)
  {
  }

  ghost function NearMarks(v: NodePosition, n: nat): set<nat>
    requires v.WellShaped()
  {
    set p: nat | p < n && p < 9 && AcrossOrMate(v, p)
  }

  ghost function ChildMarks(v: NodePosition, n: nat): set<nat>
    requires v.WellShaped()
  {
    set p: nat | 9 <= p < n && p < 15 && Beneath(v, p)
  }

  ghost function StrayMarks(v: NodePosition, n: nat): set<nat>
    requires v.WellShaped()
  {
    set p: nat | p < n && p < 9 && Stray(v, p)
  }

  ghost function AllMarks(v: NodePosition): set<nat>
    requires v.WellShaped()
  {
    NearMarks(v, 9) + ChildMarks(v, 15) + (if Mates(v) == 0 then StrayMarks(v, 9) else {}) +
    if Mates(v) == 1 && v.At(Adopted(v)) != NOBODY then {Adopted(v)} else {}
  }

  lemma MarksStep(v: NodePosition, p: nat)
    requires v.WellShaped()
    ensures p < 9 ==> NearMarks(v, p + 1) == if AcrossOrMate(v, p) then NearMarks(v, p) + {p} else NearMarks(v, p)
    ensures p < 9 ==> StrayMarks(v, p + 1) == if Stray(v, p) then StrayMarks(v, p) + {p} else StrayMarks(v, p)
    ensures 9 <= p < 15 ==> ChildMarks(v, p + 1) == if Beneath(v, p) then ChildMarks(v, p) + {p} else ChildMarks(v, p)
  {
  }

  function Across(v: NodePosition, k: nat): (r: nat)
    requires v.WellShaped() && k < 3
    ensures r < 3
  {
    StandIn(v.parentClusterNodeIDs[k], v.partnerInt, v.PanelNumber() > Third(k, v.PanelNumber()))
  }

  lemma ChildEntry(v: NodePosition, k: nat, r: nat)
    requires v.WellShaped() && k < 2 && r < 3
    ensures v.At(9 + 3 * k + r) == v.childClusterNodeIDs[k][r]
    ensures Beneath(v, 9 + 3 * k + r) <==>
      v.childClusterNodeIDs[k][r] != NOBODY && r == StandIn(v.childClusterNodeIDs[k], v.partnerInt, true)
  {
  }

  lemma RowAcross(v: NodePosition, k: nat)
    requires v.WellShaped() && k < 3 && k != v.PanelNumber()
    ensures var p := 3 * k + Across(v, k);
      && v.At(p) == v.parentClusterNodeIDs[k][Across(v, k)]
      && NearMarks(v, 3 * k + 3) == if v.At(p) != NOBODY then NearMarks(v, 3 * k) + {p} else NearMarks(v, 3 * k)
  {
  }

  lemma RowBeneath(v: NodePosition, k: nat)
    requires v.WellShaped() && k < 2
    ensures var r := StandIn(v.childClusterNodeIDs[k], v.partnerInt, true);
      && v.At(9 + 3 * k + r) == v.childClusterNodeIDs[k][r]
      && ChildMarks(v, 12 + 3 * k) ==
         if v.At(9 + 3 * k + r) != NOBODY then ChildMarks(v, 9 + 3 * k) + {9 + 3 * k + r} else ChildMarks(v, 9 + 3 * k)
  {
    hide NodePosition.At, StandIn, NearMarks, StrayMarks, ChildMarks, Stray, Beneath, AcrossOrMate;
    MarksStep(v, 9 + 3 * k);
    MarksStep(v, 10 + 3 * k);
    MarksStep(v, 11 + 3 * k);
    ChildEntry(v, k, 0);
    ChildEntry(v, k, 1);
    ChildEntry(v, k, 2);
  }

  /** The finished map names the peers, and for each of them who asks. */
  lemma MarkedArePeers(v: NodePosition, promoted: bool, connectNodes: map<Id, bool>)
    requires v.WellShaped() && Marked(v, promoted, connectNodes, AllMarks(v))
    ensures connectNodes.Keys == Peers(v)
    ensures NoTwins(v) ==> forall id | id in connectNodes ::
      connectNodes[id] <==> id in Asks({}, v, promoted)
  {
    forall p: nat | p < 15
      ensures p in AllMarks(v) <==> PeerAt(v, p)
    {
      PeersAreMarked(v, p);
    }
    forall id
      ensures id in connectNodes <==> id in Peers(v)
    {
      if id in connectNodes {
        var p :| p in AllMarks(v) && p < 15 && v.At(p) == id;
        assert PeerAt(v, p);
      }
    }
    if NoTwins(v) {
      forall id | id in connectNodes
        ensures connectNodes[id] <==> id in Asks({}, v, promoted)
      {
        var p :| p in AllMarks(v) && p < 15 && v.At(p) == id;
        assert connectNodes[v.At(p)] == Initiates(v, promoted, p);
      }
    }
  }

  lemma AskMore(m: Manager, qs: seq<Question>, q: Question)
    ensures AskAll(m, qs + [q]) == Ask(AskAll(m, qs), q)
  {
  }

  lemma AsksMore(qs: seq<Question>, op: Op, responseOp: Op, ids: set<Id>, q: Question)
    requires AsksEach(qs, op, responseOp, ids) && q.op == op && q.responseOp == responseOp && q.target !in ids
    ensures AsksEach(qs + [q], op, responseOp, ids + {q.target})
  {
  }

  // ---- The manager itself ----

  class NodeManager {
    const nodeID: Id
    var clientErr: bool
    var curReports: map<Id, ReportCode>
    var curReportsCount: nat
    var curNodePosition: NodePosition
    /** The ids that are active; no other state is ever stored. */
    var nodeStates: set<Id>
    var ackPending: map<int, AckPending>
    var events: seq<Event>

    ghost function State(): Manager
      reads this
    {
      Manager(nodeID, clientErr, curReports, curReportsCount, curNodePosition, nodeStates, ackPending, events)
    }

    constructor StartNodeManager(nodeID: Id)
      ensures State() == Manager(nodeID, false, map[], 0, NEW_POSITION, {}, map[], [])
    {
      this.nodeID := nodeID;
      clientErr, curReports, curReportsCount := false, map[], 0;
      curNodePosition, nodeStates, ackPending, events := NEW_POSITION, {}, map[], [];
    }

    // ---- Peers from the position ----

    /** The node that answers for this node's slot in panel i of its cluster. */
    method NodeAcross(i: nat) returns (nodeID: Id)
      requires curNodePosition.WellShaped() && i < 3 && i != curNodePosition.PanelNumber()
      ensures var v := curNodePosition;
        nodeID == v.parentClusterNodeIDs[i][Across(v, i)]
    {
      var partnerInt, panelNumber := curNodePosition.partnerInt, curNodePosition.PanelNumber();
      nodeID := curNodePosition.parentClusterNodeIDs[i][partnerInt];
      if nodeID == NOBODY {
        var greaterPanel := panelNumber > Third(i, panelNumber);
        var row := curNodePosition.parentClusterNodeIDs[i];
        for j := partnerInt + 1 to partnerInt + 3
          invariant nodeID == NOBODY
          invariant j > partnerInt + 1 ==>
            row[if greaterPanel then (partnerInt + 1) % 3 else (partnerInt + 2) % 3] == NOBODY
          invariant j > partnerInt + 2 ==>
            row[if greaterPanel then (partnerInt + 2) % 3 else (partnerInt + 1) % 3] == NOBODY
        {
          var id := row[if greaterPanel then j % 3 else (2 * partnerInt + 3 - j) % 3];
          if id != NOBODY {
            nodeID := id;
            break;
          }
        }
      }
    }

    /** The node that answers for this node's slot in panel i of the cluster below. */
    method NodeBeneath(i: nat) returns (nodeID: Id)
      requires curNodePosition.WellShaped() && i < 2
      ensures var v := curNodePosition;
        nodeID == v.childClusterNodeIDs[i][StandIn(v.childClusterNodeIDs[i], v.partnerInt, true)]
    {
      var partnerInt := curNodePosition.partnerInt;
      nodeID := curNodePosition.childClusterNodeIDs[i][partnerInt];
      if nodeID == NOBODY {
        for j := partnerInt + 1 to partnerInt + 3
          invariant nodeID == NOBODY
          invariant j > partnerInt + 1 ==> curNodePosition.childClusterNodeIDs[i][(partnerInt + 1) % 3] == NOBODY
          invariant j > partnerInt + 2 ==> curNodePosition.childClusterNodeIDs[i][(partnerInt + 2) % 3] == NOBODY
        {
          var id := curNodePosition.childClusterNodeIDs[i][j % 3];
          if id != NOBODY {
            nodeID := id;
            break;
          }
        }
      }
    }

    /** The nodes of the own cluster: panel mates and those across. */
    method NearNodes(promoted: bool) returns (connectNodes: map<Id, bool>, neighbouringNodesCount: nat)
      requires curNodePosition.WellShaped()
      ensures Marked(curNodePosition, promoted, connectNodes, NearMarks(curNodePosition, 9))
      ensures neighbouringNodesCount == Mates(curNodePosition)
    {
      hide Marked, NearMarks;
      ghost var v := curNodePosition;
      var partnerInt, panelNumber := curNodePosition.partnerInt, curNodePosition.PanelNumber();
      connectNodes, neighbouringNodesCount := map[], 0;
      NothingMarked(v, promoted);
      for i := 0 to 3
        invariant Marked(v, promoted, connectNodes, NearMarks(v, 3 * i))
        invariant neighbouringNodesCount == if i > panelNumber then Mates(v) else 0
      {
        if i != panelNumber {
          var nodeID := NodeAcross(i);
          RowAcross(v, i);
          if nodeID != NOBODY {
            MarkMore(v, promoted, connectNodes, NearMarks(v, 3 * i), 3 * i + Across(v, i));
            connectNodes := connectNodes[nodeID := panelNumber > i];
          }
        } else {
          connectNodes, neighbouringNodesCount := PanelMates(promoted, connectNodes);
        }
      }
    }

    method PanelMates(promoted: bool, connectNodes0: map<Id, bool>)
      returns (connectNodes: map<Id, bool>, neighbouringNodesCount: nat)
      requires curNodePosition.WellShaped()
      requires Marked(curNodePosition, promoted, connectNodes0,
                      NearMarks(curNodePosition, 3 * curNodePosition.PanelNumber()))
      ensures Marked(curNodePosition, promoted, connectNodes,
                     NearMarks(curNodePosition, 3 * curNodePosition.PanelNumber() + 3))
      ensures neighbouringNodesCount == Mates(curNodePosition)
    {
      hide Marked, NearMarks;
      var v := curNodePosition;
      var partnerInt, i := v.partnerInt, v.PanelNumber();
      connectNodes, neighbouringNodesCount := connectNodes0, 0;
      for j := 0 to 3
        invariant Marked(v, promoted, connectNodes, NearMarks(v, 3 * i + j))
        invariant neighbouringNodesCount ==
          (if j > (partnerInt + 1) % 3 && v.parentClusterNodeIDs[i][(partnerInt + 1) % 3] != NOBODY then 1 else 0) +
          (if j > (partnerInt + 2) % 3 && v.parentClusterNodeIDs[i][(partnerInt + 2) % 3] != NOBODY then 1 else 0)
      {
        MarksStep(v, 3 * i + j);
        if j != partnerInt {
          var nodeID := curNodePosition.parentClusterNodeIDs[i][j];
          if nodeID != NOBODY {
            MarkMore(v, promoted, connectNodes, NearMarks(v, 3 * i + j), 3 * i + j);
            connectNodes := connectNodes[nodeID := promoted];
            neighbouringNodesCount := neighbouringNodesCount + 1;
          }
        }
      }
    }

    method ChildNodes(promoted: bool, connectNodes0: map<Id, bool>, ghost marked: set<nat>)
      returns (connectNodes: map<Id, bool>)
      requires curNodePosition.WellShaped() && Marked(curNodePosition, promoted, connectNodes0, marked)
      ensures Marked(curNodePosition, promoted, connectNodes, marked + ChildMarks(curNodePosition, 15))
    {
      hide Marked, ChildMarks;
      ghost var v := curNodePosition;
      connectNodes := connectNodes0;
      assert marked + ChildMarks(v, 9) == marked by { NoChildMarks(v); }
      for i := 0 to 2
        invariant Marked(v, promoted, connectNodes, marked + ChildMarks(v, 9 + 3 * i))
      {
        var nodeID := NodeBeneath(i);
        RowBeneath(v, i);
        if nodeID != NOBODY {
          var p := 9 + 3 * i + StandIn(v.childClusterNodeIDs[i], v.partnerInt, true);
          MarkMore(v, promoted, connectNodes, marked + ChildMarks(v, 9 + 3 * i), p);
          connectNodes := connectNodes[nodeID := true];
          assert marked + ChildMarks(v, 9 + 3 * i) + {p} == marked + ChildMarks(v, 12 + 3 * i);
        }
      }
    }

    /** A node without panel mates takes in all nodes of other panels and other slots. */
    method StrayNodes(promoted: bool, connectNodes0: map<Id, bool>, ghost marked: set<nat>)
      returns (connectNodes: map<Id, bool>)
      requires curNodePosition.WellShaped() && Marked(curNodePosition, promoted, connectNodes0, marked)
      ensures Marked(curNodePosition, promoted, connectNodes, marked + StrayMarks(curNodePosition, 9))
    {
      hide Marked, StrayMarks;
      ghost var v := curNodePosition;
      var partnerInt, panelNumber := curNodePosition.partnerInt, curNodePosition.PanelNumber();
      connectNodes := connectNodes0;
      assert marked + StrayMarks(v, 0) == marked by { NoStrayMarks(v); }
      for i := 0 to 3
        invariant Marked(v, promoted, connectNodes, marked + StrayMarks(v, 3 * i))
      {
        ghost var k := 3 * i;
        for j := 0 to 3
          invariant k == 3 * i + j && Marked(v, promoted, connectNodes, marked + StrayMarks(v, k))
        {
          MarksStep(v, k);
          if i != panelNumber && j != partnerInt {
            var nodeID := curNodePosition.parentClusterNodeIDs[i][j];
            if nodeID != NOBODY {
              MarkMore(v, promoted, connectNodes, marked + StrayMarks(v, k), k);
              connectNodes := connectNodes[nodeID := panelNumber > i];
              assert marked + StrayMarks(v, k) + {k} == marked + StrayMarks(v, k + 1);
            }
          }
          k := k + 1;
        }
      }
    }

    /** A node with one panel mate takes in one node of the third slot. */
    method AdoptedNode(promoted: bool, connectNodes0: map<Id, bool>, ghost marked: set<nat>)
      returns (connectNodes: map<Id, bool>)
      requires curNodePosition.WellShaped() && Marked(curNodePosition, promoted, connectNodes0, marked)
      requires Mates(curNodePosition) == 1
      ensures var v := curNodePosition;
        Marked(v, promoted, connectNodes, marked + if v.At(Adopted(v)) != NOBODY then {Adopted(v)} else {})
    {
      hide Marked;
      var partnerInt, panelNumber := curNodePosition.partnerInt, curNodePosition.PanelNumber();
      var ids := curNodePosition.parentClusterNodeIDs;
      connectNodes := connectNodes0;
      var nodeID, panel := NOBODY, 0;
      if ids[panelNumber][(partnerInt + 1) % 3] == NOBODY {
        panel := if panelNumber == 0 then 1 else 0;
        nodeID := ids[panel][(partnerInt + 1) % 3];
      } else if ids[panelNumber][(partnerInt + 2) % 3] == NOBODY {
        panel := if panelNumber == 2 then 1 else 2;
        nodeID := ids[panel][(partnerInt + 2) % 3];
      }
      AdoptedEntry(curNodePosition);
      assert nodeID == curNodePosition.At(Adopted(curNodePosition)) && panel == Adopted(curNodePosition) / 3;
      if nodeID != NOBODY {
        MarkMore(curNodePosition, promoted, connectNodes, marked, Adopted(curNodePosition));
        connectNodes := connectNodes[nodeID := panelNumber > panel];
      } else {
        assert marked + {} == marked;
      }
    }

    /** The peers of the current position, each with whether this node asks for the connection. */
    method PeersOfPosition(promoted: bool) returns (connectNodes: map<Id, bool>)
      requires curNodePosition.WellShaped()
      ensures connectNodes.Keys == Peers(curNodePosition)
      ensures NoTwins(curNodePosition) ==> forall id | id in connectNodes ::
        connectNodes[id] <==> id in Asks({}, curNodePosition, promoted)
    {
      hide Marked, NearMarks, ChildMarks, StrayMarks, Peers, Asks;
      ghost var v := curNodePosition;
      var neighbouringNodesCount;
      connectNodes, neighbouringNodesCount := NearNodes(promoted);
      connectNodes := ChildNodes(promoted, connectNodes, NearMarks(v, 9));
      ghost var marked := NearMarks(v, 9) + ChildMarks(v, 15);
      if neighbouringNodesCount == 0 {
        connectNodes := StrayNodes(promoted, connectNodes, marked);
        assert AllMarks(v) == marked + StrayMarks(v, 9);
      } else if neighbouringNodesCount == 1 {
        connectNodes := AdoptedNode(promoted, connectNodes, marked);
        assert AllMarks(v) == marked + if v.At(Adopted(v)) != NOBODY then {Adopted(v)} else {};
      } else {
        assert AllMarks(v) == marked;
      }
      MarkedArePeers(v, promoted, connectNodes);
    }

    // ---- Requests to the client ----

    method CreateAckKey(responseOp: Op, targetNodeID: Id) returns (key: int, ghost expireTime: int)
      modifies this`ackPending
      ensures ackPending == old(ackPending)[key := AckPending(expireTime, responseOp, targetNodeID)]
    {
      key := *;
      var deadline: int := *;
      ackPending := ackPending[key := AckPending(deadline, responseOp, targetNodeID)];
      expireTime := deadline;
    }

    method SendOpRequest(op: Op, responseOp: Op, targetNodeID: Id) returns (ghost q: Question)
      modifies this`ackPending, this`clientErr, this`events
      ensures State() == Ask(old(State()), q) && q.op == op && q.responseOp == responseOp && q.target == targetNodeID
    {
      var key;
      ghost var expireTime;
      key, expireTime := CreateAckKey(responseOp, targetNodeID);
      var written: bool := *;
      events := events + [Asked(op, responseOp, targetNodeID)];
      clientErr := !written;
      q := Question(op, responseOp, targetNodeID, key, expireTime, written);
    }

    method ConnectNode(targetNodeID: Id) returns (ghost q: Question)
      modifies this`ackPending, this`clientErr, this`events
      ensures State() == Ask(old(State()), q)
      ensures q.op == CONNECT_NODE && q.responseOp == SEND_OFFER && q.target == targetNodeID
    {
      q := SendOpRequest(CONNECT_NODE, SEND_OFFER, targetNodeID);
    }

    method DropReport(targetNodeID: Id)
      modifies this`curReports, this`curReportsCount
      ensures State() == ClearReport(old(State()), targetNodeID)
    {
      curReports := curReports - {targetNodeID};
      curReportsCount := 0;
    }

    method DisconnectNode(targetNodeID: Id) returns (ghost q: Question)
      modifies this`ackPending, this`clientErr, this`events, this`nodeStates, this`curReports, this`curReportsCount
      ensures State() ==
        Ask(ClearReport(old(State()), targetNodeID), q).(nodeStates := old(nodeStates) - {targetNodeID})
      ensures q.op == q.responseOp == DISCONNECT_NODE && q.target == targetNodeID
    {
      nodeStates := nodeStates - {targetNodeID};
      DropReport(targetNodeID);
      q := SendOpRequest(DISCONNECT_NODE, DISCONNECT_NODE, targetNodeID);
    }

    /** Links the node to the peers of its position, and no others. */
    method UpdateNodePosition(promoted: bool)
      requires curNodePosition.WellShaped()
      modifies this`ackPending, this`clientErr, this`events, this`nodeStates, this`curReports, this`curReportsCount
      ensures Updates(old(State()), curNodePosition, promoted, State())
    {
      hide Peers, Asks, NoTwins, AsksEach, AskAll, Ask;
      ghost var m, v := State(), curNodePosition;
      var connectNodes := PeersOfPosition(promoted);
      ghost var first := SendOpRequest(UPDATE_NODE_POSITION, UPDATE_NODE_POSITION, nodeID);
      ghost var cs := ConnectAll(connectNodes, m, first);
      ghost var ds := DisconnectOthers(connectNodes.Keys, m, [first] + cs);
      Repositions(m, v, promoted, connectNodes, first, cs, ds, State());
    }

    /** Asks to connect to new peers, as far as this node is the one to ask, and makes all active. */
    method ConnectAll(connectNodes: map<Id, bool>, ghost m: Manager, ghost first: Question)
      returns (ghost cs: seq<Question>)
      requires State() == Ask(m, first)
      modifies this`ackPending, this`clientErr, this`events, this`nodeStates
      ensures AsksEach(cs, CONNECT_NODE, SEND_OFFER,
                       set id | id in connectNodes && id !in m.nodeStates && connectNodes[id])
      ensures State() == AskAll(m, [first] + cs).(nodeStates := m.nodeStates + connectNodes.Keys)
    {
      hide AsksEach, AskAll;
      cs := [];
      var rest := connectNodes.Keys;
      ghost var done, asked: set<Id> := {}, {};
      AskNobody(m, first);
      NobodyAsked(CONNECT_NODE, SEND_OFFER);
      while rest != {}
        invariant connectNodes.Keys == done + rest && done !! rest
        invariant asked == set id | id in done && id !in m.nodeStates && connectNodes[id]
        invariant AsksEach(cs, CONNECT_NODE, SEND_OFFER, asked)
        invariant State() == AskAll(m, [first] + cs).(nodeStates := m.nodeStates + done)
      {
        SomebodyIn(rest);
        var id :| id in rest;
        if id !in nodeStates {
          if connectNodes[id] {
            ghost var q := ConnectNode(id);
            AsksMore(cs, CONNECT_NODE, SEND_OFFER, asked, q);
            AskMore(m, [first] + cs, q);
            assert [first] + (cs + [q]) == [first] + cs + [q];
            cs := cs + [q];
            asked := asked + {id};
          }
          nodeStates := nodeStates + {id};
        }
        rest, done := rest - {id}, done + {id};
        assert nodeStates == m.nodeStates + done;
      }
      assert asked == set id | id in connectNodes && id !in m.nodeStates && connectNodes[id];
    }

    /** Disconnects every active node that is not among `peers`. */
    method DisconnectOthers(peers: set<Id>, ghost m: Manager, ghost qs: seq<Question>) returns (ghost ds: seq<Question>)
      requires State() == AskAll(m, qs).(nodeStates := m.nodeStates + peers)
      modifies this`ackPending, this`clientErr, this`events, this`nodeStates, this`curReports, this`curReportsCount
      ensures AsksEach(ds, DISCONNECT_NODE, DISCONNECT_NODE, m.nodeStates - peers)
      ensures State() == AskAll(m, qs + ds).(nodeStates := peers, curReports := m.curReports - (m.nodeStates - peers),
        curReportsCount := if m.nodeStates - peers == {} then m.curReportsCount else 0)
    {
      hide AsksEach, AskAll;
      ds := [];
      var rest := nodeStates;
      ghost var done, gone: set<Id> := {}, {};
      NobodyAsked(DISCONNECT_NODE, DISCONNECT_NODE);
      assert qs + [] == qs;
      assert m.curReports - {} == m.curReports;
      AskAllKeeps(m, qs);
      while rest != {}
        invariant m.nodeStates + peers == done + rest && done !! rest && gone == done - peers
        invariant AsksEach(ds, DISCONNECT_NODE, DISCONNECT_NODE, gone)
        invariant State() == AskAll(m, qs + ds).(nodeStates := m.nodeStates + peers - gone,
          curReports := m.curReports - gone, curReportsCount := if gone == {} then m.curReportsCount else 0)
      {
        SomebodyIn(rest);
        var id :| id in rest;
        rest, done := rest - {id}, done + {id};
        if id !in peers {
          ghost var q := DisconnectNode(id);
          AsksMore(ds, DISCONNECT_NODE, DISCONNECT_NODE, gone, q);
          AskMore(m, qs + ds, q);
          assert qs + (ds + [q]) == qs + ds + [q];
          assert m.curReports - gone - {id} == m.curReports - (gone + {id});
          assert m.nodeStates + peers - gone - {id} == m.nodeStates + peers - (gone + {id});
          ds := ds + [q];
          gone := gone + {id};
        }
      }
      assert gone == m.nodeStates - peers;
      assert m.nodeStates + peers - gone == peers;
    }

    // ---- Reports ----

    method ClientNotCompliant()
      modifies this`clientErr
      ensures State() == NotCompliant(old(State()))
    {
      clientErr := true;
    }

    method SendToNodeInPool(targetNodeID: Id, post: PoolMessage)
      modifies this`events
      ensures State() == Post(old(State()), targetNodeID, post)
    {
      events := events + [Posted(targetNodeID, post)];
    }

    method ReportNode(targetNodeID: Id, reportCode: ReportCode) returns (reported: bool)
      modifies this`curReports, this`curReportsCount, this`clientErr, this`events
      ensures State() == Report(old(State()), targetNodeID, reportCode)
      ensures reported == TakesReport(old(State()), targetNodeID, reportCode)
    {
      reported := false;
      if targetNodeID !in nodeStates {
        return;
      }
      curReportsCount := curReportsCount + 1;
      if curReportsCount >= MAX_REPORTS {
        ClientNotCompliant();
        if reportCode == REPORT_CODE_FINAL {
          return;
        }
        SendToNodeInPool(targetNodeID, NotifyReport(nodeID, REPORT_CODE_FINAL));
        return;
      }
      if reportCode == REPORT_CODE_FINAL {
        return;
      }
      var ok := targetNodeID in curReports;
      if reportCode == REPORT_CODE_DISCONNECT {
        if ok {
          return;
        }
      }
      PendingAreReports(curReports);
      if |curReports| >= MAX_UNIQUE_REPORTS {
        var l := UnresolvedReports();
        if l >= MAX_UNIQUE_REPORTS {
          ClientNotCompliant();
          return;
        }
      }
      curReports := curReports[targetNodeID := reportCode];
      reported := true;
    }

    /** The number of reports that are not final. */
    method UnresolvedReports() returns (l: nat)
      ensures l == |Pending(curReports)|
    {
      var count := |curReports|;
      var rest := curReports.Keys;
      ghost var done: set<Id> := {};
      assert Unsettled(curReports, {}) == curReports.Keys;
      while rest != {}
        invariant curReports.Keys == done + rest && done !! rest && count == |Unsettled(curReports, done)|
      {
        SomebodyIn(rest);
        var id :| id in rest;
        Settle(curReports, done, id);
        if curReports[id] == REPORT_CODE_FINAL {
          count := count - 1;
        }
        rest, done := rest - {id}, done + {id};
      }
      assert Unsettled(curReports, done) == Pending(curReports);
      l := count;
    }

    method ClientReportNode(targetNodeID: Id, reportCode: ReportCode)
      modifies this`curReports, this`curReportsCount, this`clientErr, this`events
      ensures State() == ClientReport(old(State()), targetNodeID, reportCode)
    {
      var reported := ReportNode(targetNodeID, reportCode);
      if reported {
        SendToNodeInPool(targetNodeID, NotifyReport(nodeID, reportCode));
      }
    }

    // ---- Messages ----

    /** A message of the client. */
    method ReceivedSSMessage(c: ClientMessage)
      requires !clientErr
      modifies this`ackPending, this`curReports, this`curReportsCount, this`clientErr, this`events
      ensures State() == OnClient(old(State()), c)
    {
      var targetNodeID := NOBODY;
      if c.key != NO_KEY {
        if c.key in ackPending && ackPending[c.key].responseOp == c.op {
          targetNodeID := ackPending[c.key].targetNodeID;
          ackPending := ackPending - {c.key};
        } else {
          ClientNotCompliant();
          return;
        }
      } else if !OpNoKeyRequired(c.op) {
        ClientNotCompliant();
        return;
      }
      Answered(c.op, c.data, targetNodeID);
    }

    method Answered(op: Op, data: Body, targetNodeID: Id)
      modifies this`curReports, this`curReportsCount, this`clientErr, this`events
      ensures State() == OnAnswer(old(State()), op, data, targetNodeID)
    {
      match op
      case CONNECT_NODE =>
        if !data.SuccessResponse? {
          ClientNotCompliant();
        } else if targetNodeID in nodeStates {
          if data.success {
            DropReport(targetNodeID);
            SendToNodeInPool(targetNodeID, Connected(nodeID));
          } else {
            ClientReportNode(targetNodeID, REPORT_CODE_NOT_CONNECTING);
          }
        }
      case SEND_OFFER =>
        if !data.SdpResponse? {
          ClientNotCompliant();
        } else if targetNodeID in nodeStates {
          if data.success {
            SendToNodeInPool(targetNodeID, Offer(nodeID));
          } else {
            ClientNotCompliant();
          }
        }
      case ANSWER_OFFER =>
        if !data.SdpResponse? {
          ClientNotCompliant();
        } else if targetNodeID in nodeStates {
          if data.success {
            SendToNodeInPool(targetNodeID, Answer(nodeID));
          } else {
            ClientNotCompliant();
          }
        }
      case VERIFY_NODE_CONNECTED =>
        if !data.SuccessResponse? {
          ClientNotCompliant();
        } else if targetNodeID in nodeStates {
          if data.success {
            DropReport(targetNodeID);
            events := events + [Verified(targetNodeID)];
          } else {
            ClientReportNode(targetNodeID, REPORT_CODE_NOT_CONNECTING);
          }
        }
      case REPORT_NODE =>
        if !data.ReportNode? || !ReportCodeIsFromClient(data.reportCode) {
          ClientNotCompliant();
        } else {
          ClientReportNode(data.nodeID, data.reportCode);
        }
      case _ =>
    }

    /** A message of the pool that is no position. */
    method ReceivedFromPool(p: PoolMessage)
      requires !clientErr
      modifies this`ackPending, this`curReports, this`curReportsCount, this`clientErr, this`events
      ensures exists q :: Suits(old(State()), p, q) && State() == OnPool(old(State()), p, q)
    {
      ghost var m := State();
      ghost var q := SomeQuestionSuits(m, p);
      match p {
        case Offer(fromNodeID) =>
          if fromNodeID in nodeStates {
            q := SendOpRequest(SEND_OFFER, ANSWER_OFFER, fromNodeID);
          }
        case Answer(fromNodeID) =>
          if fromNodeID in nodeStates {
            q := SendOpRequest(ANSWER_OFFER, CONNECT_NODE, fromNodeID);
          }
        case Connected(fromNodeID) =>
          if fromNodeID in nodeStates {
            q := SendOpRequest(VERIFY_NODE_CONNECTED, VERIFY_NODE_CONNECTED, fromNodeID);
          }
        case News(op) =>
          q := SendOpRequest(op, op, nodeID);
        case NotifyReport(fromNodeID, reportCode) =>
          var reported := ReportNode(fromNodeID, reportCode);
          if reported && ReportCodeRequiresReconnect(reportCode) {
            q := ConnectNode(fromNodeID);
          }
      }
      assert Suits(m, p, q) && State() == OnPool(m, p, q);
    }

    /** A node has a new place nearby: its old entry is forgotten and the new one is written. */
    method SinglePosition(position: nat, nodeID: Id)
      requires curNodePosition.WellShaped() && position < 15
      modifies this`curNodePosition
      ensures curNodePosition == Move(old(curNodePosition), position, nodeID)
    {
      ghost var v := curNodePosition;
      if nodeID != NOBODY {
        var found := ForgetParent(nodeID);
        if !found {
          ForgetChild(nodeID);
        }
        ClearIsRowwise(v, nodeID, curNodePosition);
      }
      if position >= 9 {
        var p := position - 9;
        curNodePosition := curNodePosition.(childClusterNodeIDs :=
          curNodePosition.childClusterNodeIDs[p / 3 := curNodePosition.childClusterNodeIDs[p / 3][p % 3 := nodeID]]);
      } else {
        var row := curNodePosition.parentClusterNodeIDs[position / 3];
        curNodePosition := curNodePosition.(parentClusterNodeIDs :=
          curNodePosition.parentClusterNodeIDs[position / 3 := row[position % 3 := nodeID]]);
      }
    }

    method ForgetParent(nodeID: Id) returns (found: bool)
      requires curNodePosition.WellShaped()
      modifies this`curNodePosition
      ensures curNodePosition == old(curNodePosition).(parentClusterNodeIDs := curNodePosition.parentClusterNodeIDs)
      ensures RowsCleared(old(curNodePosition).parentClusterNodeIDs, nodeID, 3, curNodePosition.parentClusterNodeIDs)
      ensures found <==> exists i :: 0 <= i < 3 && nodeID in old(curNodePosition).parentClusterNodeIDs[i]
    {
      found := false;
      for i := 0 to 3
        invariant curNodePosition.WellShaped()
        invariant curNodePosition == old(curNodePosition).(parentClusterNodeIDs := curNodePosition.parentClusterNodeIDs)
        invariant RowsCleared(old(curNodePosition).parentClusterNodeIDs, nodeID, i,
                              curNodePosition.parentClusterNodeIDs)
        invariant found <==> exists k :: 0 <= k < i && nodeID in old(curNodePosition).parentClusterNodeIDs[k]
      {
        var row, hit := ClearFirst(curNodePosition.parentClusterNodeIDs[i], nodeID);
        curNodePosition := curNodePosition.(parentClusterNodeIDs := curNodePosition.parentClusterNodeIDs[i := row]);
        found := found || hit;
      }
    }

    method ForgetChild(nodeID: Id)
      requires curNodePosition.WellShaped()
      modifies this`curNodePosition
      ensures curNodePosition == old(curNodePosition).(childClusterNodeIDs := curNodePosition.childClusterNodeIDs)
      ensures RowsCleared(old(curNodePosition).childClusterNodeIDs, nodeID, 2, curNodePosition.childClusterNodeIDs)
    {
      for i := 0 to 2
        invariant curNodePosition.WellShaped()
        invariant curNodePosition == old(curNodePosition).(childClusterNodeIDs := curNodePosition.childClusterNodeIDs)
        invariant RowsCleared(old(curNodePosition).childClusterNodeIDs, nodeID, i, curNodePosition.childClusterNodeIDs)
      {
        var row, hit := ClearFirst(curNodePosition.childClusterNodeIDs[i], nodeID);
        curNodePosition := curNodePosition.(childClusterNodeIDs := curNodePosition.childClusterNodeIDs[i := row]);
      }
    }

    /** The first entry of a row that is this id becomes empty. */
    method ClearFirst(row0: seq<Id>, nodeID: Id) returns (row: seq<Id>, found: bool)
      requires |row0| == 3
      ensures row == ClearRow(row0, nodeID) && (found <==> nodeID in row0)
    {
      row, found := row0, false;
      for j := 0 to 3
        invariant row == row0 && !found && forall k | 0 <= k < j :: row0[k] != nodeID
      {
        if row[j] == nodeID {
          row := row[j := NOBODY];
          found := true;
          break;
        }
      }
    }

    /** A position message: the view is replaced or amended, and the links follow it. */
    method ReceivedPosition(p: PositionMessage)
      requires !clientErr && curNodePosition.WellShaped() && CanTake(State(), Position(p))
      modifies this
      ensures Updates(old(State()), Receive(old(curNodePosition), p), p.Full?, State())
    {
      ghost var m := State();
      match p {
        case Full(view) =>
          curNodePosition := view;
          UpdateNodePosition(true);
        case Single(pos, id) =>
          SinglePosition(pos, id);
          UpdateNodePosition(false);
      }
      UpdatesFrom(m, Receive(m.curNodePosition, p), p.Full?, State());
    }

    /** One turn of the manager's loop. */
    method Process(i: Incoming)
      requires curNodePosition.WellShaped() && CanTake(State(), i)
      modifies this
      ensures Steps(old(State()), i, State())
    {
      if clientErr {
        return;
      }
      match i
      case Received(c) => ReceivedSSMessage(c);
      case FromPool(p) => ReceivedFromPool(p);
      case Position(p) => ReceivedPosition(p);
    }

    /** A turn of the timer: a client that has not answered in time is not compliant. */
    method Timeout(now: int)
      modifies this`clientErr
      ensures State() == Tick(old(State()), now)
    {
      var rest := ackPending.Keys;
      ghost var done: set<int> := {};
      while rest != {}
        invariant ackPending.Keys == done + rest
        invariant clientErr == (old(clientErr) || exists k :: k in done && ackPending[k].expireTime < now)
      {
        SomebodyIn(rest);
        var key :| key in rest;
        if now > ackPending[key].expireTime {
          ClientNotCompliant();
        }
        rest, done := rest - {key}, done + {key};
      }
      assert done == ackPending.Keys;
    }
  }

  lemma NothingMarked(v: NodePosition, promoted: bool)
    requires v.WellShaped()
    ensures Marked(v, promoted, map[], NearMarks(v, 0))
  {
  }

  lemma NoChildMarks(v: NodePosition)
    requires v.WellShaped()
    ensures ChildMarks(v, 9) == {}
  {
  }

  lemma NoStrayMarks(v: NodePosition)
    requires v.WellShaped()
    ensures StrayMarks(v, 0) == {}
  {
  }

  lemma AdoptedEntry(v: NodePosition)
    requires v.WellShaped()
    ensures var a := Adopted(v); v.At(a) == v.parentClusterNodeIDs[a / 3][a % 3] && a / 3 != v.PanelNumber()
    ensures var m, s := v.PanelNumber(), v.partnerInt;
      if v.parentClusterNodeIDs[m][(s + 1) % 3] == NOBODY
      then Adopted(v) / 3 == (if m == 0 then 1 else 0) && Adopted(v) % 3 == (s + 1) % 3
      else Adopted(v) / 3 == (if m == 2 then 1 else 2) && Adopted(v) % 3 == (s + 2) % 3
  {
  }

  lemma AskNobody(m: Manager, first: Question)
    ensures AskAll(m, [first]) == Ask(m, first) && [first] + [] == [first]
  {
  }

  lemma NobodyAsked(op: Op, responseOp: Op)
    ensures AsksEach([], op, responseOp, {})
  {
  }

  lemma {:induction false} AskAllKeeps(m: Manager, qs: seq<Question>)
    ensures var n := AskAll(m, qs);
      && n.nodeID == m.nodeID && n.curReports == m.curReports && n.curReportsCount == m.curReportsCount
      && n.curNodePosition == m.curNodePosition && n.nodeStates == m.nodeStates
  {
    if qs != [] { AskAllKeeps(m, qs[..|qs|-1]); }
  }

  lemma {:induction false} AskAllElsewhere(m: Manager, v: NodePosition, qs: seq<Question>)
    ensures AskAll(m.(curNodePosition := v), qs) == AskAll(m, qs).(curNodePosition := v)
  {
    if qs != [] { AskAllElsewhere(m, v, qs[..|qs|-1]); }
  }

  lemma Repositions(m: Manager, v: NodePosition, promoted: bool, connectNodes: map<Id, bool>, first: Question,
                    cs: seq<Question>, ds: seq<Question>, m': Manager)
    requires v.WellShaped() && v == m.curNodePosition && connectNodes.Keys == Peers(v)
    requires NoTwins(v) ==> forall id | id in connectNodes :: connectNodes[id] <==> id in Asks({}, v, promoted)
    requires first.op == first.responseOp == UPDATE_NODE_POSITION && first.target == m.nodeID
    requires AsksEach(cs, CONNECT_NODE, SEND_OFFER,
                      set id | id in connectNodes && id !in m.nodeStates && connectNodes[id])
    requires AsksEach(ds, DISCONNECT_NODE, DISCONNECT_NODE, m.nodeStates - Peers(v))
    requires m' == AskAll(m, [first] + cs + ds).(
      nodeStates := Peers(v), curReports := m.curReports - (m.nodeStates - Peers(v)),
      curReportsCount := if m.nodeStates - Peers(v) == {} then m.curReportsCount else 0)
    ensures Updates(m, v, promoted, m')
  {
    var ids := set id | id in connectNodes && id !in m.nodeStates && connectNodes[id];
    if NoTwins(v) { AsksAreNew(m.nodeStates, v, promoted, connectNodes); }
    assert ids <= Peers(v) - m.nodeStates;
    AskAllKeeps(m, [first] + cs + ds);
    assert UpdateRequests(m, v, promoted, first, cs, ds);
    assert m' == Repositioned(m, v, [first] + cs + ds);
  }

  lemma AsksAreNew(links: set<Id>, v: NodePosition, promoted: bool, connectNodes: map<Id, bool>)
    requires v.WellShaped() && connectNodes.Keys == Peers(v)
    requires forall id | id in connectNodes :: connectNodes[id] <==> id in Asks({}, v, promoted)
    ensures (set id | id in connectNodes && id !in links && connectNodes[id]) == Asks(links, v, promoted)
  {
  }

  lemma UpdatesFrom(m: Manager, v: NodePosition, promoted: bool, m': Manager)
    requires v.WellShaped() && Updates(m.(curNodePosition := v), v, promoted, m')
    ensures Updates(m, v, promoted, m')
  {
    var n := m.(curNodePosition := v);
    var first, cs, ds :| UpdateRequests(n, v, promoted, first, cs, ds) && m' == Repositioned(n, v, [first] + cs + ds);
    AskAllElsewhere(m, v, [first] + cs + ds);
    assert UpdateRequests(m, v, promoted, first, cs, ds);
  }

  lemma PendingAreReports(reports: map<Id, ReportCode>)
    ensures |Pending(reports)| <= |reports|
  {
    SubsetSize(Pending(reports), reports.Keys);
  }

  /** The reports that are not known to be final after looking at those about `done`. */
  function Unsettled(reports: map<Id, ReportCode>, done: set<Id>): set<Id> {
    set id | id in reports && !(id in done && reports[id] == REPORT_CODE_FINAL)
  }

  lemma Settle(reports: map<Id, ReportCode>, done: set<Id>, id: Id)
    requires id in reports && id !in done
    ensures |Unsettled(reports, done + {id})| ==
      |Unsettled(reports, done)| - if reports[id] == REPORT_CODE_FINAL then 1 else 0
  {
    if reports[id] == REPORT_CODE_FINAL {
      assert Unsettled(reports, done) == Unsettled(reports, done + {id}) + {id};
    } else {
      assert Unsettled(reports, done) == Unsettled(reports, done + {id});
    }
  }

  /** The rows below n have lost their first entry with this id, the others are as they were. */
  ghost predicate RowsCleared(rows0: seq<seq<Id>>, id: Id, n: nat, rows: seq<seq<Id>>) {
    && |rows| == |rows0|
    && forall k: nat | k < |rows| :: rows[k] == if k < n then ClearRow(rows0[k], id) else rows0[k]
  }

  lemma ClearIsRowwise(v: NodePosition, id: Id, w: NodePosition)
    requires v.WellShaped() && w.SamePlace(v)
    requires RowsCleared(v.parentClusterNodeIDs, id, 3, w.parentClusterNodeIDs)
    requires if exists i :: 0 <= i < 3 && id in v.parentClusterNodeIDs[i]
      then w.childClusterNodeIDs == v.childClusterNodeIDs
      else RowsCleared(v.childClusterNodeIDs, id, 2, w.childClusterNodeIDs)
    ensures w == Clear(v, id)
  {
  }
}
