/** Reports about links over whole runs of a manager: no report is sent twice while it stands, and when a
    client is given up. */
module Reports {
  import opened Ids
  import opened Views
  import opened Overlay
  import opened NodeManagers
  import opened Handshake
  import opened Progress

  // ---- What a step adds ----

  /** What a manager did to the outside between two states. */
  function Done(m: Manager, m': Manager): seq<Event> {
    if m.events <= m'.events then m'.events[|m.events|..] else []
  }

  lemma DoneIs(m: Manager, m': Manager, events: seq<Event>)
    requires m'.events == m.events + events
    ensures Done(m, m') == events
  {
  }

  ghost predicate PostsReport(m: Manager, m': Manager, f: Id) {
    Posted(f, NotifyReport(m.nodeID, REPORT_CODE_DISCONNECT)) in Done(m, m')
  }

  /** The client or the other node has confirmed the link to f. */
  ghost predicate Confirms(m: Manager, m': Manager, f: Id) {
    Posted(f, Connected(m.nodeID)) in Done(m, m') || Verified(f) in Done(m, m')
  }

  /** What a step can do about a report on node f. */
  ghost predicate TreatsReport(m: Manager, m': Manager, f: Id) {
    && (PostsReport(m, m', f) ==> f !in m.curReports && f in m'.curReports)
    && (f in m.curReports && f !in m'.curReports ==> f !in m'.nodeStates || Confirms(m, m', f))
  }

  lemma ReportTreats(m: Manager, target: Id, code: ReportCode, f: Id)
    ensures TreatsReport(m, ClientReport(m, target, code), f)
  {
    var m' := ClientReport(m, target, code);
    var events := m'.events[|m.events|..];
    assert m'.events == m.events + events;
    DoneIs(m, m', events);
  }

  /** An answer that is a report: a link could not be made, or the client says that one is lost. */
  predicate IsReport(m: Manager, op: Op, data: Body, target: Id) {
    || ((op == CONNECT_NODE || op == VERIFY_NODE_CONNECTED)
        && data.SuccessResponse? && !data.success && target in m.nodeStates)
    || (op == REPORT_NODE && data.ReportNode? && data.reportCode == REPORT_CODE_DISCONNECT)
  }

  lemma AnswerTreats(m: Manager, op: Op, data: Body, target: Id, f: Id)
    ensures TreatsReport(m, OnAnswer(m, op, data, target), f)
  {
    hide ClientReport, TreatsReport;
    if !IsReport(m, op, data, target) {
      OtherTreats(m, op, data, target, f);
    } else if op == REPORT_NODE {
      ReportTreats(m, data.nodeID, data.reportCode, f);
    } else {
      ReportTreats(m, target, REPORT_CODE_NOT_CONNECTING, f);
    }
  }

  lemma OtherTreats(m: Manager, op: Op, data: Body, target: Id, f: Id)
    requires !IsReport(m, op, data, target)
    ensures TreatsReport(m, OnAnswer(m, op, data, target), f)
  {
    hide ClientReport;
    var m' := OnAnswer(m, op, data, target);
    var events := m'.events[|m.events|..];
    assert m'.events == m.events + events;
    DoneIs(m, m', events);
  }

  lemma TreatsAlike(m: Manager, n: Manager, m': Manager, f: Id)
    requires n == m.(ackPending := n.ackPending) && TreatsReport(n, m', f)
    ensures TreatsReport(m, m', f)
  {
  }

  lemma ClientTreats(m: Manager, c: ClientMessage, f: Id)
    ensures TreatsReport(m, OnClient(m, c), f)
  {
    hide OnAnswer, TreatsReport;
    if c.key == NO_KEY {
      if OpNoKeyRequired(c.op) {
        AnswerTreats(m, c.op, c.data, NOBODY, f);
      } else {
        NothingTreats(m, OnClient(m, c), f);
      }
    } else if c.key in m.ackPending && m.ackPending[c.key].responseOp == c.op {
      var n := m.(ackPending := m.ackPending - {c.key});
      AnswerTreats(n, c.op, c.data, m.ackPending[c.key].targetNodeID, f);
      TreatsAlike(m, n, OnClient(m, c), f);
    } else {
      NothingTreats(m, OnClient(m, c), f);
    }
  }

  lemma PoolTreats(m: Manager, p: PoolMessage, q: Question, f: Id)
    requires Suits(m, p, q)
    ensures TreatsReport(m, OnPool(m, p, q), f)
  {
    var m' := OnPool(m, p, q);
    assert m'.events == m.events + m'.events[|m.events|..];
  }

  lemma PositionTreats(m: Manager, v: NodePosition, promoted: bool, m': Manager, f: Id)
    requires v.WellShaped() && Updates(m, v, promoted, m')
    ensures TreatsReport(m, m', f)
  {
    var events := PositionEvents(m, v, promoted, m');
    DoneIs(m, m', events);
    hide Balanced;
  }

  lemma StepTreats(m: Manager, m': Manager, f: Id)
    requires ManagerStep(m, m')
    ensures TreatsReport(m, m', f)
  {
    hide OnClient, OnPool, Updates, TreatsReport;
    if i: Incoming :| CanTake(m, i) && Steps(m, i, m') {
      if m.clientErr {
        NothingTreats(m, m', f);
      } else {
        match i
        case Received(c) => ClientTreats(m, c, f);
        case FromPool(p) =>
          var q :| Suits(m, p, q) && m' == OnPool(m, p, q);
          PoolTreats(m, p, q, f);
        case Position(p) => PositionTreats(m, Receive(m.curNodePosition, p), p.Full?, m', f);
      }
    } else {
      NothingTreats(m, m', f);
    }
  }

  lemma NothingTreats(m: Manager, m': Manager, f: Id)
    requires m'.events == m.events && m'.curReports == m.curReports
    ensures TreatsReport(m, m', f)
  {
  }

  /** The step in which a report that stood before stands no longer. */
  lemma {:induction false} GoneBetween(run: seq<Manager>, i: nat, j: nat, f: Id) returns (k: nat)
    requires i <= j < |run| && f in run[i].curReports && f !in run[j].curReports
    ensures i <= k < j && f in run[k].curReports && f !in run[k+1].curReports
    decreases j - i
  {
    if f in run[j-1].curReports { k := j - 1; } else { k := GoneBetween(run, i, j - 1, f); }
  }

  /** In step k the report on f is given up: the link has been confirmed, or it is gone. */
  ghost predicate SettledAt(run: seq<Manager>, k: nat, f: Id)
    requires k + 1 < |run|
  {
    && f in run[k].curReports && f !in run[k+1].curReports
    && (f !in run[k+1].nodeStates || Confirms(run[k], run[k+1], f))
  }

  lemma SettlesThere(run: seq<Manager>, k: nat, f: Id)
    requires k + 1 < |run| && TreatsReport(run[k], run[k+1], f)
    requires f in run[k].curReports && f !in run[k+1].curReports
    ensures SettledAt(run, k, f)
  {
  }

  lemma PostedReportStands(m: Manager, m': Manager, f: Id)
    requires TreatsReport(m, m', f) && PostsReport(m, m', f)
    ensures f !in m.curReports && f in m'.curReports
  {
  }

  /** A report that a link has failed goes out to a node a second time only after the link has been confirmed,
      or given up, in between. */
  lemma NoReportTwice(run: seq<Manager>, i: nat, j: nat, f: Id)
    requires IsManagerRun(run) && i < j < |run| - 1
    requires PostsReport(run[i], run[i+1], f) && PostsReport(run[j], run[j+1], f)
    ensures exists k: nat :: i < k < j && SettledAt(run, k, f)
  {
    hide *;
    RunSteps(run, i);
    RunSteps(run, j);
    StepTreats(run[i], run[i+1], f);
    StepTreats(run[j], run[j+1], f);
    PostedReportStands(run[i], run[i+1], f);
    PostedReportStands(run[j], run[j+1], f);
    var k := GoneBetween(run, i + 1, j, f);
    RunSteps(run, k);
    StepTreats(run[k], run[k+1], f);
    SettlesThere(run, k, f);
  }

  // ---- Reports that are not sent on ----

  /** While a report on a node stands, another one of the same kind is only counted. */
  lemma StandingReportIsIgnored(m: Manager, f: Id)
    requires !m.clientErr && f in m.nodeStates && f in m.curReports && m.curReportsCount <= 3
    ensures OnClient(m, ClientMessage(REPORT_NODE, NO_KEY, ReportNode(f, REPORT_CODE_DISCONNECT))) ==
      m.(curReportsCount := m.curReportsCount + 1)
  {
  }

  /** A report about a node that is not linked does nothing. */
  lemma StrayReportIsIgnored(m: Manager, f: Id)
    requires !m.clientErr && f !in m.nodeStates
    ensures OnClient(m, ClientMessage(REPORT_NODE, NO_KEY, ReportNode(f, REPORT_CODE_DISCONNECT))) == m
  {
  }

  /** The fifth report in a row ends the client; the node it is about is told, and will not answer. */
  lemma FifthReportIsFinal(m: Manager, f: Id, c: ClientMessage, code: ReportCode)
    requires !m.clientErr && f in m.nodeStates && m.curReportsCount == 4 && Complains(m, f, c, code)
    ensures OnClient(m, c).clientErr
    ensures OnClient(m, c).events == m.events + [Posted(f, NotifyReport(m.nodeID, REPORT_CODE_FINAL))]
  {
  }

  /** A final notice is counted, and nobody is told or asked on account of it. */
  lemma FinalReportIsTheLast(m: Manager, f: Id, q: Question)
    requires !m.clientErr && m.curReportsCount <= 3
    ensures OnPool(m, NotifyReport(f, REPORT_CODE_FINAL), q) ==
      if f in m.nodeStates then m.(curReportsCount := m.curReportsCount + 1) else m
  {
  }

  // ---- When a client is given up ----

  /** The server has no place for another report of the client about node f. */
  predicate Overdraws(m: Manager, f: Id, code: ReportCode) {
    && f in m.nodeStates
    && (m.curReportsCount >= 4
        || (!(code == REPORT_CODE_DISCONNECT && f in m.curReports) && |Pending(m.curReports)| >= 3))
  }

  /** An answer that the client could have been expected to give, about node f. */
  predicate IsFair(m: Manager, op: Op, data: Body, f: Id) {
    match op
    case SEND_OFFER => data.SdpResponse? && (f in m.nodeStates ==> data.success)
    case ANSWER_OFFER => data.SdpResponse? && (f in m.nodeStates ==> data.success)
    case CONNECT_NODE =>
      data.SuccessResponse? && (data.success || !Overdraws(m, f, REPORT_CODE_NOT_CONNECTING))
    case VERIFY_NODE_CONNECTED =>
      data.SuccessResponse? && (data.success || !Overdraws(m, f, REPORT_CODE_NOT_CONNECTING))
    case REPORT_NODE =>
      && data.ReportNode? && data.reportCode == REPORT_CODE_DISCONNECT
      && !Overdraws(m, data.nodeID, REPORT_CODE_DISCONNECT)
    case _ => true
  }

  lemma FairAnswersAreKept(m: Manager, op: Op, data: Body, f: Id)
    requires !m.clientErr
    ensures OnAnswer(m, op, data, f).clientErr <==> !IsFair(m, op, data, f)
  {
  }

  /** A client's message ends it exactly when it has a key that nobody waits for with this op code, or none
      where one is needed, or when it is not a fair answer about the node of its key. */
  lemma WhoIsGivenUp(m: Manager, c: ClientMessage)
    requires !m.clientErr
    ensures OnClient(m, c).clientErr <==>
      if c.key == NO_KEY then !((c.op == HEARTBEAT || c.op == REPORT_NODE) && IsFair(m, c.op, c.data, NOBODY))
      else !(c.key in m.ackPending && m.ackPending[c.key].responseOp == c.op
             && IsFair(m, c.op, c.data, m.ackPending[c.key].targetNodeID))
  {
    FairAnswersAreKept(m, c.op, c.data, NOBODY);
    if c.key in m.ackPending {
      FairAnswersAreKept(m.(ackPending := m.ackPending - {c.key}), c.op, c.data, m.ackPending[c.key].targetNodeID);
    }
    hide OnAnswer;
  }

  /** A key can be used once. */
  lemma KeysAreUsedOnce(m: Manager, c: ClientMessage, d: ClientMessage)
    requires !m.clientErr && c.key == d.key != NO_KEY && !OnClient(m, c).clientErr
    ensures OnClient(OnClient(m, c), d).clientErr
  {
    KeyIsGone(m, c);
    hide OnAnswer;
  }

  lemma KeyIsGone(m: Manager, c: ClientMessage)
    requires !m.clientErr && c.key != NO_KEY && !OnClient(m, c).clientErr
    ensures c.key !in OnClient(m, c).ackPending
  {
  }

  /** The timer ends a client exactly when some answer has been due before now. */
  lemma OverdueAnswersEndIt(m: Manager, now: int)
    requires !m.clientErr
    ensures (forall k | k in m.ackPending :: m.ackPending[k].expireTime >= now) ==> Tick(m, now) == m
    ensures forall k | k in m.ackPending && m.ackPending[k].expireTime < now :: Tick(m, now) == m.(clientErr := true)
  {
  }

  /** Links that a new position does away with take their reports with them, and the count begins anew. */
  lemma LostLinksAreForgotten(m: Manager, v: NodePosition, promoted: bool, m': Manager, f: Id)
    requires v.WellShaped() && Updates(m, v, promoted, m') && f in m.nodeStates && f !in m'.nodeStates
    ensures f !in m'.curReports && m'.curReportsCount == 0
    ensures forall g | g in m.curReports && g in m'.nodeStates ::
      g in m'.curReports && m'.curReports[g] == m.curReports[g]
  {
    hide UpdateRequests, AskAll, Peers;
    var first, cs, ds :| UpdateRequests(m, v, promoted, first, cs, ds) && m' == Repositioned(m, v, [first] + cs + ds);
    AskAllKeeps(m, [first] + cs + ds);
    assert f in m.nodeStates - Peers(v);
  }
}
