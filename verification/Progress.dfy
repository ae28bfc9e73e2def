/** What a handshake gets to when both ends go along: every stage follows from the one before it, up to the
    confirmed link, and a failed one is begun again from the other end. */
module Progress {
  import opened Ids
  import opened Views
  import opened NodeManagers
  import opened Handshake

  // ---- One manager ----

  /** The manager at a socket is at work, and linked to node f. */
  ghost predicate IsLinked(n: Network, at: Socket, f: Id) {
    && at in n.managers && !n.managers[at].clientErr && n.managers[at].curNodePosition.WellShaped()
    && f in n.managers[at].nodeStates
  }

  /** The client may answer under this key about node f in stage s. */
  ghost predicate Awaits(m: Manager, key: int, s: Stage, f: Id) {
    && key != NO_KEY && key in m.ackPending
    && m.ackPending[key].responseOp == ResponseOp(s) && m.ackPending[key].targetNodeID == f
  }

  /** What a client answers in stage s. */
  function Reply(s: Stage, key: int, success: bool): ClientMessage {
    ClientMessage(ResponseOp(s), key,
      if s == OFFER || s == ANSWER then SdpResponse(success) else SuccessResponse(success))
  }

  ghost predicate SamePost(m: Manager, m': Manager) {
    m'.nodeID == m.nodeID && m'.clientErr == m.clientErr && m'.curNodePosition == m.curNodePosition
    && m'.nodeStates == m.nodeStates
  }

  /** A successful answer about a linked node has its outcome, and nothing else; the key is used up, and with
      a link that stands the reports begin anew. */
  lemma SuccessHasOutcome(m: Manager, key: int, s: Stage, f: Id)
    requires !m.clientErr && f in m.nodeStates && Awaits(m, key, s, f)
    ensures OnClient(m, Reply(s, key, true)).events == m.events + [Outcome(s, m.nodeID, f)]
    ensures OnClient(m, Reply(s, key, true)).ackPending == m.ackPending - {key}
    ensures s == CONNECT || s == VERIFY ==>
      f !in OnClient(m, Reply(s, key, true)).curReports && OnClient(m, Reply(s, key, true)).curReportsCount == 0
    ensures SamePost(m, OnClient(m, Reply(s, key, true)))
  {
  }

  /** Then as many answers are used and awaited as were asked for, in every stage about every node. */
  lemma SuccessBalances(m: Manager, key: int, s: Stage, f: Id, r: Stage, g: Id)
    requires !m.clientErr && f in m.nodeStates && Awaits(m, key, s, f)
    ensures var m', events := OnClient(m, Reply(s, key, true)), [Outcome(s, m.nodeID, f)];
      |Awaited(m', r, g)| + Count(events, Outcome(r, m.nodeID, g)) ==
      |Awaited(m, r, g)| + Count(events, Request(r, g))
  {
    SuccessHasOutcome(m, key, s, f);
    AwaitedAfterAnswer(m, key, r, g);
    SameAwaited(m.(ackPending := m.ackPending - {key}), OnClient(m, Reply(s, key, true)), r, g);
    CountOne([Outcome(s, m.nodeID, f)], Outcome(r, m.nodeID, g));
    CountOne([Outcome(s, m.nodeID, f)], Request(r, g));
    hide OnClient, Awaited;
  }

  /** The outcome of a stage that reaches a linked node is its client's request of the next stage. */
  lemma CarrierIsAsked(m: Manager, s: Stage, f: Id, key: int) returns (q: Question)
    requires s != VERIFY && f in m.nodeStates && key != NO_KEY && !m.clientErr
    ensures Suits(m, Carrier(s, f), q)
    ensures OnPool(m, Carrier(s, f), q).events == m.events + [Request(Following(s), f)]
    ensures Awaits(OnPool(m, Carrier(s, f), q), key, Following(s), f)
    ensures SamePost(m, OnPool(m, Carrier(s, f), q))
  {
    q := SomeQuestionSuits(m, Carrier(s, f));
    q := q.(key := key, written := true);
  }

  /** News for the client, which it is to acknowledge under the same op code: the acknowledgement settles the
      request, whatever data it comes with, and is of no further consequence. */
  lemma NewsIsAcknowledged(m: Manager, op: Op, q: Question, data: Body)
    requires !m.clientErr && IsNews(op) && Suits(m, News(op), q) && q.written
    requires q.key != NO_KEY && q.key !in m.ackPending
    ensures var asked := OnPool(m, News(op), q);
      && asked.events == m.events + [Asked(op, op, m.nodeID)] && q.key in asked.ackPending
      && OnClient(asked, ClientMessage(op, q.key, data)) == m.(events := asked.events)
  {
  }

  // ---- Moves of the network ----

  /** Only the manager at this socket has changed, and it is at work and linked as before. */
  ghost predicate OnlyAt(n: Network, n': Network, at: Socket) {
    && at in n.managers && at in n'.managers && n'.managers == n.managers[at := n'.managers[at]]
    && SamePost(n.managers[at], n'.managers[at])
  }

  lemma StillLinked(n: Network, n': Network, at: Socket, other: Socket, f: Id)
    requires OnlyAt(n, n', at) && other in n.managers
    ensures other in n'.managers && n'.managers[other].nodeID == n.managers[other].nodeID
    ensures IsLinked(n, other, f) ==> IsLinked(n', other, f)
  {
  }

  lemma OneEventOf(id: Id, e: Event, cause: nat)
    ensures RecordOf(id, [e]) == multiset{(id, e)}
    ensures LettersOf([e], cause) == LetterOf(e, cause) && NoticesOf([e], cause) == NoticeOf(e, cause)
  {
    OneEvent([e], cause);
    assert [e][..0] == [];
  }

  /** A step of one manager that does one thing to the outside, as a step of the network. */
  lemma HandlesOne(n: Network, at: Socket, i: Incoming, cause: nat, m': Manager, e: Event) returns (n': Network)
    requires at in n.managers && n.managers[at].curNodePosition.WellShaped() && CanTake(n.managers[at], i)
    requires Steps(n.managers[at], i, m') && m'.events == n.managers[at].events + [e]
    ensures Handles(n, at, i, cause, n') && n'.managers == n.managers[at := m']
    ensures n'.record == n.record + multiset{(m'.nodeID, e)}
    ensures n'.flying == n.flying + LetterOf(e, cause) && n'.notices == n.notices + NoticeOf(e, cause)
  {
    OneEventOf(m'.nodeID, e, cause);
    n' := After(n, at, m', [e], cause);
    hide RecordOf, LettersOf, NoticesOf, Steps, CanTake, LetterOf, NoticeOf;
  }

  lemma TakesClient(m: Manager, c: ClientMessage)
    requires !m.clientErr && m.curNodePosition.WellShaped()
    ensures CanTake(m, Received(c)) && Steps(m, Received(c), OnClient(m, c))
  {
    hide OnClient;
  }

  lemma TakesPost(m: Manager, p: PoolMessage, q: Question)
    requires !m.clientErr && m.curNodePosition.WellShaped() && Suits(m, p, q)
    ensures CanTake(m, FromPool(p)) && Steps(m, FromPool(p), OnPool(m, p, q))
  {
    hide OnPool, Suits;
  }

  /** The client answers with success. */
  lemma Answers(n: Network, at: Socket, key: int, s: Stage, f: Id) returns (n': Network)
    requires IsLinked(n, at, f) && Awaits(n.managers[at], key, s, f)
    ensures Next(n, ClientSays(at, Reply(s, key, true)), n') && OnlyAt(n, n', at)
    ensures var a := n.managers[at].nodeID;
      && n'.record == n.record + multiset{(a, Outcome(s, a, f))} && n'.notices == n.notices
      && n'.flying == n.flying + if s == VERIFY then multiset{} else multiset{Letter(f, Carrier(s, a), 0)}
  {
    var m, c := n.managers[at], Reply(s, key, true);
    var e := Outcome(s, m.nodeID, f);
    SuccessHasOutcome(m, key, s, f);
    TakesClient(m, c);
    hide OnClient, Steps, Handles, CanTake;
    n' := HandlesOne(n.(clock := n.clock + 1), at, Received(c), n.clock, OnClient(m, c), e);
  }

  lemma RequestPostsNothing(s: Stage, f: Id, cause: nat)
    ensures LetterOf(Request(s, f), cause) == multiset{} && NoticeOf(Request(s, f), cause) == multiset{}
  {
  }

  /** A message arrives, and its receiver is asked. */
  lemma Arrives(n: Network, at: Socket, s: Stage, f: Id, key: int) returns (n': Network)
    requires s != VERIFY && IsLinked(n, at, f) && key != NO_KEY
    requires Letter(n.managers[at].nodeID, Carrier(s, f), 0) in n.flying
    ensures var b := n.managers[at].nodeID;
      && Next(n, Delivers(Letter(b, Carrier(s, f), 0), at), n') && OnlyAt(n, n', at)
      && Awaits(n'.managers[at], key, Following(s), f)
      && n'.record == n.record + multiset{(b, Request(Following(s), f))} && n'.notices == n.notices
      && n'.flying == n.flying - multiset{Letter(b, Carrier(s, f), 0)}
  {
    var m := n.managers[at];
    var l, e := Letter(m.nodeID, Carrier(s, f), 0), Request(Following(s), f);
    var q := CarrierIsAsked(m, s, f, key);
    TakesPost(m, l.post, q);
    RequestPostsNothing(Following(s), f, 0);
    hide OnPool, Steps, Handles, CanTake, Suits, Request, LetterOf, NoticeOf, Carrier, Following, Awaits;
    n' := HandlesOne(n.(flying := n.flying - multiset{l}), at, FromPool(l.post), 0, OnPool(m, l.post, q), e);
    assert n'.managers[at] == OnPool(m, l.post, q);
  }

  // ---- Whole handshakes ----

  /** A client says something, or a message arrives. */
  ghost predicate Converses(n: Network, n': Network) {
    exists a: Move :: (a.ClientSays? || a.Delivers?) && Next(n, a, n')
  }

  ghost predicate ConversesAt(walk: seq<Network>, i: nat)
    requires i + 1 < |walk|
  {
    Converses(walk[i], walk[i+1])
  }

  /** A run of clients' answers and arriving messages, nothing else. */
  ghost predicate IsWalk(walk: seq<Network>) {
    |walk| > 0 && forall i: nat | i < |walk| - 1 :: ConversesAt(walk, i)
  }

  /** The managers at two sockets are at work, and each is linked to the node of the other. */
  ghost predicate Paired(n: Network, x: Socket, y: Socket) {
    && x in n.managers && y in n.managers
    && IsLinked(n, x, n.managers[y].nodeID) && IsLinked(n, y, n.managers[x].nodeID)
  }

  lemma StayPaired(n: Network, n': Network, at: Socket, x: Socket, y: Socket)
    requires OnlyAt(n, n', at) && Paired(n, x, y)
    ensures Paired(n', x, y)
    ensures n'.managers[x].nodeID == n.managers[x].nodeID && n'.managers[y].nodeID == n.managers[y].nodeID
  {
    StillLinked(n, n', at, x, n.managers[y].nodeID);
    StillLinked(n, n', at, y, n.managers[x].nodeID);
  }

  /** One stage: the client at x answers, its answer arrives at y, and the client there is asked. */
  lemma OneStage(n: Network, x: Socket, y: Socket, key: int, s: Stage) returns (walk: seq<Network>)
    requires Paired(n, x, y) && s != VERIFY && Awaits(n.managers[x], key, s, n.managers[y].nodeID)
    ensures IsWalk(walk) && |walk| == 3 && walk[0] == n && Paired(walk[2], x, y)
    ensures walk[2].managers[x].nodeID == n.managers[x].nodeID && walk[2].managers[y].nodeID == n.managers[y].nodeID
    ensures Awaits(walk[2].managers[y], 1, Following(s), n.managers[x].nodeID)
    ensures var a, b := n.managers[x].nodeID, n.managers[y].nodeID;
      && walk[2].record == n.record + multiset{(a, Outcome(s, a, b)), (b, Request(Following(s), a))}
      && walk[2].flying == n.flying && walk[2].notices == n.notices
  {
    hide *;
    PairedAre(n, x, y);
    var a, b := n.managers[x].nodeID, n.managers[y].nodeID;
    var n1 := Answers(n, x, key, s, b);
    Said(n, x, Reply(s, key, true), n1);
    StayPaired(n, n1, x, x, y);
    PairedAre(n1, x, y);
    OneIsAKey();
    var n2 := Arrives(n1, y, s, a, 1);
    Delivered(n1, Letter(b, Carrier(s, a), 0), y, n2);
    StayPaired(n1, n2, y, x, y);
    walk := WalkOfTwo(n, n1, n2);
    TakenAgain(n.flying, Letter(b, Carrier(s, a), 0));
    TwoMore(n.record, (a, Outcome(s, a, b)), (b, Request(Following(s), a)));
  }

  lemma OneIsAKey()
    ensures 1 != NO_KEY
  {
  }

  lemma TakenAgain<T>(s: multiset<T>, x: T)
    ensures s + multiset{x} - multiset{x} == s
  {
  }

  lemma TwoMore<T>(s: multiset<T>, x: T, y: T)
    ensures s + multiset{x} + multiset{y} == s + multiset{x, y}
  {
  }

  lemma Said(n: Network, at: Socket, c: ClientMessage, n': Network)
    requires Next(n, ClientSays(at, c), n')
    ensures Converses(n, n')
  {
  }

  lemma Delivered(n: Network, l: Letter, at: Socket, n': Network)
    requires Next(n, Delivers(l, at), n')
    ensures Converses(n, n')
  {
  }

  lemma WalkOfTwo(n: Network, n1: Network, n2: Network) returns (walk: seq<Network>)
    requires Converses(n, n1) && Converses(n1, n2)
    ensures walk == [n, n1, n2] && IsWalk(walk)
  {
    hide Converses;
    walk := [n, n1, n2];
    assert ConversesAt(walk, 0) && ConversesAt(walk, 1);
  }

  lemma PairedAre(n: Network, x: Socket, y: Socket)
    requires Paired(n, x, y)
    ensures x in n.managers && y in n.managers && Paired(n, x, y)
    ensures IsLinked(n, x, n.managers[y].nodeID) && IsLinked(n, y, n.managers[x].nodeID)
  {
  }

  lemma WalkOn(v: seq<Network>, w: seq<Network>)
    requires IsWalk(v) && IsWalk(w) && v[|v|-1] == w[0]
    ensures IsWalk(v + w[1..]) && |v + w[1..]| == |v| + |w| - 1 && (v + w[1..])[0] == v[0]
    ensures (v + w[1..])[|v| + |w| - 2] == w[|w|-1]
  {
    var walk := v + w[1..];
    forall i: nat | i < |walk| - 1
      ensures ConversesAt(walk, i)
    {
      if i < |v| - 1 {
        assert ConversesAt(v, i) && walk[i] == v[i] && walk[i+1] == v[i+1];
      } else {
        assert ConversesAt(w, i - (|v| - 1)) && walk[i] == w[i - (|v| - 1)] && walk[i+1] == w[i - (|v| - 1) + 1];
      }
    }
  }

  /** The last stage: the link is confirmed. */
  lemma LastStage(n: Network, x: Socket, y: Socket, key: int) returns (walk: seq<Network>)
    requires Paired(n, x, y) && Awaits(n.managers[x], key, VERIFY, n.managers[y].nodeID)
    ensures IsWalk(walk) && |walk| == 2 && walk[0] == n
    ensures var a, b := n.managers[x].nodeID, n.managers[y].nodeID;
      walk[1].record == n.record + multiset{(a, Verified(b))} && walk[1].flying == n.flying
  {
    hide *;
    PairedAre(n, x, y);
    var n1 := Answers(n, x, key, VERIFY, n.managers[y].nodeID);
    Said(n, x, Reply(VERIFY, key, true), n1);
    walk := WalkOfOne(n, n1);
    VerifyIsLast(n.managers[x].nodeID, n.managers[y].nodeID);
  }

  lemma VerifyIsLast(a: Id, b: Id)
    ensures Outcome(VERIFY, a, b) == Verified(b)
  {
  }

  lemma WalkOfOne(n: Network, n1: Network) returns (walk: seq<Network>)
    requires Converses(n, n1)
    ensures walk == [n, n1] && IsWalk(walk)
  {
    hide Converses;
    walk := [n, n1];
    assert ConversesAt(walk, 0);
  }

  /** What a whole handshake leaves on record when a asks and b is asked. */
  function Completed(a: Id, b: Id): multiset<(Id, Event)> {
    multiset{(a, Posted(b, Offer(a))), (b, Asked(SEND_OFFER, ANSWER_OFFER, a)),
      (b, Posted(a, Answer(b))), (a, Asked(ANSWER_OFFER, CONNECT_NODE, b)),
      (a, Posted(b, Connected(a))), (b, Asked(VERIFY_NODE_CONNECTED, VERIFY_NODE_CONNECTED, a)),
      (b, Verified(a))}
  }

  /** From any state in which a client is asked for an offer to a node that is linked both ways, the clients'
      answers and the messages on the way can complete the handshake, and do nothing else on the way. */
  lemma HandshakeCanComplete(n: Network, x: Socket, y: Socket, key: int) returns (walk: seq<Network>)
    requires Paired(n, x, y) && Awaits(n.managers[x], key, OFFER, n.managers[y].nodeID)
    ensures IsWalk(walk) && |walk| == 8 && walk[0] == n
    ensures walk[7].record == n.record + Completed(n.managers[x].nodeID, n.managers[y].nodeID)
    ensures walk[7].flying == n.flying
  {
    hide *;
    PairedAre(n, x, y);
    var a, b := n.managers[x].nodeID, n.managers[y].nodeID;
    var u := OneStage(n, x, y, key, OFFER);
    PairedBack(u[2], x, y);
    FollowingIs();
    var v := OneStage(u[2], y, x, 1, ANSWER);
    PairedBack(v[2], y, x);
    WalkOn(u, v);
    var w := OneStage(v[2], x, y, 1, CONNECT);
    PairedBack(w[2], x, y);
    WalkOn(u + v[1..], w);
    var z := LastStage(w[2], y, x, 1);
    WalkOn(u + v[1..] + w[1..], z);
    walk := u + v[1..] + w[1..] + z[1..];
    AllStages(n.record, a, b);
  }

  lemma FollowingIs()
    ensures Following(OFFER) == ANSWER && Following(ANSWER) == CONNECT && Following(CONNECT) == VERIFY
  {
  }

  lemma AllStages(record: multiset<(Id, Event)>, a: Id, b: Id)
    ensures record + multiset{(a, Outcome(OFFER, a, b)), (b, Request(ANSWER, a))}
      + multiset{(b, Outcome(ANSWER, b, a)), (a, Request(CONNECT, b))}
      + multiset{(a, Outcome(CONNECT, a, b)), (b, Request(VERIFY, a))} + multiset{(b, Verified(a))}
      == record + Completed(a, b)
  {
  }

  lemma PairedBack(n: Network, x: Socket, y: Socket)
    requires Paired(n, x, y)
    ensures Paired(n, y, x) && x in n.managers && y in n.managers
  {
  }

  // ---- When a link fails ----

  /** A report about this node would be taken up. */
  ghost predicate HasRoom(m: Manager, f: Id, code: ReportCode) {
    && f in m.nodeStates && m.curReportsCount <= 3 && |Pending(m.curReports)| <= 2
    && (code == REPORT_CODE_DISCONNECT || code == REPORT_CODE_NOT_CONNECTING)
    && (code == REPORT_CODE_DISCONNECT ==> f !in m.curReports)
  }

  /** The client says that the link to f has failed: in the last two stages of a handshake, or later on. */
  ghost predicate Complains(m: Manager, f: Id, c: ClientMessage, code: ReportCode) {
    || (code == REPORT_CODE_DISCONNECT && c == ClientMessage(REPORT_NODE, NO_KEY, ReportNode(f, code)))
    || (code == REPORT_CODE_NOT_CONNECTING && exists s ::
          (s == CONNECT || s == VERIFY) && c == Reply(s, c.key, false) && Awaits(m, c.key, s, f))
  }

  /** The report is kept and posted to the node that it is about. */
  lemma ComplaintIsPosted(m: Manager, f: Id, c: ClientMessage, code: ReportCode)
    requires !m.clientErr && Complains(m, f, c, code) && HasRoom(m, f, code)
    ensures OnClient(m, c).events == m.events + [Posted(f, NotifyReport(m.nodeID, code))]
    ensures OnClient(m, c).curReports == m.curReports[f := code]
    ensures OnClient(m, c).curReportsCount == m.curReportsCount + 1
    ensures SamePost(m, OnClient(m, c))
  {
  }

  /** A node that learns of it, and takes the report up as well, is asked to connect again. */
  lemma ReportIsAsked(m: Manager, f: Id, code: ReportCode, key: int) returns (q: Question)
    requires !m.clientErr && HasRoom(m, f, code) && key != NO_KEY
    ensures Suits(m, NotifyReport(f, code), q)
    ensures OnPool(m, NotifyReport(f, code), q).events == m.events + [Request(OFFER, f)]
    ensures OnPool(m, NotifyReport(f, code), q).curReports == m.curReports[f := code]
    ensures Awaits(OnPool(m, NotifyReport(f, code), q), key, OFFER, f)
    ensures SamePost(m, OnPool(m, NotifyReport(f, code), q))
  {
    q := Question(CONNECT_NODE, SEND_OFFER, f, key, 0, true);
  }

  lemma ComplaintGoesOut(n: Network, at: Socket, f: Id, c: ClientMessage, code: ReportCode) returns (n': Network)
    requires IsLinked(n, at, f) && Complains(n.managers[at], f, c, code) && HasRoom(n.managers[at], f, code)
    ensures Next(n, ClientSays(at, c), n') && OnlyAt(n, n', at)
    ensures var a := n.managers[at].nodeID;
      && n'.record == n.record + multiset{(a, Posted(f, NotifyReport(a, code)))}
      && n'.flying == n.flying + multiset{Letter(f, NotifyReport(a, code), n.clock)}
  {
    var m := n.managers[at];
    var e := Posted(f, NotifyReport(m.nodeID, code));
    ComplaintIsPosted(m, f, c, code);
    TakesClient(m, c);
    hide OnClient, Steps, Handles, CanTake, Complains, HasRoom;
    n' := HandlesOne(n.(clock := n.clock + 1), at, Received(c), n.clock, OnClient(m, c), e);
  }

  lemma ComplaintArrives(n: Network, at: Socket, f: Id, code: ReportCode, cause: nat) returns (n': Network)
    requires IsLinked(n, at, f) && HasRoom(n.managers[at], f, code)
    requires Letter(n.managers[at].nodeID, NotifyReport(f, code), cause) in n.flying
    ensures var b := n.managers[at].nodeID;
      && Next(n, Delivers(Letter(b, NotifyReport(f, code), cause), at), n') && OnlyAt(n, n', at)
      && Awaits(n'.managers[at], 1, OFFER, f)
      && n'.record == n.record + multiset{(b, Request(OFFER, f))}
      && n'.flying == n.flying - multiset{Letter(b, NotifyReport(f, code), cause)}
  {
    var m := n.managers[at];
    var l, e := Letter(m.nodeID, NotifyReport(f, code), cause), Request(OFFER, f);
    var q := ReportIsAsked(m, f, code, 1);
    TakesPost(m, l.post, q);
    hide OnPool, Steps, Handles, CanTake, Suits, HasRoom;
    n' := HandlesOne(n.(flying := n.flying - multiset{l}), at, FromPool(l.post), cause, OnPool(m, l.post, q), e);
  }

  /** The two moves after which the other end begins the handshake again. */
  lemma BegunAgain(n: Network, x: Socket, y: Socket, c: ClientMessage, code: ReportCode) returns (walk: seq<Network>)
    requires x != y && Paired(n, x, y) && Complains(n.managers[x], n.managers[y].nodeID, c, code)
    requires HasRoom(n.managers[x], n.managers[y].nodeID, code) && HasRoom(n.managers[y], n.managers[x].nodeID, code)
    ensures IsWalk(walk) && |walk| == 3 && walk[0] == n && Paired(walk[2], y, x)
    ensures walk[2].managers[x].nodeID == n.managers[x].nodeID && walk[2].managers[y].nodeID == n.managers[y].nodeID
    ensures Awaits(walk[2].managers[y], 1, OFFER, n.managers[x].nodeID)
    ensures var a, b := n.managers[x].nodeID, n.managers[y].nodeID;
      && walk[2].record == n.record + multiset{(a, Posted(b, NotifyReport(a, code))), (b, Request(OFFER, a))}
      && walk[2].flying == n.flying
  {
    hide *;
    PairedAre(n, x, y);
    var a, b := n.managers[x].nodeID, n.managers[y].nodeID;
    var n1 := ComplaintGoesOut(n, x, b, c, code);
    Said(n, x, c, n1);
    StayPaired(n, n1, x, x, y);
    Untouched(n, n1, x, y);
    PairedAre(n1, x, y);
    var n2 := ComplaintArrives(n1, y, a, code, n.clock);
    Delivered(n1, Letter(b, NotifyReport(a, code), n.clock), y, n2);
    StayPaired(n1, n2, y, x, y);
    PairedBack(n2, x, y);
    walk := WalkOfTwo(n, n1, n2);
    TakenAgain(n.flying, Letter(b, NotifyReport(a, code), n.clock));
    TwoMore(n.record, (a, Posted(b, NotifyReport(a, code))), (b, Request(OFFER, a)));
  }

  lemma Untouched(n: Network, n': Network, at: Socket, other: Socket)
    requires OnlyAt(n, n', at) && other != at && other in n.managers
    ensures other in n'.managers && n'.managers[other] == n.managers[other]
  {
  }

  /** When a link fails, and both ends take up the report, it can be made again from the other end: the node
      that the report is about is asked to connect, and from there a whole handshake can follow. */
  lemma LinkCanBeMadeAgain(n: Network, x: Socket, y: Socket, c: ClientMessage, code: ReportCode)
    returns (walk: seq<Network>)
    requires x != y && Paired(n, x, y) && Complains(n.managers[x], n.managers[y].nodeID, c, code)
    requires HasRoom(n.managers[x], n.managers[y].nodeID, code) && HasRoom(n.managers[y], n.managers[x].nodeID, code)
    ensures IsWalk(walk) && |walk| == 10 && walk[0] == n && walk[9].flying == n.flying
    ensures var a, b := n.managers[x].nodeID, n.managers[y].nodeID;
      walk[9].record == n.record + multiset{(a, Posted(b, NotifyReport(a, code))),
        (b, Asked(CONNECT_NODE, SEND_OFFER, a))} + Completed(b, a)
  {
    hide *;
    PairedAre(n, x, y);
    var u := BegunAgain(n, x, y, c, code);
    PairedAre(u[2], y, x);
    var v := HandshakeCanComplete(u[2], y, x, 1);
    WalkOn(u, v);
    walk := u + v[1..];
    OfferIs(n.managers[x].nodeID);
  }

  lemma OfferIs(a: Id)
    ensures Request(OFFER, a) == Asked(CONNECT_NODE, SEND_OFFER, a)
  {
  }
}
