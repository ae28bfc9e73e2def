/** All managers of a pool together, with the messages between them in flight: how far a
    handshake can get, and how many notices a report can cause. */
module Handshake {
  import opened Sets
  import opened Ids
  import opened Views
  import opened NodeManagers

  /** A message on its way to a node; `cause` numbers the client message it goes back to. */
  datatype Letter = Letter(to: Id, post: PoolMessage, cause: nat)

  /** Sockets are numbered as they are opened; a device that connects twice has two. */
  type Socket = nat

  /** The live managers, one for each open socket, the messages in flight, all that the managers of every
      node ever did to the outside, how many client messages there were, and which of them the notices
      about reports go back to. */
  datatype Network = Network(
    managers: map<Socket, Manager>,
    flying: multiset<Letter>,
    record: multiset<(Id, Event)>,
    clock: nat,
    notices: multiset<nat>)

  ghost predicate IsStart(n: Network) {
    n == Network(map[], multiset{}, multiset{}, 0, multiset{})
  }

  function RecordOf(id: Id, events: seq<Event>): multiset<(Id, Event)> {
    if events == [] then multiset{} else RecordOf(id, events[..|events|-1]) + multiset{(id, events[|events|-1])}
  }

  /** Only notices about reports carry the client message they go back to. */
  function LetterOf(e: Event, cause: nat): multiset<Letter> {
    if e.Posted? then multiset{Letter(e.target, e.post, if e.post.NotifyReport? then cause else 0)} else multiset{}
  }

  function LettersOf(events: seq<Event>, cause: nat): multiset<Letter> {
    if events == [] then multiset{} else LettersOf(events[..|events|-1], cause) + LetterOf(events[|events|-1], cause)
  }

  function NoticeOf(e: Event, cause: nat): multiset<nat> {
    if e.Posted? && e.post.NotifyReport? then multiset{cause} else multiset{}
  }

  function NoticesOf(events: seq<Event>, cause: nat): multiset<nat> {
    if events == [] then multiset{} else NoticesOf(events[..|events|-1], cause) + NoticeOf(events[|events|-1], cause)
  }

  /** The manager at a socket has become m' and done `events`; what it posted is on its way. */
  function After(n: Network, at: Socket, m': Manager, events: seq<Event>, cause: nat): Network {
    n.(managers := n.managers[at := m'],
       flying := n.flying + LettersOf(events, cause),
       record := n.record + RecordOf(m'.nodeID, events),
       notices := n.notices + NoticesOf(events, cause))
  }

  ghost predicate Handles(n: Network, at: Socket, i: Incoming, cause: nat, n': Network) {
    && at in n.managers && n.managers[at].curNodePosition.WellShaped() && CanTake(n.managers[at], i)
    && exists m', events ::
         && Steps(n.managers[at], i, m') && m'.events == n.managers[at].events + events
         && n' == After(n, at, m', events, cause)
  }

  /** The op codes of messages that the pool puts on channels for the clients. */
  predicate IsNews(op: Op) {
    op == INIT_POOL || op == ADD_NODE || op == REMOVE_NODE || op == ADD_USER || op == REMOVE_USER
  }

  datatype Move =
    | Connects(at: Socket, id: Id)
    | Disconnects(at: Socket)
    | ClientSays(at: Socket, message: ClientMessage)
    | PoolSays(at: Socket, incoming: Incoming)
    | Delivers(letter: Letter, at: Socket)
    | Loses(letter: Letter)
    | Timer(at: Socket, now: int)

  /** One step of the network.  Clients say anything; messages are delivered in any order, to any socket
      of the node they are for, or lost; the pool announces any positions and news; sockets are opened
      and closed, also several of one node. */
  ghost predicate Next(n: Network, a: Move, n': Network) {
    match a
    case Connects(at, id) => at !in n.managers && n' == n.(managers := n.managers[at := START.(nodeID := id)])
    case Disconnects(at) => n' == n.(managers := n.managers - {at})
    case ClientSays(at, message) => Handles(n.(clock := n.clock + 1), at, Received(message), n.clock, n')
    case PoolSays(at, i) =>
      && (i.Position? || (i.FromPool? && i.post.News? && IsNews(i.post.op)))
      && Handles(n, at, i, 0, n')
    case Delivers(l, at) =>
      && l in n.flying && at in n.managers && n.managers[at].nodeID == l.to
      && Handles(n.(flying := n.flying - multiset{l}), at, FromPool(l.post), l.cause, n')
    case Loses(l) => l in n.flying && n' == n.(flying := n.flying - multiset{l})
    case Timer(at, now) => at in n.managers && n' == n.(managers := n.managers[at := Tick(n.managers[at], now)])
  }

  ghost predicate Moves(n: Network, n': Network) {
    exists a :: Next(n, a, n')
  }

  ghost predicate NextAt(run: seq<Network>, i: nat)
    requires i + 1 < |run|
  {
    Moves(run[i], run[i+1])
  }

  ghost predicate IsRun(run: seq<Network>) {
    |run| > 0 && IsStart(run[0]) && forall i: nat | i < |run| - 1 :: NextAt(run, i)
  }

  // ---- The stages of a handshake ----

  datatype Stage = OFFER | ANSWER | CONNECT | VERIFY

  /** The request whose answer the stage waits for, the answer's op code, and what follows from it. */
  function Request(s: Stage, target: Id): Event {
    match s
    case OFFER => Asked(CONNECT_NODE, SEND_OFFER, target)
    case ANSWER => Asked(SEND_OFFER, ANSWER_OFFER, target)
    case CONNECT => Asked(ANSWER_OFFER, CONNECT_NODE, target)
    case VERIFY => Asked(VERIFY_NODE_CONNECTED, VERIFY_NODE_CONNECTED, target)
  }

  function ResponseOp(s: Stage): Op {
    match s
    case OFFER => SEND_OFFER
    case ANSWER => ANSWER_OFFER
    case CONNECT => CONNECT_NODE
    case VERIFY => VERIFY_NODE_CONNECTED
  }

  function Outcome(s: Stage, self: Id, target: Id): Event {
    match s
    case OFFER => Posted(target, Offer(self))
    case ANSWER => Posted(target, Answer(self))
    case CONNECT => Posted(target, Connected(self))
    case VERIFY => Verified(target)
  }

  /** The keys for which a manager waits for this stage's answer about this node. */
  function Awaited(m: Manager, s: Stage, target: Id): set<int> {
    set k | k in m.ackPending && m.ackPending[k].responseOp == ResponseOp(s) && m.ackPending[k].targetNodeID == target
  }

  /** How often an event is among these. */
  function Count(events: seq<Event>, e: Event): nat {
    multiset(events)[e]
  }

  /** Between two states of one manager no answer was used that had not been asked for. */
  ghost predicate Balanced(m: Manager, m': Manager, events: seq<Event>, s: Stage, target: Id) {
    |Awaited(m', s, target)| + Count(events, Outcome(s, m.nodeID, target)) <=
    |Awaited(m, s, target)| + Count(events, Request(s, target))
  }

  lemma AwaitedAfterAsk(m: Manager, q: Question, s: Stage, target: Id)
    ensures |Awaited(Ask(m, q), s, target)| <=
      |Awaited(m, s, target)| + if q.responseOp == ResponseOp(s) && q.target == target then 1 else 0
  {
    var w := Awaited(m, s, target);
    if q.responseOp == ResponseOp(s) && q.target == target {
      assert Awaited(Ask(m, q), s, target) == w + {q.key};
    } else {
      assert Awaited(Ask(m, q), s, target) == w - {q.key};
      SubsetSize(w - {q.key}, w);
    }
  }

  lemma AwaitedAfterAnswer(m: Manager, key: int, s: Stage, target: Id)
    requires key in m.ackPending
    ensures |Awaited(m.(ackPending := m.ackPending - {key}), s, target)| ==
      |Awaited(m, s, target)| -
      if m.ackPending[key].responseOp == ResponseOp(s) && m.ackPending[key].targetNodeID == target then 1 else 0
  {
    var w := Awaited(m, s, target);
    assert Awaited(m.(ackPending := m.ackPending - {key}), s, target) == w - {key};
  }

  lemma SameAwaited(m: Manager, m': Manager, s: Stage, target: Id)
    requires m.ackPending == m'.ackPending
    ensures Awaited(m, s, target) == Awaited(m', s, target)
  {
  }

  lemma SameSuffix(a: seq<Event>, b: seq<Event>, c: seq<Event>)
    requires a + b == a + c
    ensures b == c
  {
    assert b == (a + b)[|a|..] && c == (a + c)[|a|..];
  }

  /** What can follow from an answer about `target`: the outcome of its stage, or a notice about a report. */
  predicate Answers(self: Id, op: Op, target: Id, e: Event) {
    || (op == SEND_OFFER && e == Outcome(OFFER, self, target))
    || (op == ANSWER_OFFER && e == Outcome(ANSWER, self, target))
    || (op == CONNECT_NODE && e == Outcome(CONNECT, self, target))
    || (op == VERIFY_NODE_CONNECTED && e == Outcome(VERIFY, self, target))
    || (e.Posted? && e.post.NotifyReport? && e.post.fromNodeID == self)
  }

  lemma ReportEvents(m: Manager, target: Id, code: ReportCode) returns (events: seq<Event>)
    ensures Report(m, target, code).events == m.events + events && |events| <= 1
    ensures Report(m, target, code).ackPending == m.ackPending
    ensures TakesReport(m, target, code) ==> events == []
    ensures forall e | e in events ::
      e == Posted(target, NotifyReport(m.nodeID, REPORT_CODE_FINAL)) && code != REPORT_CODE_FINAL
  {
    events := Report(m, target, code).events[|m.events|..];
  }

  lemma ClientReportEvents(m: Manager, target: Id, code: ReportCode) returns (events: seq<Event>)
    ensures ClientReport(m, target, code).events == m.events + events && |events| <= 1
    ensures ClientReport(m, target, code).ackPending == m.ackPending
    ensures forall e | e in events :: e.Posted? && e.post.NotifyReport? && e.post.fromNodeID == m.nodeID
  {
    events := ReportEvents(m, target, code);
    if TakesReport(m, target, code) { events := [Posted(target, NotifyReport(m.nodeID, code))]; }
  }

  lemma AnswerEvents(m: Manager, op: Op, data: Body, target: Id) returns (events: seq<Event>)
    ensures OnAnswer(m, op, data, target).events == m.events + events && |events| <= 1
    ensures OnAnswer(m, op, data, target).ackPending == m.ackPending
    ensures forall e | e in events :: Answers(m.nodeID, op, target, e)
  {
    hide Report, ClientReport;
    events := ClientReportEvents(m, target, REPORT_CODE_NOT_CONNECTING);
    var m' := OnAnswer(m, op, data, target);
    if m' == ClientReport(m, target, REPORT_CODE_NOT_CONNECTING) {
    } else if data.ReportNode? && m' == ClientReport(m, data.nodeID, data.reportCode) {
      events := ClientReportEvents(m, data.nodeID, data.reportCode);
    } else {
      events := m'.events[|m.events|..];
    }
  }

  lemma CountOne(events: seq<Event>, e: Event)
    requires |events| <= 1
    ensures Count(events, e) == if e in events then 1 else 0
  {
  }

  /** An accepted answer uses up its key, and only an answer has an outcome. */
  lemma ClientEvents(m: Manager, c: ClientMessage) returns (events: seq<Event>)
    ensures OnClient(m, c).events == m.events + events && |events| <= 1
    ensures forall e | e in events :: !e.Asked? && (e.Posted? ==> !e.post.News? && e.post.fromNodeID == m.nodeID)
    ensures forall s, target :: Balanced(m, OnClient(m, c), events, s, target)
  {
    hide OnAnswer, Awaited;
    events := [];
    var m' := OnClient(m, c);
    if c.key != NO_KEY && c.key in m.ackPending && m.ackPending[c.key].responseOp == c.op {
      events := AnswerEvents(m.(ackPending := m.ackPending - {c.key}), c.op, c.data, m.ackPending[c.key].targetNodeID);
    } else if c.key == NO_KEY && OpNoKeyRequired(c.op) {
      events := AnswerEvents(m, c.op, c.data, NOBODY);
    }
    forall s, target
      ensures Balanced(m, m', events, s, target)
    {
      CountOne(events, Outcome(s, m.nodeID, target));
      if c.key != NO_KEY && c.key in m.ackPending && m.ackPending[c.key].responseOp == c.op {
        AwaitedAfterAnswer(m, c.key, s, target);
        SameAwaited(m.(ackPending := m.ackPending - {c.key}), m', s, target);
      } else {
        SameAwaited(m, m', s, target);
      }
    }
  }

  /** The stage whose request a message of another node leads to. */
  predicate Prompts(p: PoolMessage, s: Stage, target: Id) {
    || (s == ANSWER && p == Offer(target))
    || (s == CONNECT && p == Answer(target))
    || (s == VERIFY && p == Connected(target))
  }

  lemma PoolEvents(m: Manager, p: PoolMessage, q: Question) returns (events: seq<Event>)
    requires Suits(m, p, q) && (p.News? ==> IsNews(p.op))
    ensures OnPool(m, p, q).events == m.events + events && |events| <= 1
    ensures forall e | e in events && e.Posted? ::
      p.NotifyReport? && p.reportCode != REPORT_CODE_FINAL && e.post == NotifyReport(m.nodeID, REPORT_CODE_FINAL)
    ensures forall s, target | s != OFFER && Request(s, target) in events :: Prompts(p, s, target)
    ensures forall s, target :: Balanced(m, OnPool(m, p, q), events, s, target)
  {
    hide Report, Awaited;
    var m' := OnPool(m, p, q);
    events := [];
    var n := m;
    if p.NotifyReport? {
      events := ReportEvents(m, p.fromNodeID, p.reportCode);
      n := Report(m, p.fromNodeID, p.reportCode);
    }
    if CallsFor(m, p) { events := [Asked(q.op, q.responseOp, q.target)]; }
    forall s, target
      ensures Balanced(m, m', events, s, target)
    {
      SameAwaited(m, n, s, target);
      AwaitedAfterAsk(n, q, s, target);
      CountOne(events, Outcome(s, m.nodeID, target));
      CountOne(events, Request(s, target));
    }
  }

  function EventsOf(qs: seq<Question>): seq<Event> {
    if qs == [] then [] else EventsOf(qs[..|qs|-1]) + [Asked(qs[|qs|-1].op, qs[|qs|-1].responseOp, qs[|qs|-1].target)]
  }

  /** The requests of a new position: of the handshake, only its first. */
  predicate IsUpdate(q: Question) {
    || (q.op == CONNECT_NODE && q.responseOp == SEND_OFFER)
    || (q.op == q.responseOp == UPDATE_NODE_POSITION)
    || (q.op == q.responseOp == DISCONNECT_NODE)
  }

  lemma {:induction false} AskAllEvents(m: Manager, qs: seq<Question>, s: Stage, target: Id)
    requires forall q | q in qs :: IsUpdate(q)
    ensures AskAll(m, qs).events == m.events + EventsOf(qs)
    ensures |Awaited(AskAll(m, qs), s, target)| <= |Awaited(m, s, target)| + Count(EventsOf(qs), Request(s, target))
    ensures forall e | e in EventsOf(qs) :: e.Asked?
    ensures s != OFFER ==> Request(s, target) !in EventsOf(qs)
  {
    hide Awaited;
    if qs != [] {
      var q := qs[|qs|-1];
      assert q in qs;
      AskAllEvents(m, qs[..|qs|-1], s, target);
      AwaitedAfterAsk(AskAll(m, qs[..|qs|-1]), q, s, target);
    }
  }

  lemma AllUpdate(m: Manager, v: NodePosition, promoted: bool, first: Question, cs: seq<Question>, ds: seq<Question>)
    requires v.WellShaped() && UpdateRequests(m, v, promoted, first, cs, ds)
    ensures forall q | q in [first] + cs + ds :: IsUpdate(q)
  {
  }

  lemma PositionEvents(m: Manager, v: NodePosition, promoted: bool, m': Manager) returns (events: seq<Event>)
    requires v.WellShaped() && Updates(m, v, promoted, m')
    ensures m'.events == m.events + events && forall e | e in events :: e.Asked?
    ensures forall s, target | s != OFFER :: Request(s, target) !in events
    ensures forall s, target :: Balanced(m, m', events, s, target)
  {
    hide Awaited, UpdateRequests, IsUpdate;
    var first, cs, ds :| UpdateRequests(m, v, promoted, first, cs, ds) && m' == Repositioned(m, v, [first] + cs + ds);
    var qs := [first] + cs + ds;
    AllUpdate(m, v, promoted, first, cs, ds);
    events := EventsOf(qs);
    forall s, target
      ensures m'.events == m.events + events && (forall e | e in events :: e.Asked?)
      ensures s != OFFER ==> Request(s, target) !in events
      ensures Balanced(m, m', events, s, target)
    {
      AskAllEvents(m, qs, s, target);
      SameAwaited(AskAll(m, qs), m', s, target);
      assert !Outcome(s, m.nodeID, target).Asked?;
      assert Count(events, Outcome(s, m.nodeID, target)) == 0;
    }
    AskAllEvents(m, qs, OFFER, NOBODY);
  }

  /** What the events of one step can be. */
  ghost predicate Effects(m: Manager, i: Incoming, m': Manager, events: seq<Event>) {
    && (forall s, target :: Balanced(m, m', events, s, target))
    && (forall s, target | s != OFFER ::
          Count(events, Request(s, target)) <= if i.FromPool? && Prompts(i.post, s, target) then 1 else 0)
    && (forall e | e in events && e.Posted? :: !e.post.News? && e.post.fromNodeID == m.nodeID)
    && (|events| <= 1 || forall e | e in events :: e.Asked?)
    && (forall e | e in events && e.Posted? && !i.Received? ::
          && i.FromPool? && i.post.NotifyReport? && i.post.reportCode != REPORT_CODE_FINAL
          && e.post == NotifyReport(m.nodeID, REPORT_CODE_FINAL))
  }

  lemma StepEffects(m: Manager, i: Incoming, m': Manager, events: seq<Event>)
    requires m.curNodePosition.WellShaped() && CanTake(m, i)
    requires i.FromPool? && i.post.News? ==> IsNews(i.post.op)
    requires Steps(m, i, m') && m'.events == m.events + events
    ensures Effects(m, i, m', events) && m'.nodeID == m.nodeID
  {
    hide Balanced, OnClient, OnPool, Updates;
    var es: seq<Event> := [];
    if m.clientErr {
      Idle(m);
    } else {
      match i
      case Received(c) =>
        es := ClientEvents(m, c);
        ClientKeepsName(m, c);
      case FromPool(p) =>
        var q :| Suits(m, p, q) && m' == OnPool(m, p, q);
        es := PoolEvents(m, p, q);
        PoolKeepsName(m, p, q);
      case Position(p) =>
        es := PositionEvents(m, Receive(m.curNodePosition, p), p.Full?, m');
        UpdateKeepsName(m, Receive(m.curNodePosition, p), p.Full?, m');
    }
    SameSuffix(m.events, events, es);
    forall s, target | s != OFFER
      ensures Count(events, Request(s, target)) <= if i.FromPool? && Prompts(i.post, s, target) then 1 else 0
    {
      if |events| <= 1 { CountOne(events, Request(s, target)); }
    }
  }

  lemma Idle(m: Manager)
    ensures forall s, target :: Balanced(m, m, [], s, target)
  {
  }

  lemma ClientKeepsName(m: Manager, c: ClientMessage)
    ensures OnClient(m, c).nodeID == m.nodeID
  {
  }

  lemma PoolKeepsName(m: Manager, p: PoolMessage, q: Question)
    ensures OnPool(m, p, q).nodeID == m.nodeID
  {
  }

  lemma UpdateKeepsName(m: Manager, v: NodePosition, promoted: bool, m': Manager)
    requires v.WellShaped() && Updates(m, v, promoted, m')
    ensures m'.nodeID == m.nodeID
  {
    var first, cs, ds :| UpdateRequests(m, v, promoted, first, cs, ds) && m' == Repositioned(m, v, [first] + cs + ds);
    AskAllKeeps(m, [first] + cs + ds);
  }

  // ---- Counting over the network ----

  lemma {:induction false} RecordCounts(id: Id, events: seq<Event>, who: Id, e: Event)
    ensures RecordOf(id, events)[(who, e)] == if who == id then Count(events, e) else 0
  {
    if events != [] {
      RecordCounts(id, events[..|events|-1], who, e);
      assert events == events[..|events|-1] + [events[|events|-1]];
    }
  }

  lemma {:induction false} LetterCounts(events: seq<Event>, cause: nat, to: Id, post: PoolMessage)
    requires !post.NotifyReport?
    ensures LettersOf(events, cause)[Letter(to, post, 0)] == Count(events, Posted(to, post))
  {
    if events != [] {
      LetterCounts(events[..|events|-1], cause, to, post);
      LetterCount(events[|events|-1], cause, to, post);
      CountLast(events, Posted(to, post));
      hide Count, LetterOf;
    }
  }

  lemma LetterCount(e: Event, cause: nat, to: Id, post: PoolMessage)
    requires !post.NotifyReport?
    ensures LetterOf(e, cause)[Letter(to, post, 0)] == if e == Posted(to, post) then 1 else 0
  {
  }

  lemma CountLast(events: seq<Event>, e: Event)
    requires events != []
    ensures Count(events, e) == Count(events[..|events|-1], e) + if events[|events|-1] == e then 1 else 0
  {
    assert events == events[..|events|-1] + [events[|events|-1]];
  }

  /** The message that carries a stage's outcome to the other node. */
  function Carrier(s: Stage, from: Id): PoolMessage
    requires s != VERIFY
  {
    match s
    case OFFER => Offer(from)
    case ANSWER => Answer(from)
    case CONNECT => Connected(from)
  }

  function Following(s: Stage): Stage
    requires s != VERIFY
  {
    match s
    case OFFER => ANSWER
    case ANSWER => CONNECT
    case CONNECT => VERIFY
  }

  /** The sockets of node a, each with the keys for which its manager waits. */
  function OpenKeys(n: Network, a: Id, s: Stage, b: Id): set<(Socket, int)> {
    set at, key | at in n.managers && n.managers[at].nodeID == a && key in Awaited(n.managers[at], s, b) :: (at, key)
  }

  /** For how many answers about node b all managers of node a together wait. */
  function Waiting(n: Network, a: Id, s: Stage, b: Id): nat {
    |OpenKeys(n, a, s, b)|
  }

  function AtSocket(at: Socket, keys: set<int>): set<(Socket, int)> {
    set key | key in keys :: (at, key)
  }

  lemma {:induction false} AtSocketSize(at: Socket, keys: set<int>)
    ensures |AtSocket(at, keys)| == |keys|
  {
    if keys != {} {
      SomebodyIn(keys);
      var k :| k in keys;
      AtSocketSize(at, keys - {k});
      assert AtSocket(at, keys) == AtSocket(at, keys - {k}) + {(at, k)};
    }
  }

  lemma OpenKeysSplit(n: Network, at: Socket, a: Id, s: Stage, b: Id)
    requires at in n.managers
    ensures var others := OpenKeys(n.(managers := n.managers - {at}), a, s, b);
      var own := if n.managers[at].nodeID == a then AtSocket(at, Awaited(n.managers[at], s, b)) else {};
      others !! own && OpenKeys(n, a, s, b) == others + own
  {
    hide Awaited;
    var others := OpenKeys(n.(managers := n.managers - {at}), a, s, b);
    var own := if n.managers[at].nodeID == a then AtSocket(at, Awaited(n.managers[at], s, b)) else {};
    forall x
      ensures x in OpenKeys(n, a, s, b) <==> x in others || x in own
      ensures !(x in others && x in own)
    {
    }
  }

  lemma WaitingSplits(n: Network, at: Socket, a: Id, s: Stage, b: Id)
    requires at in n.managers
    ensures Waiting(n, a, s, b) == Waiting(n.(managers := n.managers - {at}), a, s, b) +
      if n.managers[at].nodeID == a then |Awaited(n.managers[at], s, b)| else 0
  {
    OpenKeysSplit(n, at, a, s, b);
    hide Awaited, OpenKeys, AtSocket;
    var others := OpenKeys(n.(managers := n.managers - {at}), a, s, b);
    if n.managers[at].nodeID == a {
      DisjointUnionSize(others, AtSocket(at, Awaited(n.managers[at], s, b)));
      AtSocketSize(at, Awaited(n.managers[at], s, b));
    } else {
      assert others + {} == others;
    }
  }

  lemma SameRest(n: Network, n': Network, at: Socket, a: Id, s: Stage, b: Id)
    requires n'.managers - {at} == n.managers - {at}
    ensures Waiting(n'.(managers := n'.managers - {at}), a, s, b) == Waiting(n.(managers := n.managers - {at}), a, s, b)
  {
  }

  /** Within node a: no more answers are awaited and used than were asked for. */
  ghost predicate Kept(n: Network, a: Id, s: Stage, b: Id) {
    Waiting(n, a, s, b) + n.record[(a, Outcome(s, a, b))] <= n.record[(a, Request(s, b))]
  }

  /** From a to b: no more messages are on the way or have been acted upon than were sent. */
  ghost predicate HandedOver(n: Network, a: Id, s: Stage, b: Id)
    requires s != VERIFY
  {
    n.flying[Letter(b, Carrier(s, a), 0)] + n.record[(b, Request(Following(s), a))] <= n.record[(a, Outcome(s, a, b))]
  }

  /** Managers are orderly; only notices about reports carry a cause. */
  ghost predicate Proper(n: Network) {
    && (forall at | at in n.managers :: Orderly(n.managers[at]))
    && (forall l | l in n.flying :: !l.post.News? && (l.cause == 0 || l.post.NotifyReport?))
  }

  ghost predicate Conserved(n: Network) {
    && Proper(n)
    && (forall a, s, b :: Kept(n, a, s, b))
    && (forall a, s, b | s != VERIFY :: HandedOver(n, a, s, b))
  }

  lemma KeptAfter(n: Network, at: Socket, i: Incoming, m': Manager, events: seq<Event>, cause: nat, a: Id, s: Stage,
                  b: Id)
    requires at in n.managers && n.managers[at].nodeID == m'.nodeID && Effects(n.managers[at], i, m', events)
    requires Kept(n, a, s, b)
    ensures Kept(After(n, at, m', events, cause), a, s, b)
  {
    var n' := After(n, at, m', events, cause);
    assert n'.managers - {at} == n.managers - {at};
    RecordCounts(m'.nodeID, events, a, Outcome(s, a, b));
    RecordCounts(m'.nodeID, events, a, Request(s, b));
    assert Balanced(n.managers[at], m', events, s, b);
    hide Effects, Waiting, Awaited, RecordOf, LettersOf, NoticesOf, Outcome, Request;
    WaitingSplits(n, at, a, s, b);
    WaitingSplits(n', at, a, s, b);
    SameRest(n, n', at, a, s, b);
  }

  /** A carrier that a manager of node `id` is acting upon is neither on the way nor acted upon yet. */
  function InHand(id: Id, i: Incoming, a: Id, s: Stage, b: Id): nat
    requires s != VERIFY
  {
    if id == b && i == FromPool(Carrier(s, a)) then 1 else 0
  }

  lemma HandedOverAfter(n: Network, at: Socket, i: Incoming, m': Manager, events: seq<Event>, cause: nat, a: Id,
                        s: Stage, b: Id)
    requires s != VERIFY && at in n.managers && n.managers[at].nodeID == m'.nodeID
    requires Effects(n.managers[at], i, m', events)
    requires InHand(m'.nodeID, i, a, s, b) + n.flying[Letter(b, Carrier(s, a), 0)] +
      n.record[(b, Request(Following(s), a))] <= n.record[(a, Outcome(s, a, b))]
    ensures HandedOver(After(n, at, m', events, cause), a, s, b)
  {
    hide Balanced, RecordOf, LettersOf, LetterOf;
    RecordCounts(m'.nodeID, events, a, Outcome(s, a, b));
    RecordCounts(m'.nodeID, events, b, Request(Following(s), a));
    LetterCounts(events, cause, b, Carrier(s, a));
    assert Outcome(s, a, b) == Posted(b, Carrier(s, a));
    if a != m'.nodeID { assert Posted(b, Carrier(s, a)) !in events; }
    assert Count(events, Request(Following(s), a)) <= if i.FromPool? && Prompts(i.post, Following(s), a) then 1 else 0;
  }

  lemma {:induction false} LettersAreProper(events: seq<Event>, cause: nat)
    requires forall e | e in events && e.Posted? :: !e.post.News?
    ensures forall l | l in LettersOf(events, cause) ::
      !l.post.News? && (l.cause == 0 || (l.post.NotifyReport? && l.cause == cause))
  {
    if events != [] { LettersAreProper(events[..|events|-1], cause); }
  }

  /** One manager handling one message, which may just have been taken from those in flight. */
  lemma HandlingConserves(n: Network, at: Socket, i: Incoming, cause: nat, n': Network)
    requires Proper(n) && Handles(n, at, i, cause, n') && (i.FromPool? && i.post.News? ==> IsNews(i.post.op))
    requires forall a, s, b :: Kept(n, a, s, b)
    requires forall a, s, b | s != VERIFY ::
      InHand(n.managers[at].nodeID, i, a, s, b) + n.flying[Letter(b, Carrier(s, a), 0)] +
      n.record[(b, Request(Following(s), a))] <= n.record[(a, Outcome(s, a, b))]
    ensures Conserved(n')
  {
    var m', events :| Steps(n.managers[at], i, m') && m'.events == n.managers[at].events + events
      && n' == After(n, at, m', events, cause);
    StepEffects(n.managers[at], i, m', events);
    StepKeepsOrder(n.managers[at], i, m');
    hide Effects, Steps, After, Kept, HandedOver;
    forall a, s, b
      ensures Kept(n', a, s, b)
    {
      KeptAfter(n, at, i, m', events, cause, a, s, b);
    }
    forall a, s, b | s != VERIFY
      ensures HandedOver(n', a, s, b)
    {
      HandedOverAfter(n, at, i, m', events, cause, a, s, b);
    }
    ProperAfter(n, at, i, m', events, cause);
  }

  lemma ProperAfter(n: Network, at: Socket, i: Incoming, m': Manager, events: seq<Event>, cause: nat)
    requires Proper(n) && at in n.managers && Effects(n.managers[at], i, m', events) && Orderly(m')
    ensures Proper(After(n, at, m', events, cause))
  {
    LettersAreProper(events, cause);
  }

  lemma NewManagerWaitsForNothing(n: Network, at: Socket, id: Id, a: Id, s: Stage, b: Id)
    requires at !in n.managers
    ensures Waiting(n.(managers := n.managers[at := START.(nodeID := id)]), a, s, b) == Waiting(n, a, s, b)
  {
    assert OpenKeys(n.(managers := n.managers[at := START.(nodeID := id)]), a, s, b) == OpenKeys(n, a, s, b);
  }

  lemma FewerWaitForLess(n: Network, at: Socket, a: Id, s: Stage, b: Id)
    ensures Waiting(n.(managers := n.managers - {at}), a, s, b) <= Waiting(n, a, s, b)
  {
    SubsetSize(OpenKeys(n.(managers := n.managers - {at}), a, s, b), OpenKeys(n, a, s, b));
  }

  lemma TimeChangesNoKeys(n: Network, at: Socket, now: int, a: Id, s: Stage, b: Id)
    requires at in n.managers
    ensures Waiting(n.(managers := n.managers[at := Tick(n.managers[at], now)]), a, s, b) == Waiting(n, a, s, b)
  {
    assert OpenKeys(n.(managers := n.managers[at := Tick(n.managers[at], now)]), a, s, b) == OpenKeys(n, a, s, b);
  }

  /** Without handling a message, managers wait for no more answers than before. */
  lemma NobodyWaitsForMore(n: Network, a: Move, n': Network, x: Id, s: Stage, b: Id)
    requires Next(n, a, n') && (a.Connects? || a.Disconnects? || a.Loses? || a.Timer?)
    ensures Waiting(n', x, s, b) <= Waiting(n, x, s, b)
    ensures n'.record == n.record && n'.flying <= n.flying
  {
    hide Waiting, Handles, Tick;
    match a
    case Connects(at, id) => NewManagerWaitsForNothing(n, at, id, x, s, b);
    case Disconnects(at) => FewerWaitForLess(n, at, x, s, b);
    case Timer(at, now) => TimeChangesNoKeys(n, at, now, x, s, b);
    case Loses(_) => SameManagersWait(n, n', x, s, b);
  }

  lemma ProperStays(n: Network, a: Move, n': Network)
    requires Proper(n) && Next(n, a, n') && (a.Connects? || a.Disconnects? || a.Loses? || a.Timer?)
    ensures Proper(n')
  {
    hide Handles;
  }

  lemma ComingAndGoingConserves(n: Network, a: Move, n': Network)
    requires Conserved(n) && Next(n, a, n') && (a.Connects? || a.Disconnects? || a.Loses? || a.Timer?)
    ensures Conserved(n')
  {
    ProperStays(n, a, n');
    hide Next, Proper, Waiting, Outcome, Request;
    forall x, s, b
      ensures Kept(n', x, s, b) && (s != VERIFY ==> HandedOver(n', x, s, b))
    {
      NobodyWaitsForMore(n, a, n', x, s, b);
      assert Kept(n, x, s, b) && (s != VERIFY ==> HandedOver(n, x, s, b));
    }
  }

  lemma SameManagersWait(n: Network, n': Network, a: Id, s: Stage, b: Id)
    requires n.managers == n'.managers
    ensures Waiting(n, a, s, b) == Waiting(n', a, s, b)
  {
  }

  lemma HandlingMoveConserves(n: Network, a: Move, n': Network)
    requires Conserved(n) && Next(n, a, n') && (a.ClientSays? || a.PoolSays?)
    ensures Conserved(n')
  {
    hide Handles, Proper;
    var before := if a.ClientSays? then n.(clock := n.clock + 1) else n;
    ProperIsLocal(n, before);
    forall x, s, b
      ensures Kept(before, x, s, b)
    {
      assert Kept(n, x, s, b);
    }
    forall x, s, b | s != VERIFY
      ensures n.flying[Letter(b, Carrier(s, x), 0)] + n.record[(b, Request(Following(s), x))] <=
        n.record[(x, Outcome(s, x, b))]
    {
      assert HandedOver(n, x, s, b);
    }
    if a.ClientSays? {
      HandlingConserves(before, a.at, Received(a.message), n.clock, n');
    } else {
      HandlingConserves(before, a.at, a.incoming, 0, n');
    }
  }

  lemma ProperIsLocal(n: Network, before: Network)
    requires Proper(n) && before.managers == n.managers && before.flying <= n.flying
    ensures Proper(before)
  {
  }

  lemma DeliveryConserves(n: Network, l: Letter, at: Socket, n': Network)
    requires Conserved(n) && Next(n, Delivers(l, at), n')
    ensures Conserved(n')
  {
    hide Handles;
    var before := n.(flying := n.flying - multiset{l});
    forall x, s, b
      ensures Kept(before, x, s, b)
    {
      assert Kept(n, x, s, b);
    }
    forall x, s, b | s != VERIFY
      ensures InHand(l.to, FromPool(l.post), x, s, b) + before.flying[Letter(b, Carrier(s, x), 0)] +
        before.record[(b, Request(Following(s), x))] <= before.record[(x, Outcome(s, x, b))]
    {
      assert HandedOver(n, x, s, b);
    }
    HandlingConserves(before, at, FromPool(l.post), l.cause, n');
  }

  lemma NextConserves(n: Network, a: Move, n': Network)
    requires Conserved(n) && Next(n, a, n')
    ensures Conserved(n')
  {
    hide Conserved, Next;
    match a
    case ClientSays(_, _) => HandlingMoveConserves(n, a, n');
    case PoolSays(_, _) => HandlingMoveConserves(n, a, n');
    case Delivers(l, at) => DeliveryConserves(n, l, at, n');
    case Connects(_, _) => ComingAndGoingConserves(n, a, n');
    case Disconnects(_) => ComingAndGoingConserves(n, a, n');
    case Loses(_) => ComingAndGoingConserves(n, a, n');
    case Timer(_, _) => ComingAndGoingConserves(n, a, n');
  }

  lemma {:induction false} RunsConserve(run: seq<Network>, i: nat)
    requires IsRun(run) && i < |run|
    ensures Conserved(run[i])
  {
    hide Conserved, Next;
    if i == 0 {
      StartIsConserved(run[0]);
    } else {
      RunsConserve(run, i - 1);
      assert NextAt(run, i - 1);
      var a :| Next(run[i-1], a, run[i]);
      NextConserves(run[i-1], a, run[i]);
    }
  }

  lemma StartIsConserved(n: Network)
    requires IsStart(n)
    ensures Conserved(n)
  {
  }

  /** In every interleaving, for every ordered pair of nodes with any number of sockets, the requests to
      connect that were issued to a for b cover everything that has come of them: offers awaited, offers on
      the way, answers awaited, answers on the way, connections awaited, confirmations on the way,
      confirmations awaited, and confirmed connections. */
  lemma HandshakesAreConserved(run: seq<Network>, i: nat, a: Id, b: Id)
    requires IsRun(run) && i < |run|
    ensures var n := run[i];
      n.record[(a, Asked(CONNECT_NODE, SEND_OFFER, b))] >=
        Waiting(n, a, OFFER, b) + n.flying[Letter(b, Offer(a), 0)] +
        Waiting(n, b, ANSWER, a) + n.flying[Letter(a, Answer(b), 0)] +
        Waiting(n, a, CONNECT, b) + n.flying[Letter(b, Connected(a), 0)] +
        Waiting(n, b, VERIFY, a) + n.record[(b, Verified(a))]
  {
    RunsConserve(run, i);
    var n := run[i];
    assert Kept(n, a, OFFER, b) && HandedOver(n, a, OFFER, b);
    assert Kept(n, b, ANSWER, a) && HandedOver(n, b, ANSWER, a);
    assert Kept(n, a, CONNECT, b) && HandedOver(n, a, CONNECT, b);
    assert Kept(n, b, VERIFY, a);
  }

  // ---- Notices about reports ----

  /** A notice on its way that may still cause another one. */
  predicate Open(l: Letter) {
    l.post.NotifyReport? && l.post.reportCode != REPORT_CODE_FINAL
  }

  /** At most two notices go back to one client message; while the first may still cause the
      second, it is the only one. */
  ghost predicate Bounded(n: Network) {
    && (forall c: nat :: n.notices[c] <= 2 && (c >= n.clock ==> n.notices[c] == 0))
    && (forall l | l in n.flying && l.post.NotifyReport? :: l.cause < n.clock)
    && (forall l | l in n.flying && Open(l) :: n.flying[l] == 1 && n.notices[l.cause] == 1)
    && (forall k, l | k in n.flying && l in n.flying && Open(k) && Open(l) && k.cause == l.cause :: k == l)
  }

  lemma OneEvent(events: seq<Event>, cause: nat)
    requires |events| == 1
    ensures LettersOf(events, cause) == LetterOf(events[0], cause)
    ensures NoticesOf(events, cause) == NoticeOf(events[0], cause)
  {
  }

  lemma {:induction false} NoPosts(events: seq<Event>, cause: nat)
    requires forall e | e in events :: !e.Posted?
    ensures LettersOf(events, cause) == multiset{} && NoticesOf(events, cause) == multiset{}
  {
    if events != [] { NoPosts(events[..|events|-1], cause); }
  }

  /** The cause may lead to one more notice: it is a new client message, or an open notice was
      just taken from those in flight. */
  ghost predicate MayNotify(n: Network, i: Incoming, cause: nat) {
    && (i.Received? ==> cause < n.clock && n.notices[cause] == 0)
    && (i.FromPool? && i.post.NotifyReport? && i.post.reportCode != REPORT_CODE_FINAL ==>
          cause < n.clock && n.notices[cause] == 1 && forall l | l in n.flying && Open(l) :: l.cause != cause)
  }

  /** A notice may be sent: the first of its cause, or a final one when no open one is left. */
  ghost predicate MayPost(n: Network, e: Event, cause: nat) {
    e.Posted? && e.post.NotifyReport? ==>
      && cause < n.clock && n.notices[cause] <= 1 && (n.notices[cause] == 0 || e.post.reportCode == REPORT_CODE_FINAL)
      && (forall l | l in n.flying && Open(l) :: l.cause != cause)
  }

  lemma EffectsMayBePosted(n: Network, i: Incoming, m: Manager, m': Manager, events: seq<Event>, cause: nat, e: Event)
    requires Bounded(n) && Effects(m, i, m', events) && MayNotify(n, i, cause) && e in events
    ensures MayPost(n, e, cause)
  {
  }

  lemma PostKeepsBounds(n: Network, n': Network, e: Event, cause: nat)
    requires Bounded(n) && e.Posted? && n'.clock == n.clock
    requires n'.flying == n.flying + LetterOf(e, cause) && n'.notices == n.notices + NoticeOf(e, cause)
    requires MayPost(n, e, cause)
    ensures Bounded(n')
  {
    var l := Letter(e.target, e.post, if e.post.NotifyReport? then cause else 0);
    if Open(l) { NotAmongThem(n, l); }
  }

  lemma NotAmongThem(n: Network, l: Letter)
    requires Bounded(n) && Open(l) && n.notices[l.cause] == 0
    ensures l !in n.flying
  {
  }

  /** A step posts at most one notice: on a client message any one, on an open notice a final one. */
  lemma NoticesAfter(n: Network, at: Socket, i: Incoming, m': Manager, events: seq<Event>, cause: nat)
    requires Bounded(n) && at in n.managers && Effects(n.managers[at], i, m', events) && MayNotify(n, i, cause)
    ensures Bounded(After(n, at, m', events, cause))
  {
    hide Bounded, LetterOf, NoticeOf, MayNotify, MayPost;
    AtMostOnePost(n.managers[at], i, m', events);
    if |events| == 1 && events[0].Posted? {
      EffectsMayBePosted(n, i, n.managers[at], m', events, cause, events[0]);
      hide Effects;
      OneEvent(events, cause);
      PostKeepsBounds(n, After(n, at, m', events, cause), events[0], cause);
    } else {
      hide Effects;
      NoPosts(events, cause);
      SameBounds(n, After(n, at, m', events, cause));
    }
  }

  lemma AtMostOnePost(m: Manager, i: Incoming, m': Manager, events: seq<Event>)
    requires Effects(m, i, m', events)
    ensures (|events| == 1 && events[0].Posted?) || forall e | e in events :: !e.Posted?
  {
  }

  lemma SameBounds(n: Network, n': Network)
    requires Bounded(n) && n'.flying == n.flying + multiset{} && n'.notices == n.notices + multiset{}
    requires n'.clock == n.clock
    ensures Bounded(n')
  {
  }

  lemma HandlingIsBounded(n: Network, at: Socket, i: Incoming, cause: nat, n': Network)
    requires Bounded(n) && Handles(n, at, i, cause, n') && (i.FromPool? && i.post.News? ==> IsNews(i.post.op))
    requires MayNotify(n, i, cause)
    ensures Bounded(n')
  {
    hide Bounded, Steps, Effects, MayNotify, After;
    var m', events :| Steps(n.managers[at], i, m') && m'.events == n.managers[at].events + events
      && n' == After(n, at, m', events, cause);
    StepEffects(n.managers[at], i, m', events);
    NoticesAfter(n, at, i, m', events, cause);
  }

  lemma TakenIsBounded(n: Network, l: Letter)
    requires Bounded(n) && l in n.flying
    ensures Bounded(n.(flying := n.flying - multiset{l}))
    ensures MayNotify(n.(flying := n.flying - multiset{l}), FromPool(l.post), l.cause)
  {
  }

  lemma ClockIsBounded(n: Network, message: ClientMessage)
    requires Bounded(n)
    ensures Bounded(n.(clock := n.clock + 1)) && MayNotify(n.(clock := n.clock + 1), Received(message), n.clock)
  {
  }

  lemma NextIsBounded(n: Network, a: Move, n': Network)
    requires Bounded(n) && Proper(n) && Next(n, a, n')
    ensures Bounded(n')
  {
    hide Bounded, Handles, MayNotify, Proper, Tick;
    match a
    case ClientSays(at, message) =>
      ClockIsBounded(n, message);
      HandlingIsBounded(n.(clock := n.clock + 1), at, Received(message), n.clock, n');
    case PoolSays(at, i) =>
      AnyMayBeSaid(n, i);
      HandlingIsBounded(n, at, i, 0, n');
    case Delivers(l, at) =>
      NoNewsFlies(n, l);
      TakenIsBounded(n, l);
      HandlingIsBounded(n.(flying := n.flying - multiset{l}), at, FromPool(l.post), l.cause, n');
    case Loses(l) =>
      TakenIsBounded(n, l);
    case Connects(_, _) =>
      BoundsAreLocal(n, n');
    case Disconnects(_) =>
      BoundsAreLocal(n, n');
    case Timer(_, _) =>
      BoundsAreLocal(n, n');
  }

  lemma NoNewsFlies(n: Network, l: Letter)
    requires Proper(n) && l in n.flying
    ensures !l.post.News?
  {
  }

  lemma AnyMayBeSaid(n: Network, i: Incoming)
    requires i.Position? || (i.FromPool? && i.post.News?)
    ensures MayNotify(n, i, 0)
  {
  }

  lemma BoundsAreLocal(n: Network, n': Network)
    requires Bounded(n) && n'.flying == n.flying && n'.notices == n.notices && n'.clock == n.clock
    ensures Bounded(n')
  {
  }

  lemma {:induction false} RunsAreBounded(run: seq<Network>, i: nat)
    requires IsRun(run) && i < |run|
    ensures Bounded(run[i])
  {
    hide Bounded, Next;
    if i == 0 {
      StartIsBounded(run[0]);
    } else {
      RunsAreBounded(run, i - 1);
      RunsConserve(run, i - 1);
      assert NextAt(run, i - 1);
      var a :| Next(run[i-1], a, run[i]);
      ConservedIsProper(run[i-1]);
      NextIsBounded(run[i-1], a, run[i]);
    }
  }

  lemma ConservedIsProper(n: Network)
    requires Conserved(n)
    ensures Proper(n)
  {
  }

  lemma StartIsBounded(n: Network)
    requires IsStart(n)
    ensures Bounded(n)
  {
  }

  /** Whatever clients do, one client message causes at most two notices about reports in all
      managers together. */
  lemma NoticesAreFew(run: seq<Network>, i: nat, cause: nat)
    requires IsRun(run) && i < |run|
    ensures run[i].notices[cause] <= 2
  {
    RunsAreBounded(run, i);
  }
}
