/**
 * From clients to sessions: every connection has a reader that feeds a bounded channel and a router that
 * submits to whatever session each action names. Any number of connections and sessions, interleaved freely.
 */
module Routing {

  /** An action names a session, or none, in which case it goes to the connection's own. */
  datatype Action = Action(session: string, body: string)

  datatype Line = Valid(action: Action) | Malformed

  datatype Reader = Reading | Holding(action: Action) | Done

  const CHANNEL_SIZE: nat := 8

  /** A connection: what its client sent, and where that is by now. */
  datatype Conn = Conn(session: string, sent: seq<Action>, wire: seq<Line>, reader: Reader,
                       channel: seq<Action>, serving: bool, handled: seq<Action>)

  /** An action in a session's queue, with the connection it came from. */
  datatype Tagged = Tagged(conn: nat, action: Action)

  /** A session's queue: all that was accepted, how much of it has been taken for execution. */
  datatype Queue = Queue(accepted: seq<Tagged>, taken: nat, closed: bool)

  datatype State = State(conns: map<nat, Conn>, sessions: map<string, Queue>)

  function Initial(): State
  {
    State(map[], map[])
  }

  function Resolve(own: string, a: Action): Action
  {
    if a.session == "" then a.(session := own) else a
  }

  // ----- the steps

  datatype Step =
    | Connects(c: nat, own: string) | Sends(c: nat, line: Line)
    | Reads(c: nat) | Pushes(c: nat) | ReaderEnds(c: nat)
    | Routes(c: nat) | RouterEnds(c: nat)
    | Registers(id: string) | Closes(id: string) | Executes(id: string)

  predicate Enabled(s: State, e: Step)
  {
    match e
    case Connects(c, _) => c !in s.conns
    case Sends(c, _) => c in s.conns
    case Reads(c) => c in s.conns && s.conns[c].reader == Reading && s.conns[c].wire != []
    case Pushes(c) => c in s.conns && s.conns[c].reader.Holding? && |s.conns[c].channel| < CHANNEL_SIZE
    case ReaderEnds(c) => c in s.conns && s.conns[c].reader == Reading
    case Routes(c) => c in s.conns && s.conns[c].serving && s.conns[c].channel != []
    case RouterEnds(c) => c in s.conns && s.conns[c].serving
    case Registers(id) => id !in s.sessions
    case Closes(id) => id in s.sessions
    case Executes(id) => id in s.sessions && !s.sessions[id].closed && s.sessions[id].taken < |s.sessions[id].accepted|
  }

  /** The reader takes a line; one that does not decode is its end. */
  function ReadLine(k: Conn): Conn
    requires k.wire != []
  {
    match k.wire[0]
    case Valid(a) => k.(wire := k.wire[1..], reader := Holding(a))
    case Malformed => k.(wire := k.wire[1..], reader := Done)
  }

  /** Submit: a closed queue refuses, and the router does not look at the refusal. */
  function Submit(q: Queue, t: Tagged): Queue
  {
    if q.closed then q else q.(accepted := q.accepted + [t])
  }

  /** The router takes an action off the channel; one for a session it does not know ends the connection. */
  function Route(s: State, c: nat): State
    requires Enabled(s, Routes(c))
  {
    var k := s.conns[c];
    var a := Resolve(k.session, k.channel[0]);
    if a.session !in s.sessions then s.(conns := s.conns[c := k.(serving := false)])
    else
      State(s.conns[c := k.(channel := k.channel[1..], handled := k.handled + [k.channel[0]])],
            s.sessions[a.session := Submit(s.sessions[a.session], Tagged(c, a))])
  }

  function Next(s: State, e: Step): State
    requires Enabled(s, e)
  {
    match e
    case Connects(c, own) => s.(conns := s.conns[c := Conn(own, [], [], Reading, [], true, [])])
    case Sends(c, line) =>
      var k := s.conns[c];
      var sent := if line.Valid? then k.sent + [line.action] else k.sent;
      s.(conns := s.conns[c := k.(sent := sent, wire := k.wire + [line])])
    case Reads(c) => s.(conns := s.conns[c := ReadLine(s.conns[c])])
    case Pushes(c) =>
      var k := s.conns[c];
      s.(conns := s.conns[c := k.(reader := Reading, channel := k.channel + [k.reader.action])])
    case ReaderEnds(c) => s.(conns := s.conns[c := s.conns[c].(reader := Done)])
    case Routes(c) => Route(s, c)
    case RouterEnds(c) => s.(conns := s.conns[c := s.conns[c].(serving := false)])
    case Registers(id) => s.(sessions := s.sessions[id := Queue([], 0, false)])
    case Closes(id) => s.(sessions := s.sessions[id := s.sessions[id].(closed := true)])
    case Executes(id) => s.(sessions := s.sessions[id := s.sessions[id].(taken := s.sessions[id].taken + 1)])
  }

  ghost predicate IsRun(steps: seq<Step>, states: seq<State>)
  {
    && |states| == |steps| + 1 && states[0] == Initial()
    && forall k :: 0 <= k < |steps| ==> Enabled(states[k], steps[k]) && states[k + 1] == Next(states[k], steps[k])
  }

  // ----- whose action, to which session

  /** The actions of one connection among those of a queue. */
  function From(c: nat, ts: seq<Tagged>): seq<Action>
  {
    if ts == [] then []
    else From(c, ts[..|ts| - 1]) + (if ts[|ts| - 1].conn == c then [ts[|ts| - 1].action] else [])
  }

  /** The actions a connection addresses to one session, its own if none is named. */
  function To(id: string, own: string, actions: seq<Action>): seq<Action>
  {
    if actions == [] then []
    else
      var last := Resolve(own, actions[|actions| - 1]);
      To(id, own, actions[..|actions| - 1]) + (if last.session == id then [last] else [])
  }

  /** The actions among lines still on the wire. */
  function Readable(wire: seq<Line>): seq<Action>
  {
    if wire == [] then [] else (if wire[0].Valid? then [wire[0].action] else []) + Readable(wire[1..])
  }

  function Held(r: Reader): seq<Action>
  {
    if r.Holding? then [r.action] else []
  }

  lemma {:induction false} FromNext(c: nat, ts: seq<Tagged>, t: Tagged)
    ensures From(c, ts + [t]) == From(c, ts) + (if t.conn == c then [t.action] else [])
  {
    assert (ts + [t])[..|ts|] == ts;
  }

  lemma {:induction false} ToNext(id: string, own: string, actions: seq<Action>, a: Action)
    ensures To(id, own, actions + [a])
         == To(id, own, actions) + (if Resolve(own, a).session == id then [Resolve(own, a)] else [])
  {
    assert (actions + [a])[..|actions|] == actions;
  }

  lemma {:induction false} ToConcat(id: string, own: string, a: seq<Action>, b: seq<Action>)
    ensures To(id, own, a + b) == To(id, own, a) + To(id, own, b)
  {
    if b == [] {
      assert a + b == a;
    } else {
      var front, last := b[..|b| - 1], b[|b| - 1];
      assert a + b == (a + front) + [last] && b == front + [last];
      ToConcat(id, own, a, front);
      ToNext(id, own, a + front, last);
    }
  }

  lemma {:induction false} FromPrefix(c: nat, ts: seq<Tagged>, n: nat)
    requires n <= |ts|
    ensures From(c, ts[..n]) <= From(c, ts)
    decreases |ts|
  {
    if n < |ts| {
      FromPrefix(c, ts[..|ts| - 1], n);
      assert ts[..|ts| - 1][..n] == ts[..n];
    } else {
      assert ts[..n] == ts;
    }
  }

  lemma {:induction false} ReadableCons(wire: seq<Line>)
    requires wire != []
    ensures Readable(wire) == (if wire[0].Valid? then [wire[0].action] else []) + Readable(wire[1..])
  {
  }

  lemma {:induction false} ReadableNext(wire: seq<Line>, line: Line)
    ensures Readable(wire + [line]) == Readable(wire) + (if line.Valid? then [line.action] else [])
  {
    if wire == [] {
      assert wire + [line] == [line];
      assert [line][1..] == [];
    } else {
      ReadableCons(wire);
      ReadableCons(wire + [line]);
      hide Readable;
      assert (wire + [line])[1..] == wire[1..] + [line];
      ReadableNext(wire[1..], line);
    }
  }

  // ----- the invariant

  /** Everything the client sent is, in order: handled, in the channel, in the reader's hand, on the wire. */
  predicate ConnOk(k: Conn)
  {
    && |k.channel| <= CHANNEL_SIZE
    && (k.reader != Done ==> k.handled + k.channel + Held(k.reader) + Readable(k.wire) == k.sent)
    && k.handled + k.channel + Held(k.reader) <= k.sent
  }

  /** What a session accepted from a connection is what the connection's router handed it, until it closed. */
  predicate HandedOver(c: nat, k: Conn, id: string, q: Queue)
  {
    if q.closed then From(c, q.accepted) <= To(id, k.session, k.handled)
    else From(c, q.accepted) == To(id, k.session, k.handled)
  }

  ghost predicate Inv(s: State)
  {
    && (forall c :: c in s.conns ==> ConnOk(s.conns[c]))
    && (forall id :: id in s.sessions ==> s.sessions[id].taken <= |s.sessions[id].accepted|)
    && (forall c, id :: c in s.conns && id in s.sessions ==> HandedOver(c, s.conns[c], id, s.sessions[id]))
    && (forall c, id :: c in s.conns && id !in s.sessions ==> To(id, s.conns[c].session, s.conns[c].handled) == [])
    && (forall c, id :: c !in s.conns && id in s.sessions ==> From(c, s.sessions[id].accepted) == [])
  }

  /** A step of one connection that leaves what its router has handled alone. */
  lemma {:induction false} ConnStepKeeps(s: State, c: nat, k: Conn)
    requires Inv(s) && ConnOk(k)
    requires if c in s.conns then k.session == s.conns[c].session && k.handled == s.conns[c].handled
          else k.handled == []
    ensures Inv(s.(conns := s.conns[c := k]))
  {
    hide ConnOk, From;
    var t := s.(conns := s.conns[c := k]);
    forall d, id | d in t.conns && id in t.sessions ensures HandedOver(d, t.conns[d], id, t.sessions[id]) {
      if d in s.conns {
        assert HandedOver(d, s.conns[d], id, s.sessions[id]);
      }
    }
  }

  lemma {:induction false} ReadKeeps(k: Conn)
    requires ConnOk(k) && k.reader == Reading && k.wire != []
    ensures ConnOk(ReadLine(k))
  {
    var after := ReadLine(k);
    if k.wire[0].Valid? {
      assert Readable(k.wire) == [k.wire[0].action] + Readable(k.wire[1..]);
      assert k.handled + k.channel + Held(k.reader) + Readable(k.wire)
          == after.handled + after.channel + Held(after.reader) + Readable(after.wire);
    }
  }

  lemma {:induction false} PushKeeps(k: Conn)
    requires ConnOk(k) && k.reader.Holding? && |k.channel| < CHANNEL_SIZE
    ensures ConnOk(k.(reader := Reading, channel := k.channel + [k.reader.action]))
  {
    var after := k.(reader := Reading, channel := k.channel + [k.reader.action]);
    assert k.handled + k.channel + Held(k.reader) == after.handled + after.channel + Held(after.reader);
  }

  lemma {:induction false} SendKeeps(k: Conn, line: Line)
    requires ConnOk(k)
    ensures ConnOk(k.(sent := if line.Valid? then k.sent + [line.action] else k.sent, wire := k.wire + [line]))
  {
    ReadableNext(k.wire, line);
    var before := k.handled + k.channel + Held(k.reader);
    if line.Valid? {
      assert before + (Readable(k.wire) + [line.action]) == before + Readable(k.wire) + [line.action];
    } else {
      assert Readable(k.wire) + [] == Readable(k.wire);
    }
  }

  lemma {:induction false} RoutedConnOk(k: Conn)
    requires ConnOk(k) && k.channel != []
    ensures ConnOk(k.(channel := k.channel[1..], handled := k.handled + [k.channel[0]]))
  {
    assert k.handled + [k.channel[0]] + k.channel[1..] == k.handled + k.channel by {
      assert k.channel == [k.channel[0]] + k.channel[1..];
    }
  }

  function AfterRoute(k: Conn): Conn
    requires k.channel != []
  {
    k.(channel := k.channel[1..], handled := k.handled + [k.channel[0]])
  }

  /** Handing one action over keeps pace on both sides. */
  lemma {:induction false} HandOwn(c: nat, k: Conn, q: Queue, id: string)
    requires k.channel != [] && HandedOver(c, k, id, q)
    ensures var a := Resolve(k.session, k.channel[0]);
            if id == a.session then HandedOver(c, AfterRoute(k), id, Submit(q, Tagged(c, a)))
            else HandedOver(c, AfterRoute(k), id, q)
  {
    hide From, To;
    ToNext(id, k.session, k.handled, k.channel[0]);
    FromNext(c, q.accepted, Tagged(c, Resolve(k.session, k.channel[0])));
    assert To(id, k.session, k.handled) + [] == To(id, k.session, k.handled);
  }

  /** It is nothing to other connections. */
  lemma {:induction false} SubmitFrom(c: nat, d: nat, q: Queue, a: Action)
    requires d != c
    ensures From(d, Submit(q, Tagged(c, a)).accepted) == From(d, q.accepted)
          && Submit(q, Tagged(c, a)).closed == q.closed
    ensures q.taken <= |q.accepted| ==> Submit(q, Tagged(c, a)).taken <= |Submit(q, Tagged(c, a)).accepted|
  {
    hide From;
    FromNext(d, q.accepted, Tagged(c, a));
    assert From(d, q.accepted) + [] == From(d, q.accepted);
  }

  lemma {:induction false} RouteHands(s: State, c: nat, d: nat, id: string)
    requires Enabled(s, Routes(c)) && d in s.conns && id in s.sessions && HandedOver(d, s.conns[d], id, s.sessions[id])
    requires Resolve(s.conns[c].session, s.conns[c].channel[0]).session in s.sessions
    ensures var t := Route(s, c);
            d in t.conns && id in t.sessions && HandedOver(d, t.conns[d], id, t.sessions[id])
  {
    var k := s.conns[c];
    var a := Resolve(k.session, k.channel[0]);
    if d == c {
      HandOwn(c, k, s.sessions[id], id);
    } else {
      hide From, To;
      SubmitFrom(c, d, s.sessions[id], a);
    }
  }

  lemma {:induction false} RouteLeavesRest(s: State, c: nat, d: nat, id: string)
    requires Enabled(s, Routes(c))
    requires Resolve(s.conns[c].session, s.conns[c].channel[0]).session in s.sessions
    ensures var t := Route(s, c);
            && t.conns.Keys == s.conns.Keys && t.sessions.Keys == s.sessions.Keys
            && (d in s.conns ==> t.conns[d] == if d == c then AfterRoute(s.conns[c]) else s.conns[d])
            && (d in s.conns && id !in s.sessions ==>
                  To(id, t.conns[d].session, t.conns[d].handled) == To(id, s.conns[d].session, s.conns[d].handled))
            && (d !in s.conns && id in s.sessions ==> From(d, t.sessions[id].accepted) == From(d,
                  s.sessions[id].accepted))
            && (id in s.sessions && s.sessions[id].taken <= |s.sessions[id].accepted| ==>
                  t.sessions[id].taken <= |t.sessions[id].accepted|)
  {
    hide From, To;
    var k := s.conns[c];
    ToNext(id, k.session, k.handled, k.channel[0]);
    if id in s.sessions && d != c {
      SubmitFrom(c, d, s.sessions[id], Resolve(k.session, k.channel[0]));
    }
  }

  lemma {:induction false} RouteUnknown(s: State, c: nat)
    requires Enabled(s, Routes(c)) && Resolve(s.conns[c].session, s.conns[c].channel[0]).session !in s.sessions
    ensures Route(s, c) == s.(conns := s.conns[c := s.conns[c].(serving := false)])
  {
  }

  lemma {:induction false} RouteKeeps(s: State, c: nat)
    requires Inv(s) && Enabled(s, Routes(c))
    ensures Inv(Route(s, c))
  {
    hide Inv, Route, Resolve, ConnOk;
    if Resolve(s.conns[c].session, s.conns[c].channel[0]).session !in s.sessions {
      var k := s.conns[c];
      RouteUnknown(s, c);
      ConnFromInv(s, c);
      ServingIrrelevant(k);
      ConnStepKeeps(s, c, k.(serving := false));
    } else {
      RouteKnownKeeps(s, c);
    }
  }

  lemma {:induction false} ConnFromInv(s: State, c: nat)
    requires Inv(s) && c in s.conns
    ensures ConnOk(s.conns[c])
  {
    hide ConnOk, HandedOver, From, To;
  }

  lemma {:induction false} RouteKnownKeeps(s: State, c: nat)
    requires Inv(s) && Enabled(s, Routes(c))
    requires Resolve(s.conns[c].session, s.conns[c].channel[0]).session in s.sessions
    ensures Inv(Route(s, c))
  {
    hide From, To, HandedOver, Route, ConnOk, Resolve;
    var t := Route(s, c);
    forall d, id
      ensures t.conns.Keys == s.conns.Keys && t.sessions.Keys == s.sessions.Keys
      ensures d in s.conns ==> ConnOk(t.conns[d])
      ensures d in s.conns && id in s.sessions ==> HandedOver(d, t.conns[d], id, t.sessions[id])
      ensures d in s.conns && id !in s.sessions ==> To(id, t.conns[d].session, t.conns[d].handled) == []
      ensures d !in s.conns && id in s.sessions ==> From(d, t.sessions[id].accepted) == []
      ensures id in s.sessions ==> t.sessions[id].taken <= |t.sessions[id].accepted|
    {
      RoutePart(s, c, d, id);
    }
    assert forall d :: d in t.conns <==> d in s.conns;
    assert forall id :: id in t.sessions <==> id in s.sessions;
  }

  /** What the invariant says of one connection and one session, after routing. */
  lemma {:induction false} RoutePart(s: State, c: nat, d: nat, id: string)
    requires Inv(s) && Enabled(s, Routes(c))
    requires Resolve(s.conns[c].session, s.conns[c].channel[0]).session in s.sessions
    ensures var t := Route(s, c);
            && t.conns.Keys == s.conns.Keys && t.sessions.Keys == s.sessions.Keys
            && (d in s.conns ==> ConnOk(t.conns[d]))
            && (d in s.conns && id in s.sessions ==> HandedOver(d, t.conns[d], id, t.sessions[id]))
            && (d in s.conns && id !in s.sessions ==> To(id, t.conns[d].session, t.conns[d].handled) == [])
            && (d !in s.conns && id in s.sessions ==> From(d, t.sessions[id].accepted) == [])
            && (id in s.sessions ==> t.sessions[id].taken <= |t.sessions[id].accepted|)
  {
    hide From, To, HandedOver, Route, ConnOk, Submit, Resolve;
    RoutedConnOk(s.conns[c]);
    RouteLeavesRest(s, c, d, id);
    if d in s.conns && id in s.sessions {
      RouteHands(s, c, d, id);
    }
  }

  lemma {:induction false} ServingIrrelevant(k: Conn)
    requires ConnOk(k)
    ensures ConnOk(k.(serving := false))
  {
  }

  lemma {:induction false} SessionStepKeeps(s: State, id: string, q: Queue)
    requires Inv(s) && q.taken <= |q.accepted|
    requires if id in s.sessions then q.accepted == s.sessions[id].accepted && (s.sessions[id].closed ==> q.closed)
             else q.accepted == []
    ensures Inv(s.(sessions := s.sessions[id := q]))
  {
    hide ConnOk, To;
    var t := s.(sessions := s.sessions[id := q]);
    forall c, i | c in t.conns && i in t.sessions ensures HandedOver(c, t.conns[c], i, t.sessions[i]) {
      if i in s.sessions {
        assert HandedOver(c, s.conns[c], i, s.sessions[i]);
      }
    }
  }

  lemma {:induction false} NextKeeps(s: State, e: Step)
    requires Inv(s) && Enabled(s, e)
    ensures Inv(Next(s, e))
  {
    hide Inv, From, To, HandedOver;
    match e
    case Connects(c, own) => ConnStepKeeps(s, c, Conn(own, [], [], Reading, [], true, []));
    case Sends(c, line) =>
      OneConn(s, c);
      SendKeeps(s.conns[c], line);
      ConnStepKeeps(s, c, Next(s, e).conns[c]);
    case Reads(c) =>
      OneConn(s, c);
      ReadKeeps(s.conns[c]);
      ConnStepKeeps(s, c, ReadLine(s.conns[c]));
    case Pushes(c) =>
      OneConn(s, c);
      PushKeeps(s.conns[c]);
      ConnStepKeeps(s, c, Next(s, e).conns[c]);
    case ReaderEnds(c) =>
      OneConn(s, c);
      ConnStepKeeps(s, c, s.conns[c].(reader := Done));
    case Routes(c) => RouteKeeps(s, c);
    case RouterEnds(c) =>
      OneConn(s, c);
      ServingIrrelevant(s.conns[c]);
      ConnStepKeeps(s, c, s.conns[c].(serving := false));
    case Registers(id) => SessionStepKeeps(s, id, Queue([], 0, false));
    case Closes(id) =>
      OneSession(s, id);
      SessionStepKeeps(s, id, s.sessions[id].(closed := true));
    case Executes(id) => SessionStepKeeps(s, id, s.sessions[id].(taken := s.sessions[id].taken + 1));
  }

  lemma {:induction false} OneConn(s: State, c: nat)
    requires Inv(s) && c in s.conns
    ensures ConnOk(s.conns[c])
  {
  }

  lemma {:induction false} OneSession(s: State, id: string)
    requires Inv(s) && id in s.sessions
    ensures s.sessions[id].taken <= |s.sessions[id].accepted|
  {
  }

  lemma {:induction false} NothingYet()
    ensures Inv(Initial())
  {
  }

  lemma {:induction false} RunKeeps(steps: seq<Step>, states: seq<State>, k: nat)
    requires IsRun(steps, states) && k < |states|
    ensures Inv(states[k])
  {
    if k > 0 {
      RunKeeps(steps, states, k - 1);
      hide Inv, Next, Enabled;
      NextKeeps(states[k - 1], steps[k - 1]);
    }
  }

  // ----- what it promises

  /** The first `n` accepted actions, as far as they came from one connection, against what it sent. */
  lemma {:induction false} ExecutedInOrder(s: State, c: nat, id: string, n: nat)
    requires Inv(s) && c in s.conns && id in s.sessions && n <= |s.sessions[id].accepted|
    ensures From(c, s.sessions[id].accepted[..n]) <= To(id, s.conns[c].session, s.conns[c].sent)
  {
    hide From, To, Readable, ConnOk, HandedOver;
    assert HandedOver(c, s.conns[c], id, s.sessions[id]) && ConnOk(s.conns[c]);
    PrefixInOrder(c, s.conns[c], id, s.sessions[id], n);
  }

  lemma {:induction false} PrefixInOrder(c: nat, conn: Conn, id: string, q: Queue, n: nat)
    requires HandedOver(c, conn, id, q) && ConnOk(conn) && n <= |q.accepted|
    ensures From(c, q.accepted[..n]) <= To(id, conn.session, conn.sent)
  {
    hide From, To, Readable;
    FromPrefix(c, q.accepted, n);
    var sofar := conn.handled + (conn.channel + Held(conn.reader));
    assert sofar == conn.handled + conn.channel + Held(conn.reader);
    assert conn.sent == sofar + conn.sent[|sofar|..];
    ToConcat(id, conn.session, sofar, conn.sent[|sofar|..]);
    ToConcat(id, conn.session, conn.handled, conn.channel + Held(conn.reader));
  }

  /**
   * Under every interleaving, what a session has executed for a connection is a prefix of what that
   * connection sent to that session: in order, without gaps, repetitions or strangers.
   */
  lemma {:induction false} PerClientOrder(steps: seq<Step>, states: seq<State>, k: nat, c: nat, id: string)
    requires IsRun(steps, states) && k < |states| && c in states[k].conns && id in states[k].sessions
    ensures var (conn, q) := (states[k].conns[c], states[k].sessions[id]);
            && q.taken <= |q.accepted|
            && From(c, q.accepted[..q.taken]) <= To(id, conn.session, conn.sent)
  {
    RunKeeps(steps, states, k);
    OneSession(states[k], id);
    ExecutedInOrder(states[k], c, id, states[k].sessions[id].taken);
  }

  /**
   * Nothing is lost on the way: while a connection is being read and the session is open, every action
   * sent to the session is executed, queued, or still under way, in this order.
   */
  lemma {:induction false} NothingLost(steps: seq<Step>, states: seq<State>, k: nat, c: nat, id: string)
    requires IsRun(steps, states) && k < |states| && c in states[k].conns && id in states[k].sessions
    requires states[k].conns[c].reader != Done && !states[k].sessions[id].closed
    ensures var (conn, q) := (states[k].conns[c], states[k].sessions[id]);
            && q.taken <= |q.accepted|
            && From(c, q.accepted[..q.taken]) + From(c, q.accepted[q.taken..])
               + To(id, conn.session, conn.channel + Held(conn.reader) + Readable(conn.wire))
            == To(id, conn.session, conn.sent)
  {
    hide HandedOver, ConnOk, From, To, Readable;
    RunKeeps(steps, states, k);
    AllAccountedFor(c, states[k].conns[c], id, states[k].sessions[id]);
  }

  lemma {:induction false} AllAccountedFor(c: nat, k: Conn, id: string, q: Queue)
    requires HandedOver(c, k, id, q) && ConnOk(k) && q.taken <= |q.accepted| && k.reader != Done && !q.closed
    ensures From(c, q.accepted[..q.taken]) + From(c, q.accepted[q.taken..])
            + To(id, k.session, k.channel + Held(k.reader) + Readable(k.wire))
         == To(id, k.session, k.sent)
  {
    hide From, To, Readable;
    assert q.accepted == q.accepted[..q.taken] + q.accepted[q.taken..];
    FromConcat(c, q.accepted[..q.taken], q.accepted[q.taken..]);
    var under := k.channel + Held(k.reader) + Readable(k.wire);
    assert k.sent == k.handled + under;
    ToConcat(id, k.session, k.handled, under);
  }

  lemma {:induction false} FromConcat(c: nat, a: seq<Tagged>, b: seq<Tagged>)
    ensures From(c, a + b) == From(c, a) + From(c, b)
  {
    if b == [] {
      assert a + b == a;
    } else {
      var front, last := b[..|b| - 1], b[|b| - 1];
      assert a + b == (a + front) + [last] && b == front + [last];
      FromConcat(c, a, front);
      FromNext(c, a + front, last);
    }
  }

  /** A session executes nothing but what its connections sent: every accepted action comes from a connection. */
  lemma {:induction false} NoStrangers(steps: seq<Step>, states: seq<State>, k: nat, c: nat, id: string)
    requires IsRun(steps, states) && k < |states| && c !in states[k].conns && id in states[k].sessions
    ensures From(c, states[k].sessions[id].accepted) == []
  {
    RunKeeps(steps, states, k);
  }
}
