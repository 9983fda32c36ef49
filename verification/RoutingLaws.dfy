/**
 * Where an action goes, said without the router's own rule: by the session it names, or its connection's own
 * session if it names none; and when a connection stops being read or served.
 */
module RoutingLaws {
  import opened Routing

  // ----- the addressee

  /** The action is meant for the session. */
  predicate MeantFor(a: Action, id: string, own: string)
  {
    if a.session == "" then own == id else a.session == id
  }

  /** The actions meant for a session, as they were sent. */
  function Meant(id: string, own: string, actions: seq<Action>): seq<Action>
  {
    if actions == [] then []
    else
      var last := actions[|actions| - 1];
      Meant(id, own, actions[..|actions| - 1]) + (if MeantFor(last, id, own) then [last] else [])
  }

  /** The action arrived for what was sent: the same body, now naming the session, and unchanged if it did so. */
  predicate ArrivedFor(got: Action, sent: Action, id: string)
  {
    got.session == id && got.body == sent.body && (sent.session != "" ==> got == sent)
  }

  lemma {:induction false} ToIsMeant(id: string, own: string, actions: seq<Action>)
    ensures |To(id, own, actions)| == |Meant(id, own, actions)|
    ensures forall i :: 0 <= i < |To(id, own, actions)| ==>
              ArrivedFor(To(id, own, actions)[i], Meant(id, own, actions)[i], id)
  {
    if actions != [] {
      ToIsMeant(id, own, actions[..|actions| - 1]);
    }
  }

  /**
   * What a session has accepted from a connection is, action by action and in order, a beginning of what that
   * connection sent for it: the actions naming the session, and those naming none if it is the connection's
   * own. Each arrives with its body and with the session's name, and as it was sent if it named one.
   */
  lemma {:induction false} AcceptedAsMeant(steps: seq<Step>, states: seq<State>, k: nat, c: nat, id: string)
    requires IsRun(steps, states) && k < |states| && c in states[k].conns && id in states[k].sessions
    ensures var (conn, q) := (states[k].conns[c], states[k].sessions[id]);
            var (got, meant) := (From(c, q.accepted), Meant(id, conn.session, conn.sent));
            |got| <= |meant| && forall i :: 0 <= i < |got| ==> ArrivedFor(got[i], meant[i], id)
  {
    hide Inv, From, To, Meant, Next, Enabled;
    RunKeeps(steps, states, k);
    var conn, q := states[k].conns[c], states[k].sessions[id];
    ExecutedInOrder(states[k], c, id, |q.accepted|);
    assert q.accepted[..|q.accepted|] == q.accepted;
    ToIsMeant(id, conn.session, conn.sent);
    assert forall i :: 0 <= i < |From(c, q.accepted)| ==>
             From(c, q.accepted)[i] == To(id, conn.session, conn.sent)[i];
  }

  /** While a connection is read and the session open, what has not arrived of that is under way. */
  lemma {:induction false} AllMeantArrives(steps: seq<Step>, states: seq<State>, k: nat, c: nat, id: string)
    requires IsRun(steps, states) && k < |states| && c in states[k].conns && id in states[k].sessions
    requires var conn := states[k].conns[c];
             !states[k].sessions[id].closed && conn.channel == [] && conn.reader == Reading && conn.wire == []
    ensures var (conn, q) := (states[k].conns[c], states[k].sessions[id]);
            var (got, meant) := (From(c, q.accepted), Meant(id, conn.session, conn.sent));
            |got| == |meant| && forall i :: 0 <= i < |got| ==> ArrivedFor(got[i], meant[i], id)
  {
    hide From, To, Meant, Next, Enabled;
    AcceptedAsMeant(steps, states, k, c, id);
    RunKeeps(steps, states, k);
    var conn, q := states[k].conns[c], states[k].sessions[id];
    assert HandedOver(c, conn, id, q) && ConnOk(conn);
    assert conn.handled + [] + [] + [] == conn.handled;
    ToIsMeant(id, conn.session, conn.sent);
  }

  // ----- lines

  /** The lines a client has sent on a connection. */
  function LinesSent(steps: seq<Step>, c: nat): seq<Line>
  {
    if steps == [] then []
    else
      var e := steps[|steps| - 1];
      LinesSent(steps[..|steps| - 1], c) + (if e.Sends? && e.c == c then [e.line] else [])
  }

  lemma {:induction false} LinesNext(steps: seq<Step>, e: Step, c: nat)
    ensures LinesSent(steps + [e], c) == LinesSent(steps, c) + (if e.Sends? && e.c == c then [e.line] else [])
  {
    assert (steps + [e])[..|steps|] == steps;
  }

  /** The lines before the first that does not decode. */
  function UntilMalformed(lines: seq<Line>): seq<Line>
  {
    if lines == [] || lines[0].Malformed? then [] else [lines[0]] + UntilMalformed(lines[1..])
  }

  /** What has been read of the lines is handled, in the channel or held, and nothing is read behind a malformed one. */
  predicate ReadSoFar(k: Conn, lines: seq<Line>)
  {
    && |k.wire| <= |lines| && k.wire == lines[|lines| - |k.wire|..] && k.sent == Readable(lines)
    && k.handled + k.channel + Held(k.reader) == Readable(lines[..|lines| - |k.wire|])
    && forall i :: 0 <= i < |lines| - |k.wire| && lines[i].Malformed? ==>
         i == |lines| - |k.wire| - 1 && k.reader == Done
  }

  lemma {:induction false} OneMoreSent(k: Conn, lines: seq<Line>, line: Line)
    requires ReadSoFar(k, lines)
    ensures ReadSoFar(k.(sent := if line.Valid? then k.sent + [line.action] else k.sent, wire := k.wire + [line]),
                      lines + [line])
  {
    hide Readable;
    ReadableNext(lines, line);
    var p := |lines| - |k.wire|;
    assert (lines + [line])[..p] == lines[..p] && (lines + [line])[p..] == lines[p..] + [line];
    assert Readable(lines) + [] == Readable(lines);
  }

  lemma {:induction false} OneMoreRead(k: Conn, lines: seq<Line>)
    requires ReadSoFar(k, lines) && k.wire != [] && k.reader == Reading
    ensures ReadSoFar(ReadLine(k), lines)
  {
    hide Readable;
    var p := |lines| - |k.wire|;
    assert k.wire[0] == lines[p] && lines[..p + 1] == lines[..p] + [lines[p]] && lines[p + 1..] == k.wire[1..];
    ReadableNext(lines[..p], lines[p]);
    var all := k.handled + k.channel;
    assert all + [] == all && Readable(lines[..p]) + [] == Readable(lines[..p]);
  }

  lemma {:induction false} ConnMoves(s: State, e: Step, c: nat, lines: seq<Line>)
    requires Enabled(s, e) && c in s.conns && ReadSoFar(s.conns[c], lines)
    ensures c in Next(s, e).conns
    ensures ReadSoFar(Next(s, e).conns[c], if e.Sends? && e.c == c then lines + [e.line] else lines)
  {
    hide ReadSoFar, Resolve, Submit, ReadLine;
    var k := s.conns[c];
    match e
    case Sends(d, line) =>
      if d == c {
        OneMoreSent(k, lines, line);
      }
    case Reads(d) =>
      if d == c {
        OneMoreRead(k, lines);
      }
    case _ => ConnShifts(s, e, c, lines);
  }

  lemma {:induction false} ConnShifts(s: State, e: Step, c: nat, lines: seq<Line>)
    requires Enabled(s, e) && c in s.conns && ReadSoFar(s.conns[c], lines) && !e.Sends? && !e.Reads?
    ensures c in Next(s, e).conns && ReadSoFar(Next(s, e).conns[c], lines)
  {
    hide Readable, Resolve, Submit;
    var k := s.conns[c];
    if e == Pushes(c) {
      assert k.handled + (k.channel + [k.reader.action]) + [] == k.handled + k.channel + [k.reader.action];
    } else if e == Routes(c) {
      assert k.channel == [k.channel[0]] + k.channel[1..];
      assert k.handled + [k.channel[0]] + k.channel[1..] == k.handled + k.channel;
    }
  }

  lemma {:induction false} NewConn(own: string)
    ensures ReadSoFar(Conn(own, [], [], Reading, [], true, []), [])
  {
  }

  /** Before a connection exists nothing is sent on it. */
  lemma {:induction false} NoLinesYet(s: State, e: Step, c: nat)
    requires Enabled(s, e) && c !in Next(s, e).conns
    ensures c !in s.conns && !(e.Sends? && e.c == c)
  {
    hide Resolve, Submit, ReadLine;
  }

  lemma {:induction false} Appears(s: State, e: Step, c: nat)
    requires Enabled(s, e) && c !in s.conns && c in Next(s, e).conns
    ensures e.Connects? && e.c == c && Next(s, e).conns[c] == Conn(e.own, [], [], Reading, [], true, [])
  {
    hide Resolve, Submit, ReadLine;
  }

  lemma {:induction false} LinesRead(steps: seq<Step>, states: seq<State>, k: nat, c: nat)
    requires IsRun(steps, states) && k < |states|
    ensures c !in states[k].conns ==> LinesSent(steps[..k], c) == []
    ensures c in states[k].conns ==> ReadSoFar(states[k].conns[c], LinesSent(steps[..k], c))
  {
    hide Next, Enabled, ReadSoFar, LinesSent;
    if k == 0 {
      assert steps[..0] == [];
      NothingSent(c);
    } else {
      LinesRead(steps, states, k - 1, c);
      LinesNext(steps[..k - 1], steps[k - 1], c);
      assert steps[..k] == steps[..k - 1] + [steps[k - 1]];
      assert LinesSent(steps[..k - 1], c) + [] == LinesSent(steps[..k - 1], c);
      if c in states[k - 1].conns {
        ConnMoves(states[k - 1], steps[k - 1], c, LinesSent(steps[..k - 1], c));
      } else if c in states[k].conns {
        Appears(states[k - 1], steps[k - 1], c);
        NewConn(steps[k - 1].own);
      } else {
        NoLinesYet(states[k - 1], steps[k - 1], c);
      }
    }
  }

  lemma {:induction false} NothingSent(c: nat)
    ensures LinesSent([], c) == [] && c !in Initial().conns
  {
  }

  lemma {:induction false} ReadableUntil(lines: seq<Line>, p: nat)
    requires p <= |lines| && forall i :: 0 <= i < p && lines[i].Malformed? ==> i == p - 1
    ensures Readable(lines[..p]) <= Readable(UntilMalformed(lines))
    decreases |lines|
  {
    if p > 0 {
      assert lines[..p][0] == lines[0] && lines[..p][1..] == lines[1..][..p - 1];
      if lines[0].Malformed? {
        assert lines[..p] == [lines[0]] && [lines[0]][1..] == [];
      } else {
        ReadableUntil(lines[1..], p - 1);
        ReadableCons(lines[..p]);
        var rest := UntilMalformed(lines[1..]);
        assert ([lines[0]] + rest)[1..] == rest;
        ReadableCons([lines[0]] + rest);
      }
    }
  }

  /**
   * A line that does not decode is the last that is read of a connection: whatever is handed to sessions was
   * sent before it. What is counted as sent are the actions of all lines that decode.
   */
  lemma {:induction false} NothingBehindMalformed(steps: seq<Step>, states: seq<State>, k: nat, c: nat)
    requires IsRun(steps, states) && k < |states| && c in states[k].conns
    ensures var (conn, lines) := (states[k].conns[c], LinesSent(steps[..k], c));
            && conn.sent == Readable(lines)
            && conn.handled + conn.channel + Held(conn.reader) <= Readable(UntilMalformed(lines))
  {
    hide Readable, LinesSent, Next, Enabled;
    LinesRead(steps, states, k, c);
    var lines := LinesSent(steps[..k], c);
    ReadableUntil(lines, |lines| - |states[k].conns[c].wire|);
  }

  // ----- the end of a connection

  lemma {:induction false} NotServed(s: State, e: Step, c: nat)
    requires Enabled(s, e) && c in s.conns && !s.conns[c].serving
    ensures c in Next(s, e).conns && !Next(s, e).conns[c].serving && Next(s, e).conns[c].handled == s.conns[c].handled
  {
    hide Resolve, Submit, ReadLine;
    if e.Reads? && e.c == c {
      ReadLineServes(s.conns[c]);
    }
  }

  lemma {:induction false} ReadLineServes(k: Conn)
    requires k.wire != []
    ensures ReadLine(k).serving == k.serving && ReadLine(k).handled == k.handled
  {
  }

  lemma {:induction false} NeverServedAgain(steps: seq<Step>, states: seq<State>, j: nat, k: nat, c: nat)
    requires IsRun(steps, states) && j <= k < |states| && c in states[j].conns && !states[j].conns[c].serving
    ensures c in states[k].conns && !states[k].conns[c].serving
    ensures states[k].conns[c].handled == states[j].conns[c].handled
    decreases k
  {
    hide Next, Enabled;
    if j < k {
      NeverServedAgain(steps, states, j, k - 1, c);
      NotServed(states[k - 1], steps[k - 1], c);
    }
  }

  /** The session that the next action of a connection is meant for exists. */
  predicate Reachable(s: State, c: nat)
    requires c in s.conns && s.conns[c].channel != []
  {
    exists id :: id in s.sessions && MeantFor(s.conns[c].channel[0], id, s.conns[c].session)
  }

  lemma {:induction false} RouteEnds(s: State, c: nat)
    requires Enabled(s, Routes(c))
    ensures var (k, t) := (s.conns[c], Next(s, Routes(c)));
            && c in t.conns
            && (if Reachable(s, c) then t.conns[c].serving && t.conns[c].handled == k.handled + [k.channel[0]]
                else !t.conns[c].serving && t.conns[c].handled == k.handled && t.sessions == s.sessions)
  {
    hide Submit;
    var k := s.conns[c];
    var goal := if k.channel[0].session == "" then k.session else k.channel[0].session;
    assert forall id :: MeantFor(k.channel[0], id, k.session) <==> id == goal;
    assert Reachable(s, c) <==> goal in s.sessions;
  }

  /**
   * An action for a session that does not exist ends its connection: neither it nor anything behind it is
   * ever handed to a session, even if that session comes to exist later.
   */
  lemma {:induction false} UnknownSessionEnds(steps: seq<Step>, states: seq<State>, j: nat, k: nat, c: nat)
    requires IsRun(steps, states) && j < k < |states| && steps[j] == Routes(c)
    requires Enabled(states[j], Routes(c)) && !Reachable(states[j], c)
    ensures c in states[k].conns && states[k].conns[c].handled == states[j].conns[c].handled
    ensures !states[k].conns[c].serving
  {
    hide Next, Enabled, Reachable;
    RouteEnds(states[j], c);
    NeverServedAgain(steps, states, j + 1, k, c);
  }

  /** Between reader and router there is room for eight actions, and no more are ever waiting there. */
  lemma {:induction false} EightAtMost(steps: seq<Step>, states: seq<State>, k: nat, c: nat)
    requires IsRun(steps, states) && k < |states| && c in states[k].conns
    ensures |states[k].conns[c].channel| <= 8
    ensures states[k].conns[c].reader.Holding? ==>
              (Enabled(states[k], Pushes(c)) <==> |states[k].conns[c].channel| < 8)
  {
    hide Readable;
    RunKeeps(steps, states, k);
  }
}
