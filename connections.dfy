/**
 * ConnectionManager: which websocket sessions follow which game, and the sending of server messages
 * to them.  Sessions are opaque ids.  What the transport delivers is recorded in a log, so a send is
 * an entry appended to it; a session whose connection is closed receives nothing.
 */
module Connections {
  import opened Util
  import opened Messages

  datatype SessionId = SessionId(id: nat)

  /** One message handed to the transport for one session. */
  datatype Delivery = Delivery(session: SessionId, message: ServerMessage)

  /**
   * The websocket transport as the model sees it: the sessions whose connection is open (it alone
   * opens and closes them) and every message it has delivered, oldest first.
   */
  class Transport {
    var open: set<SessionId>
    var delivered: seq<Delivery>

    constructor (open: set<SessionId>)
      ensures this.open == open && delivered == []
    {
      this.open := open;
      delivered := [];
    }
  }

  /** The registry after addSession: the game's set (created if absent) gains the session; other games keep theirs. */
  function WithSession(sessions: map<int, set<SessionId>>, gameId: int, s: SessionId): (r: map<int, set<SessionId>>)
    ensures gameId in r && s in r[gameId]
    ensures r.Keys == sessions.Keys + {gameId}
    ensures gameId in sessions ==> r[gameId] == sessions[gameId] + {s}
    ensures gameId !in sessions ==> r[gameId] == {s}
    ensures forall g | g in sessions && g != gameId :: r[g] == sessions[g]
  {
    sessions[gameId := (if gameId in sessions then sessions[gameId] else {}) + {s}]
  }

  /** The registry after removeSession: the session leaves the game's set; an unknown game changes nothing. */
  function WithoutSession(sessions: map<int, set<SessionId>>, gameId: int, s: SessionId): (r: map<int, set<SessionId>>)
    ensures r.Keys == sessions.Keys
    ensures gameId in sessions ==> r[gameId] == sessions[gameId] - {s}
    ensures forall g | g in sessions && g != gameId :: r[g] == sessions[g]
  {
    if gameId in sessions then sessions[gameId := sessions[gameId] - {s}] else sessions
  }

  /** Adding a session twice is adding it once, and removing it again after adding restores a set without it. */
  lemma AddRemoveLaws(sessions: map<int, set<SessionId>>, gameId: int, s: SessionId)
    ensures WithSession(WithSession(sessions, gameId, s), gameId, s) == WithSession(sessions, gameId, s)
    ensures gameId in sessions && s !in sessions[gameId] ==>
      WithoutSession(WithSession(sessions, gameId, s), gameId, s) == sessions
    ensures WithoutSession(WithoutSession(sessions, gameId, s), gameId, s) == WithoutSession(sessions, gameId, s)
  {
    if gameId in sessions {
      assert sessions[gameId] - {s} - {s} == sessions[gameId] - {s};
      if s !in sessions[gameId] {
        assert sessions[gameId] + {s} - {s} == sessions[gameId];
      }
    }
  }

  /** Who a broadcast reaches: the game's sessions other than the excluded one, among those that are open. */
  function Targets(members: set<SessionId>, exclude: Option<SessionId>, open: set<SessionId>): (t: set<SessionId>)
    ensures forall s :: s in t <==> s in members && exclude != Some(s) && s in open
  {
    set s | s in members && exclude != Some(s) && s in open
  }

  /** Excluding a session takes exactly that session out of the audience of a broadcast to everyone. */
  lemma TargetsExclude(members: set<SessionId>, x: SessionId, open: set<SessionId>)
    ensures Targets(members, Some(x), open) == Targets(members, None, open) - {x}
    ensures Targets(members, None, open) == members * open
  {
  }

  /** One delivery of `msg` per session. */
  function Deliveries(ss: set<SessionId>, msg: ServerMessage): (d: set<Delivery>)
    ensures forall x | x in d :: x.session in ss && x.message == msg
    ensures forall s | s in ss :: Delivery(s, msg) in d
  {
    set s | s in ss :: Delivery(s, msg)
  }

  /** What sendMessage delivers: the message to the session if its connection is open, else nothing. */
  function Sent(open: set<SessionId>, s: SessionId, msg: ServerMessage): (log: seq<Delivery>)
    ensures |log| <= 1 && (log == [] <==> s !in open)
  {
    if s in open then [Delivery(s, msg)] else []
  }

  /** A step of what a handler sends: one message to one session, or one message to a game's sessions. */
  datatype Step =
    | Direct(session: SessionId, msg: ServerMessage)
    | Cast(members: set<SessionId>, exclude: Option<SessionId>, msg: ServerMessage)

  /** How many deliveries a step makes. */
  function Width(step: Step, open: set<SessionId>): nat
  {
    match step
    case Direct(s, m) => |Sent(open, s, m)|
    case Cast(members, exclude, _) => |Targets(members, exclude, open)|
  }

  /** The deliveries of one step: the direct message, or one message per target in any order. */
  ghost predicate Matches(log: seq<Delivery>, step: Step, open: set<SessionId>)
  {
    match step
    case Direct(s, m) => log == Sent(open, s, m)
    case Cast(members, exclude, m) => multiset(log) == multiset(Deliveries(Targets(members, exclude, open), m))
  }

  /** The log is exactly the deliveries of the steps, one after another. */
  ghost predicate Follows(log: seq<Delivery>, steps: seq<Step>, open: set<SessionId>)
    decreases |steps|
  {
    if steps == [] then log == []
    else
      var k := Width(steps[0], open);
      k <= |log| && Matches(log[..k], steps[0], open) && Follows(log[k..], steps[1..], open)
  }

  /** `after` is `before` followed by exactly the deliveries of the steps. */
  ghost predicate Extends(before: seq<Delivery>, after: seq<Delivery>, steps: seq<Step>, open: set<SessionId>)
  {
    |before| <= |after| && after[..|before|] == before && Follows(after[|before|..], steps, open)
  }

  lemma {:induction false} FollowsAppend(a: seq<Delivery>, b: seq<Delivery>, s1: seq<Step>, s2: seq<Step>, open: set<SessionId>)
    requires Follows(a, s1, open) && Follows(b, s2, open)
    ensures Follows(a + b, s1 + s2, open)
    decreases |s1|
  {
    if s1 == [] {
      assert a + b == b && s1 + s2 == s2;
    } else {
      var k := Width(s1[0], open);
      FollowsAppend(a[k..], b, s1[1..], s2, open);
      assert (a + b)[..k] == a[..k];
      assert (a + b)[k..] == a[k..] + b;
      assert (s1 + s2)[0] == s1[0] && (s1 + s2)[1..] == s1[1..] + s2;
    }
  }

  /** Sending in two rounds is sending the two rounds' steps in order. */
  lemma ExtendsTrans(l0: seq<Delivery>, l1: seq<Delivery>, l2: seq<Delivery>, s1: seq<Step>, s2: seq<Step>, open: set<SessionId>)
    requires Extends(l0, l1, s1, open) && Extends(l1, l2, s2, open)
    ensures Extends(l0, l2, s1 + s2, open)
  {
    assert l2[|l0|..] == l1[|l0|..] + l2[|l1|..];
    FollowsAppend(l1[|l0|..], l2[|l1|..], s1, s2, open);
  }

  lemma ExtendsNothing(l: seq<Delivery>, open: set<SessionId>)
    ensures Extends(l, l, [], open)
  {
    assert l[|l|..] == [];
  }

  /** A log extended by the steps holds, in order, nothing but what the steps send. */
  lemma {:induction false} FollowsLength(log: seq<Delivery>, steps: seq<Step>, open: set<SessionId>)
    requires Follows(log, steps, open)
    ensures steps == [] ==> log == []
    ensures |steps| == 1 && steps[0].Direct? ==> log == Sent(open, steps[0].session, steps[0].msg)
    ensures |steps| == 1 && steps[0].Cast? ==>
      forall d :: d in log <==> d.session in Targets(steps[0].members, steps[0].exclude, open) && d.message == steps[0].msg
  {
    if |steps| == 1 {
      var k := Width(steps[0], open);
      assert log[k..] == [] && log == log[..k];
      if steps[0].Cast? {
        forall d ensures d in log <==> d in multiset(log) {
        }
      }
    }
  }

  class ConnectionManager {
    var sessions: map<int, set<SessionId>>
    const transport: Transport

    constructor (transport: Transport)
      ensures sessions == map[] && this.transport == transport
    {
      sessions := map[];
      this.transport := transport;
    }

    /** addSession: the session follows the game, the game's set created on first use. */
    method AddSession(gameId: int, session: SessionId)
      modifies this
      ensures sessions == WithSession(old(sessions), gameId, session)
    {
      if gameId !in sessions {
        sessions := sessions[gameId := {}];
      }
      sessions := sessions[gameId := sessions[gameId] + {session}];
    }

    /** removeSession: the session stops following the game; nothing happens for an unknown game. */
    method RemoveSession(gameId: int, session: SessionId)
      modifies this
      ensures sessions == WithoutSession(old(sessions), gameId, session)
    {
      if gameId in sessions {
        sessions := sessions[gameId := sessions[gameId] - {session}];
      }
    }

    /** sendMessage: delivered only when the session's connection is open. */
    method SendMessage(session: SessionId, msg: ServerMessage)
      modifies transport
      ensures transport.open == old(transport.open)
      ensures transport.delivered == old(transport.delivered) + Sent(transport.open, session, msg)
      ensures Extends(old(transport.delivered), transport.delivered, [Direct(session, msg)], transport.open)
    {
      if session in transport.open {
        transport.delivered := transport.delivered + [Delivery(session, msg)];
      }
      assert transport.delivered[|old(transport.delivered)|..] == Sent(transport.open, session, msg);
      assert Sent(transport.open, session, msg)[Width(Direct(session, msg), transport.open)..] == [];
    }

    /** sendError: an ERROR message with the text. */
    method SendError(session: SessionId, text: string)
      modifies transport
      ensures transport.open == old(transport.open)
      ensures transport.delivered == old(transport.delivered) + Sent(transport.open, session, ErrorMessage(text))
      ensures Extends(old(transport.delivered), transport.delivered, [Direct(session, ErrorMessage(text))], transport.open)
    {
      SendMessage(session, ErrorMessage(text));
    }

    /**
     * broadcast: the message to every session of the game but the excluded one.  The source looks the
     * game up without a check, so for a game no session ever joined it fails (ok is false) and sends nothing.
     */
    method Broadcast(msg: ServerMessage, gameId: int, exclude: Option<SessionId>) returns (ok: bool)
      modifies transport
      ensures transport.open == old(transport.open)
      ensures ok <==> gameId in sessions
      ensures !ok ==> transport.delivered == old(transport.delivered)
      ensures ok ==> Extends(old(transport.delivered), transport.delivered, [Cast(sessions[gameId], exclude, msg)], transport.open)
    {
      if gameId !in sessions {
        return false;
      }
      var members := sessions[gameId];
      ghost var n := |transport.delivered|;
      ghost var done: set<SessionId> := {};
      var rest := members;
      assert transport.delivered[n..] == [];
      while rest != {}
        invariant rest <= members && done == members - rest && transport.open == old(transport.open)
        invariant n <= |transport.delivered| && transport.delivered[..n] == old(transport.delivered)
        invariant CastSoFar(transport.delivered[n..], done, exclude, transport.open, msg)
        decreases |rest|
      {
        var ses :| ses in rest;
        CastOne(ses, msg, exclude, done, n);
        rest := rest - {ses};
        done := done + {ses};
      }
      assert done == members;
      CastDone(transport.delivered[n..], members, exclude, transport.open, msg);
      return true;
    }

    /** One round of broadcast's loop: the session gets the message unless it is the excluded one. */
    method CastOne(ses: SessionId, msg: ServerMessage, exclude: Option<SessionId>, ghost done: set<SessionId>, ghost n: nat)
      requires ses !in done && n <= |transport.delivered|
      requires CastSoFar(transport.delivered[n..], done, exclude, transport.open, msg)
      modifies transport
      ensures transport.open == old(transport.open)
      ensures n <= |transport.delivered| && transport.delivered[..n] == old(transport.delivered)[..n]
      ensures CastSoFar(transport.delivered[n..], done + {ses}, exclude, transport.open, msg)
    {
      ghost var before := transport.delivered;
      CastStep(done, ses, exclude, transport.open, msg);
      if exclude != Some(ses) {
        SendMessage(ses, msg);
        assert transport.delivered[n..] == before[n..] + Sent(transport.open, ses, msg);
      }
    }

    /** clear: no session follows any game. */
    method Clear()
      modifies this
      ensures sessions == map[]
    {
      sessions := map[];
    }
  }

  /** The log of a broadcast that has handled the sessions in `done`: one message per target among them. */
  ghost predicate CastSoFar(log: seq<Delivery>, done: set<SessionId>, exclude: Option<SessionId>, open: set<SessionId>, msg: ServerMessage)
  {
    |log| == |Targets(done, exclude, open)| && multiset(log) == multiset(Deliveries(Targets(done, exclude, open), msg))
  }

  /** A broadcast that has handled every session of the game has sent exactly the step's deliveries. */
  lemma CastDone(log: seq<Delivery>, members: set<SessionId>, exclude: Option<SessionId>, open: set<SessionId>, msg: ServerMessage)
    requires CastSoFar(log, members, exclude, open, msg)
    ensures Follows(log, [Cast(members, exclude, msg)], open)
  {
    var k := Width(Cast(members, exclude, msg), open);
    assert log[..k] == log && log[k..] == [];
    assert [Cast(members, exclude, msg)][1..] == [];
  }

  /** One more session handled by broadcast: it is a new target exactly when it is open and not excluded. */
  lemma CastStep(done: set<SessionId>, ses: SessionId, exclude: Option<SessionId>, open: set<SessionId>, msg: ServerMessage)
    requires ses !in done
    ensures exclude != Some(ses) && ses in open ==>
      Targets(done + {ses}, exclude, open) == Targets(done, exclude, open) + {ses} &&
      ses !in Targets(done, exclude, open) &&
      multiset(Deliveries(Targets(done + {ses}, exclude, open), msg)) ==
        multiset(Deliveries(Targets(done, exclude, open), msg)) + multiset{Delivery(ses, msg)}
    ensures !(exclude != Some(ses) && ses in open) ==> Targets(done + {ses}, exclude, open) == Targets(done, exclude, open)
  {
    if exclude != Some(ses) && ses in open {
      var t := Targets(done, exclude, open);
      assert Targets(done + {ses}, exclude, open) == t + {ses};
      assert Deliveries(t + {ses}, msg) == Deliveries(t, msg) + {Delivery(ses, msg)};
      assert Delivery(ses, msg) !in Deliveries(t, msg);
    }
  }
}
