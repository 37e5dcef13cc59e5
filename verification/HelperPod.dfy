/** `Setup` of the shared SSH helper pod, and the rollback a failed one triggers. */
module HelperPod {
  import opened Core
  import opened Text
  import opened Cluster
  import opened Filtering
  import opened Rollback

  const SETUP_BUDGET := 300000
  const ROLLBACK_BUDGET := 120000

  /** The UID setup remembers: that of the last acknowledged create, if any. */
  function LastCreated(es: seq<Op>): string
  {
    if es == [] then ""
    else if es[|es| - 1].Created? then es[|es| - 1].uid
    else LastCreated(es[..|es| - 1])
  }

  lemma {:induction false} LastCreatedConcat(es: seq<Op>, more: seq<Op>)
    requires forall e :: e in more ==> !e.Created?
    ensures LastCreated(es + more) == LastCreated(es)
  {
    if more == [] {
      assert es + more == es;
    } else {
      var all := es + more;
      assert all[..|all| - 1] == es + more[..|more| - 1];
      assert all[|all| - 1] == more[|more| - 1] && more[|more| - 1] in more;
      LastCreatedConcat(es, more[..|more| - 1]);
    }
  }

  /** The created UID kept is that of the last create acknowledged. */
  lemma {:induction false} LastCreatedIsLast(es: seq<Op>, i: nat)
    requires i < |es| && es[i].Created? && forall j :: i < j < |es| ==> !es[j].Created?
    ensures LastCreated(es) == es[i].uid
  {
    if i < |es| - 1 {
      LastCreatedIsLast(es[..|es| - 1], i);
    }
  }

  predicate OnAvoided(p: Pod, avoid: set<string>)
  {
    p.node != "" && p.node in avoid
  }

  /** A pod the loop deletes by name: stopped, or on a node to avoid, and not already going away. */
  predicate Replaceable(p: Pod, avoid: set<string>)
  {
    !p.deleting && (p.phase == "Failed" || p.phase == "Succeeded" || OnAvoided(p, avoid))
  }

  /** A look at a pod that stopped or is on a node to avoid, and is not going away. */
  predicate ToReplace(e: Op, avoid: set<string>)
  {
    && e.Read? && e.found.Some? && !e.found.value.deleting
    && (e.found.value.phase == "Failed" || e.found.value.phase == "Succeeded"
        || (e.found.value.node != "" && e.found.value.node in avoid))
  }

  /** What a get obliges the loop to do next. */
  predicate Demands(e: Op, avoid: set<string>, next: Op)
  {
    && (ReadAbsent(e) ==> next == CreateSent || next == Unprepared)
    && (ToReplace(e, avoid) ==> next == PlainDelete)
  }

  predicate Demanding(e: Op, avoid: set<string>)
  {
    ReadAbsent(e) || ToReplace(e, avoid)
  }

  /** An absent pod is created at once (unless the manifest cannot be rendered), a replaceable one deleted at once,
      and nothing else is ever created or deleted. */
  ghost predicate Reacts(es: seq<Op>, avoid: set<string>)
  {
    && (forall i: nat :: i < |es| && Demanding(es[i], avoid) ==> i + 1 < |es| && Demands(es[i], avoid, es[i + 1]))
    && Provoked(es, avoid)
  }

  /** A create follows a look that found no pod, a delete one at a pod to replace. */
  ghost predicate Provoked(es: seq<Op>, avoid: set<string>)
  {
    && (forall i: nat :: i < |es| && es[i].CreateSent? ==> i > 0 && ReadAbsent(es[i - 1]))
    && (forall i: nat :: i < |es| && es[i].PlainDelete? ==> i > 0 && ToReplace(es[i - 1], avoid))
  }

  lemma ProvokedNext(es: seq<Op>, more: seq<Op>, avoid: set<string>)
    requires Provoked(es, avoid) && Provoked(more, avoid)
    ensures Provoked(es + more, avoid)
  {
    var all := es + more;
    forall i: nat | i < |all| && (all[i].CreateSent? || all[i].PlainDelete?)
      ensures i > 0 && (all[i].CreateSent? ==> ReadAbsent(all[i - 1])) && (all[i].PlainDelete? ==> ToReplace(all[i - 1], avoid))
    {
      if i < |es| {
        assert all[i] == es[i];
      } else {
        assert all[i] == more[i - |es|];
        assert all[i - 1] == more[i - |es| - 1];
      }
    }
  }

  lemma ReactsNext(es: seq<Op>, more: seq<Op>, avoid: set<string>)
    requires Reacts(es, avoid) && more != [] && Provoked(more, avoid)
    requires Demanding(more[0], avoid) ==> |more| > 1 && Demands(more[0], avoid, more[1])
    requires forall i: nat :: 0 < i < |more| ==> !more[i].Read?
    ensures Reacts(es + more, avoid)
  {
    var all := es + more;
    ProvokedNext(es, more, avoid);
    forall i: nat | i < |all| && Demanding(all[i], avoid) ensures i + 1 < |all| && Demands(all[i], avoid, all[i + 1]) {
      if i < |es| {
        assert all[i] == es[i] && all[i + 1] == es[i + 1];
      } else {
        assert all[i] == more[i - |es|];
        assert all[i + 1] == more[1];
      }
    }
  }

  /** What the setup loop keeps: it never deletes conditionally, knows what it created, and reacts to what it sees. */
  ghost predicate Bootstrapping(es: seq<Op>, attempted: bool, created: string, avoid: set<string>)
  {
    && NoDeletes(es)
    && (attempted <==> CreateSent in es)
    && created == LastCreated(es)
    && Reacts(es, avoid)
  }

  /** A get that demands nothing. */
  lemma AfterLook(es: seq<Op>, e: Op, attempted: bool, created: string, avoid: set<string>)
    requires Bootstrapping(es, attempted, created, avoid)
    requires (e.Read? || e.ReadFailed?) && !Demanding(e, avoid)
    ensures Bootstrapping(es + [e], attempted, created, avoid)
  {
    LastCreatedConcat(es, [e]);
    ReactsNext(es, [e], avoid);
    assert forall x :: x in es + [e] <==> x in es || x == e;
  }

  /** A get and the reaction it demands, other than a create. */
  lemma AfterReaction(es: seq<Op>, e: Op, next: Op, attempted: bool, created: string, avoid: set<string>)
    requires Bootstrapping(es, attempted, created, avoid)
    requires e.Read? && (next.PlainDelete? || next.Unprepared?) && Demands(e, avoid, next)
    requires next.PlainDelete? ==> ToReplace(e, avoid)
    ensures Bootstrapping(es + [e, next], attempted, created, avoid)
  {
    LastCreatedConcat(es, [e, next]);
    ReactsNext(es, [e, next], avoid);
    assert forall x :: x in es + [e, next] <==> x in es || x == e || x == next;
  }

  lemma AfterCreate(es: seq<Op>, e: Op, made: seq<Op>, attempted: bool, created: string, avoid: set<string>)
    requires Bootstrapping(es, attempted, created, avoid) && ReadAbsent(e)
    requires made == [CreateSent] || (|made| == 2 && made[0] == CreateSent && made[1].Created? && made[1].uid != "")
    ensures Bootstrapping(es + ([e] + made), true, if |made| == 2 then made[1].uid else created, avoid)
  {
    var more := [e] + made;
    assert more[1] == made[0] && more[1] in es + more;
    ReactsNext(es, more, avoid);
    assert forall x :: x in es + more <==> x in es || x == e || x in made;
    if |made| == 1 {
      LastCreatedConcat(es, more);
    } else {
      assert (es + more)[|es| + 2] == made[1];
    }
  }

  /** Why the loop may give up before its deadline. */
  predicate MayFail(es: seq<Op>, avoid: set<string>)
  {
    es != [] &&
    match es[|es| - 1]
    case ReadFailed => true
    case Unprepared => true
    case CreateSent => true
    case PlainDelete => true
    case Read(Some(_), _) => MaySucceedWith(es, avoid) // it could not be stamped
    case _ => false
  }

  /** The last look found the pod setup accepts: running, not going away, not on a node to avoid. */
  predicate MaySucceedWith(es: seq<Op>, avoid: set<string>)
  {
    && es != [] && es[|es| - 1].Read? && es[|es| - 1].found.Some?
    && var p := es[|es| - 1].found.value; p.phase == "Running" && !p.deleting && (p.node == "" || p.node !in avoid)
  }

  /** The loop of `Setup`; the caller rolls back when it fails after a create was attempted. */
  method Bootstrap(server: Server, runId: string, avoid: set<string>, deadline: int)
    returns (failure: Option<string>, attempted: bool, created: string, ghost es: seq<Op>)
    requires server.Valid()
    modifies server
    ensures server.Valid() && server.Remembers()
    ensures server.history == old(server.history) + es
    ensures Bootstrapping(es, attempted, created, avoid)
    ensures Waits(es) && LookedBefore(es, deadline)
    ensures failure == None ==> MaySucceedWith(es, avoid)
    ensures failure.Some? ==> MayFail(es, avoid) || server.clock >= deadline
  {
    es, attempted, created := [], false, "";
    while true
      invariant server.Valid() && server.Remembers()
      invariant server.history == old(server.history) + es
      invariant Bootstrapping(es, attempted, created, avoid)
      invariant Waits(es) && LookedBefore(es, deadline) && RestedSince(es, server.clock - 5000)
      decreases deadline - server.clock
    {
      if server.clock >= deadline {
        return Some(OUT_OF_TIME), attempted, created, es;
      }
      var done;
      done, failure, attempted, created, es :=
        Round(server, runId, avoid, deadline, attempted, created, es, old(server.history));
      if done {
        return;
      }
    }
  }

  /** One round of the loop: a turn, and a pause unless it acted. */
  method Round(server: Server, runId: string, avoid: set<string>, deadline: int,
               attempted: bool, created: string, ghost es: seq<Op>, ghost start: seq<Op>)
    returns (done: bool, failure: Option<string>, tried: bool, uid: string, ghost all: seq<Op>)
    requires server.Valid() && server.history == start + es && Bootstrapping(es, attempted, created, avoid)
    requires Waits(es) && LookedBefore(es, deadline) && RestedSince(es, server.clock - 5000)
    modifies server
    ensures server.Valid() && server.Remembers() && server.clock > old(server.clock)
    ensures server.history == start + all && Bootstrapping(all, tried, uid, avoid)
    ensures Waits(all) && LookedBefore(all, deadline) && (!done ==> RestedSince(all, server.clock - 5000))
    ensures done && failure == None ==> MaySucceedWith(all, avoid)
    ensures done && failure.Some? ==> MayFail(all, avoid) || server.clock >= deadline
  {
    var turn;
    ghost var more, rested := [], server.clock - 5000;
    turn, failure, tried, uid, more := Look(server, runId, avoid, deadline, attempted, created, es);
    Regroup(start, es, more);
    StaysWaiting(es, more, rested, deadline);
    done, all := turn == Stop, es + more;
    rested := server.clock;
    if turn == Wait {
      Rests(es, more, rested);
      var ticked := Tick(server, 5000, deadline);
      if !ticked {
        done, failure := true, Some(OUT_OF_TIME);
      }
    } else if turn == Again {
      Rests(es, more, rested - 5000);
    }
  }

  /** A turn that looked until `time`, or acted after looking. */
  lemma Rests(es: seq<Op>, more: seq<Op>, time: int)
    requires more != [] && OneLook(more)
    requires more[0].Read? && more[|more| - 1].Read? ==> more[0].at <= time
    ensures RestedSince(es + more, time)
  {
    assert (es + more)[|es + more| - 1] == more[|more| - 1];
  }

  datatype Turn = Again | Wait | Stop

  /** Two looks with nothing done in between lie at least 5000 apart. */
  ghost predicate Waits(es: seq<Op>)
  {
    forall i :: 0 <= i < |es| - 1 && es[i].Read? && es[i + 1].Read? ==> es[i + 1].at - es[i].at >= 5000
  }

  ghost predicate LookedBefore(es: seq<Op>, time: int)
  {
    forall e :: e in es && e.Read? ==> e.at < time
  }

  /** The last look, if it is the last operation, was at `time` at the latest. */
  ghost predicate RestedSince(es: seq<Op>, time: int)
  {
    es != [] && es[|es| - 1].Read? ==> es[|es| - 1].at <= time
  }

  lemma StaysWaiting(es: seq<Op>, more: seq<Op>, time: int, deadline: int)
    requires Waits(es) && RestedSince(es, time) && LookedBefore(es, deadline) && OneLook(more) && more != []
    requires more[0].Read? ==> time + 5000 <= more[0].at < deadline
    ensures Waits(es + more) && LookedBefore(es + more, deadline)
  {
    var all := es + more;
    forall i | 0 <= i < |all| - 1 && all[i].Read? && all[i + 1].Read? ensures all[i + 1].at - all[i].at >= 5000 {
      if i + 1 < |es| {
        assert all[i] == es[i] && all[i + 1] == es[i + 1];
      } else {
        assert all[i + 1] == more[i + 1 - |es|];
      }
    }
    forall e | e in all && e.Read? ensures e.at < deadline {
      assert e in es || e in more;
    }
  }

  /** One turn of the loop: look at the pod and do what the switch says. */
  method Look(server: Server, runId: string, avoid: set<string>, deadline: int,
              attempted: bool, created: string, ghost es: seq<Op>)
    returns (turn: Turn, failure: Option<string>, tried: bool, uid: string, ghost more: seq<Op>)
    requires server.Valid() && Bootstrapping(es, attempted, created, avoid)
    modifies server
    ensures server.Valid() && server.Remembers() && server.clock > old(server.clock)
    ensures server.history == old(server.history) + more && more != [] && OneLook(more)
    ensures more[0].Read? ==> old(server.clock) < more[0].at <= server.clock && more[0].at < deadline
    ensures turn == Again ==> !more[|more| - 1].Read?
    ensures Bootstrapping(es + more, tried, uid, avoid)
    ensures turn == Stop && failure == None ==> MaySucceedWith(es + more, avoid)
    ensures failure.Some? ==> turn == Stop && MayFail(es + more, avoid)
  {
    var reply := server.Get(deadline);
    ghost var e := server.history[|server.history| - 1];
    turn, failure, tried, uid, more := Wait, None, attempted, created, [e];
    match reply {
      case GetFailed(message) =>
        turn, failure := Stop, Some(message);
        AfterLook(es, e, attempted, created, avoid);
      case Absent =>
        turn, failure, tried, uid, more := OnAbsent(server, runId, avoid, attempted, created, es, e, old(server.history));
      case Found(pod) =>
        turn, failure, more := OnPresent(server, pod, avoid, attempted, created, es, e, old(server.history));
    }
  }

  method OnPresent(server: Server, pod: Pod, avoid: set<string>, attempted: bool, created: string,
                   ghost es: seq<Op>, ghost e: Op, ghost start: seq<Op>)
    returns (turn: Turn, failure: Option<string>, ghost more: seq<Op>)
    requires server.Valid() && Bootstrapping(es, attempted, created, avoid) && e.Read? && e.found == Some(pod)
    requires server.history == start + [e]
    modifies server
    ensures server.Valid() && server.Remembers() && server.clock >= old(server.clock)
    ensures server.history == start + more && more != [] && more[0] == e && OneLook(more)
    ensures turn == Again ==> !more[|more| - 1].Read?
    ensures Bootstrapping(es + more, attempted, created, avoid)
    ensures turn == Stop && failure == None ==> MaySucceedWith(es + more, avoid)
    ensures failure.Some? ==> turn == Stop && MayFail(es + more, avoid)
  {
    if Replaceable(pod, avoid) {
      var ok := server.DeleteByName();
      more := [e, PlainDelete];
      AfterReaction(es, e, PlainDelete, attempted, created, avoid);
      EndsWith(es, [e], PlainDelete);
      turn, failure := if ok then Again else Stop, if ok then None else Some("delete ssh helper pod");
    } else {
      more := [e];
      AfterLook(es, e, attempted, created, avoid);
      EndsWith(es, [], e);
      turn, failure := Accept(pod);
    }
  }

  lemma EndsWith(es: seq<Op>, more: seq<Op>, e: Op)
    ensures es + (more + [e]) != [] && (es + (more + [e]))[|es + (more + [e])| - 1] == e
  {
  }

  /** A pod that is left alone: accepted once it runs and has its tools, unless it cannot be stamped. */
  method Accept(pod: Pod) returns (turn: Turn, failure: Option<string>)
    ensures turn != Again && (turn == Stop ==> pod.phase == "Running" && !pod.deleting)
    ensures failure.Some? ==> turn == Stop
  {
    turn, failure := Wait, None;
    if !pod.deleting && pod.phase == "Running" {
      var ready: bool, stamped: bool := *, *;
      if ready {
        turn, failure := Stop, if stamped then None else Some("stamp ssh helper pod");
      }
    }
  }

  method OnAbsent(server: Server, runId: string, avoid: set<string>, attempted: bool, created: string,
                  ghost es: seq<Op>, ghost e: Op, ghost start: seq<Op>)
    returns (turn: Turn, failure: Option<string>, tried: bool, uid: string, ghost more: seq<Op>)
    requires server.Valid() && Bootstrapping(es, attempted, created, avoid) && ReadAbsent(e)
    requires server.history == start + [e]
    modifies server
    ensures server.Valid() && server.Remembers() && server.clock >= old(server.clock)
    ensures server.history == start + more && more != [] && more[0] == e && OneLook(more) && !more[|more| - 1].Read?
    ensures Bootstrapping(es + more, tried, uid, avoid)
    ensures turn == (if failure.Some? then Stop else Again)
    ensures failure.Some? ==> MayFail(es + more, avoid)
  {
    turn, failure, tried, uid := Again, None, attempted, created;
    var rendered: bool := *;
    if !rendered {
      server.GiveUp();
      more := [e, Unprepared];
      AfterReaction(es, e, Unprepared, attempted, created, avoid);
      return Stop, Some("render ssh pod"), attempted, created, more;
    }
    var reply;
    ghost var made;
    reply, made := server.Create(runId);
    tried := true;
    more := [e] + made;
    Regroup(start, [e], made);
    AfterCreate(es, e, made, attempted, created, avoid);
    match reply {
      case AlreadyExists =>
      case CreateFailed(message) => turn, failure := Stop, Some(message);
      case Made(made) =>
        if made != "" {
          uid := made;
        }
    }
  }

  /** With a known UID, whatever the rollback removed is the very instance this setup created. */
  ghost predicate OnlyCreatedRemoved(before: seq<Op>, after: seq<Op>)
  {
    LastCreated(before) != "" ==>
      forall b, c :: Created(LastCreated(before), b) in before && Accepted(c) in after ==> c == b
  }

  /** The whole setup: what the loop did, then what the rollback did. */
  method Setup(server: Server, runId: string, replay: bool, avoid: Option<set<string>>)
    returns (failure: Option<string>, ghost before: seq<Op>, ghost after: seq<Op>)
    requires server.Valid()
    modifies server
    ensures server.Valid() && server.Remembers()
    ensures server.history == old(server.history) + before + after
    ensures Waits(before) && LookedBefore(before, old(server.clock) + 300000)
    ensures forall a, b :: a in after && b in after && a.Read? && b.Read? ==> b.at - a.at < 120000
    ensures NoDeletes(before) && OnlyOursRemoved(after, runId, LastCreated(before)) && ConclusiveLast(after)
    ensures Prompt(after, runId, LastCreated(before)) && Paced(after)
    ensures after != [] <==> failure.Some? && CreateSent in before && Trim(runId) != ""
    ensures if replay || avoid.None? then before == after == [] && (failure == None <==> replay)
            else Reacts(before, avoid.value) && (failure == None ==> MaySucceedWith(before, avoid.value))
    ensures OnlyCreatedRemoved(before, after)
  {
    before, after := [], [];
    if replay {
      return None, [], [];
    }
    if avoid.None? {
      return Some("get FAR target node"), [], [];
    }
    var attempted, created;
    failure, attempted, created, before := Bootstrap(server, runId, avoid.value, server.clock + SETUP_BUDGET);
    if failure.Some? && attempted {
      var ignored;
      ignored, after := RollbackPod(server, runId, created, server.clock + ROLLBACK_BUDGET);
    }
    OnlyTheCreated(server, before, after, runId);
  }

  lemma OnlyTheCreated(server: Server, before: seq<Op>, after: seq<Op>, runId: string)
    requires server.Valid() && OnlyOursRemoved(after, runId, LastCreated(before))
    requires forall e :: e in before || e in after ==> e in server.history
    ensures OnlyCreatedRemoved(before, after)
  {
    var uid := LastCreated(before);
    forall b, c | uid != "" && Created(uid, b) in before && Accepted(c) in after ensures c == b {
      assert server.Truthful(Created(uid, b));
      var i :| 0 <= i < |after| && after[i] == Accepted(c);
      assert SawOurs(after[..i], c, runId, uid);
      var e :| e in after[..i] && ReadOurs(e, runId, uid) && e.found.value.birth == c;
      assert e in after && server.Truthful(e);
    }
  }
}
