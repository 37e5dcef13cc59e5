/**
 Rolling back the shared SSH helper pod after a failed setup, against a cluster in which anything
 may happen between two calls. Contracts speak about the operations a call adds to the history.
 */
module Rollback {
  import opened Core
  import opened Text
  import opened Cluster
  import opened Filtering

  const DELETE_ATTEMPTS := 3
  const RETRY_WAIT := 100
  const POLL := 50
  const POLL_DELETING := 1000
  const SETTLE := 1000

  const NO_RUN_ID := "cannot roll back ssh helper pod without a harness run ID"
  const MISSING_UID := "delete ssh helper pod: missing UID"
  const OUT_OF_TIME := "context deadline exceeded"

  datatype Removal = Removed | PreconditionFailed | NotRemoved(message: string)

  // ---- what a history shows ----------------------------------------------------------------

  ghost predicate NoDeletes(es: seq<Op>)
  {
    forall e :: e in es ==> !e.DeleteSent? && !e.Accepted?
  }

  /** A look at a pod that carries the run's id and, if known, the created UID. */
  predicate ReadOurs(e: Op, runId: string, created: string)
  {
    && e.Read? && e.found.Some? && Trim(e.found.value.runId) == runId
    && (created == "" || e.found.value.uid == created)
  }

  ghost predicate SawOurs(es: seq<Op>, birth: nat, runId: string, created: string)
  {
    exists e :: e in es && ReadOurs(e, runId, created) && e.found.value.birth == birth
  }

  /** Every instance a delete took effect on had been read before as the run's own. */
  ghost predicate OnlyOursRemoved(es: seq<Op>, runId: string, created: string)
  {
    forall i :: 0 <= i < |es| && es[i].Accepted? ==> SawOurs(es[..i], es[i].birth, runId, created)
  }

  /** A delete is sent after another only while every reply has been lost: after an acknowledgement none is
      sent, after a refusal nothing happens at all. */
  ghost predicate ConclusiveLast(es: seq<Op>)
  {
    && (forall i, j :: 0 <= i < j < |es| && es[i].Acknowledged? ==> !es[j].DeleteSent?)
    && (forall i :: 0 <= i < |es| - 1 ==> !es[i].Refused?)
  }

  predicate Conclusive(e: Op)
  {
    e.Acknowledged? || e.Refused?
  }

  ghost predicate Unrefused(es: seq<Op>)
  {
    forall e :: e in es ==> !e.Refused?
  }

  predicate ReadAbsent(e: Op)
  {
    e.Read? && e.found == None
  }

  /** The last reads all found the name absent, the first of them at `since`. */
  ghost predicate AbsentSince(es: seq<Op>, since: int)
  {
    exists i :: 0 <= i < |es| && ReadAbsent(es[i]) && es[i].at == since && AbsentFrom(es, i)
  }

  ghost predicate AbsentFrom(es: seq<Op>, i: nat)
  {
    forall k :: i <= k < |es| ==> ReadAbsent(es[k])
  }

  /** Settled: absent reads, and nothing else, over at least `SETTLE`. */
  ghost predicate SettledAbsent(es: seq<Op>)
  {
    es != [] && ReadAbsent(es[|es| - 1]) &&
    exists since :: AbsentSince(es, since) && es[|es| - 1].at - since >= SETTLE
  }

  ghost predicate SawForeign(es: seq<Op>, runId: string, created: string)
  {
    es != [] && es[|es| - 1].Read? && es[|es| - 1].found.Some? && !ReadOurs(es[|es| - 1], runId, created)
  }

  /** The three ways a rollback may report success. */
  ghost predicate MaySucceed(es: seq<Op>, runId: string, created: string)
  {
    SettledAbsent(es) || SawForeign(es, runId, created) || (es != [] && es[|es| - 1].Refused?)
  }

  // ---- deleting one instance --------------------------------------------------------------

  /** Attempts on one UID, ended by the first conclusive reply. */
  ghost predicate Attempts(uid: string, removal: Removal, es: seq<Op>)
  {
    && es != [] && es[0] == DeleteSent(uid)
    && (forall e :: e in es ==> e.DeleteSent? || e.Accepted? || e.Acknowledged? || e.Refused?)
    && (forall e :: e in es && e.DeleteSent? ==> e.uid == uid)
    && (forall i :: 0 <= i < |es| - 1 ==> es[i].DeleteSent? || es[i].Accepted?)
    && (removal.Removed? <==> es[|es| - 1].Acknowledged?)
    && (removal.PreconditionFailed? <==> es[|es| - 1].Refused?)
  }

  /** The operations of `DeletePodUid`: none for a blank UID, else attempts unless the request cannot be prepared. */
  ghost predicate RemovalOps(uid: string, removal: Removal, es: seq<Op>)
  {
    if uid == "" then es == [] && removal == NotRemoved(MISSING_UID)
    else if es == [Unprepared] then removal.NotRemoved?
    else Attempts(uid, removal, es)
  }

  function Sends(es: seq<Op>): nat
  {
    if es == [] then 0 else Sends(es[..|es| - 1]) + if es[|es| - 1].DeleteSent? then 1 else 0
  }

  lemma {:induction false} SendsConcat(es: seq<Op>, more: seq<Op>)
    ensures Sends(es + more) == Sends(es) + Sends(more)
  {
    if more == [] {
      assert es + more == es;
    } else {
      SendsConcat(es, more[..|more| - 1]);
      assert (es + more)[..|es + more| - 1] == es + more[..|more| - 1];
    }
  }

  lemma {:induction false} OneSend(es: seq<Op>)
    requires es != [] && es[0].DeleteSent? && forall i :: 0 < i < |es| ==> !es[i].DeleteSent?
    ensures Sends(es) == 1
  {
    if |es| > 1 {
      OneSend(es[..|es| - 1]);
    } else {
      assert es[..0] == [];
    }
  }

  ghost predicate Inconclusive(uid: string, es: seq<Op>)
  {
    && (es != [] ==> es[0] == DeleteSent(uid))
    && forall i :: 0 <= i < |es| ==> (es[i].DeleteSent? && es[i].uid == uid) || es[i].Accepted?
  }

  function Conclude(reply: DeleteReply): Removal
  {
    match reply
    case Deleted | NotFound => Removed
    case UidMismatch => PreconditionFailed
    case DeleteFailed(message) => NotRemoved(message)
  }

  lemma OneMoreAttempt(uid: string, es: seq<Op>, reply: DeleteReply, more: seq<Op>)
    requires Inconclusive(uid, es) && DeleteOps(uid, reply, more)
    ensures Attempts(uid, Conclude(reply), es + more) && Sends(es + more) == Sends(es) + 1
    ensures reply.DeleteFailed? ==> Inconclusive(uid, es + more)
  {
    SendsConcat(es, more);
    OneSend(more);
  }

  lemma InconclusiveSoFar(uid: string, es: seq<Op>, removal: Removal)
    requires Inconclusive(uid, es) && es != [] && removal.NotRemoved?
    ensures Attempts(uid, removal, es)
  {
  }

  method DeletePodUid(server: Server, rawUid: string, deadline: int) returns (removal: Removal, ghost es: seq<Op>)
    requires server.Valid()
    modifies server
    ensures server.Valid() && server.Remembers() && server.clock >= old(server.clock)
    ensures server.history == old(server.history) + es && RemovalOps(Trim(rawUid), removal, es)
    ensures forall b :: Accepted(b) in es ==> Trim(rawUid) in server.births && server.births[Trim(rawUid)] == b
    ensures Sends(es) <= 3
    ensures removal.NotRemoved? && Sends(es) > 0 ==> Sends(es) == 3 || server.clock >= deadline
    ensures Sends(es) > 0 ==> server.clock >= old(server.clock) + 100 * (Sends(es) - 1)
  {
    es := [];
    var uid := Trim(rawUid);
    if uid == "" {
      return NotRemoved(MISSING_UID), [];
    }
    var prepared: bool := *;
    if !prepared {
      server.GiveUp();
      assert [Unprepared][..0] == [];
      return NotRemoved("write delete options"), [Unprepared];
    }
    removal := NotRemoved("");
    for attempt := 0 to DELETE_ATTEMPTS
      invariant server.Valid() && server.Remembers() && server.clock >= old(server.clock)
      invariant server.history == old(server.history) + es
      invariant removal.NotRemoved? && Inconclusive(uid, es) && Sends(es) == attempt
      invariant server.clock >= old(server.clock) + 100 * attempt
      invariant forall b :: Accepted(b) in es ==> uid in server.births && server.births[uid] == b
    {
      var reply;
      ghost var more;
      reply, more := server.DeleteUid(uid);
      Regroup(old(server.history), es, more);
      OneMoreAttempt(uid, es, reply, more);
      es := es + more;
      removal := Conclude(reply);
      if !removal.NotRemoved? {
        return;
      }
      if attempt + 1 == DELETE_ATTEMPTS {
        break;
      }
      server.Pass(RETRY_WAIT);
      var noticed: bool := *;
      if server.clock >= deadline && noticed {
        InconclusiveSoFar(uid, es, NotRemoved(OUT_OF_TIME));
        return NotRemoved(OUT_OF_TIME), es;
      }
    }
    InconclusiveSoFar(uid, es, removal);
  }

  // ---- rollback ---------------------------------------------------------------------------

  /** Two looks at the pod lie at least 50 apart, and at least 1000 once a delete was acknowledged. */
  ghost predicate Paced(es: seq<Op>)
  {
    forall i, j :: 0 <= i < j < |es| && es[i].Read? && es[j].Read? ==> es[j].at - es[i].at >= Gap(es[..j])
  }

  ghost function Gap(es: seq<Op>): int
  {
    if Acknowledgement(es) then 1000 else 50
  }

  /** Every look so far was before `time`. */
  ghost predicate LookedBy(es: seq<Op>, time: int)
  {
    forall e :: e in es && e.Read? ==> e.at <= time
  }

  /** Only the first of these operations can be a look. */
  ghost predicate OneLook(more: seq<Op>)
  {
    forall i :: 0 < i < |more| ==> !more[i].Read?
  }

  ghost predicate LookedWithin(es: seq<Op>, start: int, deadline: int)
  {
    forall e :: e in es && e.Read? ==> start < e.at < deadline
  }

  lemma LookedAgain(es: seq<Op>, more: seq<Op>, start: int, now: int, deadline: int)
    requires LookedBy(es, now) && LookedWithin(es, start, deadline) && OneLook(more) && more != []
    requires more[0].Read? ==> start < more[0].at <= now && more[0].at < deadline
    ensures LookedBy(es + more, now) && LookedWithin(es + more, start, deadline)
  {
    assert forall x :: x in es + more && x.Read? ==> x in es || x == more[0];
  }

  lemma StaysPaced(es: seq<Op>, more: seq<Op>, time: int)
    requires Paced(es) && LookedBy(es, time) && OneLook(more) && more != []
    requires more[0].Read? ==> more[0].at >= time + Gap(es)
    ensures Paced(es + more)
  {
    var all := es + more;
    forall i, j | 0 <= i < j < |all| && all[i].Read? && all[j].Read? ensures all[j].at - all[i].at >= Gap(all[..j]) {
      if j < |es| {
        assert all[..j] == es[..j];
      } else {
        assert all[j] == more[j - |es|] && j == |es| && all[..j] == es;
        assert all[i] in es;
      }
    }
  }

  /** What every moment of a rollback keeps. */
  ghost predicate Progressing(es: seq<Op>, runId: string, created: string, issued: bool, absentSince: Option<int>)
  {
    && OnlyOursRemoved(es, runId, created)
    && ConclusiveLast(es)
    && (issued <==> Acknowledgement(es))
    && AbsentExactly(es, absentSince)
  }

  ghost predicate Acknowledgement(es: seq<Op>)
  {
    exists e :: e in es && e.Acknowledged?
  }

  /** `since` is when the current run of absent reads began, if there is one. */
  ghost predicate AbsentExactly(es: seq<Op>, since: Option<int>)
  {
    && (since.Some? ==> AbsentSince(es, since.value))
    && (forall i: nat :: i < |es| && AbsentFrom(es, i) ==> since.Some? && es[i].at >= since.value)
  }

  /** Every read of the run's own pod is answered at once by a delete of that UID, unless one was acknowledged
      before or the request could not be prepared. */
  ghost predicate Prompt(es: seq<Op>, runId: string, created: string)
  {
    forall i: nat :: i < |es| && ReadOurs(es[i], runId, created) && !Acknowledgement(es[..i]) ==> Answered(es, i)
  }

  ghost predicate Answered(es: seq<Op>, i: nat)
    requires i < |es| && es[i].Read? && es[i].found.Some?
  {
    i + 1 < |es| && (es[i + 1] == DeleteSent(Trim(es[i].found.value.uid)) || es[i + 1] == Unprepared)
  }

  lemma StaysPrompt(es: seq<Op>, more: seq<Op>, runId: string, created: string)
    requires Prompt(es, runId, created)
    requires forall i: nat :: i < |more| && more[i].Read? ==> i == 0
    requires more != [] && ReadOurs(more[0], runId, created) && !Acknowledgement(es) ==>
               |more| > 1 && (more[1] == DeleteSent(Trim(more[0].found.value.uid)) || more[1] == Unprepared)
    ensures Prompt(es + more, runId, created)
  {
    var all := es + more;
    forall i: nat | i < |all| && ReadOurs(all[i], runId, created) && !Acknowledgement(all[..i]) ensures Answered(all, i) {
      if i < |es| {
        assert all[..i] == es[..i] && all[i] == es[i];
        assert Answered(es, i);
        assert all[i + 1] == es[i + 1];
      } else {
        assert all[i] == more[i - |es|] && i == |es|;
        assert all[..i] == es;
        assert all[i + 1] == more[1];
      }
    }
  }

  lemma MoreOwned(es: seq<Op>, more: seq<Op>, runId: string, created: string)
    requires OnlyOursRemoved(es, runId, created)
    requires forall e :: e in more && e.Accepted? ==> SawOurs(es, e.birth, runId, created)
    ensures OnlyOursRemoved(es + more, runId, created)
  {
    var all := es + more;
    forall i | 0 <= i < |all| && all[i].Accepted? ensures SawOurs(all[..i], all[i].birth, runId, created) {
      if i < |es| {
        assert all[..i] == es[..i];
      } else {
        assert all[i] == more[i - |es|] && all[i] in more;
        assert forall e :: e in es ==> e in all[..i] by {
          assert all[..i] == es + more[..i - |es|];
        }
      }
    }
  }

  lemma QuietKeeps(es: seq<Op>, e: Op, runId: string, created: string)
    requires OnlyOursRemoved(es, runId, created) && ConclusiveLast(es) && Unrefused(es) && (e.Read? || e.ReadFailed?)
    ensures OnlyOursRemoved(es + [e], runId, created) && ConclusiveLast(es + [e]) && Unrefused(es + [e])
    ensures Acknowledgement(es + [e]) <==> Acknowledgement(es)
  {
    MoreOwned(es, [e], runId, created);
    assert forall x :: x in es + [e] <==> x in es || x == e;
  }

  /** One more operation: absence goes on or starts with an absent read, anything else ends it. */
  function Since(e: Op, since: Option<int>): Option<int>
  {
    if !ReadAbsent(e) then None else if since.Some? then since else Some(e.at)
  }

  lemma AbsentNext(es: seq<Op>, e: Op, since: Option<int>)
    requires AbsentExactly(es, since)
    requires ReadAbsent(e) && since.Some? ==> e.at >= since.value
    ensures AbsentExactly(es + [e], Since(e, since))
  {
    var all, now := es + [e], Since(e, since);
    if ReadAbsent(e) && since.Some? {
      var i :| 0 <= i < |es| && ReadAbsent(es[i]) && es[i].at == since.value && AbsentFrom(es, i);
      assert all[i] == es[i] && AbsentFrom(all, i);
    } else if ReadAbsent(e) {
      assert all[|es|] == e && AbsentFrom(all, |es|);
    }
    forall i: nat | i < |all| && AbsentFrom(all, i) ensures now.Some? && all[i].at >= now.value {
      assert ReadAbsent(all[|es|]);
      if i < |es| {
        assert forall k :: i <= k < |es| ==> all[k] == es[k];
        assert AbsentFrom(es, i);
      }
    }
  }

  /** Settled exactly when the current absence has lasted long enough. */
  lemma SettledExactly(es: seq<Op>, since: Option<int>)
    requires AbsentExactly(es, since) && es != [] && es[|es| - 1].Read?
    ensures SettledAbsent(es) <==> since.Some? && es[|es| - 1].at - since.value >= SETTLE
  {
    if since.Some? {
      var i :| 0 <= i < |es| && AbsentFrom(es, i);
      assert ReadAbsent(es[|es| - 1]);
    }
    forall s | AbsentSince(es, s) ensures since.Some? && s >= since.value {
      var i: nat :| i < |es| && ReadAbsent(es[i]) && es[i].at == s && AbsentFrom(es, i);
    }
  }

  /** Deleting a pod just read as the run's own removes only instances so read. */
  lemma RemovalKeeps(es: seq<Op>, more: seq<Op>, p: Pod, removal: Removal, runId: string, created: string)
    requires OnlyOursRemoved(es, runId, created) && !Acknowledgement(es) && Unrefused(es)
    requires SawOurs(es, p.birth, runId, created)
    requires RemovalOps(Trim(p.uid), removal, more)
    requires forall b :: Accepted(b) in more ==> b == p.birth
    ensures OnlyOursRemoved(es + more, runId, created) && ConclusiveLast(es + more)
    ensures removal.Removed? <==> Acknowledgement(es + more)
    ensures !removal.PreconditionFailed? ==> Unrefused(es + more)
  {
    MoreOwned(es, more, runId, created);
    var all := es + more;
    assert forall k :: 0 <= k < |es| ==> all[k] == es[k] && es[k] in es;
    forall i | 0 <= i < |all| && Conclusive(all[i]) ensures i == |all| - 1 {
      assert all[i] == more[i - |es|];
    }
    assert removal.Removed? ==> all[|all| - 1] in all;
  }

  /** Waits for the next tick; `false` when the deadline comes first. */
  method Tick(server: Server, interval: nat, deadline: int) returns (ticked: bool)
    requires server.Valid() && interval > 0
    modifies server`pod, server`births, server`next, server`clock
    ensures server.Valid() && server.Remembers() && server.clock >= old(server.clock) + interval
    ensures ticked <==> server.clock < deadline
  {
    server.Pass(interval);
    ticked := server.clock < deadline;
  }

  lemma AfterGet(es: seq<Op>, e: Op, runId: string, created: string, issued: bool, since: Option<int>)
    requires Progressing(es, runId, created, issued, since) && Unrefused(es) && (e.Read? || e.ReadFailed?)
    requires ReadAbsent(e) && since.Some? ==> e.at >= since.value
    ensures Progressing(es + [e], runId, created, issued, Since(e, since)) && Unrefused(es + [e])
  {
    QuietKeeps(es, e, runId, created);
    AbsentNext(es, e, since);
  }

  lemma NotAbsent(es: seq<Op>)
    requires es != [] && !ReadAbsent(es[|es| - 1])
    ensures AbsentExactly(es, None)
  {
    assert forall i: nat :: i < |es| ==> !AbsentFrom(es, i);
  }

  /** A pod read and left alone: success if it is not the run's, and only then. */
  lemma LeftAlone(es: seq<Op>, e: Op, runId: string, created: string)
    requires Prompt(es, runId, created) && e.Read? && e.found.Some?
    requires ReadOurs(e, runId, created) ==> Acknowledgement(es)
    ensures Prompt(es + [e], runId, created)
    ensures MaySucceed(es + [e], runId, created) <==> !ReadOurs(e, runId, created)
  {
    StaysPrompt(es, [e], runId, created);
    assert (es + [e])[|es|] == e;
  }

  lemma RemovalProgresses(es: seq<Op>, e: Op, more: seq<Op>, p: Pod, removal: Removal, runId: string, created: string)
    requires Progressing(es + [e], runId, created, false, None) && Unrefused(es + [e])
    requires ReadOurs(e, runId, created) && e.found.value == p
    requires RemovalOps(Trim(p.uid), removal, more) && more != []
    requires forall b :: Accepted(b) in more ==> b == p.birth
    ensures Progressing(es + [e] + more, runId, created, removal.Removed?, None)
    ensures !removal.PreconditionFailed? ==> Unrefused(es + [e] + more)
  {
    var all := es + [e] + more;
    assert (es + [e])[|es|] == e && e in es + [e];
    RemovalKeeps(es + [e], more, p, removal, runId, created);
    assert all[|all| - 1] == more[|more| - 1];
    NotAbsent(all);
  }

  lemma RemovalIsPrompt(es: seq<Op>, e: Op, more: seq<Op>, p: Pod, removal: Removal, runId: string, created: string)
    requires Prompt(es, runId, created) && ReadOurs(e, runId, created) && e.found.value == p
    requires RemovalOps(Trim(p.uid), removal, more) && more != []
    ensures Prompt(es + [e] + more, runId, created)
  {
    Regroup(es, [e], more);
    var answer := [e] + more;
    assert answer[1] == more[0];
    forall i: nat | 0 < i < |answer| ensures !answer[i].Read? {
      assert answer[i] == more[i - 1] && more[i - 1] in more;
    }
    StaysPrompt(es, answer, runId, created);
  }

  /** Success only if the precondition failed. */
  lemma RemovalDecides(es: seq<Op>, more: seq<Op>, uid: string, removal: Removal, runId: string, created: string)
    requires RemovalOps(uid, removal, more) && more != []
    ensures MaySucceed(es + more, runId, created) <==> removal.PreconditionFailed?
  {
    var all := es + more;
    assert all[|all| - 1] == more[|more| - 1] && more[|more| - 1] in more;
  }

  lemma RemovalLooksNot(more: seq<Op>, uid: string, removal: Removal, e: Op)
    requires RemovalOps(uid, removal, more)
    ensures OneLook([e] + more)
  {
    assert forall i :: 0 < i < |[e] + more| ==> ([e] + more)[i] == more[i - 1] && more[i - 1] in more;
  }

  /** The pod is there, as `e` says: leave it alone if it is not the run's, else delete it once. */
  method OnFound(server: Server, pod: Pod, runId: string, created: string, deadline: int,
                 issued: bool, ghost es: seq<Op>, ghost e: Op, ghost since: Option<int>, ghost start: seq<Op>)
    returns (done: bool, now: bool, error: Option<string>, ghost more: seq<Op>)
    requires server.Valid() && server.Known(pod) && server.history == start + [e]
    requires Progressing(es, runId, created, issued, since) && Unrefused(es) && Prompt(es, runId, created)
    requires e.Read? && e.found == Some(pod)
    modifies server
    ensures server.Valid() && server.Remembers() && server.clock >= old(server.clock)
    ensures server.history == start + more && more != [] && more[0] == e && OneLook(more)
    ensures Progressing(es + more, runId, created, now, None) && Prompt(es + more, runId, created)
    ensures done || Unrefused(es + more)
    ensures done <==> MaySucceed(es + more, runId, created)
    ensures issued ==> now
  {
    done, now, error, more := true, issued, None, [e];
    AfterGet(es, e, runId, created, issued, since);
    if Trim(pod.runId) != runId {
      LeftAlone(es, e, runId, created);
      return;
    }
    if created != "" && pod.uid != created {
      LeftAlone(es, e, runId, created);
      return;
    }
    done := false;
    if issued {
      LeftAlone(es, e, runId, created);
      return;
    }
    var removal;
    ghost var sent;
    removal, sent := DeletePodUid(server, pod.uid, deadline);
    RemovalProgresses(es, e, sent, pod, removal, runId, created);
    RemovalIsPrompt(es, e, sent, pod, removal, runId, created);
    RemovalDecides(es + [e], sent, Trim(pod.uid), removal, runId, created);
    RemovalLooksNot(sent, Trim(pod.uid), removal, e);
    Regroup(es, [e], sent);
    Regroup(start, [e], sent);
    more := [e] + sent;
    match removal {
      case PreconditionFailed => done := true;
      case NotRemoved(message) => error := Some(message);
      case Removed => now := true;
    }
  }

  /** A get that found nothing or failed: success exactly when the absence has settled. */
  lemma AfterOtherGet(es: seq<Op>, e: Op, runId: string, created: string, issued: bool, since: Option<int>)
    requires Progressing(es, runId, created, issued, since) && Unrefused(es) && Prompt(es, runId, created)
    requires ReadAbsent(e) || e.ReadFailed?
    requires ReadAbsent(e) && since.Some? ==> e.at >= since.value
    ensures Progressing(es + [e], runId, created, issued, Since(e, since)) && Prompt(es + [e], runId, created)
    ensures Unrefused(es + [e])
    ensures MaySucceed(es + [e], runId, created) <==> ReadAbsent(e) && e.at - Since(e, since).value >= SETTLE
  {
    AfterGet(es, e, runId, created, issued, since);
    StaysPrompt(es, [e], runId, created);
    OtherGetDecides(es, e, runId, created, Since(e, since));
  }

  lemma OtherGetDecides(es: seq<Op>, e: Op, runId: string, created: string, since: Option<int>)
    requires (ReadAbsent(e) || e.ReadFailed?) && AbsentExactly(es + [e], since)
    ensures MaySucceed(es + [e], runId, created)
       <==> ReadAbsent(e) && since.Some? && e.at - since.value >= SETTLE
  {
    assert (es + [e])[|es|] == e;
    if ReadAbsent(e) {
      SettledExactly(es + [e], since);
    }
  }

  /** One poll: look, and act on what is there. */
  method Poll(server: Server, runId: string, created: string, deadline: int,
              issued: bool, absentSince: Option<int>, ghost es: seq<Op>)
    returns (done: bool, now: bool, since: Option<int>, error: Option<string>, ghost more: seq<Op>)
    requires server.Valid()
    requires Progressing(es, runId, created, issued, absentSince) && Unrefused(es) && Prompt(es, runId, created)
    requires absentSince.Some? ==> absentSince.value <= server.clock
    modifies server
    ensures server.Valid() && server.Remembers() && server.clock > old(server.clock)
    ensures server.history == old(server.history) + more && more != [] && OneLook(more)
    ensures more[0].Read? ==> old(server.clock) < more[0].at <= server.clock && more[0].at < deadline
    ensures Progressing(es + more, runId, created, now, since) && Prompt(es + more, runId, created)
    ensures done || Unrefused(es + more)
    ensures since.Some? ==> since.value <= server.clock
    ensures done <==> MaySucceed(es + more, runId, created)
    ensures issued ==> now
  {
    var reply := server.Get(deadline);
    ghost var e := server.history[|server.history| - 1];
    done, now, since, error, more := false, issued, absentSince, None, [e];
    match reply {
      case GetFailed(message) =>
        AfterOtherGet(es, e, runId, created, issued, absentSince);
        error := Some(message);
        since := None;
      case Absent =>
        AfterOtherGet(es, e, runId, created, issued, absentSince);
        if since == None {
          since := Some(server.clock);
        }
        done := server.clock - since.value >= SETTLE;
      case Found(pod) =>
        since := None;
        done, now, error, more :=
          OnFound(server, pod, runId, created, deadline, issued, es, e, absentSince, old(server.history));
    }
  }

  /** `None` is success. */
  method RollbackPod(server: Server, runId: string, created: string, deadline: int)
    returns (failure: Option<string>, ghost es: seq<Op>)
    requires server.Valid()
    modifies server
    ensures server.Valid() && server.Remembers()
    ensures server.history == old(server.history) + es
    ensures OnlyOursRemoved(es, runId, created) && ConclusiveLast(es)
    ensures Prompt(es, runId, created) && Paced(es)
    ensures failure == None <==> MaySucceed(es, runId, created)
    ensures LookedWithin(es, old(server.clock), deadline)
    ensures if Trim(runId) == "" then es == [] && failure == Some(NO_RUN_ID)
            else es != [] && (failure == None || server.clock >= deadline)
  {
    es := [];
    if Trim(runId) == "" {
      return Some(NO_RUN_ID), [];
    }
    var absentSince: Option<int> := None;
    var lastError: Option<string> := None;
    var deleteIssued := false;
    var interval := POLL;
    while true
      invariant server.Valid() && server.Remembers()
      invariant server.history == old(server.history) + es
      invariant Progressing(es, runId, created, deleteIssued, absentSince) && Unrefused(es)
      invariant Prompt(es, runId, created)
      invariant absentSince.Some? ==> absentSince.value <= server.clock
      invariant interval == (if deleteIssued then 1000 else 50)
      invariant Paced(es) && LookedBy(es, server.clock - interval)
      invariant LookedWithin(es, old(server.clock), deadline)
      invariant server.clock >= old(server.clock)
      decreases deadline - server.clock
    {
      var done, now, error;
      ghost var more;
      ghost var looked := server.clock - interval;
      done, now, absentSince, error, more := Poll(server, runId, created, deadline, deleteIssued, absentSince, es);
      StaysPaced(es, more, looked);
      LookedAgain(es, more, old(server.clock), server.clock, deadline);
      Regroup(old(server.history), es, more);
      es := es + more;
      if done {
        return None, es;
      }
      if error.Some? {
        lastError := error;
      }
      if now && !deleteIssued {
        deleteIssued, interval := true, POLL_DELETING;
      }
      var ticked := Tick(server, interval, deadline);
      if !ticked {
        return if lastError.Some? then lastError else Some(OUT_OF_TIME), es;
      }
    }
  }

  /** What success means, in full: the pod seen last is not the run's, its deletion was refused, or the name was
      absent at every look for at least a second, which takes two looks. */
  lemma SucceedsExactly(es: seq<Op>, runId: string, created: string)
    requires es != []
    ensures var last := es[|es| - 1];
            MaySucceed(es, runId, created) <==>
            || last.Refused?
            || (last.Read? && last.found.Some? &&
                (Trim(last.found.value.runId) != runId || (created != "" && last.found.value.uid != created)))
            || (exists i :: 0 <= i < |es| - 1 && (forall k :: i <= k < |es| ==> es[k].Read? && es[k].found == None)
                            && last.at - es[i].at >= 1000)
  {
    if i :| 0 <= i < |es| - 1 && (forall k :: i <= k < |es| ==> es[k].Read? && es[k].found == None)
            && es[|es| - 1].at - es[i].at >= 1000 {
      assert AbsentFrom(es, i);
      assert ReadAbsent(es[i]) && AbsentSince(es, es[i].at) && ReadAbsent(es[|es| - 1]);
    }
    if SettledAbsent(es) {
      var since :| AbsentSince(es, since) && es[|es| - 1].at - since >= SETTLE;
      var i :| 0 <= i < |es| && ReadAbsent(es[i]) && es[i].at == since && AbsentFrom(es, i);
      assert i < |es| - 1;
    }
  }

  lemma {:induction false} SomeSend(es: seq<Op>) returns (i: nat)
    requires Sends(es) > 0
    ensures i < |es| && es[i].DeleteSent?
  {
    i := |es| - 1;
    if !es[i].DeleteSent? {
      i := SomeSend(es[..i]);
    }
  }

  lemma {:induction false} TwoSends(es: seq<Op>) returns (i: nat, j: nat)
    requires Sends(es) > 1
    ensures i < j < |es| && es[i].DeleteSent? && es[j].DeleteSent?
  {
    var init, last := es[..|es| - 1], es[|es| - 1];
    if Sends(init) > 1 {
      i, j := TwoSends(init);
    } else {
      i := SomeSend(init);
      j := |es| - 1;
    }
  }

  /** A rollback sends a second delete only while nothing has answered the first. */
  lemma SentAgainOnlyUnanswered(es: seq<Op>)
    requires ConclusiveLast(es) && Sends(es) > 1
    ensures exists i: nat, j: nat :: i < j < |es| && es[i].DeleteSent? && es[j].DeleteSent?
              && forall k :: 0 <= k < j ==> !Conclusive(es[k])
  {
    var i, j := TwoSends(es);
  }

  /** A history of two deletes of one pod: the first takes effect but its reply is lost, the second is acknowledged. */
  function SentTwice(p: Pod): seq<Op>
  {
    [DeleteSent(p.uid), Accepted(p.birth), DeleteSent(p.uid), Acknowledged]
  }

  function TwiceHistory(p: Pod, t: int): seq<Op>
  {
    [Read(Some(p), t)] + SentTwice(p) + [Read(None, t + 1000), Read(None, t + 2000)]
  }

  /** And then it does: what a rollback promises holds of the whole of that history, for any pod of the run. */
  lemma SentTwiceWhenUnanswered(p: Pod, created: string, t: int)
    requires created in {"", p.uid} && Trim(p.uid) == p.uid && p.uid != ""
    ensures var sent, es := SentTwice(p), TwiceHistory(p, t);
            && DeleteOps(p.uid, DeleteFailed(""), sent[..2]) && DeleteOps(p.uid, NotFound, sent[2..])
            && RemovalOps(p.uid, Removed, sent)
            && OnlyOursRemoved(es, Trim(p.runId), created) && ConclusiveLast(es)
            && Prompt(es, Trim(p.runId), created) && MaySucceed(es, Trim(p.runId), created)
            && Sends(es) == 2
    ensures Paced(TwiceHistory(p, t)) && LookedWithin(TwiceHistory(p, t), t - 1, t + 2001)
  {
    var es := TwiceHistory(p, t);
    assert es[0] in es[..2];
    assert Answered(es, 0);
    assert ReadAbsent(es[5]) && AbsentFrom(es, 5);
    assert AbsentSince(es, t + 1000);
    TwoOfSeven(es);
    TwicePaced(p, t);
    TwiceAnswered(p);
  }

  lemma TwiceAnswered(p: Pod)
    requires p.uid != ""
    ensures var sent := SentTwice(p);
            && DeleteOps(p.uid, DeleteFailed(""), sent[..2]) && DeleteOps(p.uid, NotFound, sent[2..])
            && RemovalOps(p.uid, Removed, sent)
  {
  }

  lemma TwicePaced(p: Pod, t: int)
    ensures Paced(TwiceHistory(p, t)) && LookedWithin(TwiceHistory(p, t), t - 1, t + 2001)
  {
  }

  lemma TwoOfSeven(es: seq<Op>)
    requires |es| == 7 && es[1].DeleteSent? && es[3].DeleteSent?
    requires forall i :: 0 <= i < 7 && i != 1 && i != 3 ==> !es[i].DeleteSent?
    ensures Sends(es) == 2
  {
    OneSend(es[1..3]);
    OneSend(es[3..]);
    assert es == es[..1] + (es[1..3] + es[3..]);
    assert es[..1][..0] == [];
    SendsConcat(es[..1], es[1..3] + es[3..]);
    SendsConcat(es[1..3], es[3..]);
  }

  /** A run id with surrounding blanks never equals the trimmed annotation: such a rollback removes nothing. */
  lemma UntrimmedRunIdRemovesNothing(es: seq<Op>, runId: string, created: string)
    requires OnlyOursRemoved(es, runId, created) && Trim(runId) != runId
    ensures forall i :: 0 <= i < |es| ==> !es[i].Accepted?
  {
    forall b: nat, seen: seq<Op> ensures !SawOurs(seen, b, runId, created) {
      NeverOurs(seen, b, runId, created);
    }
  }

  lemma NeverOurs(es: seq<Op>, birth: nat, runId: string, created: string)
    requires Trim(runId) != runId
    ensures !SawOurs(es, birth, runId, created)
  {
    forall e | e in es && e.Read? && e.found.Some? ensures !ReadOurs(e, runId, created) {
      TrimTwice(e.found.value.runId);
    }
  }
}
