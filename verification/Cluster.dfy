/**
 The cluster as the helper-pod code sees it: one fixed pod name, an API whose replies can be lost,
 and other parties that create, replace, re-annotate and delete the pod at any moment.
 */
module Cluster {
  import opened Core
  import opened Text

  /** A pod instance; `birth` numbers the instances, which share one name. */
  datatype Pod = Pod(uid: string, birth: nat, runId: string, deleting: bool, phase: string, node: string)

  datatype Op =
    | Read(found: Option<Pod>, at: int)  // a get that succeeded, and when
    | ReadFailed
    | CreateSent
    | Created(uid: string, birth: nat)   // a create acknowledged with a UID
    | DeleteSent(uid: string)            // a delete with a UID precondition
    | Accepted(birth: nat)               // it took effect on this instance
    | Acknowledged                       // it reported success, or that there is nothing to delete
    | Refused                            // its precondition failed
    | PlainDelete                        // a delete by name alone
    | Unprepared                         // a request given up before it was sent

  datatype GetReply = GetFailed(message: string) | Absent | Found(pod: Pod)

  datatype CreateReply = Made(uid: string) | AlreadyExists | CreateFailed(message: string)

  datatype DeleteReply = Deleted | NotFound | UidMismatch | DeleteFailed(message: string)

  class Server {
    var pod: Option<Pod>
    var births: map<string, nat>  // instance of every UID ever given
    var next: nat
    var clock: int
    var history: seq<Op>

    /** UIDs are given once, have no surrounding blanks, and identify one instance; replies tell the truth. */
    ghost predicate Valid()
      reads this
    {
      && (forall e :: e in history ==> Truthful(e))
      && (forall u :: u in births ==> u != "" && Trim(u) == u && births[u] < next)
      && (forall u, v :: u in births && v in births && births[u] == births[v] ==> u == v)
      && (pod.Some? ==> Known(pod.value))
    }

    predicate Truthful(e: Op)
      reads this
    {
      match e
      case Read(Some(p), _) => Known(p)
      case Created(uid, birth) => uid in births && births[uid] == birth
      case _ => true
    }

    constructor ()
      ensures Valid() && history == []
    {
      pod, births, next, clock, history := None, map[], 0, 0, [];
    }

    predicate Known(p: Pod)
      reads this
    {
      p.uid in births && births[p.uid] == p.birth
    }

    /** No UID is ever forgotten or given again. */
    twostate predicate Remembers()
      reads this
    {
      forall u :: u in old(births) ==> u in births && births[u] == old(births[u])
    }

    predicate Unused(uid: string)
      reads this
    {
      uid !in births && uid != "" && Trim(uid) == uid
    }

    /** A new instance takes the name. */
    method Appear(p: Pod)
      requires Valid() && Unused(p.uid)
      modifies `pod, `births, `next
      ensures Valid() && Remembers() && p.uid in births
    {
      births, pod, next := births[p.uid := next], Some(p.(birth := next)), next + 1;
    }

    /** Time passes; meanwhile the others do what they like with the pod. */
    method Pass(least: nat)
      requires Valid()
      modifies `pod, `births, `next, `clock
      ensures Valid() && Remembers() && clock >= old(clock) + least
    {
      var later: int := *;
      clock := if later > clock + least then later else clock + least;
      var p: Pod, gone: bool, created: bool := *, *, *;
      if gone {
        pod := None;
      } else if created && Unused(p.uid) {
        Appear(p);
      } else if pod.Some? {
        pod := Some(p.(uid := pod.value.uid, birth := pod.value.birth));
      }
    }

    method Get(deadline: int) returns (reply: GetReply)
      requires Valid()
      modifies this
      ensures Valid() && Remembers() && clock > old(clock)
      ensures match reply
              case GetFailed(_) => history == old(history) + [ReadFailed]
              case Absent => clock < deadline && history == old(history) + [Read(None, clock)]
              case Found(p) => clock < deadline && history == old(history) + [Read(Some(p), clock)] && Known(p)
    {
      Pass(1);
      var lost: bool := *;
      if lost || clock >= deadline {
        history := history + [ReadFailed];
        reply := GetFailed("get ssh helper pod");
      } else {
        history := history + [Read(pod, clock)];
        reply := if pod.None? then Absent else Found(pod.value);
      }
    }

    method GiveUp()
      requires Valid()
      modifies `history
      ensures Valid() && history == old(history) + [Unprepared]
    {
      history := history + [Unprepared];
    }

    /** A delete that names the instance it means; the reply may be lost after it took effect. */
    method DeleteUid(uid: string) returns (reply: DeleteReply, ghost es: seq<Op>)
      requires Valid()
      modifies this
      ensures Valid() && Remembers() && clock > old(clock)
      ensures history == old(history) + es && DeleteOps(uid, reply, es)
      ensures forall b :: Accepted(b) in es ==> uid in births && births[uid] == b
    {
      Pass(1);
      var took;
      reply, took := Strike(uid);
      es := [DeleteSent(uid)] + took + Upshot(reply);
      DeleteTrace(uid, reply, took);
      Note([DeleteSent(uid)] + took + Upshot(reply));
    }

    /** Operations that report neither a pod nor a UID enter the history. */
    method Note(es: seq<Op>)
      requires Valid() && forall e :: e in es ==> !e.Read? && !e.Created?
      modifies `history
      ensures Valid() && history == old(history) + es
    {
      history := history + es;
    }

    method Strike(uid: string) returns (reply: DeleteReply, took: seq<Op>)
      requires Valid()
      modifies `pod
      ensures Valid()
      ensures took == [] || (|took| == 1 && took[0].Accepted? && uid in births && births[uid] == took[0].birth)
    {
      var arrives: bool, answered: bool, atOnce: bool := *, *, *;
      took, reply := [], DeleteFailed("delete ssh helper pod");
      if arrives && pod.None? {
        reply := if answered then NotFound else reply;
      } else if arrives && pod.value.uid != uid {
        reply := if answered then UidMismatch else reply;
      } else if arrives {
        took := [Accepted(pod.value.birth)];
        pod := if atOnce then None else Some(pod.value.(deleting := true));
        reply := if answered then Deleted else reply;
      }
    }

    method Create(runId: string) returns (reply: CreateReply, ghost es: seq<Op>)
      requires Valid()
      modifies this
      ensures Valid() && Remembers() && clock > old(clock)
      ensures history == old(history) + es
      ensures es == if reply.Made? && reply.uid != "" && reply.uid in births
                    then [CreateSent, Created(reply.uid, births[reply.uid])]
                    else [CreateSent]
      ensures reply.Made? && reply.uid != "" ==> reply.uid in births
    {
      Pass(1);
      history := history + [CreateSent];
      es := [CreateSent];
      var p: Pod, commits: bool, answered: bool, withUid: bool := *, *, *, *;
      if pod.Some? {
        reply := if answered then AlreadyExists else CreateFailed("kubectl create");
      } else if commits && Unused(p.uid) {
        Appear(p.(runId := runId));
        if answered && withUid {
          history := history + [Created(p.uid, births[p.uid])];
          es := es + [Created(p.uid, births[p.uid])];
          reply := Made(p.uid);
        } else {
          reply := if answered then Made("") else CreateFailed("kubectl create");
        }
      } else {
        reply := CreateFailed("kubectl create");
      }
    }

    /** A delete by name: it hits whatever instance is there. */
    method DeleteByName() returns (ok: bool)
      requires Valid()
      modifies this
      ensures Valid() && Remembers() && clock > old(clock)
      ensures history == old(history) + [PlainDelete]
    {
      Pass(1);
      history := history + [PlainDelete];
      var arrives: bool, atOnce: bool := *, *;
      if arrives && pod.Some? {
        pod := if atOnce then None else Some(pod.value.(deleting := true));
      }
      ok := *;
    }
  }

  /** What a reply to a conditional delete settles. */
  function Upshot(reply: DeleteReply): seq<Op>
  {
    match reply
    case Deleted | NotFound => [Acknowledged]
    case UidMismatch => [Refused]
    case DeleteFailed(_) => []
  }

  /** The trace of one conditional delete and the reply it explains. */
  ghost predicate DeleteOps(uid: string, reply: DeleteReply, es: seq<Op>)
  {
    && es != [] && es[0] == DeleteSent(uid)
    && (forall i :: 0 < i < |es| ==> es[i].Accepted? || es[i].Acknowledged? || es[i].Refused?)
    && (forall i :: 0 < i < |es| - 1 ==> es[i].Accepted?)
    && (reply.Deleted? || reply.NotFound? <==> es[|es| - 1].Acknowledged?)
    && (reply.UidMismatch? <==> es[|es| - 1].Refused?)
  }

  lemma DeleteTrace(uid: string, reply: DeleteReply, took: seq<Op>)
    requires took == [] || (|took| == 1 && took[0].Accepted?)
    ensures DeleteOps(uid, reply, [DeleteSent(uid)] + took + Upshot(reply))
    ensures forall e :: e in [DeleteSent(uid)] + took + Upshot(reply) ==>
              !e.Read? && !e.Created? && (e.Accepted? ==> e in took)
  {
    var es := [DeleteSent(uid)] + took + Upshot(reply);
    assert took == [] ==> es == [DeleteSent(uid)] + Upshot(reply);
    assert took != [] ==> es == [DeleteSent(uid), took[0]] + Upshot(reply);
  }
}
