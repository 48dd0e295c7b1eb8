/** The therapist's side (TherapistDashboard.tsx): the shared request list seen through the
    current therapist's views, and the accept and reject actions that answer a request. */
module TherapistDashboard {
  import opened Requests
  import opened TherapistScreen

  /** The therapist whose dashboard is shown when none is given. */
  const DefaultTherapistId := "th1"

  /** `prev.map(req => req.id === requestId ? { ...req, status: st } : req)`: every request
      with that id (ids are not guaranteed unique) gets status `st`; every other field and
      every other request stays, in place. */
  function SetStatus(rs: seq<ConnectionRequest>, requestId: string, st: Status): (r: seq<ConnectionRequest>)
    ensures |r| == |rs|
    ensures forall i :: 0 <= i < |rs| ==> r[i] == if rs[i].id == requestId then rs[i].(status := st) else rs[i]
  {
    if |rs| == 0 then []
    else [if rs[0].id == requestId then rs[0].(status := st) else rs[0]] + SetStatus(rs[1..], requestId, st)
  }

  /** Answering an id that no request carries leaves the list identical. */
  lemma SetStatusAbsent(rs: seq<ConnectionRequest>, requestId: string, st: Status)
    requires forall x :: x in rs ==> x.id != requestId
    ensures SetStatus(rs, requestId, st) == rs
  {
    var r := SetStatus(rs, requestId, st);
    forall i | 0 <= i < |rs| ensures r[i] == rs[i] {
      assert rs[i] in rs;
    }
  }

  /** The first step of `SetStatus`, unfolded. */
  lemma SetStatusCons(rs: seq<ConnectionRequest>, requestId: string, st: Status)
    requires |rs| > 0
    ensures SetStatus(rs, requestId, st)[0] == if rs[0].id == requestId then rs[0].(status := st) else rs[0]
    ensures SetStatus(rs, requestId, st)[1..] == SetStatus(rs[1..], requestId, st)
  {
  }

  /** Neither action looks at the current status, so the last answer to an id wins
      (accepted then rejected ends rejected); answering twice alike is idempotent. */
  lemma {:induction false} SetStatusLastWins(rs: seq<ConnectionRequest>, requestId: string, first: Status, second: Status)
    ensures SetStatus(SetStatus(rs, requestId, first), requestId, second) == SetStatus(rs, requestId, second)
    ensures SetStatus(SetStatus(rs, requestId, second), requestId, second) == SetStatus(rs, requestId, second)
  {
    if |rs| > 0 {
      SetStatusLastWins(rs[1..], requestId, first, second);
      SetStatusCons(rs, requestId, first);
      SetStatusCons(rs, requestId, second);
      SetStatusCons(SetStatus(rs, requestId, first), requestId, second);
      SetStatusCons(SetStatus(rs, requestId, second), requestId, second);
    }
  }

  /** Answers to different ids do not interfere: their order does not matter. */
  lemma {:induction false} SetStatusCommute(rs: seq<ConnectionRequest>, id1: string, st1: Status, id2: string, st2: Status)
    requires id1 != id2
    ensures SetStatus(SetStatus(rs, id1, st1), id2, st2) == SetStatus(SetStatus(rs, id2, st2), id1, st1)
  {
    if |rs| > 0 {
      SetStatusCommute(rs[1..], id1, st1, id2, st2);
      SetStatusCons(rs, id1, st1);
      SetStatusCons(rs, id2, st2);
      SetStatusCons(SetStatus(rs, id1, st1), id2, st2);
      SetStatusCons(SetStatus(rs, id2, st2), id1, st1);
    }
  }

  /** After answering id `x` with accept or reject, no request with id `x` is left in the
      therapist's pending view, and each of the therapist's requests with that id appears,
      answered, in the view of the new status. */
  lemma AnsweredViews(rs: seq<ConnectionRequest>, tid: string, x: string, st: Status)
    requires st != Pending
    ensures forall r :: r in WithStatus(ForTherapist(SetStatus(rs, x, st), tid), Pending) ==> r.id != x
    ensures forall i :: 0 <= i < |rs| && rs[i].id == x && rs[i].therapistId == tid ==>
              rs[i].(status := st) in WithStatus(ForTherapist(SetStatus(rs, x, st), tid), st)
  {
    var after := SetStatus(rs, x, st);
    forall r | r in WithStatus(ForTherapist(after, tid), Pending)
      ensures r.id != x
    {
      var i :| 0 <= i < |after| && after[i] == r;
    }
    forall i | 0 <= i < |rs| && rs[i].id == x && rs[i].therapistId == tid
      ensures rs[i].(status := st) in WithStatus(ForTherapist(after, tid), st)
    {
      assert after[i] == rs[i].(status := st);
    }
  }

  lemma {:induction false} SetStatusAppend(a: seq<ConnectionRequest>, b: seq<ConnectionRequest>, requestId: string, st: Status)
    ensures SetStatus(a + b, requestId, st) == SetStatus(a, requestId, st) + SetStatus(b, requestId, st)
  {
    var l, r := SetStatus(a + b, requestId, st), SetStatus(a, requestId, st) + SetStatus(b, requestId, st);
    assert forall i :: 0 <= i < |a| ==> (a + b)[i] == a[i];
    assert forall i :: |a| <= i < |a| + |b| ==> (a + b)[i] == b[i - |a|];
    assert forall i :: 0 <= i < |l| ==> l[i] == r[i];
  }

  /** The whole round trip: a user sends a request to a therapist and that therapist
      accepts it; the user's card for the therapist then shows "Chat Now" and the request,
      accepted, is among the therapist's active clients. */
  lemma RequestThenAccept(rs: seq<ConnectionRequest>, r: ConnectionRequest)
    requires r.status == Pending
    ensures var after := SetStatus(rs + [r], r.id, Accepted);
            && ButtonFor(after, r.therapistId) == ChatNow
            && r.(status := Accepted) in WithStatus(ForTherapist(after, r.therapistId), Accepted)
  {
    var after := SetStatus(rs + [r], r.id, Accepted);
    assert after[|rs|] == r.(status := Accepted);
  }

  /** Rejecting the request just sent undoes its effect on the user's button: the card looks
      as if only the rejection of that id had happened. */
  lemma RequestThenReject(rs: seq<ConnectionRequest>, r: ConnectionRequest)
    requires r.status == Pending
    ensures ButtonFor(SetStatus(rs + [r], r.id, Rejected), r.therapistId)
            == ButtonFor(SetStatus(rs, r.id, Rejected), r.therapistId)
  {
    var before := SetStatus(rs, r.id, Rejected);
    var rejected := r.(status := Rejected);
    SetStatusAppend(rs, [r], r.id, Rejected);
    assert SetStatus([r], r.id, Rejected) == [rejected];
    var after := before + [rejected];
    forall st | st != Rejected
      ensures HasRequest(after, r.therapistId, st) == HasRequest(before, r.therapistId, st)
    {
      if HasRequest(after, r.therapistId, st) {
        var i :| 0 <= i < |after| && after[i].therapistId == r.therapistId && after[i].status == st;
        assert i < |before| && before[i] == after[i];
      }
      if HasRequest(before, r.therapistId, st) {
        var i :| 0 <= i < |before| && before[i].therapistId == r.therapistId && before[i].status == st;
        assert after[i] == before[i];
      }
    }
  }

  /** The dashboard's state: whose dashboard it is, and the stored request list. */
  class Dashboard {
    const currentTherapistId: string
    var requests: seq<ConnectionRequest>

    /** Opens the dashboard of `therapistId` over the requests restored from storage. */
    constructor(therapistId: string := DefaultTherapistId, saved: seq<ConnectionRequest> := [])
      ensures currentTherapistId == therapistId && requests == saved
    {
      currentTherapistId := therapistId;
      requests := saved;
    }

    /** `handleAcceptRequest`. */
    method AcceptRequest(requestId: string)
      modifies this
      ensures requests == SetStatus(old(requests), requestId, Accepted)
    {
      requests := SetStatus(requests, requestId, Accepted);
    }

    /** `handleRejectRequest`. */
    method RejectRequest(requestId: string)
      modifies this
      ensures requests == SetStatus(old(requests), requestId, Rejected)
    {
      requests := SetStatus(requests, requestId, Rejected);
    }

    /** `getTherapistRequests`: the requests addressed to this therapist, in order. */
    function TherapistRequests(): (r: seq<ConnectionRequest>)
      reads this
      ensures |r| <= |requests|
      ensures forall x :: x in r <==> x in requests && x.therapistId == currentTherapistId
    {
      ForTherapist(requests, currentTherapistId)
    }

    /** `getPendingRequests`: this therapist's new requests. */
    function PendingRequests(): (r: seq<ConnectionRequest>)
      reads this
      ensures forall x :: x in r <==> x in requests && x.therapistId == currentTherapistId && x.status == Pending
    {
      WithStatus(TherapistRequests(), Pending)
    }

    /** `getAcceptedRequests`: this therapist's active clients. */
    function AcceptedRequests(): (r: seq<ConnectionRequest>)
      reads this
      ensures forall x :: x in r <==> x in requests && x.therapistId == currentTherapistId && x.status == Accepted
    {
      WithStatus(TherapistRequests(), Accepted)
    }

    /** `getRejectedRequests`: the requests this therapist declined. */
    function RejectedRequests(): (r: seq<ConnectionRequest>)
      reads this
      ensures forall x :: x in r <==> x in requests && x.therapistId == currentTherapistId && x.status == Rejected
    {
      WithStatus(TherapistRequests(), Rejected)
    }

    /** The four statistics cards: new, active, declined and total; the first three always
        add up to the last. */
    method Statistics() returns (newRequests: nat, activeClients: nat, declined: nat, total: nat)
      ensures newRequests == |PendingRequests()| && activeClients == |AcceptedRequests()|
      ensures declined == |RejectedRequests()| && total == |TherapistRequests()|
      ensures newRequests + activeClients + declined == total
    {
      StatusPartition(TherapistRequests());
      newRequests, activeClients, declined, total :=
        |PendingRequests()|, |AcceptedRequests()|, |RejectedRequests()|, |TherapistRequests()|;
    }
  }
}
