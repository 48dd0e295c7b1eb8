/** The connection request that a user sends to a therapist and that the therapist answers.
    Both screens declare the same record and share one stored list of them; the read-only
    views over that list are filters defined here once. */
module Requests {

  datatype Status = Pending | Accepted | Rejected

  /** `timestamp` is the creation time in milliseconds, an input of the model. */
  datatype ConnectionRequest = ConnectionRequest(
    id: string,
    userId: string,
    userName: string,
    therapistId: string,
    therapistName: string,
    status: Status,
    timestamp: int,
    userNote: string,
    userMoodSummary: string)

  /** `Array.prototype.filter`: the elements that `keep` accepts, in their original order. */
  function Filter(rs: seq<ConnectionRequest>, keep: ConnectionRequest -> bool): (r: seq<ConnectionRequest>)
    ensures |r| <= |rs|
    ensures forall x :: x in r <==> x in rs && keep(x)
  {
    if |rs| == 0 then []
    else (if keep(rs[0]) then [rs[0]] else []) + Filter(rs[1..], keep)
  }

  /** Filtering a concatenation filters each part and keeps them in order: together with
      the singleton case this pins the result down to "the kept elements, in order". */
  lemma {:induction false} FilterAppend(a: seq<ConnectionRequest>, b: seq<ConnectionRequest>, keep: ConnectionRequest -> bool)
    ensures Filter(a + b, keep) == Filter(a, keep) + Filter(b, keep)
  {
    if |a| > 0 {
      assert (a + b)[1..] == a[1..] + b;
      FilterAppend(a[1..], b, keep);
    } else {
      assert a + b == b;
    }
  }

  lemma FilterSingleton(x: ConnectionRequest, keep: ConnectionRequest -> bool)
    ensures Filter([x], keep) == if keep(x) then [x] else []
  {
    assert [x][1..] == [];
  }

  /** The view of all requests with status `st` (`req.status === st`). */
  function WithStatus(rs: seq<ConnectionRequest>, st: Status): (r: seq<ConnectionRequest>)
    ensures forall x :: x in r <==> x in rs && x.status == st
  {
    Filter(rs, (x: ConnectionRequest) => x.status == st)
  }

  /** The view of all requests addressed to therapist `tid` (`req.therapistId === tid`). */
  function ForTherapist(rs: seq<ConnectionRequest>, tid: string): (r: seq<ConnectionRequest>)
    ensures forall x :: x in r <==> x in rs && x.therapistId == tid
  {
    Filter(rs, (x: ConnectionRequest) => x.therapistId == tid)
  }

  /** Appending one request extends the view of its status by that request and leaves the
      other views alone. */
  lemma StatusAppend(rs: seq<ConnectionRequest>, r: ConnectionRequest, st: Status)
    ensures WithStatus(rs + [r], st) == WithStatus(rs, st) + (if r.status == st then [r] else [])
  {
    FilterAppend(rs, [r], (x: ConnectionRequest) => x.status == st);
    FilterSingleton(r, (x: ConnectionRequest) => x.status == st);
  }

  /** The first step of a status view, unfolded. */
  lemma WithStatusCons(rs: seq<ConnectionRequest>, st: Status)
    requires |rs| > 0
    ensures WithStatus(rs, st) == (if rs[0].status == st then [rs[0]] else []) + WithStatus(rs[1..], st)
  {
  }

  /** The three status views partition a list: every request is in exactly one of them
      (by their membership contracts), and their sizes add up to the size of the list. */
  lemma {:induction false} StatusPartition(rs: seq<ConnectionRequest>)
    ensures |WithStatus(rs, Pending)| + |WithStatus(rs, Accepted)| + |WithStatus(rs, Rejected)| == |rs|
  {
    if |rs| > 0 {
      StatusPartition(rs[1..]);
      WithStatusCons(rs, Pending);
      WithStatusCons(rs, Accepted);
      WithStatusCons(rs, Rejected);
    }
  }

  /** Two filters applied one after the other commute. */
  lemma {:induction false} FilterCommute(rs: seq<ConnectionRequest>, p: ConnectionRequest -> bool, q: ConnectionRequest -> bool)
    ensures Filter(Filter(rs, p), q) == Filter(Filter(rs, q), p)
  {
    if |rs| > 0 {
      var x, tail := rs[0], rs[1..];
      var hp := if p(x) then [x] else [];
      var hq := if q(x) then [x] else [];
      assert Filter(rs, p) == hp + Filter(tail, p);
      assert Filter(rs, q) == hq + Filter(tail, q);
      FilterAppend(hp, Filter(tail, p), q);
      FilterAppend(hq, Filter(tail, q), p);
      if p(x) { FilterSingleton(x, q); } else { assert hp == []; }
      if q(x) { FilterSingleton(x, p); } else { assert hq == []; }
      FilterCommute(tail, p, q);
    }
  }

  /** Filtering by therapist and by status commute: the dashboard's per-status views
      (status filter over the therapist filter) are the therapist filter of the global
      status views. */
  lemma StatusTherapistCommute(rs: seq<ConnectionRequest>, tid: string, st: Status)
    ensures WithStatus(ForTherapist(rs, tid), st) == ForTherapist(WithStatus(rs, st), tid)
  {
    FilterCommute(rs, (x: ConnectionRequest) => x.therapistId == tid, (x: ConnectionRequest) => x.status == st);
  }
}
