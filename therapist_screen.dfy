/** The user's side of the connection flow (TherapistScreen.tsx): choosing a therapist,
    writing a note, sending a pending request, and the per-therapist button state. */
module TherapistScreen {
  import opened Wrappers
  import opened Requests
  import opened MoodSummary
  import Decimal

  /** The two therapist fields a request copies; the others are display-only. */
  datatype Therapist = Therapist(id: string, name: string)

  /** The signed-in user, as far as a request needs it. */
  datatype User = User(id: string, name: string)

  /** `connectionRequests.some(req => req.therapistId === tid && req.status === st)`. */
  function HasRequest(rs: seq<ConnectionRequest>, tid: string, st: Status): (b: bool)
    ensures b <==> exists i :: 0 <= i < |rs| && rs[i].therapistId == tid && rs[i].status == st
  {
    if |rs| == 0 then false
    else (rs[0].therapistId == tid && rs[0].status == st) || HasRequest(rs[1..], tid, st)
  }

  /** The button a therapist's card shows. */
  datatype Button = ChatNow | RequestSent | RequestConnectionButton

  /** Being connected takes precedence over having a pending request. */
  function ButtonFor(rs: seq<ConnectionRequest>, tid: string): (b: Button)
    ensures b == ChatNow <==> HasRequest(rs, tid, Accepted)
    ensures b == RequestSent <==> !HasRequest(rs, tid, Accepted) && HasRequest(rs, tid, Pending)
    ensures b == RequestConnectionButton <==> !HasRequest(rs, tid, Accepted) && !HasRequest(rs, tid, Pending)
  {
    if HasRequest(rs, tid, Accepted) then ChatNow
    else if HasRequest(rs, tid, Pending) then RequestSent
    else RequestConnectionButton
  }

  /** The button a user sees for a therapist agrees with that therapist's own views of the
      shared list: "Chat Now" exactly when an accepted request exists, "Request Sent" exactly
      when none is accepted but one is pending, and the request button otherwise (rejected
      requests never block a new one). */
  lemma ButtonMatchesViews(rs: seq<ConnectionRequest>, tid: string)
    ensures var accepted, pending := WithStatus(ForTherapist(rs, tid), Accepted), WithStatus(ForTherapist(rs, tid), Pending);
            && (ButtonFor(rs, tid) == ChatNow <==> |accepted| > 0)
            && (ButtonFor(rs, tid) == RequestSent <==> |accepted| == 0 && |pending| > 0)
            && (ButtonFor(rs, tid) == RequestConnectionButton <==> |accepted| == 0 && |pending| == 0)
  {
    var view := ForTherapist(rs, tid);
    forall st
      ensures HasRequest(rs, tid, st) <==> |WithStatus(view, st)| > 0
    {
      if HasRequest(rs, tid, st) {
        var i :| 0 <= i < |rs| && rs[i].therapistId == tid && rs[i].status == st;
        assert rs[i] in WithStatus(view, st);
      }
      if |WithStatus(view, st)| > 0 {
        var x := WithStatus(view, st)[0];
        assert x in WithStatus(view, st);
        var i :| 0 <= i < |rs| && rs[i] == x;
      }
    }
  }

  /** The request `handleRequestConnection` builds: id from the clock reading `now`
      (`Date.now().toString()`), creation time `timestamp` (`new Date()`). */
  function NewRequest(user: User, therapist: Therapist, note: string, now: nat, timestamp: int,
                      moodSummary: string): (r: ConnectionRequest)
    ensures r.status == Pending
    ensures r.therapistId == therapist.id && r.therapistName == therapist.name
    ensures r.userId == user.id && r.userName == user.name
    ensures r.userNote == note && r.userMoodSummary == moodSummary && r.timestamp == timestamp
    ensures Decimal.AllDigits(r.id) && Decimal.DigitsValue(r.id) == now
  {
    Decimal.NatToStringRoundTrip(now);
    ConnectionRequest(Decimal.NatToString(now), user.id, user.name, therapist.id, therapist.name,
                      Pending, timestamp, note, moodSummary)
  }

  /** Appending a pending request adds it to the end of the pending view, leaves the other
      views as they were, and from then on the therapist's card no longer offers a request. */
  lemma {:induction false} AppendPending(rs: seq<ConnectionRequest>, r: ConnectionRequest)
    requires r.status == Pending
    ensures WithStatus(rs + [r], Pending) == WithStatus(rs, Pending) + [r]
    ensures WithStatus(rs + [r], Accepted) == WithStatus(rs, Accepted)
    ensures WithStatus(rs + [r], Rejected) == WithStatus(rs, Rejected)
    ensures ButtonFor(rs + [r], r.therapistId) != RequestConnectionButton
    ensures ButtonFor(rs, r.therapistId) == ChatNow ==> ButtonFor(rs + [r], r.therapistId) == ChatNow
    ensures forall tid :: tid != r.therapistId ==> ButtonFor(rs + [r], tid) == ButtonFor(rs, tid)
  {
    StatusAppend(rs, r, Pending);
    StatusAppend(rs, r, Accepted);
    StatusAppend(rs, r, Rejected);
    assert (rs + [r])[|rs|] == r;
    forall tid, st
      ensures HasRequest(rs + [r], tid, st) <==> HasRequest(rs, tid, st) || (r.therapistId == tid && r.status == st)
    {
      if HasRequest(rs + [r], tid, st) {
        var i :| 0 <= i < |rs| + 1 && (rs + [r])[i].therapistId == tid && (rs + [r])[i].status == st;
        if i < |rs| {
          assert rs[i] == (rs + [r])[i];
        }
      }
      if HasRequest(rs, tid, st) {
        var i :| 0 <= i < |rs| && rs[i].therapistId == tid && rs[i].status == st;
        assert (rs + [r])[i] == rs[i];
      }
    }
  }

  /** The connection panel's state: the stored request list, the therapist whose request
      dialog is open, and the note being typed. */
  class ConnectionPanel {
    var connectionRequests: seq<ConnectionRequest>
    var selectedTherapist: Option<Therapist>
    var requestNote: string

    /** Starts with the requests restored from storage and no dialog open. */
    constructor(saved: seq<ConnectionRequest>)
      ensures connectionRequests == saved && selectedTherapist == None && requestNote == ""
    {
      connectionRequests := saved;
      selectedTherapist := None;
      requestNote := "";
    }

    /** `getPendingRequests`: the stored pending requests (not filtered by user), in order. */
    function PendingRequests(): (r: seq<ConnectionRequest>)
      reads this
      ensures forall x :: x in r <==> x in connectionRequests && x.status == Pending
    {
      WithStatus(connectionRequests, Pending)
    }

    /** `getAcceptedRequests`: the stored accepted requests (not filtered by user), in order. */
    function AcceptedRequests(): (r: seq<ConnectionRequest>)
      reads this
      ensures forall x :: x in r <==> x in connectionRequests && x.status == Accepted
    {
      WithStatus(connectionRequests, Accepted)
    }

    /** Clicking a card's button: only the "Request Connection" button has a handler, and it
        opens the dialog for that therapist. */
    method ChooseTherapist(t: Therapist) returns (offered: bool)
      modifies this
      ensures offered <==> !HasRequest(connectionRequests, t.id, Accepted) && !HasRequest(connectionRequests, t.id, Pending)
      ensures selectedTherapist == if offered then Some(t) else old(selectedTherapist)
      ensures connectionRequests == old(connectionRequests) && requestNote == old(requestNote)
    {
      offered := ButtonFor(connectionRequests, t.id) == RequestConnectionButton;
      if offered {
        selectedTherapist := Some(t);
      }
    }

    /** The note field's change handler. */
    method EditNote(note: string)
      modifies this
      ensures requestNote == note
      ensures connectionRequests == old(connectionRequests) && selectedTherapist == old(selectedTherapist)
    {
      requestNote := note;
    }

    /** The dialog's Cancel button: closes it and clears the note, sending nothing. */
    method Cancel()
      modifies this
      ensures selectedTherapist == None && requestNote == ""
      ensures connectionRequests == old(connectionRequests)
    {
      selectedTherapist := None;
      requestNote := "";
    }

    /** `handleRequestConnection`: with no therapist selected nothing happens; otherwise one
        pending request to the selected therapist, carrying the note and the mood summary of
        `journal`, is appended and the dialog is reset. */
    method RequestConnection(user: User, journal: seq<JournalEntry>, now: nat, timestamp: int)
      modifies this
      ensures old(selectedTherapist).None? ==>
                connectionRequests == old(connectionRequests)
                && selectedTherapist == old(selectedTherapist) && requestNote == old(requestNote)
      ensures old(selectedTherapist).Some? ==>
                connectionRequests == old(connectionRequests)
                  + [NewRequest(user, old(selectedTherapist).value, old(requestNote), now, timestamp, MoodSummaryOf(journal))]
                && selectedTherapist == None && requestNote == ""
    {
      if selectedTherapist.None? {
        return;
      }
      var summary := Summarize(journal);
      var newRequest := NewRequest(user, selectedTherapist.value, requestNote, now, timestamp, summary);
      connectionRequests := connectionRequests + [newRequest];
      requestNote := "";
      selectedTherapist := None;
    }
  }
}
