# Mindpals therapist connections: a verified model

Mindpals is a virtual-pet wellness app. Users keep a journal and can ask a licensed
therapist to connect with them. This project models, in Dafny, the list logic of the two
therapist screens:

- **The user's screen** (`src/components/TherapistScreen.tsx`). It builds a mood summary
  from the last five journal entries (`getMoodSummary`). It appends a pending connection
  request to the selected therapist (`handleRequestConnection`). It lists the stored pending
  and accepted requests (all of them, not only this user's). Each therapist card shows one
  of three buttons: "Chat Now", "Request Sent" or "Request Connection".
- **The therapist's dashboard** (`src/components/TherapistDashboard.tsx`). It accepts or
  rejects requests by id. It filters the shared list down to the current therapist (default
  `th1`) and then by status. It shows four statistics cards.

Modules:

- `Wrappers` holds `Option`.
- `Decimal` turns a whole number into decimal text. The screens do this for request ids
  (`Date.now().toString()`) and for the entry count in the summary.
- `Requests` holds the `ConnectionRequest` record both screens declare. It defines the
  order-preserving filter behind every view, once.
- `MoodSummary` models `getMoodSummary`. The JavaScript object of counters is an
  insertion-ordered `Tally`, filled by a loop (`CountMoods`). The `sort` call is a stable
  descending insertion sort (`SortDesc`).
- `TherapistScreen` holds the `ConnectionPanel` class (the user screen's state) and the
  button rule.
- `TherapistDashboard` holds the `Dashboard` class, the `SetStatus` map behind accept and
  reject, and lemmas that follow one request through both screens.

## Model

| member | source | states |
|---|---|---|
| `Decimal.NatToString` | src/components/TherapistScreen.tsx:146 | a clock reading or count prints as a non-empty string of digits with no leading zero |
| `Decimal.NatToStringRoundTrip` | src/components/TherapistScreen.tsx:139 | reading the printed digits back gives the number |
| `Decimal.NatToStringInjective` | src/components/TherapistScreen.tsx:146 | different clock readings give different request ids |
| `Requests.Filter` | src/components/TherapistScreen.tsx:164-170 | `filter` keeps exactly the elements the predicate accepts and never grows the list |
| `Requests.FilterAppend` | src/components/TherapistScreen.tsx:164-170 | filtering a concatenation concatenates the filtered parts, so the original order is kept |
| `Requests.WithStatus` | src/components/TherapistScreen.tsx:164-170 | a status view holds exactly the requests with that status |
| `Requests.ForTherapist` | src/components/TherapistDashboard.tsx:146-148 | the therapist view holds exactly the requests whose `therapistId` matches |
| `Requests.StatusAppend` | src/components/TherapistScreen.tsx:157-170 | appending a request adds it to the end of its own status view and leaves the other views unchanged |
| `Requests.StatusPartition` | src/components/TherapistDashboard.tsx:150-160 | the pending, accepted and rejected views split any list: each request is in exactly the view of its status, and the three sizes add up to the size of the list |
| `Requests.StatusTherapistCommute` | src/components/TherapistDashboard.tsx:146-160 | filtering by therapist and then by status equals filtering by status and then by therapist |
| `MoodSummary.MoodLabel` | src/components/TherapistScreen.tsx:134 | the counted label is `mood` when `mood` is truthy, else `sentiment` when that is truthy, else `'neutral'`; it is never empty |
| `MoodSummary.Window` | src/components/TherapistScreen.tsx:130 | `slice(-5)` keeps the last min(5, n) entries |
| `MoodSummary.Distinct` | src/components/TherapistScreen.tsx:131-136 | the dictionary keys are the labels seen, each once |
| `MoodSummary.DistinctPrefix` | src/components/TherapistScreen.tsx:133-136 | keys are only ever appended, in first-seen order: the keys of a prefix of the window are a prefix of the final keys |
| `MoodSummary.CountStep` | src/components/TherapistScreen.tsx:135 | one `moodCounts[mood] = (moodCounts[mood] \|\| 0) + 1` step turns the tally of a prefix into the tally of the prefix extended by one label |
| `MoodSummary.CountMoods` | src/components/TherapistScreen.tsx:131-136 | the `forEach` loop produces the keys in first-seen order and each key's number of occurrences |
| `MoodSummary.CountSum` | src/components/TherapistScreen.tsx:133-136 | the per-mood counts add up to the number of labels counted |
| `MoodSummary.WindowCountsSum` | src/components/TherapistScreen.tsx:130-136 | the counts of the window add up to min(5, n) |
| `MoodSummary.Count` | src/components/TherapistScreen.tsx:131-136 | reference tally: its keys are exactly the labels seen, and each count is positive and equals the label's number of occurrences |
| `MoodSummary.Entries` | src/components/TherapistScreen.tsx:138 | `Object.entries` lists one (key, count) pair per key, in key insertion order |
| `MoodSummary.Dominant` | src/components/TherapistScreen.tsx:138 | `[0]?.[0] \|\| 'neutral'` after the sort: `'neutral'` for no entries; otherwise the key of the first entry with the largest count, or `'neutral'` if that key is empty; never empty |
| `MoodSummary.DominantMood` | src/components/TherapistScreen.tsx:131-138 | `'neutral'` for an empty window; otherwise the key of the first (key, count) entry with the largest count |
| `MoodSummary.MoodSummaryOf` | src/components/TherapistScreen.tsx:127-140 | the summary is the no-entries text exactly when the journal is empty; otherwise it starts with the entry count |
| `MoodSummary.SortDesc` | src/components/TherapistScreen.tsx:138 | the sort returns a permutation of the entries, in descending order of count |
| `MoodSummary.FirstMax` | src/components/TherapistScreen.tsx:138 | reference choice: the first entry with the largest count |
| `MoodSummary.SortDescHead` | src/components/TherapistScreen.tsx:138 | because the sort is stable, its first element is the first entry with the largest count |
| `MoodSummary.FirstMaxKeyIsMax` | src/components/TherapistScreen.tsx:133-138 | no label of the window occurs more often than the first key with the largest count |
| `MoodSummary.FirstMaxKeySeenFirst` | src/components/TherapistScreen.tsx:133-138 | a label with that same largest count is never seen before the first key with the largest count |
| `MoodSummary.DominantIsFirstSeenMax` | src/components/TherapistScreen.tsx:131-138 | the dominant mood occurs in the window with a maximal count; among moods with that count it is the first one seen |
| `MoodSummary.Summarize` | src/components/TherapistScreen.tsx:127-140 | the loop-based computation equals `MoodSummaryOf`: exactly "No journal entries yet" when there are no entries, otherwise `"<n> entries, recent mood: <m>"` |
| `MoodSummary.SummaryReportsTotal` | src/components/TherapistScreen.tsx:139 | a non-empty journal's summary starts with the total entry count (not the window size), which reads back exactly, and is never the no-entries text |
| `TherapistScreen.HasRequest` | src/components/TherapistScreen.tsx:252-257 | `some` holds exactly when some request to that therapist has that status |
| `TherapistScreen.ButtonFor` | src/components/TherapistScreen.tsx:310-328 | "Chat Now" exactly when an accepted request to the therapist exists; "Request Sent" exactly when none is accepted and one is pending; the request button otherwise |
| `TherapistScreen.NewRequest` | src/components/TherapistScreen.tsx:145-155 | the new record is pending, carries the selected therapist's id and name, the user's id and name, the note, the mood summary and the timestamp, and its id reads back as the clock reading |
| `TherapistScreen.ButtonMatchesViews` | src/components/TherapistScreen.tsx:310-328 | "Chat Now" exactly when the therapist has an accepted request; "Request Sent" exactly when none is accepted and one is pending; the request button otherwise, so being connected wins over pending and rejected requests never block |
| `TherapistScreen.AppendPending` | src/components/TherapistScreen.tsx:157 | a new pending request joins the end of the pending view and leaves the other views alone; its therapist's card stops offering a request; other cards do not change |
| `TherapistScreen.ConnectionPanel.constructor` | src/components/TherapistScreen.tsx:104-119 | the panel starts with the restored requests, nothing selected and an empty note |
| `TherapistScreen.ConnectionPanel.PendingRequests` | src/components/TherapistScreen.tsx:164-166 | exactly the stored pending requests (the list is not filtered by user) |
| `TherapistScreen.ConnectionPanel.AcceptedRequests` | src/components/TherapistScreen.tsx:168-170 | exactly the stored accepted requests (the list is not filtered by user) |
| `TherapistScreen.ConnectionPanel.ChooseTherapist` | src/components/TherapistScreen.tsx:314-327 | the dialog opens for a therapist only when no stored accepted or pending request to that therapist exists; nothing else changes |
| `TherapistScreen.ConnectionPanel.EditNote` | src/components/TherapistScreen.tsx:372 | the note becomes the typed text; nothing else changes |
| `TherapistScreen.ConnectionPanel.Cancel` | src/components/TherapistScreen.tsx:383-386 | cancelling clears the selection and the note and sends nothing |
| `TherapistScreen.ConnectionPanel.RequestConnection` | src/components/TherapistScreen.tsx:142-162 | with no therapist selected nothing changes; otherwise exactly one pending request is appended, carrying the selected therapist's id and name, the user, the note, the clock-derived id and the mood summary; earlier requests keep their values and order; selection and note are reset |
| `TherapistDashboard.SetStatus` | src/components/TherapistDashboard.tsx:125-139 | length and order are kept; every request with the id gets the new status with all other fields kept; every other request is unchanged |
| `TherapistDashboard.SetStatusAbsent` | src/components/TherapistDashboard.tsx:125-139 | answering an id no request carries leaves the list identical |
| `TherapistDashboard.SetStatusLastWins` | src/components/TherapistDashboard.tsx:125-139 | the last answer to an id wins, including accepted then rejected; answering twice alike is idempotent |
| `TherapistDashboard.SetStatusCommute` | src/components/TherapistDashboard.tsx:125-139 | answers to different ids can be applied in either order |
| `TherapistDashboard.AnsweredViews` | src/components/TherapistDashboard.tsx:125-160 | after accepting (or rejecting) id x, no request with id x is in the pending view, and each of the therapist's requests with id x is in the accepted (or rejected) view |
| `TherapistDashboard.RequestThenAccept` | src/components/TherapistDashboard.tsx:125-131 | after a user's request is accepted, the user's card shows "Chat Now" and the therapist lists the request among active clients |
| `TherapistDashboard.RequestThenReject` | src/components/TherapistDashboard.tsx:133-139 | rejecting a just-sent request leaves the user's card as if only the rejection of that id had happened: its card equals the card after rejecting that id in the earlier list |
| `TherapistDashboard.Dashboard.constructor` | src/components/TherapistDashboard.tsx:99-104 | the dashboard belongs to the given therapist (default `th1`) and starts from the restored requests |
| `TherapistDashboard.Dashboard.AcceptRequest` | src/components/TherapistDashboard.tsx:125-131 | the new list is the old list with every request with that id marked accepted |
| `TherapistDashboard.Dashboard.RejectRequest` | src/components/TherapistDashboard.tsx:133-139 | the new list is the old list with every request with that id marked rejected |
| `TherapistDashboard.Dashboard.TherapistRequests` | src/components/TherapistDashboard.tsx:146-148 | exactly this therapist's requests |
| `TherapistDashboard.Dashboard.PendingRequests` | src/components/TherapistDashboard.tsx:150-152 | exactly this therapist's pending requests |
| `TherapistDashboard.Dashboard.AcceptedRequests` | src/components/TherapistDashboard.tsx:154-156 | exactly this therapist's accepted requests |
| `TherapistDashboard.Dashboard.RejectedRequests` | src/components/TherapistDashboard.tsx:158-160 | exactly this therapist's rejected requests |
| `TherapistDashboard.Dashboard.Statistics` | src/components/TherapistDashboard.tsx:193-217 | the cards show the sizes of the four views, and new + active + declined equals the total |

## Left out

- Mood classification: `analyzeSentiment` and `getMoodExplanation` come from `src/utils/sentimentAnalysis`, which is not part of this model. The journal screen wraps the analysis in a 1 s `setTimeout` delay; the intended debounce never cancels a timer, because the cleanup function its change handler returns is discarded (src/components/JournalScreen.tsx:56-65). Its local rules are the `trim().length < 10` gate on live analysis (src/components/JournalScreen.tsx:43) and the refusal to submit empty or whitespace-only text (src/components/JournalScreen.tsx:69); neither is modelled.
- Storage: the requests are saved to and loaded from browser `localStorage`, with the timestamps re-created from JSON. The constructors take the restored list as a parameter instead. Both screens read the same stored list, so the lemmas treat it as one sequence value. Two screens open at once, each holding its own copy, are not modelled.
- Clock: `Date.now()` and `new Date()` are the parameters `now` and `timestamp` of `RequestConnection`.
- UI: rendering, animations, the open/closed flags of the request and success dialogs, tab switching, and the analytics view (`handleViewAnalytics` with its mock journal).
- Fixture data: the mock therapists and clients are static.
- `MoodSummary.MoodLabel`: only string moods are modelled. A non-string truthy `mood` or `sentiment` would be used as an object key after conversion to a string; that conversion is not modelled.
- `MoodSummary.CountMoods`: keys stay in insertion order. JavaScript lists integer-like keys (such as `"7"`) first, in numeric order. Mood labels are words, so this ordering is not modelled.
- `MoodSummary.CountMoods`: the counters are a plain JavaScript object, which inherits the properties of `Object.prototype`. The model treats every label as an ordinary key. It does not capture a label `"__proto__"`, whose occurrences are not counted (the `__proto__` setter ignores the number), so the source reports the most frequent other label, or `'neutral'` when there is none, or labels such as `"constructor"`, `"toString"` and `"valueOf"`, whose first count starts from an inherited function and turns into a string. The moods the app writes are unaffected.
- `MoodSummary.SortDesc`: this is one stable sort. Every stable sort gives the same order, and the language has required `Array.prototype.sort` to be stable since 2019. Stability is proved only through its consequence for the first element (`SortDescHead`).
- Mood values are free strings. The untyped journal entries do not enforce the ten-value mood union of `src/types.tsx`.
