/** The approval handlers, src/app/api/approvals/route.ts: submitting a
    user's week for approval, reviewing a submission, and the listing.

    Submitting and reviewing both end by writing a status onto the
    timesheet rows of the week under review, one `updateTimeEntry` per row
    that `getTimeEntries({ userId, weekNumber, year })` lists. */
module ApprovalsRoute {
  import opened Wrappers
  import opened Http
  import opened Docs
  import opened Seqs
  import opened Calendar
  import opened LumaListings
  import opened LumaStore
  import opened Joins

  /** The filter `{ userId, weekNumber, year }` of one user's week. Like
      every listing filter it ignores falsy values, so an empty user id or a
      zero week or year selects more than one week. */
  function WeekOf(userId: string, weekNumber: int, year: int): TimeEntryFilter {
    TimeEntryFilter(Some(userId), None, Some(weekNumber), Some(year))
  }

  /** The timesheet rows after `updateTimeEntry(id, { status })` for every
      row the filter selects: those carry the status and a fresh
      `updatedAt`, every other row is as it was. */
  ghost function Marked(T: map<string, TimeEntryDoc>, f: TimeEntryFilter, status: string, now: int)
    : (r: map<string, TimeEntryDoc>)
    ensures r.Keys == T.Keys
    ensures forall k :: k in T && MatchesTimeEntry(f, T[k]) ==> r[k] == T[k].(status := status, updatedAt := now)
    ensures forall k :: k in T && !MatchesTimeEntry(f, T[k]) ==> r[k] == T[k]
  {
    map k | k in T :: if MatchesTimeEntry(f, T[k]) then MergeTimeEntry(T[k], StatusPatch(status), now) else T[k]
  }

  /** The rows after the status update of the rows stored under `ids`. */
  ghost function MarkIds(T: map<string, TimeEntryDoc>, ids: set<string>, status: string, now: int)
    : map<string, TimeEntryDoc>
  {
    map k | k in T :: if k in ids then MergeTimeEntry(T[k], StatusPatch(status), now) else T[k]
  }

  function EntryIds(entries: seq<TimeEntryDoc>): set<string> {
    set e | e in entries :: e.id
  }

  lemma EntryIdsStep(entries: seq<TimeEntryDoc>, i: nat)
    requires i < |entries|
    ensures EntryIds(entries[..i + 1]) == EntryIds(entries[..i]) + {entries[i].id}
  {
    assert entries[..i + 1] == entries[..i] + [entries[i]];
  }

  /** One more status update: writing the status twice on a row leaves it
      as writing it once, and an id that is not stored changes nothing. */
  lemma MarkStep(T: map<string, TimeEntryDoc>, ids: set<string>, id: string, status: string, now: int)
    ensures var M := MarkIds(T, ids, status, now);
            (if id in M then M[id := MergeTimeEntry(M[id], StatusPatch(status), now)] else M)
              == MarkIds(T, ids + {id}, status, now)
  {
  }

  /** A stored row is listed by `getTimeEntries(f)`, over a store whose
      rows sit under their own ids, exactly when `f` selects it. */
  lemma ListedIds(T: map<string, TimeEntryDoc>, found: seq<(string, TimeEntryDoc)>, f: TimeEntryFilter)
    requires (forall k :: k in T ==> T[k].id == k) && Lists(T, found)
    ensures forall k :: k in T ==> (k in EntryIds(GetTimeEntries(DocsOf(found), f)) <==> MatchesTimeEntry(f, T[k]))
  {
    var listed := GetTimeEntries(DocsOf(found), f);
    forall k | k in T ensures k in EntryIds(listed) <==> MatchesTimeEntry(f, T[k]) {
      if k in EntryIds(listed) {
        var e :| e in listed && e.id == k;
        ListedIsStored(T, found, f, e);
      }
      if MatchesTimeEntry(f, T[k]) {
        StoredIsListed(T, found, f, k);
      }
    }
  }

  /** A listed row is the stored row under its id, and the filter selects it. */
  lemma ListedIsStored(T: map<string, TimeEntryDoc>, found: seq<(string, TimeEntryDoc)>, f: TimeEntryFilter,
                       e: TimeEntryDoc)
    requires (forall k :: k in T ==> T[k].id == k) && Lists(T, found)
    requires e in GetTimeEntries(DocsOf(found), f)
    ensures e.id in T && T[e.id] == e && MatchesTimeEntry(f, e)
  {
    var docs := DocsOf(found);
    var n :| 0 <= n < |docs| && docs[n] == e;
    assert T[found[n].0] == e;
  }

  /** A stored row the filter selects is listed. */
  lemma StoredIsListed(T: map<string, TimeEntryDoc>, found: seq<(string, TimeEntryDoc)>, f: TimeEntryFilter, k: string)
    requires Lists(T, found) && k in T && MatchesTimeEntry(f, T[k])
    ensures T[k] in GetTimeEntries(DocsOf(found), f)
  {
    var docs := DocsOf(found);
    var n :| 0 <= n < |found| && found[n].0 == k;
    assert docs[n] == T[k];
  }

  /** Updating the rows under `ids` is updating the rows the filter selects
      when the two pick out the same stored rows. */
  lemma SameSelection(T: map<string, TimeEntryDoc>, ids: set<string>, f: TimeEntryFilter, status: string, now: int)
    requires forall k :: k in T ==> (k in ids <==> MatchesTimeEntry(f, T[k]))
    ensures MarkIds(T, ids, status, now) == Marked(T, f, status, now)
  {
    var A := MarkIds(T, ids, status, now);
    var B := Marked(T, f, status, now);
    forall k | k in T ensures A[k] == B[k] {
      if k in ids {
        assert A[k] == MergeTimeEntry(T[k], StatusPatch(status), now);
      }
    }
  }

  /** Updating the listed rows is updating the rows the filter selects. */
  lemma ListedMarked(T: map<string, TimeEntryDoc>, found: seq<(string, TimeEntryDoc)>, f: TimeEntryFilter,
                     status: string, now: int)
    requires (forall k :: k in T ==> T[k].id == k) && Lists(T, found)
    ensures MarkIds(T, EntryIds(GetTimeEntries(DocsOf(found), f)), status, now) == Marked(T, f, status, now)
  {
    var ids := EntryIds(GetTimeEntries(DocsOf(found), f));
    ListedIds(T, found, f);
    SameSelection(T, ids, f, status, now);
  }

  /** The loop of lines 69-71 and 116-118: one `updateTimeEntry` per
      listed row. */
  method MarkEntries(store: DocStore, entries: seq<TimeEntryDoc>, status: string, now: int)
    requires store.Valid()
    modifies store
    ensures store.Valid()
    ensures store.db == old(store.db).(timeEntries := MarkIds(old(store.db.timeEntries), EntryIds(entries), status, now))
  {
    ghost var S0 := store.db;
    var i := 0;
    while i < |entries|
      invariant 0 <= i <= |entries|
      invariant store.Valid()
      invariant store.db == S0.(timeEntries := MarkIds(S0.timeEntries, EntryIds(entries[..i]), status, now))
    {
      EntryIdsStep(entries, i);
      MarkStep(S0.timeEntries, EntryIds(entries[..i]), entries[i].id, status, now);
      var _ := store.UpdateTimeEntry(entries[i].id, StatusPatch(status), now);
      i := i + 1;
    }
    assert entries[..i] == entries;
  }

  /** `getTimeEntries(f)` followed by the status update of every row it
      lists. */
  method MarkWeek(store: DocStore, f: TimeEntryFilter, status: string, now: int)
    requires store.Valid()
    modifies store
    ensures store.Valid()
    ensures store.db == old(store.db).(timeEntries := Marked(old(store.db.timeEntries), f, status, now))
  {
    var found := Enumerate(store.db.timeEntries);
    var entries := GetTimeEntries(DocsOf(found), f);
    ListedMarked(store.db.timeEntries, found, f, status, now);
    MarkEntries(store, entries, status, now);
  }

  /** Rows of another user, week or year keep every field, provided the
      week is named by a non-empty user id and non-zero week and year. */
  lemma OtherWeeksUntouched(T: map<string, TimeEntryDoc>, userId: string, weekNumber: int, year: int,
                            status: string, now: int, k: string)
    requires userId != "" && weekNumber != 0 && year != 0
    requires k in T && (T[k].userId != userId || T[k].weekNumber != weekNumber || T[k].year != year)
    ensures Marked(T, WeekOf(userId, weekNumber, year), status, now)[k] == T[k]
  {
  }

  /** The rows of the week itself get the status, whatever they had. */
  lemma WeekRowsMarked(T: map<string, TimeEntryDoc>, userId: string, weekNumber: int, year: int,
                       status: string, now: int, k: string)
    requires k in T && T[k].userId == userId && T[k].weekNumber == weekNumber && T[k].year == year
    ensures Marked(T, WeekOf(userId, weekNumber, year), status, now)[k].status == status
  {
  }

  // ----------------------------------------------------------------- POST

  /** The body of a submission. */
  datatype Submission = Submission(userId: string, weekNumber: int, year: int, totalHours: real)

  /** `apr_${Date.now()}`. */
  function ApprovalId(now: int): string {
    "apr_" + IntToString(now)
  }

  /** The `POST` handler (lines 49-76): a pending approval submitted now,
      and every row of the user's week set to pending. */
  method PostApproval(store: DocStore, body: Submission, now: int) returns (approval: ApprovalDoc)
    requires store.Valid()
    modifies store
    ensures store.Valid()
    ensures approval == ApprovalDoc(ApprovalId(now), body.userId, None, body.weekNumber, body.year,
                                    body.totalHours, "pending", None, Some(now), None, now)
    ensures store.db == old(store.db).(
              approvals := old(store.db.approvals)[approval.id := approval],
              timeEntries := Marked(old(store.db.timeEntries), WeekOf(body.userId, body.weekNumber, body.year),
                                    "pending", now))
  {
    var id := ApprovalId(now);
    approval := store.CreateApproval(ApprovalDoc(id, body.userId, None, body.weekNumber, body.year,
                                                 body.totalHours, "pending", None, Some(now), None, 0), now);
    MarkWeek(store, WeekOf(body.userId, body.weekNumber, body.year), "pending", now);
  }

  // ------------------------------------------------------------------ PUT

  /** The body of a review. */
  datatype Review = Review(id: string, status: string, approverId: Option<string>, comments: Option<string>)

  /** The update of lines 92-97: the status and `reviewedAt` always, the
      approver and the comments only when given non-empty. */
  function ReviewPatch(review: Review, now: int): ApprovalPatch {
    ApprovalPatch(Keep, if Truthy(review.approverId) then Set(review.approverId) else Keep,
                  Keep, Keep, Keep, Set(review.status),
                  if Truthy(review.comments) then Set(review.comments) else Keep,
                  Keep, Set(Some(now)))
  }

  /** The approval a review leaves: the status sent is written whatever
      the previous one was, and the review time is always set. */
  function Reviewed(a: ApprovalDoc, review: Review, now: int): (r: ApprovalDoc)
    ensures r.id == a.id && r.userId == a.userId && r.weekNumber == a.weekNumber && r.year == a.year
    ensures r.totalHours == a.totalHours && r.submittedAt == a.submittedAt && r.createdAt == a.createdAt
    ensures r.status == review.status && r.reviewedAt == Some(now)
    ensures r.approverId == if Truthy(review.approverId) then review.approverId else a.approverId
    ensures r.comments == if Truthy(review.comments) then review.comments else a.comments
  {
    MergeApproval(a, ReviewPatch(review, now))
  }

  /** A decision is copied onto the rows; any other status is not. */
  predicate Decides(status: string) {
    status == "approved" || status == "rejected"
  }

  /** The `PUT` handler (lines 86-121): 404 with nothing written for an
      unknown approval; otherwise the approval is reviewed and, when the
      status is a decision, the rows of its week carry it. */
  method PutApproval(store: DocStore, review: Review, now: int) returns (reply: Reply<()>)
    requires store.Valid()
    modifies store
    ensures store.Valid()
    ensures review.id !in old(store.db.approvals) ==>
              reply == Fail(404, "Approval not found") && store.db == old(store.db)
    ensures review.id in old(store.db.approvals) ==>
              var a := old(store.db.approvals)[review.id];
              var T := old(store.db.timeEntries);
              reply == Ok(()) &&
              store.db == old(store.db).(
                approvals := old(store.db.approvals)[review.id := Reviewed(a, review, now)],
                timeEntries := if Decides(review.status)
                               then Marked(T, WeekOf(a.userId, a.weekNumber, a.year), review.status, now)
                               else T)
  {
    var approval := store.UpdateApproval(review.id, ReviewPatch(review, now));
    if approval.None? {
      return Fail(404, "Approval not found");
    }
    if review.status == "approved" || review.status == "rejected" {
      var a := approval.value;
      MarkWeek(store, WeekOf(a.userId, a.weekNumber, a.year), review.status, now);
    }
    reply := Ok(());
  }

  /** A second review overrides the first: approved can become rejected. */
  lemma ReviewOverrides(a: ApprovalDoc, first: Review, second: Review, t1: int, t2: int)
    ensures Reviewed(Reviewed(a, first, t1), second, t2).status == second.status
    ensures Reviewed(Reviewed(a, first, t1), second, t2).reviewedAt == Some(t2)
  {
  }

  // ------------------------------------------------------------------ GET

  /** The `limit` when the query has none. */
  const DefaultLimit := 100

  /** An approval as the listing reports it, with its user or null. */
  datatype ApprovalRow = ApprovalRow(
    id: string, userId: string, approverId: Option<string>, weekNumber: int, year: int,
    totalHours: real, status: string, comments: Option<string>, submittedAt: Option<int>,
    reviewedAt: Option<int>, user: Option<UserDoc>)

  function Row(a: ApprovalDoc, users: seq<UserDoc>): (r: ApprovalRow)
    ensures r.id == a.id && r.userId == a.userId && r.approverId == a.approverId
    ensures r.weekNumber == a.weekNumber && r.year == a.year && r.totalHours == a.totalHours
    ensures r.status == a.status && r.comments == a.comments
    ensures r.submittedAt == a.submittedAt && r.reviewedAt == a.reviewedAt
    ensures r.user.None? <==> forall i :: 0 <= i < |users| ==> users[i].id != a.userId
    ensures r.user.Some? ==> r.user.value in users && r.user.value.id == a.userId
    ensures r.user.Some? ==> exists i :: 0 <= i < |users| && users[i] == r.user.value &&
                                         forall j :: i < j < |users| ==> users[j].id != a.userId
  {
    ApprovalRow(a.id, a.userId, a.approverId, a.weekNumber, a.year, a.totalHours, a.status,
                a.comments, a.submittedAt, a.reviewedAt, UserById(users, a.userId))
  }

  /** The `GET` handler (lines 4-39): `found` is the approval collection,
      `users` the user listing; the newest matching approvals come first and
      at most `limit` (100 when absent) are returned. */
  function GetApprovalRows(found: seq<ApprovalDoc>, users: seq<UserDoc>, status: Option<string>,
                           userId: Option<string>, limit: Option<int>): (rows: seq<ApprovalRow>)
    ensures var listed := GetApprovals(found, status, userId);
            var n := limit.GetOr(DefaultLimit);
            (n >= 0 ==> |rows| == if n < |listed| then n else |listed|) &&
            (n < 0 ==> |rows| == if |listed| + n > 0 then |listed| + n else 0) &&
            forall i :: 0 <= i < |rows| ==> rows[i] == Row(listed[i], users)
    ensures limit.None? && |GetApprovals(found, status, userId)| >= DefaultLimit ==> |rows| == DefaultLimit
  {
    var listed := Slice(GetApprovals(found, status, userId), limit.GetOr(DefaultLimit));
    MapSeq(listed, (a: ApprovalDoc) => Row(a, users))
  }
}
