/** The maintenance handler src/app/api/check-users/route.ts: every user
    stored without a password gets a default one and is made active; users
    that have a password are left alone. */
module CheckUsersRoute {
  import opened Wrappers
  import opened Docs
  import opened Seqs
  import opened Calendar
  import opened LumaListings
  import opened LumaStore

  /** The passwords of the five seeded users (lines 15-21). */
  const DefaultPasswords: map<string, string> := map[
    "user_1" := "admin123", "user_2" := "carlos123", "user_3" := "maria123",
    "user_4" := "pedro123", "user_5" := "laura123"]

  /** `defaultPasswords[user.id] || 'password123'` (line 24): never empty,
      so a back-filled user always has a password afterwards. */
  function DefaultPassword(id: string): (pw: string)
    ensures pw != ""
    ensures id in DefaultPasswords ==> pw == DefaultPasswords[id]
    ensures id !in DefaultPasswords ==> pw == "password123"
  {
    if id in DefaultPasswords && DefaultPasswords[id] != "" then DefaultPasswords[id] else "password123"
  }

  /** `!u.password` (line 9). */
  predicate LacksPassword(u: UserDoc) {
    !Truthy(u.password)
  }

  /** The update `{ password, isActive: true }` of lines 25-28. */
  function PasswordPatch(id: string): UserPatch {
    NoUserChange.(password := Set(Some(DefaultPassword(id))), isActive := Set(true))
  }

  /** The users after the back-fill: each one without a password now has
      its default password, is active and was updated now; every other
      user is as it was. */
  ghost function BackFilled(U: map<string, UserDoc>, now: int): (r: map<string, UserDoc>)
    ensures r.Keys == U.Keys
    ensures forall k :: k in U && LacksPassword(U[k]) ==>
              r[k] == U[k].(password := Some(DefaultPassword(k)), isActive := true, updatedAt := Some(now))
    ensures forall k :: k in U && !LacksPassword(U[k]) ==> r[k] == U[k]
    ensures forall k :: k in r ==> !LacksPassword(r[k])
  {
    map k | k in U :: if LacksPassword(U[k]) then MergeUser(U[k], PasswordPatch(k), now) else U[k]
  }

  /** A second back-fill finds nothing left to do. */
  lemma BackFillIdempotent(U: map<string, UserDoc>, now: int, later: int)
    ensures BackFilled(BackFilled(U, now), later) == BackFilled(U, now)
  {
    var B := BackFilled(U, now);
    var C := BackFilled(B, later);
    forall k | k in B ensures C[k] == B[k] {
      assert !LacksPassword(B[k]);
    }
  }

  /** The users after the update of the users stored under `ids`. */
  ghost function FillIds(U: map<string, UserDoc>, ids: set<string>, now: int): map<string, UserDoc> {
    map k | k in U :: if k in ids then MergeUser(U[k], PasswordPatch(k), now) else U[k]
  }

  function UserIds(users: seq<UserDoc>): set<string> {
    set u | u in users :: u.id
  }

  lemma UserIdsStep(users: seq<UserDoc>, i: nat)
    requires i < |users|
    ensures UserIds(users[..i + 1]) == UserIds(users[..i]) + {users[i].id}
  {
    assert users[..i + 1] == users[..i] + [users[i]];
  }

  /** One more update: updating a user twice leaves it as updating it
      once, and an id that is not stored changes nothing. */
  lemma FillStep(U: map<string, UserDoc>, ids: set<string>, id: string, now: int)
    ensures var M := FillIds(U, ids, now);
            (if id in M then M[id := MergeUser(M[id], PasswordPatch(id), now)] else M)
              == FillIds(U, ids + {id}, now)
  {
  }

  /** The loop of lines 23-30: one `updateUser` per listed user. */
  method FillPasswords(store: DocStore, users: seq<UserDoc>, now: int)
    requires store.Valid()
    modifies store
    ensures store.Valid()
    ensures store.db == old(store.db).(users := FillIds(old(store.db.users), UserIds(users), now))
  {
    ghost var S0 := store.db;
    var i := 0;
    while i < |users|
      invariant 0 <= i <= |users|
      invariant store.Valid()
      invariant store.db == S0.(users := FillIds(S0.users, UserIds(users[..i]), now))
    {
      UserIdsStep(users, i);
      FillStep(S0.users, UserIds(users[..i]), users[i].id, now);
      var _ := store.UpdateUser(users[i].id, PasswordPatch(users[i].id), now);
      i := i + 1;
    }
    assert users[..i] == users;
  }

  /** The users without a password in `getUsers()` of a store whose users
      sit under their own ids. */
  function Lacking(listed: seq<UserDoc>): seq<UserDoc> {
    Filter(listed, LacksPassword)
  }

  /** A stored user is among those the handler updates exactly when it
      has no password. */
  lemma ListedLacking(U: map<string, UserDoc>, found: seq<(string, UserDoc)>, nameRank: string -> int)
    requires (forall k :: k in U ==> U[k].id == k) && Lists(U, found)
    ensures forall k :: k in U ==> (k in UserIds(Lacking(GetUsers(DocsOf(found), nameRank))) <==> LacksPassword(U[k]))
  {
    forall k | k in U
      ensures k in UserIds(Lacking(GetUsers(DocsOf(found), nameRank))) <==> LacksPassword(U[k])
    {
      if LacksPassword(U[k]) {
        StoredIsListed(U, found, nameRank, k);
      } else {
        NotLackingNotListed(U, found, nameRank, k);
      }
    }
  }

  /** A stored user with a password is not among those updated. */
  lemma NotLackingNotListed(U: map<string, UserDoc>, found: seq<(string, UserDoc)>, nameRank: string -> int, k: string)
    requires (forall k :: k in U ==> U[k].id == k) && Lists(U, found)
    requires k in U && !LacksPassword(U[k])
    ensures k !in UserIds(Lacking(GetUsers(DocsOf(found), nameRank)))
  {
    var lacking := Lacking(GetUsers(DocsOf(found), nameRank));
    if k in UserIds(lacking) {
      var u :| u in lacking && u.id == k;
      var n :| 0 <= n < |lacking| && lacking[n] == u;
      LackingIsStored(U, found, nameRank, u);
    }
  }

  /** Updating the users under `ids` is the back-fill when the ids are
      those of the users without a password. */
  lemma SameUsers(U: map<string, UserDoc>, ids: set<string>, now: int)
    requires forall k :: k in U ==> (k in ids <==> LacksPassword(U[k]))
    ensures FillIds(U, ids, now) == BackFilled(U, now)
  {
    var A := FillIds(U, ids, now);
    var B := BackFilled(U, now);
    forall k | k in U ensures A[k] == B[k] {
      if k in ids {
        assert A[k] == MergeUser(U[k], PasswordPatch(k), now);
      }
    }
  }

  function One(u: UserDoc): real {
    1.0
  }

  /** 1 for a user without a password, 0 for the others. */
  function LackingCount(u: UserDoc): real {
    if LacksPassword(u) then 1.0 else 0.0
  }

  lemma {:induction false} SumOnes(s: seq<UserDoc>)
    ensures Sum(s, One) == |s| as real
  {
    if s != [] {
      SumOnes(s[1..]);
    }
  }

  /** The number of users the handler updates is the number of stored
      users without a password, whatever order `getUsers` lists them in. */
  lemma LackingCounted(U: map<string, UserDoc>, found: seq<(string, UserDoc)>, nameRank: string -> int)
    requires Lists(U, found)
    ensures |Lacking(GetUsers(DocsOf(found), nameRank))| as real == SumValues(U, LackingCount)
  {
    var docs := DocsOf(found);
    var listed := GetUsers(docs, nameRank);
    SumOnes(Lacking(listed));
    SumFilterZero(listed, LacksPassword, One, LackingCount);
    SumPermutation(listed, docs, LackingCount);
    SumListing(U, found, LackingCount);
  }

  /** One user of the report of an update. */
  datatype UserMark = UserMark(id: string, email: string)

  /** One user of the report when nothing was updated. */
  datatype UserState = UserState(id: string, email: string, hasPassword: bool, isActive: bool)

  datatype CheckReport =
    | Updated(message: string, updated: seq<UserMark>)
    | AllHavePasswords(message: string, userCount: nat, users: seq<UserState>)

  function Mark(u: UserDoc): UserMark {
    UserMark(u.id, u.email)
  }

  function State(u: UserDoc): UserState {
    UserState(u.id, u.email, Truthy(u.password), u.isActive)
  }

  /** The `GET` handler (lines 4-52): with some user lacking a password,
      exactly those users are updated and counted in the message; with
      none, nothing is written and every user is reported as having a
      password. */
  method CheckUsers(store: DocStore, nameRank: string -> int, now: int) returns (report: CheckReport)
    requires store.Valid()
    modifies store
    ensures store.Valid()
    ensures report.Updated? <==> exists k :: k in old(store.db.users) && LacksPassword(old(store.db.users)[k])
    ensures report.Updated? ==>
              store.db == old(store.db).(users := BackFilled(old(store.db.users), now)) &&
              report.message == "Updated " + NatToString(|report.updated|) + " users with passwords" &&
              |report.updated| as real == SumValues(old(store.db.users), LackingCount) &&
              (forall k :: k in old(store.db.users) && LacksPassword(old(store.db.users)[k]) ==>
                 Mark(old(store.db.users)[k]) in report.updated) &&
              (forall m :: m in report.updated ==> m.id in old(store.db.users) && LacksPassword(old(store.db.users)[m.id]))
    ensures report.AllHavePasswords? ==>
              store.db == old(store.db) &&
              report.message == "All users have passwords" &&
              report.userCount == |old(store.db.users)| && |report.users| == |old(store.db.users)| &&
              (forall k :: k in old(store.db.users) ==> State(old(store.db.users)[k]) in report.users) &&
              (forall s :: s in report.users ==>
                 s.id in old(store.db.users) && s == State(old(store.db.users)[s.id]) && s.hasPassword)
  {
    var found := Enumerate(store.db.users);
    var users := GetUsers(DocsOf(found), nameRank);
    var lacking := Lacking(users);
    ReportedMarks(store.db.users, found, nameRank);
    if |lacking| > 0 {
      LackingCounted(store.db.users, found, nameRank);
      ListedLacking(store.db.users, found, nameRank);
      SameUsers(store.db.users, UserIds(lacking), now);
      var marks := MapSeq(lacking, Mark);
      FillPasswords(store, lacking, now);
      report := Updated("Updated " + NatToString(|lacking|) + " users with passwords", marks);
    } else {
      ReportedStates(store.db.users, found, nameRank);
      report := AllHavePasswords("All users have passwords", |users|, MapSeq(users, State));
    }
  }

  /** Some user is updated exactly when some stored user has no password,
      and the report names exactly the stored users without one. */
  lemma ReportedMarks(U: map<string, UserDoc>, found: seq<(string, UserDoc)>, nameRank: string -> int)
    requires (forall k :: k in U ==> U[k].id == k) && Lists(U, found)
    ensures var lacking := Lacking(GetUsers(DocsOf(found), nameRank));
            (|lacking| > 0 <==> exists k :: k in U && LacksPassword(U[k])) &&
            (forall k :: k in U && LacksPassword(U[k]) ==> Mark(U[k]) in MapSeq(lacking, Mark)) &&
            (forall m :: m in MapSeq(lacking, Mark) ==> m.id in U && LacksPassword(U[m.id]))
  {
    var lacking := Lacking(GetUsers(DocsOf(found), nameRank));
    if |lacking| > 0 {
      LackingIsStored(U, found, nameRank, lacking[0]);
    }
    if k :| k in U && LacksPassword(U[k]) {
      ListedLacking(U, found, nameRank);
      assert k in UserIds(lacking);
    }
    MarksCover(U, found, nameRank);
    MarksLacking(U, found, nameRank);
  }

  lemma MarksCover(U: map<string, UserDoc>, found: seq<(string, UserDoc)>, nameRank: string -> int)
    requires (forall k :: k in U ==> U[k].id == k) && Lists(U, found)
    ensures var lacking := Lacking(GetUsers(DocsOf(found), nameRank));
            forall k :: k in U && LacksPassword(U[k]) ==> Mark(U[k]) in MapSeq(lacking, Mark)
  {
    var lacking := Lacking(GetUsers(DocsOf(found), nameRank));
    var marks := MapSeq(lacking, Mark);
    forall k | k in U && LacksPassword(U[k]) ensures Mark(U[k]) in marks {
      StoredIsListed(U, found, nameRank, k);
      var n :| 0 <= n < |lacking| && lacking[n] == U[k];
      assert marks[n] == Mark(U[k]);
    }
  }

  /** A stored user without a password is among those updated. */
  lemma StoredIsListed(U: map<string, UserDoc>, found: seq<(string, UserDoc)>, nameRank: string -> int, k: string)
    requires Lists(U, found) && k in U && LacksPassword(U[k])
    ensures U[k] in Lacking(GetUsers(DocsOf(found), nameRank))
  {
    var docs := DocsOf(found);
    var listed := GetUsers(docs, nameRank);
    var n :| 0 <= n < |found| && found[n].0 == k;
    assert docs[n] == U[k];
    assert U[k] in multiset(listed);
    var i :| 0 <= i < |listed| && listed[i] == U[k];
  }

  lemma MarksLacking(U: map<string, UserDoc>, found: seq<(string, UserDoc)>, nameRank: string -> int)
    requires (forall k :: k in U ==> U[k].id == k) && Lists(U, found)
    ensures var lacking := Lacking(GetUsers(DocsOf(found), nameRank));
            forall m :: m in MapSeq(lacking, Mark) ==> m.id in U && LacksPassword(U[m.id])
  {
    var lacking := Lacking(GetUsers(DocsOf(found), nameRank));
    var marks := MapSeq(lacking, Mark);
    forall m | m in marks ensures m.id in U && LacksPassword(U[m.id]) {
      var n :| 0 <= n < |marks| && marks[n] == m;
      LackingIsStored(U, found, nameRank, lacking[n]);
    }
  }

  /** With no user lacking a password, the report lists every stored user,
      each with a password. */
  lemma ReportedStates(U: map<string, UserDoc>, found: seq<(string, UserDoc)>, nameRank: string -> int)
    requires (forall k :: k in U ==> U[k].id == k) && Lists(U, found) && |found| == |U|
    requires forall k :: k in U ==> !LacksPassword(U[k])
    ensures var users := GetUsers(DocsOf(found), nameRank);
            var states := MapSeq(users, State);
            |users| == |U| &&
            (forall k :: k in U ==> State(U[k]) in states) &&
            (forall s :: s in states ==> s.id in U && s == State(U[s.id]) && s.hasPassword)
  {
    var users := GetUsers(DocsOf(found), nameRank);
    StatesStored(U, found, nameRank);
    StatesCover(U, found, nameRank);
    assert |users| == |multiset(users)| == |multiset(DocsOf(found))| == |found|;
  }

  /** Each reported state is that of the stored user under its id. */
  lemma StatesStored(U: map<string, UserDoc>, found: seq<(string, UserDoc)>, nameRank: string -> int)
    requires (forall k :: k in U ==> U[k].id == k) && Lists(U, found)
    requires forall k :: k in U ==> !LacksPassword(U[k])
    ensures forall s :: s in MapSeq(GetUsers(DocsOf(found), nameRank), State) ==>
              s.id in U && s == State(U[s.id]) && s.hasPassword
  {
    var users := GetUsers(DocsOf(found), nameRank);
    var states := MapSeq(users, State);
    forall s | s in states ensures s.id in U && s == State(U[s.id]) && s.hasPassword {
      var n :| 0 <= n < |states| && states[n] == s;
      LackingIsStored(U, found, nameRank, users[n]);
    }
  }

  /** Every stored user's state is reported. */
  lemma StatesCover(U: map<string, UserDoc>, found: seq<(string, UserDoc)>, nameRank: string -> int)
    requires Lists(U, found)
    ensures forall k :: k in U ==> State(U[k]) in MapSeq(GetUsers(DocsOf(found), nameRank), State)
  {
    var users := GetUsers(DocsOf(found), nameRank);
    var states := MapSeq(users, State);
    forall k | k in U ensures State(U[k]) in states {
      UserListed(U, found, nameRank, k);
      var n :| 0 <= n < |users| && users[n] == U[k];
      assert states[n] == State(U[k]);
    }
  }

  /** Every stored user is in the listing. */
  lemma UserListed(U: map<string, UserDoc>, found: seq<(string, UserDoc)>, nameRank: string -> int, k: string)
    requires Lists(U, found) && k in U
    ensures U[k] in GetUsers(DocsOf(found), nameRank)
  {
    var docs := DocsOf(found);
    var n :| 0 <= n < |found| && found[n].0 == k;
    assert docs[n] == U[k];
    assert U[k] in multiset(GetUsers(docs, nameRank));
  }

  /** A listed user is the stored user under its id. */
  lemma LackingIsStored(U: map<string, UserDoc>, found: seq<(string, UserDoc)>, nameRank: string -> int, u: UserDoc)
    requires (forall k :: k in U ==> U[k].id == k) && Lists(U, found)
    requires u in GetUsers(DocsOf(found), nameRank)
    ensures u.id in U && U[u.id] == u
  {
    var docs := DocsOf(found);
    assert u in multiset(docs);
    var n :| 0 <= n < |docs| && docs[n] == u;
    assert U[found[n].0] == u;
  }
}
