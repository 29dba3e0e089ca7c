/** The projects handler, src/app/api/projects/route.ts: the listing with
    costs (hours booked against each project, their cost, revenue, profit
    and margin) and the update that answers 404 for an unknown id. */
module ProjectsRoute {
  import opened Wrappers
  import opened Http
  import opened Docs
  import opened Seqs
  import opened LumaStore

  /** The rate an entry is costed at when `resourceRates` has none for its
      user, and the hourly rate billed when the project has none (lines 26,
      31). */
  const DefaultCostRate := 50.0
  const DefaultBillingRate := 100.0

  /** `resourceRates[userId] || 50`: a missing or zero rate falls back to
      the default. */
  function RateOr50(resourceRates: map<string, real>, userId: string): (rate: real)
    ensures userId in resourceRates && resourceRates[userId] != 0.0 ==> rate == resourceRates[userId]
    ensures userId !in resourceRates ==> rate == DefaultCostRate
  {
    if userId in resourceRates && resourceRates[userId] != 0.0 then resourceRates[userId]
    else DefaultCostRate
  }

  /** The cost of one entry at the rates of `resourceRates`. */
  function RatedCost(resourceRates: map<string, real>): TaskTimeEntryDoc -> real {
    (e: TaskTimeEntryDoc) => EntryHours(e) * RateOr50(resourceRates, e.userId)
  }

  /** The entries booked against a project (line 20). */
  function ProjectEntries(timeEntries: seq<TaskTimeEntryDoc>, projectId: string): (r: seq<TaskTimeEntryDoc>)
    ensures forall e :: e in r <==> e in timeEntries && e.projectId == projectId
  {
    Filter(timeEntries, (e: TaskTimeEntryDoc) => e.projectId == projectId)
  }

  /** The loop of lines 24-28: each entry's hours at its user's rate. */
  method ActualCost(projectEntries: seq<TaskTimeEntryDoc>, resourceRates: map<string, real>) returns (actualCost: real)
    ensures actualCost == Sum(projectEntries, RatedCost(resourceRates))
  {
    actualCost := 0.0;
    var i := 0;
    while i < |projectEntries|
      invariant 0 <= i <= |projectEntries|
      invariant actualCost == Sum(projectEntries[..i], RatedCost(resourceRates))
    {
      var entry := projectEntries[i];
      assert projectEntries[..i + 1] == projectEntries[..i] + [entry];
      SumSnoc(projectEntries[..i], entry, RatedCost(resourceRates));
      var rate := RateOr50(resourceRates, entry.userId);
      actualCost := actualCost + EntryHours(entry) * rate;
      i := i + 1;
    }
    assert projectEntries[..i] == projectEntries;
  }

  /** `resourceRates` is never filled in, so every hour costs the default
      50: the cost is 50 times the hours. */
  lemma {:induction false} NoRatesCostFifty(entries: seq<TaskTimeEntryDoc>)
    ensures Sum(entries, RatedCost(map[])) == DefaultCostRate * Sum(entries, EntryHours)
  {
    forall i | 0 <= i < |entries|
      ensures RatedCost(map[])(entries[i]) == DefaultCostRate * EntryHours(entries[i])
    {
    }
    SumScale(entries, EntryHours, RatedCost(map[]), DefaultCostRate);
  }

  /** Line 31: billable projects earn their hours at their rate, or 100 when
      the rate is missing or zero; others earn nothing. */
  function Revenue(project: ProjectDoc, actualHours: real): (r: real)
    ensures !project.billable ==> r == 0.0
    ensures project.billable && TruthyReal(project.hourlyRate) ==> r == actualHours * project.hourlyRate.value
    ensures project.billable && !TruthyReal(project.hourlyRate) ==> r == actualHours * DefaultBillingRate
  {
    if project.billable then actualHours * (if TruthyReal(project.hourlyRate) then project.hourlyRate.value else DefaultBillingRate)
    else 0.0
  }

  /** Line 33: the profit as a percentage of a positive revenue, else 0; the
      division is never by zero. */
  function ProfitMargin(profit: real, revenue: real): (m: real)
    ensures revenue > 0.0 ==> m * revenue == profit * 100.0
    ensures revenue <= 0.0 ==> m == 0.0
  {
    if revenue > 0.0 then profit / revenue * 100.0 else 0.0
  }

  /** A project as the listing with costs reports it: its hours are the
      sum over the entries booked against it, each hour costs the default
      rate, and its profit and margin follow from its revenue. */
  ghost function Costed(project: ProjectDoc, timeEntries: seq<TaskTimeEntryDoc>): ProjectDoc {
    var hours := Sum(ProjectEntries(timeEntries, project.id), EntryHours);
    var cost := DefaultCostRate * hours;
    var revenue := Revenue(project, hours);
    project.(actualHours := Some(hours), actualCost := Some(cost),
             profit := Some(revenue - cost), profitMargin := Some(ProfitMargin(revenue - cost, revenue)))
  }

  /** The spread `...project` keeps every field but the four it replaces. */
  lemma CostedKeepsFields(project: ProjectDoc, timeEntries: seq<TaskTimeEntryDoc>)
    ensures var c := Costed(project, timeEntries);
            c.(actualHours := project.actualHours, actualCost := project.actualCost,
               profit := project.profit, profitMargin := project.profitMargin) == project
  {
  }

  /** The hours reported are those of the project's entries alone, and the
      profit is the revenue less the cost. */
  lemma CostedHours(project: ProjectDoc, timeEntries: seq<TaskTimeEntryDoc>)
    ensures var c := Costed(project, timeEntries);
            c.actualHours.Some? && c.actualCost.Some? && c.profit.Some? &&
            c.actualHours.value == Sum(ProjectEntries(timeEntries, project.id), EntryHours) &&
            c.actualCost.value == DefaultCostRate * c.actualHours.value &&
            c.profit.value == Revenue(project, c.actualHours.value) - c.actualCost.value
  {
  }

  /** A positive revenue gives a margin that is the profit in percent of
      it. */
  lemma CostedMargin(project: ProjectDoc, timeEntries: seq<TaskTimeEntryDoc>)
    requires Revenue(project, Sum(ProjectEntries(timeEntries, project.id), EntryHours)) > 0.0
    ensures var c := Costed(project, timeEntries);
            c.profitMargin.Some? && c.profit.Some? &&
            c.profitMargin.value * Revenue(project, c.actualHours.value) == c.profit.value * 100.0
  {
  }

  /** One project of the listing with costs (lines 18-42). */
  method WithCosts(project: ProjectDoc, timeEntries: seq<TaskTimeEntryDoc>) returns (r: ProjectDoc)
    ensures r == Costed(project, timeEntries)
  {
    var resourceRates: map<string, real> := map[];
    var projectEntries := ProjectEntries(timeEntries, project.id);
    var actualHours := Sum(projectEntries, EntryHours);
    var actualCost := ActualCost(projectEntries, resourceRates);
    NoRatesCostFifty(projectEntries);
    var revenue := Revenue(project, actualHours);
    var profit := revenue - actualCost;
    var profitMargin := ProfitMargin(profit, revenue);
    r := project.(actualHours := Some(actualHours), actualCost := Some(actualCost),
                  profit := Some(profit), profitMargin := Some(profitMargin));
  }

  /** A non-billable project earns nothing, so its profit is minus its cost
      and its margin zero. */
  lemma NonBillableLoses(project: ProjectDoc, timeEntries: seq<TaskTimeEntryDoc>)
    requires !project.billable
    ensures var c := Costed(project, timeEntries);
            c.actualCost.Some? && c.profit == Some(-c.actualCost.value) && c.profitMargin == Some(0.0)
  {
  }

  /** The `GET` handler: `projects` as `getProjects` lists them and
      `timeEntries` every task-time entry. Without costs the listing is
      returned as it is; with them, the same projects in the same order. */
  method GetProjects(projects: seq<ProjectDoc>, timeEntries: seq<TaskTimeEntryDoc>, withCosts: bool)
    returns (data: seq<ProjectDoc>)
    ensures !withCosts ==> data == projects
    ensures |data| == |projects|
    ensures withCosts ==> forall i :: 0 <= i < |projects| ==> data[i] == Costed(projects[i], timeEntries)
  {
    if !withCosts {
      return projects;
    }
    data := [];
    var i := 0;
    while i < |projects|
      invariant 0 <= i <= |projects| && |data| == i
      invariant forall k :: 0 <= k < i ==> data[k] == Costed(projects[k], timeEntries)
    {
      var r := WithCosts(projects[i], timeEntries);
      data := data + [r];
      i := i + 1;
    }
  }

  /** The `PUT` handler (lines 76-95): the merge of `updateProject`, or 404
      with nothing written when the id is unknown. */
  method PutProject(store: DocStore, id: string, updates: ProjectPatch, now: int) returns (reply: Reply<ProjectDoc>)
    requires store.Valid()
    modifies store
    ensures store.Valid()
    ensures id !in old(store.db.projects) ==>
              reply == Fail(404, "Project not found") && store.db == old(store.db)
    ensures id in old(store.db.projects) ==>
              reply == Ok(MergeProject(old(store.db.projects)[id], updates, now)) &&
              store.db == old(store.db).(projects := old(store.db.projects)[id := reply.data])
  {
    var project := store.UpdateProject(id, updates, now);
    if project.None? {
      return Fail(404, "Project not found");
    }
    return Ok(project.value);
  }
}
