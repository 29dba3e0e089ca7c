/** The look-ups the handlers make after listing users and projects:
    `new Map(list.map(x => [x.id, x])).get(id)`. A `Map` built from pairs
    keeps the last pair of a repeated key, so the last document with the id
    is the one found. */
module Joins {
  import opened Wrappers
  import opened Docs
  import opened Seqs

  function UserById(users: seq<UserDoc>, id: string): (r: Option<UserDoc>)
    ensures r.None? <==> forall i :: 0 <= i < |users| ==> users[i].id != id
    ensures r.Some? ==> r.value in users && r.value.id == id
    ensures r.Some? ==> exists i :: 0 <= i < |users| && users[i] == r.value &&
                                    forall j :: i < j < |users| ==> users[j].id != id
  {
    FindLast(users, (u: UserDoc) => u.id == id)
  }

  function ProjectById(projects: seq<ProjectDoc>, id: string): (r: Option<ProjectDoc>)
    ensures r.None? <==> forall i :: 0 <= i < |projects| ==> projects[i].id != id
    ensures r.Some? ==> r.value in projects && r.value.id == id
    ensures r.Some? ==> exists i :: 0 <= i < |projects| && projects[i] == r.value &&
                                    forall j :: i < j < |projects| ==> projects[j].id != id
  {
    FindLast(projects, (p: ProjectDoc) => p.id == id)
  }

  function TaskById(tasks: seq<TaskDoc>, id: string): (r: Option<TaskDoc>)
    ensures r.None? <==> forall i :: 0 <= i < |tasks| ==> tasks[i].id != id
    ensures r.Some? ==> r.value in tasks && r.value.id == id
    ensures r.Some? ==> exists i :: 0 <= i < |tasks| && tasks[i] == r.value &&
                                    forall j :: i < j < |tasks| ==> tasks[j].id != id
  {
    FindLast(tasks, (t: TaskDoc) => t.id == id)
  }

  function ResourceById(resources: seq<ResourceDoc>, id: string): (r: Option<ResourceDoc>)
    ensures r.None? <==> forall i :: 0 <= i < |resources| ==> resources[i].id != id
    ensures r.Some? ==> r.value in resources && r.value.id == id
    ensures r.Some? ==> exists i :: 0 <= i < |resources| && resources[i] == r.value &&
                                    forall j :: i < j < |resources| ==> resources[j].id != id
  {
    FindLast(resources, (x: ResourceDoc) => x.id == id)
  }
}
