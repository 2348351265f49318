/** YouTrack projects and the lookup of a project by its display name. */
module Projects {
  import opened Wrappers
  import opened Text
  import opened Seqs

  /** A YouTrack project: id, display name, short name and the login of its leader. */
  datatype Project = Project(id: nat, name: string, shortName: string, leader: string)

  /** The login both clients make the leader of a project they create. */
  const LeaderLogin: string := "admin"

  /** The project's name equals the query when both are lower-cased. */
  predicate NameMatches(p: Project, query: string)
  {
    EqualsIgnoringCase(p.name, query)
  }

  /** Position `k` holds the first project whose name matches `query`. */
  predicate FirstMatchAt(projects: seq<Project>, query: string, k: int)
  {
    0 <= k < |projects| && NameMatches(projects[k], query)
    && forall j :: 0 <= j < k ==> !NameMatches(projects[j], query)
  }

  /** The selection inside `findProjectByName`: the first project, in list order, whose
      name equals `query` ignoring case; `None` stands for the `null` it returns. */
  function FindProject(projects: seq<Project>, query: string): (r: Option<Project>)
    ensures r.None? <==> forall i :: 0 <= i < |projects| ==> !NameMatches(projects[i], query)
    ensures r.Some? ==> exists k :: FirstMatchAt(projects, query, k) && projects[k] == r.value
  {
    var matches := (p: Project) => NameMatches(p, query);
    var r := Find(projects, matches);
    assert r.Some? ==> FirstMatchAt(projects, query, FindIndex(projects, matches).value);
    r
  }

  /** The lookup sees only the lower-cased query. */
  lemma FindProjectIgnoresCase(projects: seq<Project>, q1: string, q2: string)
    requires Lower(q1) == Lower(q2)
    ensures FindProject(projects, q1) == FindProject(projects, q2)
  {
    var r1, r2 := FindProject(projects, q1), FindProject(projects, q2);
    if r1.Some? && r2.Some? {
      var k1 :| FirstMatchAt(projects, q1, k1) && projects[k1] == r1.value;
      var k2 :| FirstMatchAt(projects, q2, k2) && projects[k2] == r2.value;
      assert forall j :: 0 <= j < |projects| ==> NameMatches(projects[j], q1) == NameMatches(projects[j], q2);
      assert FirstMatchAt(projects, q1, k2);
    }
  }
}
