/** The older copy of the client: its project creation defaults the short name to "GH" and
    its issue creation posts a body without the `GitHubId` field. Its `findProjectByName` is
    the same as the current client's (`Client.FindProjectByName`). */
module LegacyClient {
  import opened Wrappers
  import opened Text
  import opened Translator
  import opened Projects
  import opened IssueTable
  import opened Destination

  const LegacyShortName: string := "GH"

  /** `createProject` of the older client: post name, short name (default "GH") and leader
      "admin"; a failure reaches the caller unchanged. */
  method CreateProject(yt: YouTrack, projectName: string, shortName: Option<string>, transport: Option<string>)
    returns (r: Result<Project>)
    requires yt.Valid()
    modifies yt
    ensures yt.Valid()
    ensures yt.fields == old(yt.fields) && yt.attached == old(yt.attached) && yt.issues == old(yt.issues)
    ensures transport.Some? ==> r == Err(transport.value)
    ensures r.Err? <==> (transport.Some?
      || ProjectClash(old(yt.projects), projectName, if shortName.Some? then shortName.value else LegacyShortName))
    ensures r.Err? ==> yt.projects == old(yt.projects)
    ensures r.Ok? ==> (r.value.name == projectName && r.value.leader == LeaderLogin
      && r.value.shortName == (if shortName.Some? then shortName.value else LegacyShortName)
      && yt.projects == old(yt.projects) + [r.value])
  {
    var short := if shortName.Some? then shortName.value else LegacyShortName;
    r := yt.PostProject(projectName, short, LeaderLogin, transport);
  }

  /** `createIssue` of the older client: post the body without a correlation field. The
      record it creates is invisible to the lookup by GitHub id. */
  method CreateIssue(yt: YouTrack, projectId: nat, issue: GitHubIssue, transport: Option<string>)
    returns (r: Result<IssueRecord>)
    requires yt.Valid()
    modifies yt
    ensures yt.Valid()
    ensures yt.projects == old(yt.projects) && yt.fields == old(yt.fields) && yt.attached == old(yt.attached)
    ensures transport.Some? ==> r == Err(transport.value)
    ensures r.Err? <==> transport.Some? || !ProjectExists(yt.projects, projectId)
    ensures r.Err? ==> yt.issues == old(yt.issues)
    ensures r.Ok? ==> (r.value == IssueRecord(old(yt.nextId), LegacyCreateIssueBody(projectId, issue))
      && yt.issues == old(yt.issues) + [r.value])
    ensures r.Ok? ==> CorrelationOf(r.value.payload) == None
    ensures Count(yt.issues, ToDecimal(issue.id)) == old(Count(yt.issues, ToDecimal(issue.id)))
  {
    var body := LegacyCreateIssueBody(projectId, issue);
    ghost var before := yt.issues;
    r := yt.PostIssue(body, transport);
    if r.Ok? {
      CountAppend(before, r.value, ToDecimal(issue.id));
    }
  }
}
