/** The issue translator: a GitHub issue becomes the body of a YouTrack issue request. */
module Translator {
  import opened Wrappers
  import opened Text

  /** A GitHub issue as delivered by the GitHub API or a webhook. `body` is `None` for a
      null/undefined body. `assignee` and `labels` are carried but never read. */
  datatype GitHubIssue = GitHubIssue(
    id: nat,
    title: string,
    body: Option<string>,
    state: string,
    assignee: Option<string>,
    labels: seq<string>)

  /** The three kinds of issue custom field the translator emits; each variant stands for
      one `$type` tag and carries only what that tag needs. */
  datatype CustomField =
    | StateField(name: string, state: string)     // StateIssueCustomField, value a StateBundleElement
    | EnumField(name: string, element: string)    // SingleEnumIssueCustomField, value an EnumBundleElement
    | SimpleField(name: string, text: string)     // SimpleIssueCustomField, value a plain string

  /** The JSON body posted to YouTrack's issue endpoints. */
  datatype IssuePayload = IssuePayload(
    projectId: nat,
    summary: string,
    description: string,
    customFields: seq<CustomField>)

  const NoDescription: string := "No description provided"
  const StateName: string := "State"
  const TypeName: string := "Type"
  const TaskType: string := "Task"
  const FixedState: string := "Fixed"
  const OpenState: string := "Open"
  const ClosedOnGitHub: string := "closed"
  /** The name of the correlation field that holds the GitHub issue id. */
  const CorrelationName: string := "GitHubId"

  /** `githubIssue.body || "No description provided"`: a null or empty body is falsy. */
  function Description(body: Option<string>): string
  {
    if body.Some? && body.value != "" then body.value else NoDescription
  }

  function StateFieldOf(state: string): CustomField
  {
    StateField(StateName, if state == ClosedOnGitHub then FixedState else OpenState)
  }

  const TypeField: CustomField := EnumField(TypeName, TaskType)

  /** The value of the first plain-string custom field called `name`, if any. */
  function FieldText(fields: seq<CustomField>, name: string): Option<string>
    decreases |fields|
  {
    if fields == [] then None
    else if fields[0].SimpleField? && fields[0].name == name then Some(fields[0].text)
    else FieldText(fields[1..], name)
  }

  /** The correlation value an issue body carries: the value of its `GitHubId` field. */
  function CorrelationOf(p: IssuePayload): Option<string>
  {
    FieldText(p.customFields, CorrelationName)
  }

  /** `createIssueBody` of the current client. */
  function CreateIssueBody(projectId: nat, issue: GitHubIssue): (p: IssuePayload)
    ensures p.projectId == projectId && p.summary == issue.title
    ensures issue.body.Some? && issue.body.value != "" ==> p.description == issue.body.value
    ensures issue.body.None? || issue.body == Some("") ==> p.description == NoDescription
    ensures |p.customFields| == 3
    ensures p.customFields[0].StateField? && p.customFields[0].name == StateName
    ensures p.customFields[0].state == FixedState <==> issue.state == ClosedOnGitHub
    ensures p.customFields[0].state == FixedState || p.customFields[0].state == OpenState
    ensures p.customFields[1] == EnumField(TypeName, TaskType)
    ensures p.customFields[2] == SimpleField(CorrelationName, ToDecimal(issue.id))
    ensures CorrelationOf(p) == Some(ToDecimal(issue.id))
  {
    var fields := [StateFieldOf(issue.state), TypeField, SimpleField(CorrelationName, ToDecimal(issue.id))];
    assert FieldText(fields, CorrelationName) == FieldText(fields[1..], CorrelationName);
    assert FieldText(fields[1..], CorrelationName) == FieldText(fields[2..], CorrelationName);
    IssuePayload(projectId, issue.title, Description(issue.body), fields)
  }

  /** `createIssueBody` of the older client: the same body without the correlation field. */
  function LegacyCreateIssueBody(projectId: nat, issue: GitHubIssue): (p: IssuePayload)
    ensures p.projectId == projectId && p.summary == issue.title
    ensures p.description == CreateIssueBody(projectId, issue).description
    ensures p.customFields == CreateIssueBody(projectId, issue).customFields[..2]
    ensures CorrelationOf(p) == None
  {
    var fields := [StateFieldOf(issue.state), TypeField];
    assert FieldText(fields, CorrelationName) == FieldText(fields[1..], CorrelationName);
    assert FieldText(fields[1..], CorrelationName) == FieldText(fields[2..], CorrelationName);
    IssuePayload(projectId, issue.title, Description(issue.body), fields)
  }

  /** Assignee and labels never influence either body. */
  lemma IgnoresAssigneeAndLabels(projectId: nat, a: GitHubIssue, b: GitHubIssue)
    requires a.id == b.id && a.title == b.title && a.body == b.body && a.state == b.state
    ensures CreateIssueBody(projectId, a) == CreateIssueBody(projectId, b)
    ensures LegacyCreateIssueBody(projectId, a) == LegacyCreateIssueBody(projectId, b)
  {
  }

  /** The correlation value identifies the GitHub issue: two bodies carry the same
      `GitHubId` exactly when they were made from issues with the same id. */
  lemma CorrelationIdentifiesIssue(p1: nat, a: GitHubIssue, p2: nat, b: GitHubIssue)
    ensures CorrelationOf(CreateIssueBody(p1, a)) == CorrelationOf(CreateIssueBody(p2, b)) <==> a.id == b.id
  {
    DecimalInjective(a.id, b.id);
  }
}
