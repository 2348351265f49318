/** An in-memory YouTrack: the tables the synchronisation reads and writes, and the REST
    endpoints it calls, as methods. Every endpoint takes `transport`, the failure the
    network or the server reports for that one request (`None` when the request is
    served); a failed request changes nothing. */
module Destination {
  import opened Wrappers
  import opened Text
  import opened Translator
  import opened Projects
  import opened IssueTable

  /** A destination-wide custom field definition. */
  datatype FieldDef = FieldDef(id: nat, name: string, fieldType: string)

  const NotFound: string := "404 Not Found"
  const AlreadyExists: string := "already exists"
  const AlreadyAttached: string := "already attached"

  /** The reply to creating something whose name is taken. */
  function ExistsMessage(name: string): string
  {
    name + " " + AlreadyExists
  }

  /** The reply to attaching a field that is attached already. */
  function AttachedMessage(name: string): string
  {
    name + " is " + AlreadyAttached
  }

  predicate ProjectExists(projects: seq<Project>, id: nat)
  {
    exists i :: 0 <= i < |projects| && projects[i].id == id
  }

  predicate FieldExists(fields: seq<FieldDef>, id: nat)
  {
    exists i :: 0 <= i < |fields| && fields[i].id == id
  }

  /** The name of the first listed field with id `id`. */
  function FieldName(fields: seq<FieldDef>, id: nat): (name: string)
    requires FieldExists(fields, id)
    ensures exists i :: 0 <= i < |fields| && fields[i].id == id && fields[i].name == name
  {
    if fields[0].id == id then fields[0].name
    else
      var i :| 0 <= i < |fields| && fields[i].id == id;
      assert fields[1..][i - 1].id == id;
      var name := FieldName(fields[1..], id);
      var j :| 0 <= j < |fields[1..]| && fields[1..][j].id == id && fields[1..][j].name == name;
      assert fields[j + 1] == fields[1..][j];
      name
  }

  predicate FieldNameTaken(fields: seq<FieldDef>, name: string)
  {
    exists i :: 0 <= i < |fields| && fields[i].name == name
  }

  /** A new project must differ from every existing one in name and in short name. */
  predicate ProjectClash(projects: seq<Project>, name: string, shortName: string)
  {
    exists i :: 0 <= i < |projects| && (projects[i].name == name || projects[i].shortName == shortName)
  }

  class YouTrack {
    var projects: seq<Project>
    var fields: seq<FieldDef>
    /** Pairs (project id, field id) of fields attached to projects. */
    var attached: set<(nat, nat)>
    var issues: seq<IssueRecord>
    /** The id the destination hands out next. */
    var nextId: nat

    ghost predicate Valid()
      reads this
    {
      && (forall i :: 0 <= i < |projects| ==> projects[i].id < nextId)
      && (forall i :: 0 <= i < |fields| ==> fields[i].id < nextId)
      && (forall a :: a in attached ==> ProjectExists(projects, a.0) && FieldExists(fields, a.1))
      && IdsIncreasing(issues) && IdsBelow(issues, nextId)
    }

    constructor ()
      ensures Valid()
      ensures projects == [] && fields == [] && attached == {} && issues == []
    {
      projects, fields, attached, issues, nextId := [], [], {}, [], 0;
    }

    /** GET /admin/projects */
    method ListProjects(transport: Option<string>) returns (r: Result<seq<Project>>)
      ensures transport.Some? ==> r == Err(transport.value)
      ensures transport.None? ==> r == Ok(projects)
    {
      if transport.Some? { return Err(transport.value); }
      return Ok(projects);
    }

    /** POST /admin/projects */
    method PostProject(name: string, shortName: string, leader: string, transport: Option<string>)
      returns (r: Result<Project>)
      requires Valid()
      modifies this
      ensures Valid()
      ensures fields == old(fields) && attached == old(attached) && issues == old(issues)
      ensures r.Err? <==> transport.Some? || ProjectClash(old(projects), name, shortName)
      ensures transport.Some? ==> r == Err(transport.value)
      ensures r.Err? ==> projects == old(projects) && nextId == old(nextId)
      ensures r.Ok? ==> (r.value == Project(old(nextId), name, shortName, leader)
        && projects == old(projects) + [r.value] && nextId == old(nextId) + 1)
    {
      if transport.Some? { return Err(transport.value); }
      if ProjectClash(projects, name, shortName) { return Err(ExistsMessage(name)); }
      var p := Project(nextId, name, shortName, leader);
      ghost var before := projects;
      projects := projects + [p];
      nextId := nextId + 1;
      forall a | a in attached ensures ProjectExists(projects, a.0) {
        var i :| 0 <= i < |before| && before[i].id == a.0;
        assert projects[i] == before[i];
      }
      return Ok(p);
    }

    /** POST /admin/customFieldSettings/customFields */
    method PostCustomField(name: string, fieldType: string, transport: Option<string>)
      returns (r: Result<nat>)
      requires Valid()
      modifies this
      ensures Valid()
      ensures projects == old(projects) && attached == old(attached) && issues == old(issues)
      ensures transport.Some? ==> r == Err(transport.value)
      ensures transport.None? && FieldNameTaken(old(fields), name) ==> r == Err(ExistsMessage(name))
      ensures transport.None? && !FieldNameTaken(old(fields), name) ==> r == Ok(old(nextId))
      ensures r.Err? ==> fields == old(fields) && nextId == old(nextId)
      ensures r.Ok? ==> fields == old(fields) + [FieldDef(r.value, name, fieldType)] && nextId == old(nextId) + 1
    {
      if transport.Some? { return Err(transport.value); }
      if FieldNameTaken(fields, name) { return Err(ExistsMessage(name)); }
      var id := nextId;
      ghost var before := fields;
      fields := fields + [FieldDef(id, name, fieldType)];
      nextId := nextId + 1;
      forall a | a in attached ensures FieldExists(fields, a.1) {
        var i :| 0 <= i < |before| && before[i].id == a.1;
        assert fields[i] == before[i];
      }
      return Ok(id);
    }

    /** GET /admin/customFieldSettings/customFields */
    method ListCustomFields(transport: Option<string>) returns (r: Result<seq<FieldDef>>)
      ensures transport.Some? ==> r == Err(transport.value)
      ensures transport.None? ==> r == Ok(fields)
    {
      if transport.Some? { return Err(transport.value); }
      return Ok(fields);
    }

    /** POST /admin/projects/{projectId}/customFields */
    method AttachField(projectId: nat, fieldId: nat, transport: Option<string>) returns (r: Result<()>)
      requires Valid()
      modifies this
      ensures Valid()
      ensures projects == old(projects) && fields == old(fields) && issues == old(issues) && nextId == old(nextId)
      ensures transport.Some? ==> r == Err(transport.value)
      ensures transport.None? && !(ProjectExists(projects, projectId) && FieldExists(fields, fieldId)) ==> r == Err(NotFound)
      ensures transport.None? && ProjectExists(projects, projectId) && FieldExists(fields, fieldId) ==>
        r == (if (projectId, fieldId) in old(attached) then Err(AttachedMessage(FieldName(fields, fieldId))) else Ok(()))
      ensures attached == if r.Ok? then old(attached) + {(projectId, fieldId)} else old(attached)
    {
      if transport.Some? { return Err(transport.value); }
      if !(ProjectExists(projects, projectId) && FieldExists(fields, fieldId)) { return Err(NotFound); }
      if (projectId, fieldId) in attached { return Err(AttachedMessage(FieldName(fields, fieldId))); }
      attached := attached + {(projectId, fieldId)};
      return Ok(());
    }

    /** POST /issues */
    method PostIssue(p: IssuePayload, transport: Option<string>) returns (r: Result<IssueRecord>)
      requires Valid()
      modifies this
      ensures Valid()
      ensures projects == old(projects) && fields == old(fields) && attached == old(attached)
      ensures r.Err? <==> transport.Some? || !ProjectExists(projects, p.projectId)
      ensures transport.Some? ==> r == Err(transport.value)
      ensures r.Err? ==> issues == old(issues) && nextId == old(nextId)
      ensures r.Ok? ==> (r.value == IssueRecord(old(nextId), p)
        && issues == old(issues) + [r.value] && nextId == old(nextId) + 1)
    {
      if transport.Some? { return Err(transport.value); }
      if !ProjectExists(projects, p.projectId) { return Err(NotFound); }
      var rec := IssueRecord(nextId, p);
      issues := issues + [rec];
      nextId := nextId + 1;
      return Ok(rec);
    }

    /** POST /issues/{issueId}: the stored body is replaced by the posted one. */
    method PostIssueUpdate(issueId: nat, p: IssuePayload, transport: Option<string>) returns (r: Result<IssueRecord>)
      requires Valid()
      modifies this
      ensures Valid()
      ensures projects == old(projects) && fields == old(fields) && attached == old(attached) && nextId == old(nextId)
      ensures r.Err? <==> transport.Some? || !HasId(old(issues), issueId)
      ensures transport.Some? ==> r == Err(transport.value)
      ensures r.Err? ==> issues == old(issues)
      ensures r.Ok? ==> r.value == IssueRecord(issueId, p) && issues == Replace(old(issues), issueId, p)
    {
      if transport.Some? { return Err(transport.value); }
      if !HasId(issues, issueId) { return Err(NotFound); }
      issues := Replace(issues, issueId, p);
      return Ok(IssueRecord(issueId, p));
    }

    /** GET /issues?query=GitHubId: g */
    method QueryByCorrelation(g: string, transport: Option<string>) returns (r: Result<seq<IssueRecord>>)
      ensures transport.Some? ==> r == Err(transport.value)
      ensures transport.None? ==> r == Ok(Carrying(issues, g))
    {
      if transport.Some? { return Err(transport.value); }
      return Ok(Carrying(issues, g));
    }
  }
}
