/** The YouTrack side of the synchronisation, as the current client performs it against a
    destination. Each remote call the client makes receives its own `transport` failure. */
module Client {
  import opened Wrappers
  import opened Text
  import opened Seqs
  import opened Translator
  import opened Projects
  import opened IssueTable
  import opened Destination

  const DefaultShortName: string := "YT"
  const StringFieldType: string := "string"
  /** What JavaScript throws on `existingProject.id` when the project lookup gave `null`. */
  const NullProjectError: string := "TypeError: Cannot read properties of null (reading 'id')"
  /** What JavaScript throws on `githubField.id` when no field is named `GitHubId`. */
  const UndefinedFieldError: string := "TypeError: Cannot read properties of undefined (reading 'id')"

  /** `findProjectByName`: fetch the project list and select from it. */
  method FindProjectByName(yt: YouTrack, projectName: string, transport: Option<string>)
    returns (r: Result<Option<Project>>)
    ensures transport.Some? ==> r == Err(transport.value)
    ensures transport.None? ==> r == Ok(FindProject(yt.projects, projectName))
    ensures r.Ok? && r.value.Some? ==> r.value.value in yt.projects && NameMatches(r.value.value, projectName)
    ensures r.Ok? ==> (r.value.None? <==> forall i :: 0 <= i < |yt.projects| ==> !NameMatches(yt.projects[i], projectName))
  {
    var listed := yt.ListProjects(transport);
    if listed.Err? { return Err(listed.error); }
    return Ok(FindProject(listed.value, projectName));
  }

  /** `createProject`: post name, short name (default "YT") and leader "admin"; a failure
      is handed back to the caller unchanged. */
  method CreateProject(yt: YouTrack, projectName: string, shortName: Option<string>, transport: Option<string>)
    returns (r: Result<Project>)
    requires yt.Valid()
    modifies yt
    ensures yt.Valid()
    ensures yt.fields == old(yt.fields) && yt.attached == old(yt.attached) && yt.issues == old(yt.issues)
    ensures transport.Some? ==> r == Err(transport.value)
    ensures r.Err? <==> (transport.Some?
      || ProjectClash(old(yt.projects), projectName, if shortName.Some? then shortName.value else DefaultShortName))
    ensures r.Err? ==> yt.projects == old(yt.projects)
    ensures r.Ok? ==> (r.value.name == projectName && r.value.leader == LeaderLogin
      && r.value.shortName == (if shortName.Some? then shortName.value else DefaultShortName)
      && yt.projects == old(yt.projects) + [r.value])
  {
    var short := if shortName.Some? then shortName.value else DefaultShortName;
    r := yt.PostProject(projectName, short, LeaderLogin, transport);
  }

  /** `existingFields.data.find((f) => f.name === "GitHubId")`: exact, case-sensitive name. */
  function FindField(fields: seq<FieldDef>, name: string): (r: Option<FieldDef>)
    ensures r.None? <==> !FieldNameTaken(fields, name)
    ensures r.Some? ==> r.value in fields && r.value.name == name
    ensures r.Some? ==> exists k :: (0 <= k < |fields| && fields[k] == r.value
      && forall j :: 0 <= j < k ==> fields[j].name != name)
  {
    var named := (f: FieldDef) => f.name == name;
    var r := Find(fields, named);
    assert r.None? ==> forall i :: 0 <= i < |fields| ==> !named(fields[i]);
    assert r.Some? ==> var k := FindIndex(fields, named).value;
      0 <= k < |fields| && fields[k] == r.value && forall j :: 0 <= j < k ==> !named(fields[j]);
    r
  }

  /** Phase 1 of field provisioning ends with a field id: either the destination creates the
      field, or the creation error says "already exists", the field list can be read and a
      field named `GitHubId` is on it. */
  predicate FieldPhaseSucceeds(fields: seq<FieldDef>, createT: Option<string>, listT: Option<string>)
  {
    || (createT.None? && !FieldNameTaken(fields, CorrelationName))
    || ((createT.None? || Contains(createT.value, AlreadyExists))
        && listT.None? && FieldNameTaken(fields, CorrelationName))
  }

  /** The id phase 1 settles on: the existing `GitHubId` field's, or the next id when the
      field gets created. */
  function FieldPhaseId(fields: seq<FieldDef>, nextId: nat): nat
  {
    var existing := FindField(fields, CorrelationName);
    if existing.Some? then existing.value.id else nextId
  }

  /** Phase 1 of `addGithubIdCustomField`: create the `GitHubId` field, or, when the
      destination says it "already exists", adopt the id of the listed field of that name.
      Every other error is rethrown. */
  method CreateOrAdoptField(yt: YouTrack, createT: Option<string>, listT: Option<string>)
    returns (r: Result<nat>)
    requires yt.Valid()
    modifies yt
    ensures yt.Valid()
    ensures yt.projects == old(yt.projects) && yt.issues == old(yt.issues) && yt.attached == old(yt.attached)
    ensures createT.Some? && !Contains(createT.value, AlreadyExists) ==> r == Err(createT.value)
    ensures ((createT.None? && FieldNameTaken(old(yt.fields), CorrelationName))
             || (createT.Some? && Contains(createT.value, AlreadyExists))) && listT.Some?
      ==> r == Err(listT.value)
    ensures (createT.Some? && Contains(createT.value, AlreadyExists) && listT.None?
      && !FieldNameTaken(old(yt.fields), CorrelationName)) ==> r == Err(UndefinedFieldError)
    ensures r.Ok? <==> FieldPhaseSucceeds(old(yt.fields), createT, listT)
    ensures r.Ok? ==> r.value == FieldPhaseId(old(yt.fields), old(yt.nextId))
    // the field is created only when no field of that name exists
    ensures yt.fields == if r.Ok? && !FieldNameTaken(old(yt.fields), CorrelationName)
      then old(yt.fields) + [FieldDef(old(yt.nextId), CorrelationName, StringFieldType)]
      else old(yt.fields)
    ensures r.Ok? ==> (FindField(yt.fields, CorrelationName).Some?
      && FindField(yt.fields, CorrelationName).value.id == r.value)
  {
    ContainsSuffix(CorrelationName + " ", AlreadyExists);
    assert ExistsMessage(CorrelationName) == CorrelationName + " " + AlreadyExists;
    var created := yt.PostCustomField(CorrelationName, StringFieldType, createT);
    if created.Ok? {
      assert yt.fields[|yt.fields| - 1].name == CorrelationName;
      return Ok(created.value);
    } else if Contains(created.error, AlreadyExists) {
      var listed := yt.ListCustomFields(listT);
      if listed.Err? { return Err(listed.error); }
      var githubField := FindField(listed.value, CorrelationName);
      if githubField.None? { return Err(UndefinedFieldError); }
      return Ok(githubField.value.id);
    } else {
      return Err(created.error);
    }
  }

  /** Phase 2 of `addGithubIdCustomField`: attach the field to the project; an error saying
      "already attached" counts as success, every other error is rethrown. */
  method AttachToProject(yt: YouTrack, projectId: nat, fieldId: nat, attachT: Option<string>)
    returns (r: Result<()>)
    requires yt.Valid() && FieldExists(yt.fields, fieldId)
    modifies yt
    ensures yt.Valid()
    ensures yt.projects == old(yt.projects) && yt.issues == old(yt.issues) && yt.fields == old(yt.fields)
    ensures attachT.Some? && !Contains(attachT.value, AlreadyAttached) ==> r == Err(attachT.value)
    ensures attachT.None? && !ProjectExists(yt.projects, projectId) ==> r == Err(NotFound)
    ensures r.Ok? <==> ((attachT.None? && ProjectExists(yt.projects, projectId))
                        || (attachT.Some? && Contains(attachT.value, AlreadyAttached)))
    ensures yt.attached == if r.Ok? && attachT.None? then old(yt.attached) + {(projectId, fieldId)}
                           else old(yt.attached)
  {
    ghost var name := FieldName(yt.fields, fieldId);
    ContainsSuffix(name + " is ", AlreadyAttached);
    assert AttachedMessage(name) == name + " is " + AlreadyAttached;
    var attach := yt.AttachField(projectId, fieldId, attachT);
    if attach.Err? && !Contains(attach.error, AlreadyAttached) {
      return Err(attach.error);
    }
    return Ok(());
  }

  /** `addGithubIdCustomField`: provision the `GitHubId` field and attach it to the project;
      on success the id of the field named `GitHubId` is returned. */
  method AddGithubIdCustomField(yt: YouTrack, projectId: nat,
                                createT: Option<string>, listT: Option<string>, attachT: Option<string>)
    returns (r: Result<nat>)
    requires yt.Valid()
    modifies yt
    ensures yt.Valid()
    ensures yt.projects == old(yt.projects) && yt.issues == old(yt.issues)
    // phase 1 fails: its error is the result and nothing changed
    ensures !FieldPhaseSucceeds(old(yt.fields), createT, listT) ==>
      (r.Err? && yt.fields == old(yt.fields) && yt.attached == old(yt.attached))
    ensures createT.Some? && !Contains(createT.value, AlreadyExists) ==> r == Err(createT.value)
    // phase 2 decides
    ensures (FieldPhaseSucceeds(old(yt.fields), createT, listT) && attachT.Some?
      && !Contains(attachT.value, AlreadyAttached)) ==> r == Err(attachT.value)
    ensures (FieldPhaseSucceeds(old(yt.fields), createT, listT) && attachT.None?
      && !ProjectExists(old(yt.projects), projectId)) ==> r == Err(NotFound)
    ensures (FieldPhaseSucceeds(old(yt.fields), createT, listT)
      && ((attachT.None? && ProjectExists(old(yt.projects), projectId))
          || (attachT.Some? && Contains(attachT.value, AlreadyAttached))))
      ==> r == Ok(FieldPhaseId(old(yt.fields), old(yt.nextId)))
    // on success: the id is that of the field named GitHubId, attached to the project unless
    // the transport itself claimed "already attached"
    ensures r.Ok? ==> (FindField(yt.fields, CorrelationName).Some?
      && FindField(yt.fields, CorrelationName).value.id == r.value)
    // a field created in phase 1 stays, whatever phase 2 does
    ensures yt.fields == if FieldPhaseSucceeds(old(yt.fields), createT, listT)
                             && !FieldNameTaken(old(yt.fields), CorrelationName)
      then old(yt.fields) + [FieldDef(old(yt.nextId), CorrelationName, StringFieldType)]
      else old(yt.fields)
    // the pair is attached only when the destination served the attach call
    ensures yt.attached == if r.Ok? && attachT.None? then old(yt.attached) + {(projectId, r.value)}
                           else old(yt.attached)
    // provisioning again what is already provisioned returns the same id and changes nothing
    ensures (createT.None? && listT.None? && attachT.None?
      && FindField(old(yt.fields), CorrelationName).Some?
      && (projectId, FindField(old(yt.fields), CorrelationName).value.id) in old(yt.attached))
      ==> (r == Ok(FindField(old(yt.fields), CorrelationName).value.id)
        && yt.fields == old(yt.fields) && yt.attached == old(yt.attached))
  {
    var fieldId := CreateOrAdoptField(yt, createT, listT);
    if fieldId.Err? { return Err(fieldId.error); }
    assert FieldExists(yt.fields, fieldId.value) by {
      var f := FindField(yt.fields, CorrelationName).value;
      var k :| 0 <= k < |yt.fields| && yt.fields[k] == f;
    }
    var attached := AttachToProject(yt, projectId, fieldId.value, attachT);
    if attached.Err? { return Err(attached.error); }
    return Ok(fieldId.value);
  }

  /** `findYouTrackIssueByGithubId`: query `GitHubId: <id>` and take the first answer. */
  method FindYouTrackIssueByGithubId(yt: YouTrack, githubId: nat, transport: Option<string>)
    returns (r: Result<Option<IssueRecord>>)
    ensures transport.Some? ==> r == Err(transport.value)
    ensures transport.None? ==> r.Ok? && (r.value.None? <==> Count(yt.issues, ToDecimal(githubId)) == 0)
    ensures r.Ok? && r.value.Some? ==> r.value.value == Carrying(yt.issues, ToDecimal(githubId))[0]
    ensures r.Ok? && r.value.Some? ==> r.value.value in yt.issues && Carries(r.value.value, ToDecimal(githubId))
  {
    var res := yt.QueryByCorrelation(ToDecimal(githubId), transport);
    if res.Err? { return Err(res.error); }
    if |res.value| > 0 {
      assert res.value[0] in res.value;
      return Ok(Some(res.value[0]));
    }
    return Ok(None);
  }

  /** `createIssue`: post the translated issue as a new record. */
  method CreateIssue(yt: YouTrack, projectId: nat, issue: GitHubIssue, transport: Option<string>)
    returns (r: Result<IssueRecord>)
    requires yt.Valid()
    modifies yt
    ensures yt.Valid()
    ensures yt.projects == old(yt.projects) && yt.fields == old(yt.fields) && yt.attached == old(yt.attached)
    ensures transport.Some? ==> r == Err(transport.value)
    ensures r.Err? <==> transport.Some? || !ProjectExists(yt.projects, projectId)
    ensures r.Err? ==> yt.issues == old(yt.issues)
    ensures r.Ok? ==> (r.value == IssueRecord(old(yt.nextId), CreateIssueBody(projectId, issue))
      && yt.issues == old(yt.issues) + [r.value])
    // creation never looks: one more record carries the issue's id, whatever was there
    ensures r.Ok? ==> Count(yt.issues, ToDecimal(issue.id)) == old(Count(yt.issues, ToDecimal(issue.id))) + 1
  {
    var body := CreateIssueBody(projectId, issue);
    ghost var before := yt.issues;
    r := yt.PostIssue(body, transport);
    if r.Ok? {
      CountAppend(before, r.value, ToDecimal(issue.id));
    }
  }

  /** `updateIssueById`: post the translated issue to the record with id `issueId`. */
  method UpdateIssueById(yt: YouTrack, projectId: nat, issue: GitHubIssue, issueId: nat, transport: Option<string>)
    returns (r: Result<IssueRecord>)
    requires yt.Valid()
    modifies yt
    ensures yt.Valid()
    ensures yt.projects == old(yt.projects) && yt.fields == old(yt.fields) && yt.attached == old(yt.attached)
    ensures transport.Some? ==> r == Err(transport.value)
    ensures r.Err? <==> transport.Some? || !HasId(old(yt.issues), issueId)
    ensures r.Err? ==> yt.issues == old(yt.issues)
    ensures r.Ok? ==> (r.value == IssueRecord(issueId, CreateIssueBody(projectId, issue))
      && yt.issues == Replace(old(yt.issues), issueId, CreateIssueBody(projectId, issue)))
  {
    var body := CreateIssueBody(projectId, issue);
    r := yt.PostIssueUpdate(issueId, body, transport);
  }

  /** `syncIsseToYouTrack`: look the issue up by its GitHub id, resolve the project by the
      repository name, then either create or update, never both. */
  method SyncIssueToYouTrack(yt: YouTrack, issue: GitHubIssue, repo: string,
                             queryT: Option<string>, listT: Option<string>, writeT: Option<string>)
    returns (r: Result<IssueRecord>)
    requires yt.Valid()
    modifies yt
    ensures yt.Valid()
    ensures yt.projects == old(yt.projects) && yt.fields == old(yt.fields) && yt.attached == old(yt.attached)
    // the outcome
    ensures queryT.Some? ==> r == Err(queryT.value)
    ensures queryT.None? && listT.Some? ==> r == Err(listT.value)
    ensures queryT.None? && listT.None? && FindProject(old(yt.projects), repo).None? ==> r == Err(NullProjectError)
    ensures queryT.None? && listT.None? && FindProject(old(yt.projects), repo).Some? && writeT.Some?
      ==> r == Err(writeT.value)
    ensures queryT.None? && listT.None? && FindProject(old(yt.projects), repo).Some? && writeT.None?
      ==> r.Ok?
    ensures r.Ok? ==> r.value.payload == CreateIssueBody(FindProject(old(yt.projects), repo).value.id, issue)
    ensures r.Err? ==> yt.issues == old(yt.issues)
    // a successful run is an upsert keyed by the correlation value
    ensures r.Ok? ==> (FindProject(old(yt.projects), repo).Some?
      && yt.issues == Upsert(old(yt.issues), old(yt.nextId),
                             CreateIssueBody(FindProject(old(yt.projects), repo).value.id, issue), ToDecimal(issue.id)))
    // exactly one of create and update: the table grows exactly when the id was unknown
    ensures r.Ok? ==> (|yt.issues| == |old(yt.issues)| + 1 <==> old(Count(yt.issues, ToDecimal(issue.id))) == 0)
    ensures r.Ok? ==> |yt.issues| <= |old(yt.issues)| + 1
    // a present correlation value is never duplicated; an absent one appears once
    ensures old(Count(yt.issues, ToDecimal(issue.id))) >= 1
      ==> Count(yt.issues, ToDecimal(issue.id)) == old(Count(yt.issues, ToDecimal(issue.id)))
    ensures r.Ok? && old(Count(yt.issues, ToDecimal(issue.id))) == 0 ==> Count(yt.issues, ToDecimal(issue.id)) == 1
  {
    ghost var before := yt.issues;
    ghost var g := ToDecimal(issue.id);
    var youTrackIssue := FindYouTrackIssueByGithubId(yt, issue.id, queryT);
    if youTrackIssue.Err? { return Err(youTrackIssue.error); }
    var existingProject := FindProjectByName(yt, repo, listT);
    if existingProject.Err? { return Err(existingProject.error); }
    if existingProject.value.None? { return Err(NullProjectError); }
    var project := existingProject.value.value;
    ghost var body := CreateIssueBody(project.id, issue);
    UpsertCount(before, yt.nextId, body, g, g);
    if youTrackIssue.value.None? {
      ghost var k :| 0 <= k < |yt.projects| && yt.projects[k] == project;
      r := CreateIssue(yt, project.id, issue, writeT);
    } else {
      var found := youTrackIssue.value.value;
      ghost var k :| 0 <= k < |before| && before[k] == found;
      r := UpdateIssueById(yt, project.id, issue, found.id, writeT);
    }
  }
}
