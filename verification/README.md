# GitHub → YouTrack issue synchronisation, YouTrack side

This project models the YouTrack half of a GitHub-to-YouTrack issue mirror in Dafny. Four pieces are covered:

- the **issue translator** (`createIssueBody`), which turns a GitHub issue into the body of a YouTrack issue request;
- the **project lookup** (`findProjectByName`) and project creation;
- the **provisioning of the correlation field** `GitHubId` (`addGithubIdCustomField`), which creates the field and attaches it to the project;
- the **sync decision** (`syncIsseToYouTrack`): it looks the issue up by its GitHub id, then creates a record or updates the one it found.

YouTrack is an in-memory destination: the class `Destination.YouTrack`. It holds four tables: projects, custom fields, field-to-project attachments and issues. It has one method per REST endpoint the client calls. Every endpoint takes a `transport` parameter. This is the failure the network or the server reports for that one request, or `None` when the request is served. So any remote failure can be placed anywhere. A failed request changes nothing. Destination ids are natural numbers handed out by a counter.

Modules:

- `Wrappers`: `Option`, and `Result` with a string error description.
- `Text`: ASCII lower-casing, `includes`, and the decimal form of a number with its parse-back round trip.
- `Seqs`: `Array.prototype.find`.
- `Translator`: both versions of `createIssueBody`.
- `Projects`: projects and the case-insensitive lookup.
- `IssueTable`: the issue table and `Upsert`. `Upsert` is the specification of a successful sync, together with its count and replay lemmas.
- `Destination`: the in-memory YouTrack.
- `Client`: `src/client/youTrackClient.js`.
- `LegacyClient`: `src/youTrackClient.js`.

Main results:

- **`IssueTable.UpsertCount`**: when issue ids are unique and the new id is unused, a successful sync never raises the number of records that carry a `GitHubId` already present. An absent value ends up on exactly one record. The count of every other value stays the same. The table grows exactly when the value was absent.
- **`IssueTable.UpsertIdempotent`**: replaying the same sync leaves the table as the first run left it.
- `Client.SyncIssueToYouTrack` is proved equal to `Upsert` on success and to no change on failure. It repeats the count facts in its own contract.

Modelling assumptions about YouTrack, which is not part of this model:

- The query `GitHubId: <id>` matches exactly the records whose `GitHubId` value equals the decimal form of the id, in table order.
- Creating a field whose name is taken fails with a message ending in "already exists".
- Attaching an attached field fails with a message ending in "already attached".
- An unknown project or issue gives "404 Not Found".
- A new project whose name or short name is taken is refused.
- An update replaces the whole stored body of the addressed issue.

Behaviour of the code worth knowing:

- The code tells benign collisions apart by a substring of the error description, not by a structured reason code.
- The code does not check that the title is non-empty.
- A missing project during sync makes the code throw a `TypeError` on `existingProject.id`. This is modelled as the error outcome `NullProjectError`.
- An "already exists" reply with no field named `GitHubId` on the list makes the code throw on `githubField.id`. This is `UndefinedFieldError`.
- The code has no separate "ensure project" operation. Find-then-create lives in the bootstrap code, which is not part of this model.

## Model

| member | source | states |
|---|---|---|
| Text.ToDecimal | src/client/youTrackClient.js:91 | `id.toString()` of a non-negative id is a non-empty string of decimal digits with no leading zero; it is one digit exactly when the id is below 10 |
| Text.DecimalRoundTrip | src/client/youTrackClient.js:91 | parsing the decimal form of an id gives the id back |
| Text.DecimalInjective | src/client/youTrackClient.js:264 | two ids have the same decimal form exactly when they are equal, so the text query and the stored value agree on identity |
| Text.Lower | src/client/youTrackClient.js:26 | `toLowerCase` on ASCII: same length, every capital becomes its small letter, every other character stays, and no capital is left |
| Text.LowerIdempotent | src/client/youTrackClient.js:26 | lower-casing an already lower-cased string changes nothing |
| Text.EqualsIgnoringCase | src/youTrackClient.js:19 | names that are equal ignoring case have the same length |
| Text.EqualsOwnLower | src/client/youTrackClient.js:26 | a name equals its own lower-cased form ignoring case |
| Text.Contains | src/client/youTrackClient.js:147 | `includes`: a string can contain only a phrase no longer than itself (this is how a "404 Not Found" reply is known not to be a benign collision) |
| Text.ContainsIff | src/client/youTrackClient.js:147 | `includes` holds exactly when the phrase occurs at some index of the string, in both directions |
| Text.ContainsSuffix | src/client/youTrackClient.js:176 | a reply ending in a phrase contains that phrase, so the destination's own "already exists"/"already attached" replies are recognised |
| Seqs.FindIndex | src/client/youTrackClient.js:25-27 | `Array.find` position: none exactly when no element satisfies the test; otherwise the element there satisfies it and every earlier one does not |
| Seqs.Find | src/client/youTrackClient.js:152-154 | `Array.find`: nothing exactly when no element satisfies the test; otherwise the element at the first satisfying position |
| Projects.FindProject | src/client/youTrackClient.js:25-29 | `null` exactly when no project name equals the query ignoring case; otherwise the first such project in list order (the older file's lines 18-22 are the same code) |
| Projects.FindProjectIgnoresCase | src/client/youTrackClient.js:26 | the lookup depends only on the lower-cased query |
| Translator.CreateIssueBody | src/client/youTrackClient.js:69-120 | project id and summary are copied; description is the body when it is a non-empty string and "No description provided" when it is missing or empty; exactly three custom fields in the order State, Type, `GitHubId`; State is "Fixed" if and only if the state is "closed", otherwise "Open"; Type is always the enum "Task"; `GitHubId` holds the id's decimal form and is the body's correlation value |
| Translator.LegacyCreateIssueBody | src/youTrackClient.js:40-81 | the older body: the same project, summary and description, and the first two custom fields of the current body (State, Type) only, so it carries no correlation value |
| Translator.IgnoresAssigneeAndLabels | src/client/youTrackClient.js:96-118 | issues that differ only in assignee and labels give identical bodies, in both versions |
| Translator.CorrelationIdentifiesIssue | src/client/youTrackClient.js:88-92 | two bodies carry the same `GitHubId` exactly when they come from issues with the same id, whatever the project |
| IssueTable.Carrying | src/client/youTrackClient.js:263-272 | the answer to `GitHubId: g`: only records of the table that carry `g`, and it is empty exactly when no record carries `g` |
| IssueTable.Replace | src/client/youTrackClient.js:236-242 | an update addressed to an id: same length; the records with that id get the new body and keep their id; all other records are unchanged |
| IssueTable.CarryingAppend | src/client/youTrackClient.js:206-213 | appending a created record adds it to the query answer exactly when it carries the value |
| IssueTable.CountAppend | src/client/youTrackClient.js:206-213 | a create raises the count of a value by one exactly when the new record carries it |
| IssueTable.ReplaceCount | src/client/youTrackClient.js:236-242 | an update that writes a body with the same `GitHubId` as the record it addresses leaves the count of every value unchanged |
| IssueTable.ReplaceNoop | src/client/youTrackClient.js:236-242 | writing back the body a record already has leaves the table unchanged |
| IssueTable.FirstCarryingKept | src/client/youTrackClient.js:274 | after updating the first record carrying `g` with a body carrying `g`, that record is still the first answer to the query |
| IssueTable.UpsertCount | src/client/youTrackClient.js:286-298 | with unique ids and an unused new id, one sync leaves a present `GitHubId` count unchanged, makes an absent one 1, leaves every other value's count alone, and grows the table by one exactly when the value was absent |
| IssueTable.UpsertIdempotent | src/client/youTrackClient.js:286-298 | syncing the same body twice gives the same table as syncing it once |
| Destination.YouTrack.ListProjects | src/client/youTrackClient.js:19-24 | GET of the project list: the transport error, or the current projects |
| Destination.YouTrack.PostProject | src/client/youTrackClient.js:46-48 | creating a project fails on a transport error or a taken name or short name, and changes nothing then; otherwise appends the project under a new id |
| Destination.YouTrack.PostCustomField | src/client/youTrackClient.js:134-143 | creating a field fails with "… already exists" when the name is taken; otherwise appends it under a new id |
| Destination.YouTrack.ListCustomFields | src/client/youTrackClient.js:148-151 | GET of the field list: the transport error, or the current fields |
| Destination.YouTrack.AttachField | src/client/youTrackClient.js:163-172 | attaching gives "404 Not Found" for an unknown project or field and "<field name> is already attached" for an attached pair; otherwise adds the pair; nothing else changes |
| Destination.YouTrack.PostIssue | src/client/youTrackClient.js:209-211 | posting an issue fails exactly on a transport error or an unknown project; otherwise appends the record under a new id |
| Destination.YouTrack.PostIssueUpdate | src/client/youTrackClient.js:239-241 | posting to an issue id fails exactly on a transport error or an unknown id; otherwise replaces that record's body |
| Destination.YouTrack.QueryByCorrelation | src/client/youTrackClient.js:264-272 | the issue query answers every record carrying the value, in table order |
| Client.FindProjectByName | src/client/youTrackClient.js:18-30 | a failed listing propagates; otherwise the result is a project of the list whose name matches ignoring case, and `null` exactly when none matches |
| Client.CreateProject | src/client/youTrackClient.js:39-58 | sends the name, the short name (default "YT") and leader "admin"; a failure is returned to the caller, never swallowed, and leaves the projects unchanged; success appends exactly that project |
| Client.FindField | src/client/youTrackClient.js:152-154 | the first field named exactly `GitHubId`, and nothing exactly when no field has that name |
| Client.CreateOrAdoptField | src/client/youTrackClient.js:131-160 | a created field yields its new id; a creation error containing "already exists" yields the id of the first field named `GitHubId` (a failed listing propagates, a list without it is a `TypeError`); any other creation error propagates; the field is created only when no field of that name exists |
| Client.AttachToProject | src/client/youTrackClient.js:162-182 | succeeds exactly when the attach call succeeds or its error contains "already attached"; any other error propagates; the pair is attached after a successful call the destination served, and an "already attached" transport reply leaves the attachments unchanged |
| Client.AddGithubIdCustomField | src/client/youTrackClient.js:130-194 | composes the two phases: any phase-1 failure is the result and changes nothing; otherwise phase 2 decides; on success the phase-1 id is returned, it is the id of the field named `GitHubId`, and it is attached unless the transport itself said "already attached"; the field table gains the new `GitHubId` field exactly when phase 1 succeeds and no field of that name existed, so a field created in phase 1 stays when phase 2 fails; the attachments gain exactly the pair on a served successful attach and are otherwise unchanged; provisioning an already provisioned project returns the same id and changes nothing |
| Client.FindYouTrackIssueByGithubId | src/client/youTrackClient.js:263-275 | a failed query propagates; otherwise `null` exactly when no record carries the id's decimal form, else the first record, in table order, that carries it |
| Client.CreateIssue | src/client/youTrackClient.js:206-224 | posts the translated body; fails exactly on a transport error or an unknown project, changing nothing; on success appends one record and raises the count of the issue's `GitHubId` by one, duplicates included |
| Client.UpdateIssueById | src/client/youTrackClient.js:236-253 | posts the translated body to the given id; fails exactly on a transport error or an unknown id, changing nothing; otherwise the table is the old one with that record's body replaced |
| Client.SyncIssueToYouTrack | src/client/youTrackClient.js:286-298 | a failed lookup or listing propagates; a missing project is the `null`-dereference error; otherwise the write outcome decides; on success the table is `Upsert` of the old one (create exactly when the lookup found nothing, else update of the found id, never both); a present `GitHubId` is never duplicated and an absent one appears once |
| LegacyClient.CreateProject | src/youTrackClient.js:25-38 | same as the current client except that the short name defaults to "GH"; failures reach the caller |
| LegacyClient.CreateIssue | src/youTrackClient.js:83-98 | posts the older body; a failure propagates and changes nothing; success appends one record that carries no `GitHubId`, so the count for the issue's id is unchanged and a later lookup cannot find it |

## Left out

- The axios transport, the bearer headers and the `process.env` configuration (both files, lines 1-9). These are I/O. Every remote call is an endpoint method of `Destination.YouTrack` with an injected `transport` failure.
- All `console.log` and `console.error` output, including the logging in the outer `catch` of `addGithubIdCustomField`. That `catch` only rethrows, so it is modelled as propagation.
- Error objects are reduced to their `error_description` string. A transport error without a response is a description without the benign phrases, so it behaves the same. An error whose `response` has no `data` would make the check itself throw a `TypeError`. That case is not modelled.
- `toLowerCase` is modelled on ASCII letters only. Unicode case mapping is not modelled.
- `Number.prototype.toString` is modelled as plain decimal digits of a non-negative integer. The exponent form JavaScript uses from 10^21 upwards is not modelled, since GitHub issue ids are far below it.
- The semantics of YouTrack's query language beyond exact equality on the `GitHubId` value.
- YouTrack's exact error wording and the effect of an update on fields the body omits. The model's assumptions are listed above.
- The third argument in `createIssue(existingProject.id, issue, false)` (src/client/youTrackClient.js:291) is ignored by `createIssue` and dropped.
- `updateIssueById` is returned without `await` in the sync (line 295). The caller sees the same result, so the model does not distinguish the two.
- src/server.js is not part of this model: its Express routing, raw-body capture and `listen` are HTTP plumbing.
- src/syncService.js is not part of this model: the bootstrap sequencing, the find-then-create of the project, and the bulk import with its unawaited concurrent creates. The duplicates such an import can cause are still visible through `Client.CreateIssue`, whose contract shows that creating always adds a carrier.
- src/githubClient.js is not part of this model. It wraps the GitHub client library's pagination and its pull-request filter.
- Webhook signature verification. The code that computes the HMAC is not part of the available source, and the work is cryptographic.
- The race between concurrent webhook deliveries for one issue: read, then create, without a lock. The model is sequential, so the `UpsertCount` guarantee holds per sync run and not across interleaved runs.
- The older file's `findProjectByName` (src/youTrackClient.js:11-23) is the same code as the current one. It is modelled once, by `Client.FindProjectByName` over `Projects.FindProject`.
