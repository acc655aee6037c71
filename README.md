# clio agent and command helpers, modelled in Dafny

This project models the logic at the core of the clio repository and proves properties of it:

- **The clioAgent job handlers.**
  - `BaseHandler` raises a fixed protocol of status events around every job and every traced step.
  - `RestoreDbHandler` copies a build archive into the working directory, unzips it, creates a PostgreSQL database and runs `pg_restore`.
  - `DeployIISHandler` validates its arguments, copies the unzipped site (skipping `.backup` files) and rewrites the site's connection strings.
  - `ConnectionStringsFileHandler` rewrites attributes of the first matching nodes of `ConnectionStrings.config`, and of the web config on .NET Core.
- **The agent's endpoints and policies.**
  - The job status queries.
  - The deployment submission.
  - API-key authentication.
  - The claim requirement.
  - The `CustomProblem` error body.
- **Helpers of the command-line tool and its end-to-end tests.**
  - The service URL builder.
  - The environment-variable settings gate.
  - The OData metadata clean-up.
  - The dependent-package extraction of `download-configuration`.
  - The message of `check-nuget-update`.

Code that changes state step by step is modelled as classes with `modifies` clauses:

- the handlers, with their event log and file system;
- the authorization context;
- the job bag;
- the URL builder's settings;
- the console;
- the downloaders.

Each of their methods is proved against a specification function of the old state. The pure LINQ and string logic is modelled as functions and lemmas.

The libraries the code calls are oracles: parameters or constant fields fixed when an object is created. They are:

- the file system operations as a map of files and a set of directories;
- the database server;
- the archive extractor;
- process start;
- XML parsing and printing;
- `Uri` parsing;
- `HttpStatusCode` names;
- the NuGet manager;
- the downloaders.

Several .NET library functions (`Path.Combine`, `Path.GetFileName`, `Path.GetExtension`, `bool.TryParse`, `int.TryParse`, `SelectSingleNode` on `descendant::add[@name=...]`) are written out in the modules Paths, Text and Xml. `int.TryParse` skips only U+0009 to U+000D and the space, and then trailing NUL characters; `char.IsWhiteSpace` covers all of Unicode's white space. Both use the invariant culture's signs. The modules Files and AgentSettings model the file system and the configuration records.

`ExecuteWithTrace` runs its action twice: it returns the first result and raises the terminal event of the second. Every traced step is therefore modelled with both invocations and their effects.

## Model

| member | source | states |
|---|---|---|
| Common.StatusNameInjective | clioAgent/AgentJsonSerializerContext.cs:46-52 | Distinct `Status` members print as distinct names, so an event's status name identifies its status. |
| Common.Arg | clioAgent/Handlers/DeployIISHandler.cs:99-108 | A command-object value reads as the text stored under the key, and as "" when the key is absent or null. |
| Text.ParseBoolIgnoresCase | clioAgent/Handlers/ConnectionStringsFileHandler.cs:128 | `bool.TryParse` accepts "true" and "false" in any letter case, around blanks, and nothing else. |
| Text.IntStringParses | clioAgent/Handlers/DeployIISHandler.cs:102 | `int.TryParse` reads back every 32-bit number that is written in decimal. |
| Text.IntStringPadding | clioAgent/Handlers/DeployIISHandler.cs:102 | `int.TryParse` skips a space before the number and a space and a NUL after it. |
| Text.IntStringNoBreakSpace | clioAgent/Handlers/DeployIISHandler.cs:102 | `int.TryParse` rejects a trailing no-break space, which `char.IsWhiteSpace` counts as white space. |
| Paths.IsBackupIgnoresCase | clioAgent/Handlers/DeployIISHandler.cs:67-71 | A file is skipped exactly when its extension equals ".backup", ignoring letter case. |
| Paths.RelativeInjective | clioAgent/Handlers/DeployIISHandler.cs:72 | Two files below one folder with the same relative path are the same file. |
| Xml.FirstDescendantSound | clioAgent/Handlers/ConnectionStringsFileHandler.cs:66-79 | The node `SelectSingleNode` finds is a proper descendant that the selector matches. |
| Xml.FirstDescendantComplete | clioAgent/Handlers/ConnectionStringsFileHandler.cs:66-79 | When nothing is found, no proper descendant matches the selector. |
| Claims.HasClaimOf | clioAgent/AuthPolicies/CustomAuthorizationHandler.cs:16 | A principal holding a claim satisfies `HasClaim` for that claim's type and value. |
| Claims.LacksValue | clioAgent/AuthPolicies/CustomAuthorizationHandler.cs:16 | A principal none of whose claims has the value fails `HasClaim` for every type. |
| Annotations.Check | clioAgent/Handlers/DeployIISHandler.cs:15-25 | A validation rule yields no failure exactly when it holds, and otherwise the one failure "<member>: <message>". |
| Annotations.Failure | clioAgent.Tests/UnitTest1.cs:13-23 | Every validator failure text starts with the member's name. |
| Annotations.ToErrors | clioAgent/Handlers/DeployIISHandler.cs:115-117 | Failures become Validation errors coded "Validation", one per failure, in order. |
| AgentSettings.FirstPg | clioAgent/Handlers/RestoreDbHandler.cs:110 | The section found is the earliest section of type "PGSQL"; none is found only when no section has that type. |
| AgentSettings.PgSection | clioAgent/Handlers/RestoreDbHandler.cs:110 | A missing `Db` array yields no section. |
| AgentSettings.FirstServer | clioAgent/Handlers/RestoreDbHandler.cs:115 | The server consulted is the first of a non-empty `Servers` array, and there is none otherwise. |
| AgentSettings.OrEmpty | clioAgent/Handlers/RestoreDbHandler.cs:115 | A null setting reads as "". |
| AgentSettings.OnlyFirstServerCounts | clioAgent/Handlers/RestoreDbHandler.cs:115-160 | The connection string and the bin folder come from the first server only; further servers change nothing. |
| Base.Terminal | clioAgent/Handlers/BaseHandler.cs:95-112 | A terminal event is Completed or Failed, never Started or Pending. |
| Base.TraceEventsShape | clioAgent/Handlers/BaseHandler.cs:126-157 | Traced steps raise two events each, in order: Started, then that step's terminal event, both with the step's id. |
| Base.TraceEventsOfJob | clioAgent/Handlers/BaseHandler.cs:127-153 | Every step event carries the job's id. |
| Base.JobEventsShape | clioAgent/Handlers/BaseHandler.cs:88-112 | A job of k traced steps raises exactly 2k+2 events: the job's Started event first, a Started and a terminal event per step in order, the job's terminal event last, all with the job's id. |
| Base.JobWithoutSteps | clioAgent/Handlers/BaseHandler.cs:88-112 | A job that runs no traced step raises only its Started and terminal events. |
| Base.MessageDeterminesStatus | clioAgent/Handlers/BaseHandler.cs:88-153 | "{name} - {status}" messages with the same name differ whenever their statuses differ. |
| Base.BaseHandler.constructor | clioAgent/Handlers/BaseHandler.cs:81-91 | A new handler has an empty event log and no finished steps. |
| Base.BaseHandler.Raise | clioAgent/Handlers/BaseHandler.cs:118-120 | `OnJobStatusChanged` appends exactly the one event to the log. |
| Base.BaseHandler.JobBegin | clioAgent/Handlers/BaseHandler.cs:88-91 | `Execute` first appends the job's Started event with message "{TypeName} - Started". |
| Base.BaseHandler.JobEnd | clioAgent/Handlers/BaseHandler.cs:95-112 | The result is returned unchanged, after one terminal event: Completed for a value, Failed for errors. |
| Base.BaseHandler.StepBegin | clioAgent/Handlers/BaseHandler.cs:126-131 | A traced step draws a step id never issued before and appends its Started event "{method} - Started" with that id. |
| Base.BaseHandler.StepEnd | clioAgent/Handlers/BaseHandler.cs:135-157 | The step's terminal event has the step's id and the second invocation's outcome; the step ids of the log stay distinct. |
| RestoreDb.SelfCopyDeletesArchive | clioAgent/Handlers/RestoreDbHandler.cs:42-53 | As written, an archive already in the working directory is deleted before it is copied onto itself, and the copy then fails. |
| RestoreDb.SelfCopyExample | clioAgent/Handlers/RestoreDbHandler.cs:29-53 | A concrete state in which the as-written copy deletes "C:\work\build.zip". |
| RestoreDb.CopyOrKeepOutcome | clioAgent/Handlers/RestoreDbHandler.cs:29-57 | For the corrected copy, which keeps an archive already in place: a missing source fails with "File {path} not found" and changes no file. Success happens exactly when the source exists and the destination is free or is the source. Success then adds exactly the destination, with the source's content, and the working directory exists. The source is always kept. The final "File not found" branch is unreachable. |
| RestoreDb.CopyToOutcome | clioAgent/Handlers/RestoreDbHandler.cs:29-57 | The copy as written: a missing source fails with "File {path} not found" and changes no file. Success happens exactly when the source exists and the destination is another path that is not a directory. Success then adds exactly the destination, with the source's content, and the working directory exists. A source that is not the destination is kept. A source that is its own destination is deleted, and the copy fails with the exception for the missing file. The final "File not found" branch is unreachable. |
| RestoreDb.CopyOutcome | clioAgent/Handlers/RestoreDbHandler.cs:23-57 | An empty path fails with the Validation error "CopyFileToWorkingDirectory.InvalidPath" and changes nothing. Any other path is copied, as written, to WorkingDirectoryPath/fileName. A success leaves the archive's content there, and the final "File not found" branch is unreachable. |
| RestoreDb.CopyOrKeepAgain | clioAgent/Handlers/RestoreDbHandler.cs:29-57 | With the correction, a second invocation of the copy, as `ExecuteWithTrace` makes it, changes nothing and returns the first result. |
| RestoreDb.CopyAgainCopied | clioAgent/Handlers/RestoreDbHandler.cs:42-53 | Once the working directory exists, copying over an earlier copy gives the same state and result. |
| RestoreDb.CopyAgain | clioAgent/Handlers/RestoreDbHandler.cs:23-57 | The second invocation of the copy, as `ExecuteWithTrace` makes it, changes nothing more. It succeeds exactly when the first did, with the same result. After a self-copy it fails with "File {path} not found" for the deleted archive. |
| RestoreDb.ExtractDir | clioAgent/Handlers/RestoreDbHandler.cs:227-230 | The extraction directory exists exactly when the archive name has an extension; it is the working directory joined with the stem with the extension removed. |
| RestoreDb.UnzipIntoOutcome | clioAgent/Handlers/RestoreDbHandler.cs:232-242 | A completed extraction returns its directory. The directory exists and holds every archive entry at its place. A directory that existed before now holds nothing else. Files outside it are kept. The "Directory not found" branch is unreachable. |
| RestoreDb.UnzipOutcome | clioAgent/Handlers/RestoreDbHandler.cs:225-247 | An archive name without extension fails with the exception `Replace` throws and changes nothing; any other is extracted into `ExtractDir`. |
| RestoreDb.DbConnection | clioAgent/Handlers/RestoreDbHandler.cs:110-118 | The lookup succeeds only with the first "PGSQL" section and a non-empty connection string of its first server. |
| RestoreDb.CreateDbOutcome | clioAgent/Handlers/RestoreDbHandler.cs:109-131 | Missing settings fail ("RestoreDb.DbSettingsNotFound", "RestoreDb.ConnectionStringNotFound") and touch no database. Otherwise only the database of that name can change, and an existing one is dropped first. The creation succeeds exactly when none of the server's calls throws and the server creates the database. A refusal fails with "RestoreDb.DbCreationFailed" and leaves no database of that name. The creation throws exactly when one of the server's calls throws, with that call's message. |
| RestoreDb.CreateDbAgain | clioAgent/Handlers/RestoreDbHandler.cs:109-131 | A second creation leaves the databases the first left. It returns what the first did, unless the first created the database and the server throws on dropping it again. |
| RestoreDb.CreateTwice | clioAgent/Handlers/BaseHandler.cs:133-135 | The creation step ends with a returned outcome only when its first invocation returned, since an exception from the first ends the step. |
| RestoreDb.Present | clioAgent/Handlers/RestoreDbHandler.cs:198-207 | The kept lines are never more than the lines that arrived. |
| RestoreDb.PresentAppend | clioAgent/Handlers/RestoreDbHandler.cs:198-207 | Keeping lines distributes over consecutive batches, so arrival order is preserved. |
| RestoreDb.PresentMembers | clioAgent/Handlers/RestoreDbHandler.cs:198-207 | A line is kept exactly when it arrived and was not null. |
| RestoreDb.Backups | clioAgent/Handlers/RestoreDbHandler.cs:165 | The files kept are exactly the listed backup files. |
| RestoreDb.FirstBackup | clioAgent/Handlers/RestoreDbHandler.cs:165-181 | The backup file used is the earliest backup file of the listing. |
| RestoreDb.BackupFilesFacts | clioAgent/Handlers/RestoreDbHandler.cs:165-168 | Below an existing directory there are no backup files exactly when no file below it is one, and otherwise the listing's earliest comes first. |
| RestoreDb.LaunchConfig | clioAgent/Handlers/RestoreDbHandler.cs:144-160 | The restore makes the same settings checks as the creation, first; a connection string the builder cannot parse throws; otherwise the parsed fields and the first server's bin folder are used. |
| RestoreDb.RestoreWithOutcome | clioAgent/Handlers/RestoreDbHandler.cs:160-212 | An empty bin path fails with "RestoreDb.BinPathNotFound". A missing backup directory throws `DirectoryNotFoundException`. With no backup file the restore fails with "RestoreDb.BackupNotFound". Otherwise pg_restore runs on the first backup file. A started process succeeds whatever its exit code, with both streams' non-null lines in order. A process that does not start fails with "RestoreDb.RestoreFailed". |
| RestoreDb.MarkLogTrace | clioAgent/Handlers/BaseHandler.cs:126-157 | A finished step's Started and terminal events are exactly the base protocol's events for one more step. |
| RestoreDb.PrepareOutcome | clioAgent/Handlers/RestoreDbHandler.cs:75-86 | The unzip step runs exactly when the copy's first invocation succeeded, and the first invocations decide the result. |
| RestoreDb.ProvisionOutcome | clioAgent/Handlers/RestoreDbHandler.cs:88-96 | The creation step is aborted, and the job escapes with the server's message, when its first invocation throws, or when the first created the database and the second's drop throws. A creation that returns an error ends the job with it. The restore runs exactly when the creation succeeded. An exception from either step is the only way out of the job. The job succeeds exactly when the database was created, the second creation did not throw, and pg_restore ran. |
| RestoreDb.RestoreValidates | clioAgent/Handlers/RestoreDbHandler.cs:61-72 | A missing or empty archive path fails with "RestoreDbHandler.CreatioBuildZipPathIsNull" before the name is checked. A missing or empty name fails with "RestoreDbHandler.NameIsNull". In both cases no file and no database is touched. |
| RestoreDb.RestoreSelfCopyLosesArchive | clioAgent/Handlers/RestoreDbHandler.cs:42-86 | A job whose archive is already in the working directory loses the archive. It fails with the copy's exception for the missing file, does not unzip, and touches no database. |
| RestoreDb.RestoreMissingArchive | clioAgent/Handlers/RestoreDbHandler.cs:36-40 | An archive that does not exist fails the copy step on both invocations, and nothing changes; the database is never created. |
| RestoreDb.RestoreComposes | clioAgent/Handlers/RestoreDbHandler.cs:75-96 | A job past its argument checks runs its file steps, then its database steps only when the file steps succeeded. |
| RestoreDb.RestoreTouchesDatabasesLast | clioAgent/Handlers/RestoreDbHandler.cs:75-92 | The databases change only after the archive was copied and unzipped and the creation step ran. A creation step that changed them without finishing ended the job with its exception. |
| RestoreDb.RestoreSucceeded | clioAgent/Handlers/RestoreDbHandler.cs:60-97 | A successful job copied and unzipped the archive and left a database of the given name that the server accepted. |
| RestoreDb.RestoreEscapes | clioAgent/Handlers/RestoreDbHandler.cs:88-96 | The job ends in an exception exactly when the creation step or the restore step threw. The restore never runs after an aborted creation. |
| RestoreDb.RestoreJobEvents | clioAgent/Handlers/BaseHandler.cs:88-157 | A returning job raises exactly the base protocol's events for the steps it ran. An escaping job raises the finished steps' events and the aborted step's Started event, and no terminal event. |
| RestoreDb.CollectLines | clioAgent/Handlers/RestoreDbHandler.cs:198-207 | The data-received loop collects exactly the non-null lines in arrival order. |
| RestoreDb.Postgres.CheckDbExists | clioAgent/Handlers/RestoreDbHandler.cs:122 | The check reports whether the server holds the name, or throws as the server says. |
| RestoreDb.Postgres.DropDb | clioAgent/Handlers/RestoreDbHandler.cs:122-124 | Dropping removes exactly that database, unless the call throws, which changes nothing. |
| RestoreDb.Postgres.CreateDb | clioAgent/Handlers/RestoreDbHandler.cs:126-129 | Creation succeeds exactly for a name the server accepts and does not hold, and then adds it. A call that throws changes nothing. |
| RestoreDb.RestoreDbHandler.constructor | clioAgent/Handlers/RestoreDbHandler.cs:10 | The handler holds its base handler, file system, database server and environment. |
| RestoreDb.RestoreDbHandler.EnsureDirectory | clioAgent/Handlers/RestoreDbHandler.cs:32-34 | The working directory exists afterwards, created only when absent. |
| RestoreDb.RestoreDbHandler.CopyInto | clioAgent/Handlers/RestoreDbHandler.cs:29-57 | The new file system and the result are those of the as-written copy to `to`. |
| RestoreDb.RestoreDbHandler.CopyFileToWorkingDirectory | clioAgent/Handlers/RestoreDbHandler.cs:23-58 | The new file system and the result are those of the as-written copy to WorkingDirectoryPath/fileName, after the empty-path check. |
| RestoreDb.RestoreDbHandler.UnzipFile | clioAgent/Handlers/RestoreDbHandler.cs:225-248 | The new file system and the result are those of `UnzipRun`. |
| RestoreDb.RestoreDbHandler.CreatePgDatabase | clioAgent/Handlers/RestoreDbHandler.cs:109-131 | The new database set and the outcome, a result or an escaping exception, are those of `CreateDbRun`. |
| RestoreDb.RestoreDbHandler.StartPgRestore | clioAgent/Handlers/RestoreDbHandler.cs:193-212 | Starting and waiting gives `RunPgRestore`: both streams' non-null lines once the process ran. |
| RestoreDb.RestoreDbHandler.RestoreFrom | clioAgent/Handlers/RestoreDbHandler.cs:160-212 | The restore after parsing equals `RestoreWith` on the current files. |
| RestoreDb.RestoreDbHandler.LaunchPgRestoreProcess | clioAgent/Handlers/RestoreDbHandler.cs:144-213 | The restore step's outcome equals `LaunchRun` on the current files and settings. |
| RestoreDb.RestoreDbHandler.CopyStep | clioAgent/Handlers/RestoreDbHandler.cs:76-77 | Both copy invocations take place. The step's Started and terminal events are appended, and the terminal event is chosen by the second invocation. |
| RestoreDb.RestoreDbHandler.UnzipStep | clioAgent/Handlers/RestoreDbHandler.cs:83 | Both unzip invocations and the step's two events, as for the copy. |
| RestoreDb.RestoreDbHandler.CreateStep | clioAgent/Handlers/RestoreDbHandler.cs:89 | Both creations, the second only when the first returned. An exception leaves the step with its Started event only; otherwise it raises its two events, the terminal one chosen by the second creation. |
| RestoreDb.RestoreDbHandler.LaunchStep | clioAgent/Handlers/RestoreDbHandler.cs:95 | An exception leaves the step with its Started event only; otherwise it raises its two events. |
| RestoreDb.RestoreDbHandler.Prepare | clioAgent/Handlers/RestoreDbHandler.cs:75-86 | The file steps' state, result and events are `PrepareRun`'s. |
| RestoreDb.RestoreDbHandler.Provision | clioAgent/Handlers/RestoreDbHandler.cs:88-96 | The database steps' databases, outcome and events are `ProvisionRun`'s. |
| RestoreDb.RestoreDbHandler.InternalExecute | clioAgent/Handlers/RestoreDbHandler.cs:60-97 | The files, databases, outcome, steps and events are those of `RestoreRun`. |
| RestoreDb.RestoreDbHandler.Execute | clioAgent/Handlers/BaseHandler.cs:81-114 | The job's Started event comes first, then `InternalExecute`, then the terminal event unless an exception escaped. |
| DeployIis.ArgsRecord | clioAgent/Handlers/DeployIISHandler.cs:98-109 | Absent strings read as "", and a port that is absent or not an integer reads as 0. |
| DeployIis.GetArgsFromCommandObj | clioAgent/Handlers/DeployIISHandler.cs:98-118 | The record is returned exactly when every rule holds; otherwise one Validation error per broken rule. |
| DeployIis.PortOutOfRange | clioAgent/Handlers/DeployIISHandler.cs:21-22 | A port outside 1025..65535 gives exactly one failure, and its text starts with "SitePort". |
| DeployIis.PortAccepted | clioAgent/Handlers/DeployIISHandler.cs:102-103 | A port written as a number reads back as that number and is accepted exactly when it lies in 1025..65535. |
| DeployIis.UnparsedPortRefused | clioAgent/Handlers/DeployIISHandler.cs:102-103 | A port that is not a number reads as 0 and is refused. |
| DeployIis.EmptyCommandRejected | clioAgent/Handlers/DeployIISHandler.cs:105-117 | An empty command object fails all four rules. |
| DeployIis.RelativePath | clioAgent/Handlers/DeployIISHandler.cs:72 | A file below the source folder keeps its path relative to that folder. |
| DeployIis.DestFile | clioAgent/Handlers/DeployIISHandler.cs:72-77 | A file lands below the site directory at its relative path. |
| DeployIis.DestFileInjective | clioAgent/Handlers/DeployIISHandler.cs:72-77 | Distinct source files land at distinct destinations. |
| DeployIis.CopyOneFacts | clioAgent/Handlers/DeployIISHandler.cs:68-78 | One iteration skips a backup file. Any other file is copied over its destination, inside a directory that now exists, and only that destination changes. |
| DeployIis.CopyAllGrows | clioAgent/Handlers/DeployIISHandler.cs:68-79 | A finished copy loop only adds files and directories, and no path becomes both. |
| DeployIis.CopyAllOthers | clioAgent/Handlers/DeployIISHandler.cs:68-79 | A finished copy loop changes only the destinations of the non-backup files it lists. |
| DeployIis.LandsAfter | clioAgent/Handlers/DeployIISHandler.cs:68-79 | A path the loop does not write survives it with its content. |
| DeployIis.CopyOneKeepsRest | clioAgent/Handlers/DeployIISHandler.cs:68-79 | The first iteration keeps the rest of the listing's sources and their contents. |
| DeployIis.CopyAllLands | clioAgent/Handlers/DeployIISHandler.cs:67-79 | After the loop every non-backup listed file is at its destination with its original content. |
| DeployIis.CopyAllFixpoint | clioAgent/Handlers/DeployIISHandler.cs:68-79 | Copying again over a finished copy changes nothing. |
| DeployIis.CopyFilesRun | clioAgent/Handlers/DeployIISHandler.cs:56-89 | A successful `CopyFiles` returns the site directory SiteFolderPath/SiteName. |
| DeployIis.CopyFilesRunOk | clioAgent/Handlers/DeployIISHandler.cs:58-80 | A successful copy found the unzipped folder, has the site directory and ran the loop to its end. |
| DeployIis.CopyFilesLands | clioAgent/Handlers/DeployIISHandler.cs:63-80 | The site directory holds every unzipped non-backup file at its relative path with its content; a backup file's destination is not created. |
| DeployIis.CopyFilesTwice | clioAgent/Handlers/DeployIISHandler.cs:136 | The second invocation repeats a successful copy without change when it lists no new file. |
| DeployIis.MissingSourceReported | clioAgent/Handlers/DeployIISHandler.cs:58-61 | A missing unzipped folder fails with "Directory {path} does not exist", touches nothing and raises no Failed event. |
| DeployIis.LocalValuesPresent | clioAgent/Handlers/DeployIISHandler.cs:39-42 | The fixed database and Redis connection strings are not blank. |
| DeployIis.AdjustCommandAccepted | clioAgent/Handlers/DeployIISHandler.cs:36-44 | The nested handler accepts the fixed command object for any non-blank directory, and reads IsNetFramework as true. |
| DeployIis.AdjustArgsAccepted | clioAgent/Handlers/DeployIISHandler.cs:36-44 | The site directory of validated arguments is never blank, so the nested handler never throws on its arguments. |
| DeployIis.CopyTwiceSite | clioAgent/Handlers/DeployIISHandler.cs:136-143 | The directory handed to the adjusting step is the site directory. |
| DeployIis.CopyKeepsUnzipped | clioAgent/Handlers/DeployIISHandler.cs:136 | With the site directory apart from the unzipped folder, the second invocation lists the same files as the first. |
| DeployIis.DeployRunOnce | clioAgent/Handlers/DeployIISHandler.cs:136-147 | A successful deployment leaves the site as one copy followed by one rewrite would; the repeated invocations change nothing. |
| DeployIis.DeployIisHandler.constructor | clioAgent/Handlers/DeployIISHandler.cs:31-32 | The handler holds its base handler, nested connection strings handler and file system. |
| DeployIis.DeployIisHandler.CopyEntry | clioAgent/Handlers/DeployIISHandler.cs:69-78 | One loop iteration changes the file system as `CopyOne` says. |
| DeployIis.DeployIisHandler.CopyLoop | clioAgent/Handlers/DeployIISHandler.cs:68-79 | The loop over the listing changes the file system as `CopyAll` says, stopping at the first exception. |
| DeployIis.DeployIisHandler.CopyFiles | clioAgent/Handlers/DeployIISHandler.cs:56-89 | The new file system, the result and the catch block's event are `CopyFilesRun`'s. |
| DeployIis.DeployIisHandler.CopyFilesTwice | clioAgent/Handlers/DeployIISHandler.cs:136 | Both invocations of the copy action in turn. |
| DeployIis.DeployIisHandler.CopyStep | clioAgent/Handlers/DeployIISHandler.cs:136 | The step's events enclose both invocations' events; its outcome is the second one's. |
| DeployIis.DeployIisHandler.AdjustTwice | clioAgent/Handlers/DeployIISHandler.cs:142-143 | The nested handler's `Execute` runs twice on the fixed command object. |
| DeployIis.DeployIisHandler.AdjustStep | clioAgent/Handlers/DeployIISHandler.cs:142-146 | The adjusting step's files, results and events; its outcome is the second result. |
| DeployIis.DeployIisHandler.Deploy | clioAgent/Handlers/DeployIISHandler.cs:131-147 | The connection strings are adjusted only after a successful copy, and the state and events are `DeployRun`'s. |
| DeployIis.DeployIisHandler.InternalExecute | clioAgent/Handlers/DeployIISHandler.cs:124-148 | Invalid arguments return their Validation errors with no file copied; valid ones run `Deploy`. |
| DeployIis.DeployIisHandler.Execute | clioAgent/Handlers/BaseHandler.cs:81-114 | The Started event, `InternalExecute`, then the terminal event. |
| ConnectionStrings.ArgsRecord | clioAgent/Handlers/ConnectionStringsFileHandler.cs:121-135 | Absent keys read as "", and an absent or unparseable IsNetFramework reads as false. |
| ConnectionStrings.GetArgsFromCommandObj | clioAgent/Handlers/ConnectionStringsFileHandler.cs:121-144 | The record, or one Validation error per required string that is empty or blank. |
| ConnectionStrings.EmptyCommandRejected | clioAgent/Handlers/ConnectionStringsFileHandler.cs:16-26 | An empty command object is rejected on all three strings. |
| ConnectionStrings.SetOnFirstFacts | clioAgent/Handlers/ConnectionStringsFileHandler.cs:66-69 | Setting an attribute on the first matching node fails exactly when that node lacks the attribute; otherwise it sets only that attribute of that node. |
| ConnectionStrings.TargetsDistinct | clioAgent/Handlers/ConnectionStringsFileHandler.cs:66-76 | The three searches never select the same node. |
| ConnectionStrings.RewriteFails | clioAgent/Handlers/ConnectionStringsFileHandler.cs:66-79 | The rewrite fails exactly when a node found lacks the connectionString attribute. |
| ConnectionStrings.RewriteResult | clioAgent/Handlers/ConnectionStringsFileHandler.cs:66-79 | The first "dbPostgreSql" and the first "db" node get the db value, and the first "redis" node gets the redis value. Every other node and attribute stays as it was. |
| ConnectionStrings.SetOnFirstUnchanged | clioAgent/Handlers/ConnectionStringsFileHandler.cs:66-79 | Setting a value already set changes nothing. |
| ConnectionStrings.RewriteIdempotent | clioAgent/Handlers/ConnectionStringsFileHandler.cs:66-80 | Applying the rewrite twice is applying it once. |
| ConnectionStrings.AbsentTargetsSkipped | clioAgent/Handlers/ConnectionStringsFileHandler.cs:66-79 | A document without the three nodes comes out unchanged. |
| ConnectionStrings.ConfigureFileOutcome | clioAgent/Handlers/ConnectionStringsFileHandler.cs:58-90 | A success saves the rewritten document and changes nothing else. A fault returns one Failure coded "ConfigureConnectionStrings" and leaves the files as they were. When the XML load throws, the Failure carries the exception's message. |
| ConnectionStrings.ConfigureFileTwice | clioAgent/Handlers/ConnectionStringsFileHandler.cs:58-90 | A second rewrite leaves the files as the first did and gives the same result, given a writer whose output parses back to its input. |
| ConnectionStrings.WebConfigOnlyForCore | clioAgent/Handlers/ConnectionStringsFileHandler.cs:39-51 | The web config is touched only on .NET Core and only after a successful connection-strings rewrite, whose errors are otherwise the result. |
| ConnectionStrings.ConnectionStringsFileHandler.constructor | clioAgent/Handlers/ConnectionStringsFileHandler.cs:32 | The handler holds its base handler, file system and XML codec. |
| ConnectionStrings.ConnectionStringsFileHandler.SetOnFirstNode | clioAgent/Handlers/ConnectionStringsFileHandler.cs:66-69 | The in-place update gives `SetOnFirst`. |
| ConnectionStrings.ConnectionStringsFileHandler.ConfigureConnectionStrings | clioAgent/Handlers/ConnectionStringsFileHandler.cs:58-90 | The files and the result are `ConfigureFile`'s; a fault raises the Failed event "Configuring connection strings in {path}". |
| ConnectionStrings.ConnectionStringsFileHandler.UpdateWebConfig | clioAgent/Handlers/ConnectionStringsFileHandler.cs:92-112 | The first `add` with key "CookiesSameSiteMode" gets value "Lax"; a fault is coded "UpdateWebConfig" and raises its Failed event. |
| ConnectionStrings.ConnectionStringsFileHandler.Apply | clioAgent/Handlers/ConnectionStringsFileHandler.cs:38-52 | FolderPath/ConnectionStrings.config first, then Terrasoft.WebHost.dll.config when not .NET Framework; the result is `Handle`'s. |
| ConnectionStrings.ConnectionStringsFileHandler.InternalExecute | clioAgent/Handlers/ConnectionStringsFileHandler.cs:35-53 | Invalid arguments end in an escaping exception, because they are used unchecked; valid ones run `Apply`. |
| ConnectionStrings.ConnectionStringsFileHandler.Execute | clioAgent/Handlers/BaseHandler.cs:81-114 | The Started event, `InternalExecute`, and the terminal event unless an exception escaped. |
| JobEndpoints.JobsCount | clioAgent/EndpointDefinitions/JobEndpointDefinition.cs:24 | The count is the number of queued jobs. |
| JobEndpoints.JobStatusAll | clioAgent/EndpointDefinitions/JobEndpointDefinition.cs:31 | The whole status map is returned unchanged. |
| JobEndpoints.ToStepInjective | clioAgent/EndpointDefinitions/JobEndpointDefinition.cs:43-44 | The projection onto `StepStatus` copies every field, so distinct records give distinct steps. |
| JobEndpoints.StepFromStore | clioAgent/EndpointDefinitions/JobEndpointDefinition.cs:39-45 | Every returned step has the requested JobId and is the projection of a stored record of that job. |
| JobEndpoints.StepCount | clioAgent/EndpointDefinitions/JobEndpointDefinition.cs:39-45 | Every stored record of the job is returned exactly as often as it is stored. |
| JobEndpoints.StepsByIdIgnoresOrder | clioAgent/EndpointDefinitions/JobEndpointDefinition.cs:39-45 | Two enumerations of the same bag give the same steps up to order. |
| JobEndpoints.JobStatusByIdReply | clioAgent/EndpointDefinitions/JobEndpointDefinition.cs:53-57 | A known job gives "{status} {message}", joined by one space. An unknown one gives "Job not found by id {id}", still as an OK reply. |
| ApiKeyAuth.TicketOf | clioAgent/AuthPolicies/ApiKeyAuthenticationHandler.cs:69-74 | The ticket is issued for the "ApiKey" scheme with exactly the given claims. |
| ApiKeyAuth.FirstOrDefault | clioAgent/AuthPolicies/ApiKeyAuthenticationHandler.cs:41 | The key is the header's first value, or null when it has none. |
| ApiKeyAuth.AsWrittenConfigured | clioAgent/AuthPolicies/ApiKeyAuthenticationHandler.cs:35-68 | With both keys configured: no header named X-API-KEY in any letter case fails with "Missing X-API-KEY header". The admin key gets {Admin-User, Read-User} and wins when both keys are equal. The read key gets {Read-User}. Every other value fails with "Invalid X-API-KEY header value". |
| ApiKeyAuth.NoUnAuthenticateTicket | clioAgent/AuthPolicies/ApiKeyAuthenticationHandler.cs:42-67 | Every key that passes the allowed check is the admin or the read key, so the UnAuthenticate ticket is never issued. |
| ApiKeyAuth.AsWrittenAdmitsNullKey | clioAgent/AuthPolicies/ApiKeyAuthenticationHandler.cs:42-48 | With a key unconfigured only a null key passes, and a header without values is then authenticated. |
| ApiKeyAuth.NullKeyExample | clioAgent/AuthPolicies/ApiKeyAuthenticationHandler.cs:42-56 | With no key configured, a header with no values gets the admin ticket. |
| ApiKeyAuth.Authenticate | clioAgent/AuthPolicies/ApiKeyAuthenticationHandler.cs:35-68 | Corrected: success needs both keys configured and the key equal to one of them; the roles are as above. |
| ApiKeyAuth.HeaderKeyOfName | clioAgent/AuthPolicies/ApiKeyAuthenticationHandler.cs:38 | The header is looked up under "x-api-key", the lower-case form of "X-API-KEY". |
| ApiKeyAuth.HeaderLookupIgnoresCase | clioAgent/AuthPolicies/ApiKeyAuthenticationHandler.cs:38 | Header names that are equal ignoring case find the same entry, and a value stored under one is found under the other. |
| ApiKeyAuth.AnySpellingAuthenticates | clioAgent/AuthPolicies/ApiKeyAuthenticationHandler.cs:38 | A key sent under any spelling of X-API-KEY is authenticated as under "X-API-KEY". |
| ApiKeyAuth.LowerCaseHeaderAccepted | clioAgent/AuthPolicies/ApiKeyAuthenticationHandler.cs:38-55 | The admin key sent under "x-api-key", as HTTP/2 sends header names, gets the admin ticket. |
| ApiKeyAuth.AuthenticateAgrees | clioAgent/AuthPolicies/ApiKeyAuthenticationHandler.cs:42-45 | The correction agrees with the code whenever both keys are configured, and otherwise rejects every request. |
| ApiKeyAuth.AdminTicketRoles | clioAgent/AuthPolicies/ApiKeyAuthenticationHandler.cs:50-55 | The admin ticket holds both the Admin and the Read role. |
| ApiKeyAuth.ReadTicketRoles | clioAgent/AuthPolicies/ApiKeyAuthenticationHandler.cs:57-61 | The read ticket holds the Read role and not the Admin role. |
| CustomAuthorization.AuthorizationRequirement.constructor | clioAgent/AuthPolicies/CustomAuthorizationHandler.cs:6-10 | A requirement stores its claim type and value unchanged. |
| CustomAuthorization.FailureMessageNames | clioAgent/AuthPolicies/CustomAuthorizationHandler.cs:18-22 | The reason "User does not have {type} claim with value {value}." holds both parts at fixed offsets. |
| CustomAuthorization.AuthorizationContext.constructor | clioAgent/AuthPolicies/CustomAuthorizationHandler.cs:13-15 | A fresh context has every requirement pending and neither Succeed nor Fail called. |
| CustomAuthorization.AuthorizationContext.Succeed | clioAgent/AuthPolicies/CustomAuthorizationHandler.cs:16-17 | `Succeed` removes the requirement from the pending ones. |
| CustomAuthorization.AuthorizationContext.Fail | clioAgent/AuthPolicies/CustomAuthorizationHandler.cs:18-22 | `Fail` records its reason and marks the context failed. |
| CustomAuthorization.HandleRequirement | clioAgent/AuthPolicies/CustomAuthorizationHandler.cs:13-26 | Exactly one of Succeed and Fail is called: Succeed when the user holds the claim, and Fail with the reason naming it otherwise. |
| CustomAuthorization.Authorize | clioAgent/AuthPolicies/CustomAuthorizationHandler.cs:16-22 | The requirement succeeds exactly when the user holds a claim of that type (compared ignoring case) and that exact value; a refusal carries the one reason. |
| CustomProblem.Title | clioAgent/AuthPolicies/CustomProblem.cs:11-14 | The title is the status code's name, or the number for an unnamed code. |
| CustomProblem.WithDetail | clioAgent/AuthPolicies/CustomProblem.cs:15-18 | The status is the code, the type is the fixed URL, the detail is the given string, and there is no "reasons" extension. |
| CustomProblem.WithReasons | clioAgent/AuthPolicies/CustomProblem.cs:19-25 | The detail is the first reason, or null for none, and "reasons" holds the whole list. |
| CustomProblem.Descriptions | clioAgent/AuthPolicies/CustomProblem.cs:33-34 | The errors' descriptions, one per error, in order. |
| CustomProblem.Messages | clioAgent/AuthPolicies/CustomProblem.cs:36-37 | The validation messages in order, with "Unknown Error" for a null one. |
| CustomProblem.ErrorsProblem | clioAgent/AuthPolicies/CustomProblem.cs:33-34 | A problem from errors lists every description in order, and its detail is the first error's description. |
| CustomProblem.ValidationProblem | clioAgent/AuthPolicies/CustomProblem.cs:36-37 | A problem from validation results has one reason per result. |
| CustomProblem.OneReasonIsDetail | clioAgent/AuthPolicies/CustomProblem.cs:27-31 | One reason gives the body a detail gives, plus the "reasons" extension. |
| DeployEndpoint.RequestedProduct | clioAgent/DeployEndpointHandler.cs:9-12 | A product is requested exactly when "Product" is present as a JSON string. |
| DeployEndpoint.JobBag.Add | clioAgent/Program.cs:22 | Adding puts exactly one more job into the bag. |
| DeployEndpoint.DeployEndpointHandler.Execute | clioAgent/DeployEndpointHandler.cs:9-32 | Without a string Product the reply is BadRequest "Product is required" and the bag is unchanged. Otherwise exactly one job is added, with a fresh id, the clock's time and the product, and the reply carries that id. Job ids stay distinct. |
| DeployEndpoint.AddKeepsIdsDistinct | clioAgent/Program.cs:58-60 | Adding a job with a new id keeps the ids of the bag's jobs distinct. |
| E2EEnvironment.InitEnvSettings | clio.E2E/Common/Environment.cs:65-112 | The flag-by-flag reading gives exactly `FromEnvironment`. |
| E2EEnvironment.EnvironmentGate | clio.E2E/Common/Environment.cs:79-111 | Settings come back exactly when CREATIO_IS_NETCORE parses as a bool and CREATIO_URL, CREATIO_LOGIN and CREATIO_PASSWORD are present and not blank. Every field is then copied verbatim. |
| E2EEnvironment.OptionalVariablesIrrelevant | clio.E2E/Common/Environment.cs:96-106 | The client id, client secret and auth app URI never decide acceptance. |
| E2EEnvironment.FromFile | clio.E2E/Common/Environment.cs:114-117 | The file's record, or the exception for a file that cannot be read or is null. |
| E2EEnvironment.EnvironmentFirst | clio.E2E/Common/Environment.cs:40 | A usable environment decides the settings whatever the file holds; otherwise the file is used. |
| ServiceUrls.JoinOneSlash | clio.E2E/Common/ServiceUrlBuilder.cs:116-122 | The join is the base without one trailing '/', one '/', and the route without one leading '/'. |
| ServiceUrls.JoinSingleSlash | clio.E2E/Common/ServiceUrlBuilder.cs:116-122 | Without doubled slashes at the join point, exactly one '/' separates base and route. |
| ServiceUrls.CreateUrl | clio.E2E/Common/ServiceUrlBuilder.cs:110-123 | A base address that is not absolute raises ArgumentException "Misconfigured Url..." for "Url"; otherwise the printed base is joined with the route. |
| ServiceUrls.FrameworkEndpoint | clio.E2E/Common/ServiceUrlBuilder.cs:129-135 | On .NET Framework a leading '/' makes no difference, and the address is base, '/', "0/" and the endpoint. |
| ServiceUrls.KnownRoutesCover | clio.E2E/Common/ServiceUrlBuilder.cs:80-93 | Every route but GetBusinessRules has a path. |
| ServiceUrls.ServiceUrlBuilder.constructor | clio.E2E/Common/ServiceUrlBuilder.cs:74 | The builder keeps the settings it was given. |
| ServiceUrls.ServiceUrlBuilder.BuildRoute | clio.E2E/Common/ServiceUrlBuilder.cs:137 | The lookup fails with KeyNotFound exactly for GetBusinessRules. |
| ServiceUrls.ServiceUrlBuilder.BuildWith | clio.E2E/Common/ServiceUrlBuilder.cs:138-145 | The new settings are kept for all later calls, and the result is what `Build(endpoint)` gives under them. |
| ServiceUrls.ServiceUrlBuilder.BuildRouteWith | clio.E2E/Common/ServiceUrlBuilder.cs:147-148 | A route without a path fails before the settings are replaced. |
| ServiceUrls.PingAddressExample | clio.E2E/Commands/Ping.cs:55-57 | "https://google.com" on .NET Framework answers ping at "https://google.com/0/ping". |
| MetadataAdjuster.DropFirstStreamFacts | clio/Command/MetadataAdjuster.cs:41-45 | Removing the first stream property removes one when there is one and nothing otherwise, and keeps the other elements. |
| MetadataAdjuster.NonStreamsClean | clio/Command/MetadataAdjuster.cs:41-45 | The target holds no stream property. |
| MetadataAdjuster.NonStreamsKeeps | clio/Command/MetadataAdjuster.cs:41-45 | Elements without stream properties are kept as they are. |
| MetadataAdjuster.PassFacts | clio/Command/MetadataAdjuster.cs:40-46 | A pass keeps the target and lowers the count while it is positive, which makes the do-while terminate. |
| MetadataAdjuster.NoStreamsIsStripped | clio/Command/MetadataAdjuster.cs:47 | With count 0 the schema already is its target. |
| MetadataAdjuster.StrippedIsFinal | clio/Command/MetadataAdjuster.cs:40-47 | The target has count 0 and is its own target. |
| MetadataAdjuster.Count | clio/Command/MetadataAdjuster.cs:19-23 | The count exists exactly when the schema exists, and is the number of stream properties of its EntityTypes. |
| MetadataAdjuster.AdjustRoot | clio/Command/MetadataAdjuster.cs:40-46 | The result is the root with exactly the schema's EntityType stream properties removed; a root without the schema's two levels throws "Sequence contains no elements". |
| MetadataAdjuster.Adjust | clio/Command/MetadataAdjuster.cs:34-48 | A parse error is passed on, a document without a root is returned unchanged, and any other is adjusted and printed. |
| MetadataAdjuster.AdjustedCountIsZero | clio.tests/MetadataAdjust.cs:35-38 | After adjustment `Count` is 0. |
| MetadataAdjuster.AdjustIdempotent | clio/Command/MetadataAdjuster.cs:40-47 | Adjusting an adjusted root changes nothing. |
| DownloadConfiguration.HintPath | clio/Command/DownloadConfigurationCommand.cs:60 | The HintPath looked at is the reference's first child of that name. |
| DownloadConfiguration.NamesOfExact | clio/Command/DownloadConfigurationCommand.cs:58-63 | A name is collected from a group exactly when a reference in it has a non-empty Include and a non-empty HintPath. |
| DownloadConfiguration.PackageRefsSound | clio/Command/DownloadConfigurationCommand.cs:54-63 | Every collected name is the Include of a kept Reference inside an ItemGroup labelled exactly "Package References". |
| DownloadConfiguration.PackageRefsComplete | clio/Command/DownloadConfigurationCommand.cs:54-63 | Every such Include is collected. |
| DownloadConfiguration.DistinctFacts | clio/Command/DownloadConfigurationCommand.cs:65 | The list passed on has no duplicates and holds exactly the collected names. |
| DownloadConfiguration.DistinctOrder | clio/Command/DownloadConfigurationCommand.cs:65 | The list passed on keeps the names in the order of their first occurrences. |
| DownloadConfiguration.CollectHas | clio/Command/DownloadConfigurationCommand.cs:50-64 | A successful collection holds exactly the names read from the packages' project files. |
| DownloadConfiguration.CollectFails | clio/Command/DownloadConfigurationCommand.cs:50-53 | The collection fails exactly when some project file cannot be loaded, and then with the first such file's exception. |
| DownloadConfiguration.DependentPackagesExact | clio/Command/DownloadConfigurationCommand.cs:50-65 | What is passed on is duplicate-free and names exactly the packages' references. |
| DownloadConfiguration.Downloaders.Perform | clio/Command/DownloadConfigurationCommand.cs:67-68 | Every request is recorded, and its outcome says whether it throws. |
| DownloadConfiguration.DownloadConfigurationCommand.DownloadDependentPackages | clio/Command/DownloadConfigurationCommand.cs:49-69 | A project file that cannot be read means no package request; otherwise one request for the list, to ApplicationPackagesFolderPath. |
| DownloadConfiguration.DownloadConfigurationCommand.Execute | clio/Command/DownloadConfigurationCommand.cs:73-84 | The application download comes before the packages' download. The result is 0 and "Done", or 1 and the exception's message with no request after the one that threw. |
| NugetUpdate.NameAndVersion | clio/Command/CheckNugetUpdateCommand.cs:29-31 | "{name} ({version})": it starts with the name and " (" and ends with ')'. |
| NugetUpdate.NameAndVersionInjective | clio/Command/CheckNugetUpdateCommand.cs:29-31 | For one name the text determines the version. |
| NugetUpdate.UpdateMessageParts | clio/Command/CheckNugetUpdateCommand.cs:33-42 | The line starts with three spaces, "{name} ({app})", " --> " and "{name} ({last})". It goes on exactly when neither LastIsStable nor StableIsNull holds, and then with "; Stable: {name} ({stable})" alone. |
| NugetUpdate.ReportLines | clio/Command/CheckNugetUpdateCommand.cs:44-49 | The report is the header "Packages for update:" and then one line per package in input order. |
| NugetUpdate.PrintPackagesForUpdate | clio/Command/CheckNugetUpdateCommand.cs:44-49 | The loop appends exactly the report to the console. |
| NugetUpdate.CheckNugetUpdateCommand.Execute | clio/Command/CheckNugetUpdateCommand.cs:51-61 | The report and "Done" with 0, or only the exception's message with 1. |

## Left out

- The job queue, the worker pool and the wiring of handler events to the status store are not part of this model; only `AddJobToQueue`'s call is visible.
- The concurrent collections are sequential values. The job bag is a multiset, so nothing is said about step order in the status query.
- The database server, archive extraction, process start, XML load and save, `Uri` parsing, `HttpStatusCode` names, the NuGet manager and the downloaders are oracles. An oracle's failure is the exception it reports, with its message.
- The `Postgres` client class is not part of this model. Its three calls (`CheckDbExists`, `DropDb`, `CreateDb`) return or throw as the server oracle says. A call that throws changes no database, and whether a call throws depends only on the call and its name. Opening the connection in `new Postgres(cs)` is taken never to throw.
- RestoreDb.RestoreTouchesDatabasesLast: does not state that the creation step finished when the databases changed, because a server call that throws after the drop ends the step with the database removed.
- The file system is the module Files. It fails only in the ways written out there: a missing file or directory, a path that names the other kind of entry, an existing destination. Other I/O errors, permissions and locks are not modelled.
- The file system is a flat set of directory paths and a map of file paths. `Directory.CreateDirectory` adds only the path it is given, not its missing ancestors. A file may be written or copied under a directory that was never created, so the `DirectoryNotFoundException` of `File.WriteAllText`, `File.Copy` and extraction into a missing parent is not modelled.
- Paths are modelled in the Windows form of `System.IO.Path`; `Path.GetFullPath` is not modelled, and a path is compared as it is written.
- pg_restore's effect on the database's contents is not modelled, only the process's lines and the result.
- RestoreDb.RestoreSucceeded: does not state that the unzip step's second invocation succeeded, because the second extraction's outcome is the oracle's.
- Tracing spans (`Activity`, `SetStatus`, `Dispose`) have no observable effect beyond the events and are left out. So is the event's creation time.
- `CustomProblem.ToString`, the JSON serializer context and the ASP.NET routing, CORS and middleware (including `CustomAuthorizationMiddlewareResultHandler`) are left out.
- Letter case is folded for ASCII letters only, by `Text.ToLowerChar` and `Text.EqualsIgnoreCase`. These are used for the claim type in `HasClaim`, the ".backup" extension in `IsBackup`, `bool.TryParse` and header names. .NET's ordinal-ignore-case comparison also folds other letters, such as "Ä" and "ä"; that is not modelled.
- StringValues is a sequence of nullable strings. The header value's own null/empty distinction is only what `FirstOrDefault` gives.
- DownloadConfiguration.HintPath: the HintPath element's `Value` is its text, the concatenation of its descendants' text, which is modelled only as empty or not.
- NugetUpdate.CheckNugetUpdateCommand.Execute: does not model a lazy sequence that throws midway through printing; the package list is taken as fully computed before the header is printed.
- A `PackageVersion` is carried as its printed text, since its `ToString` is not part of this model.
- The job's creation time comes from the clock as a parameter; `Guid.NewGuid` is a counter, which gives uniqueness without randomness.
- `NewPkgCommand`, `StartServer` and the end-to-end tests' fixtures are not part of this model.

## Findings

| source | as written | input that shows it | evidently intended | confidence | as-written member | corrected member |
|---|---|---|---|---|---|---|
| clioAgent/Handlers/RestoreDbHandler.cs:42-53 | the destination is deleted when it exists, even when it is the source itself, and then copied from the deleted source | CreatioBuildZipPath "C:\work\build.zip" with WorkingDirectoryPath "C:\work" | an archive already in the working directory is used where it is | not executed; medium | RestoreDb.SelfCopyDeletesArchive | RestoreDb.CopyOrKeepOutcome |
| clioAgent/AuthPolicies/ApiKeyAuthenticationHandler.cs:42-50 | without both keys configured the allowed list is two nulls, so a null key passes and, when ApiKeyAdmin is unset, equals it and gets the admin roles | no keys configured; an X-API-KEY header entry with no values, which ordinary header parsing does not produce | an incompletely configured handler admits nobody | not executed; low | ApiKeyAuth.AsWrittenAdmitsNullKey | ApiKeyAuth.AuthenticateAgrees |

The RestoreDb handler and job run the copy as written, so the first row's loss of the archive is what `RestoreDb.RestoreSelfCopyLosesArchive` states about a whole job; the corrected copy `RestoreDb.CopyOrKeep` is stated on its own.
