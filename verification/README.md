# Sitecore Instance Manager: argument filtering, web-server rules, import pre-flight

This Dafny project models three small parts of Sitecore Instance Manager (SIM), the tool that creates, imports and deletes local Sitecore instances on IIS:

- **Command-line client** (`SIM.Client.Program`). Before the command line is parsed, the client takes its own flags out of the argument list. `GetQueryAndFilterArgs` removes `--query X` or `--data` and returns the query. `GetWaitAndFilterArgs` removes `--wait`. `QueryResult` narrows a command's result along a path such as `Data/Name`. The argument list is a class (`ArgumentList`) whose `seq` field the two filters edit in place, as the source edits its `List<string>`. Each filter is proved against a specification function (`FilterQuery`, `FilterWait`). `QueryResult` is a loop proved against the recursive `Walk`.
- **Web-server rules** (`SIM.Adapters.WebServer.WebServerManager`). The IIS configuration is a `ServerManager` object holding sites and application pools. `AddHostBinding` and the `DeleteWebsite` overloads update it in place. The queries (`HostBindingExists`, `WebsiteExists`, `IsApplicationPoolRunning`, `GetWebRootPath`) are functions. Committing changes is the update of the object. The object invariant says site ids are unique and pool names are unique ignoring case, which the IIS configuration enforces.
- **Import button** (`SIM.Tool.Windows.MainWindowComponents.ImportInstanceButton`). The decision taken after the file dialog closes is a function. Its inputs are the chosen path and the package's entry names. Its result is one outcome: nothing, one message, or starting the `import` wizard.

Case-insensitive comparison (`EqualsIgnoreCase`) upper-cases ASCII letters only.

At each step, `QueryResult` looks up a dictionary key if the current value is a dictionary, and an object property otherwise (`src/SIM.Client/Program.cs:185-201`). The client filters return the empty query, never null.

When a site is deleted, a pool that one of its applications runs in is removed whenever at most one site has that pool as its default pool. That one site need not be the deleted site: a pool that another site still has as its default is removed too (`WebServer.PoolOfOtherSiteRemoved`).

## Model

| member | source | states |
|---|---|---|
| Extensions.FirstIndex | src/SIM.Adapters/WebServer/WebServerManager.cs:100 | the first-match search behind `FirstOrDefault`/`Any`: the index found matches and no earlier element does; `|s|` means none matches |
| ClientProgram.FilterWait | src/SIM.Client/Program.cs:250-267 | the wait flag is reported iff `"--wait"` occurs; if so exactly its first occurrence is removed and the rest keep their order; if not the list is unchanged |
| ClientProgram.GetWaitAndFilterArgs | src/SIM.Client/Program.cs:250-267 | the index loop leaves exactly `FilterWait` of the old list in the list and returns its flag |
| ClientProgram.FilterQuery | src/SIM.Client/Program.cs:217-248 | the filter never lengthens the argument list |
| ClientProgram.GetQueryAndFilterArgs | src/SIM.Client/Program.cs:217-248 | the loop, with its rewrite of `--data` into `--query data` and its early `break`, leaves exactly `FilterQuery` of the old list and returns its query |
| ClientProgram.FilterQueryWithoutFlag | src/SIM.Client/Program.cs:222-247 | with no `--query` and no `--data` the query is empty and the list unchanged |
| ClientProgram.FilterQueryTakesNext | src/SIM.Client/Program.cs:231-244 | when the first flag is `--query` at i and an element follows, both are removed and that element, whatever it is, is the query; later elements are untouched |
| ClientProgram.FilterQueryTrailing | src/SIM.Client/Program.cs:236-242 | a trailing `--query` is removed and the query is empty |
| ClientProgram.FilterQueryDataIsQueryData | src/SIM.Client/Program.cs:225-241 | `--data` as first flag gives the same result as `--query data` in its place: only `--data` disappears and the query is `"data"` |
| ClientProgram.FilterQueryDeletesOneBlock | src/SIM.Client/Program.cs:223-245 | the output is the input with one contiguous block of 0, 1 or 2 elements deleted at the first flag (0 exactly when there is no flag) |
| ClientProgram.Split | src/SIM.Client/Program.cs:177 | splitting at `.` and `/` yields at least one chunk and no chunk contains a separator |
| ClientProgram.SplitRoundTrip | src/SIM.Client/Program.cs:177 | there is one more chunk than separators and the chunks interleaved with the separators rebuild the query |
| ClientProgram.SplitSeparatorKindIrrelevant | src/SIM.Client/Program.cs:177 | `.` and `/` are interchangeable: queries differing only in which separator stands where split alike |
| ClientProgram.SplitOnlySeparators | src/SIM.Client/Program.cs:177-182 | a query of separators only yields empty chunks only |
| ClientProgram.Resolve | src/SIM.Client/Program.cs:184-201 | a dictionary is entered by exact key membership, any other object by the first property whose name matches ignoring case; that member's value is the result exactly when it is not null; no match, a null member or a null object resolves to nothing |
| ClientProgram.Walk | src/SIM.Client/Program.cs:177-214 | following a path from a non-null value never reaches a null value |
| ClientProgram.WalkAppend | src/SIM.Client/Program.cs:177-214 | following a path `a + b` is following `a`, then `b` from where `a` ended, failing if `a` fails |
| ClientProgram.WalkFailsAtMissingChunk | src/SIM.Client/Program.cs:203-209 | a non-empty chunk that does not resolve makes the whole query fail, whatever follows it |
| ClientProgram.WalkEmptyChunks | src/SIM.Client/Program.cs:179-182 | empty chunks are skipped: a path of empty chunks returns its start |
| ClientProgram.QueryResult | src/SIM.Client/Program.cs:167-215 | the result itself for a null or empty query or an unsuccessful result; otherwise the value reached by the walk over the split query, or null on the first unresolved chunk; a returned value is never null |
| ClientProgram.QueryOfSeparatorsOnly | src/SIM.Client/Program.cs:171-182 | a query made only of separators returns the whole result |
| WebServer.NatDigits | src/SIM.Adapters/WebServer/WebServerManager.cs:105 | a natural number prints as a non-empty string of decimal digits without leading zero that reads back as the number |
| WebServer.DecimalString | src/SIM.Adapters/WebServer/WebServerManager.cs:105 | a printed port reads back as the port: its digits for a non-negative port, a minus sign and the digits of its magnitude otherwise; it never contains `:` |
| WebServer.AfterLastColon | src/SIM.Adapters/WebServer/WebServerManager.cs:87 | the host part read from binding information is the longest suffix without `:` |
| WebServer.AfterLastColonOfField | src/SIM.Adapters/WebServer/WebServerManager.cs:105 | the field after the last `:` of `prefix:host` is `host` when `host` has no `:` |
| WebServer.BindingInformation | src/SIM.Adapters/WebServer/WebServerManager.cs:105-107 | the binding built as `IP:Port:Host` answers to exactly the requested host |
| WebServer.BindsHost | src/SIM.Adapters/WebServer/WebServerManager.cs:87 | a site binds a host iff one of its bindings answers to it ignoring case |
| WebServer.SiteIndexByName | src/SIM.Adapters/WebServer/WebServerManager.cs:100 | the site chosen is the first whose name matches ignoring case |
| WebServer.SiteIndexById | src/SIM.Adapters/WebServer/WebServerManager.cs:31 | the site chosen has the id and no earlier site has it |
| WebServer.PoolIndex | src/SIM.Adapters/WebServer/WebServerManager.cs:146 | the pool found by name is the first whose name matches ignoring case |
| WebServer.UsersOfPool | src/SIM.Adapters/WebServer/WebServerManager.cs:149 | the count of sites having the pool as default pool is at most the number of sites, and zero exactly when no site has it |
| WebServer.UsersOfPoolIgnoresCase | src/SIM.Adapters/WebServer/WebServerManager.cs:149 | the count of sites using a pool as default depends on the pool name only up to case |
| WebServer.RemovePoolAt | src/SIM.Adapters/WebServer/WebServerManager.cs:151 | removing one pool keeps exactly the pools of other names and keeps names unique |
| WebServer.RemovePoolIfUnshared | src/SIM.Adapters/WebServer/WebServerManager.cs:145-152 | one application's step removes exactly one pool iff some pool has the name and at most one site has it as default pool, and otherwise changes nothing; pools of other names always stay |
| WebServer.RemovePoolIfUnsharedKeeps | src/SIM.Adapters/WebServer/WebServerManager.cs:145-152 | with unique pool names, a pool is removed by one step iff it has the name and at most one site uses it as default; names stay unique |
| WebServer.PoolsAfterDelete | src/SIM.Adapters/WebServer/WebServerManager.cs:143-153 | deleting a site's pools never adds a pool and never lengthens the list |
| WebServer.PoolsAfterDeleteKeeps | src/SIM.Adapters/WebServer/WebServerManager.cs:143-153 | after deleting a site, a pool is gone iff one of the site's applications uses it and at most one site has it as default pool; every other pool stays; names stay unique |
| WebServer.PoolOfOtherSiteRemoved | src/SIM.Adapters/WebServer/WebServerManager.cs:148-151 | a pool used by an application of the deleted site is removed even when its single default user is another site, which keeps it as default |
| WebServer.RemoveSiteKeepsIdsUnique | src/SIM.Adapters/WebServer/WebServerManager.cs:155 | removing a site keeps ids unique and no remaining site has its id |
| WebServer.GetWebRootPath | src/SIM.Adapters/WebServer/WebServerManager.cs:54-78 | succeeds iff the `/` application has a `/` virtual directory with a non-empty physical path, and returns that path; otherwise fails naming the site id |
| WebServer.IsApplicationPoolRunning | src/SIM.Adapters/WebServer/WebServerManager.cs:114-119 | true iff some non-null worker process is in state Running |
| WebServer.ServerManager.HostBindingExists | src/SIM.Adapters/WebServer/WebServerManager.cs:80-91 | true iff some binding of some site has the host, ignoring case |
| WebServer.ServerManager.WebsiteExists | src/SIM.Adapters/WebServer/WebServerManager.cs:121-132 | true iff some site's name equals the name ignoring case |
| WebServer.ServerManager.AddHostBinding | src/SIM.Adapters/WebServer/WebServerManager.cs:93-112 | refused, with nothing changed, iff the host is bound on any site or no site matches; otherwise exactly one binding `IP:Port:Host` with the protocol is appended to the first matching site, nothing else changes, and the host is bound afterwards |
| WebServer.ServerManager.DeleteWebsite | src/SIM.Adapters/WebServer/WebServerManager.cs:138-157 | the site is removed, pools change as `PoolsAfterDelete` says, and the invariant is kept |
| WebServer.ServerManager.DeleteWebsiteById | src/SIM.Adapters/WebServer/WebServerManager.cs:25-37 | with no site of that id nothing changes; otherwise that site and its pools are deleted and no site with the id remains |
| WebServer.ServerManager.DeleteWebsiteByName | src/SIM.Adapters/WebServer/WebServerManager.cs:39-52 | with no site of that name nothing changes; otherwise the first matching site and its pools are deleted |
| ImportInstanceButton.IsEnabled | src/SIM.Tool.Windows/MainWindowComponents/ImportInstanceButton.cs:21-24 | the button is enabled for every window and instance |
| ImportInstanceButton.MissingEntryMessage | src/SIM.Tool.Windows/MainWindowComponents/ImportInstanceButton.cs:52 | the message holds the entry's name between a fixed prefix and suffix, so the name reads back from it |
| ImportInstanceButton.MissingEntryMessageInjective | src/SIM.Tool.Windows/MainWindowComponents/ImportInstanceButton.cs:52 | different missing entries give different messages |
| ImportInstanceButton.OnClick | src/SIM.Tool.Windows/MainWindowComponents/ImportInstanceButton.cs:26-75 | an empty path does nothing; otherwise one outcome: the `import` wizard is started with the path iff all three entries are present, else one message naming the first missing entry in the fixed order |
| ImportInstanceButton.OnClickReportsFirstMissing | src/SIM.Tool.Windows/MainWindowComponents/ImportInstanceButton.cs:48-71 | when entry k is the first missing one, the message names exactly that entry |

## Left out

- `Main`, logging set-up, auto-completion files, the administrator check, command-line parsing, console output, JSON serialisation and analytics in `Program.cs`: these are I/O and foreign libraries.
- ClientProgram.QueryResult: the console messages and JSON dump printed on failure are not modelled; failure is only the null (None) result. The command result is its value plus its `Success` flag. Reflection is a list of (name, value) properties. A property getter that throws, such as an indexer, is not modelled.
- ClientProgram.ArgumentList: it stands for .NET `List<string>`. Its out-of-range exceptions are preconditions that the filters always meet.
- The ignore-case comparison maps only ASCII letters. Unicode case mapping is not modelled.
- WebServer.ServerManager.AddHostBinding: "the host is bound afterwards" is proved only for hosts without `:`. That rests on reading a binding's host as the text after the last `:` of its binding information. How IIS parses bindings is not part of this model.
- WebServer.ServerManager.DeleteWebsiteByName: the management API's `Sites[name]` and `ApplicationPools[name]` indexers are taken to match names ignoring case and return the first match.
- WebServer.ServerManager.DeleteWebsiteById: `SingleOrDefault` throwing on duplicate ids cannot happen, because the invariant keeps ids unique.
- WebServer.GetWebRootPath: the thrown exception is a failure carrying the site id, not the message text. A missing `physicalPath` attribute and a null value are both `None`.
- `WebServerContext`, `CommitChanges`, `Dispose` and profiling: these are the Microsoft.Web.Administration API, replaced by the in-memory state. Logging calls are left out.
- ImportInstanceButton.OnClick: the analytics event, the null-window assertion and the file dialog are left out. So are a zip file that fails to open and the instance-list refresh callback given to the wizard. The wizard start is only an outcome.
- `DeleteAgentPages`: it only calls `AgentHelper.DeleteAgentFiles`, which is not part of this model.
- The pipeline engine, its processor registry, abort and error outcomes, and wizard checkpoints are not part of this model.
