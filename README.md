# Sentry-aware Solr: authorization checks, the ZooKeeper CLI, token responses and a stop filter

This project models, in Dafny, six pieces of a Solr distribution that is integrated with
Apache Sentry, and proves properties of the model.

- **`SecureCoreAdminHandler`** maps a core admin request to one Sentry admin check. The check
  is the permission set, whether the collection is checked, and which collection. The request
  reaches the ordinary core admin handler only after that check passes.
- **`SecureAdminHandlers`** is the table of the eight secure admin handlers. Each one makes
  one admin check with fixed arguments and then delegates to the handler it extends.
- **`UpdateIndexAuthorizationProcessor`** is the update processor. On each of its six
  calls it asks Sentry for `{UPDATE}` on the request it was built for. Only when this is
  granted does it forward the call to the next processor.
- **`ZkCLI`** is the ZooKeeper command-line tool. The model covers:
  - how a parsed command line is validated (help, `-runzk`, the options and argument counts
    each command needs, and the message each failure prints);
  - which store calls each command makes, in order;
  - the chroot check of `bootstrap` and `upconfig`;
  - the embedded server and client lifecycle, including the `finally` block that
    `System.exit` skips;
  - the three nested loops of `getcollections` that write core descriptor lines.
- **`DelegationTokenResponse`** covers reading the token of a Get response and the
  expiration time of a Renew response, and the two response parsers.
- **`JapanesePartOfSpeechStopFilter`** keeps a token unless its part-of-speech tag is a stop
  tag.

Layout:

| file | contents |
|---|---|
| `Wrappers.dfy` | `Option`, `Result`, map lookup |
| `Sequences.dfy` | small generic sequence lemmas |
| `SentryCheck.dfy` | permission sets, the check record, the check-then-delegate step |
| `SecureCoreAdminHandler.dfy`, `SecureAdminHandlers.dfy` | the two admin handlers |
| `UpdateIndexAuthorizationProcessor.dfy` | the processor, as a class with an effect log |
| `ZkCli.dfy` | validation and the effects of one tool run |
| `ZkCliCollections.dfy` | the cluster state and `getcollections` |
| `DelegationTokenResponse.dfy` | token responses and parsers |
| `JapanesePartOfSpeechStopFilter.dfy` | the stop filter |

How the outside world is modelled:

- The world outside the model is given as parameters.
  - The Sentry verdict is a predicate `allow`. A denial is the `Forbidden` outcome, or a
    `Denied` verdict in the processor, because the Java code throws.
  - The enum name lookup `CoreAdminAction.get` is a function parameter.
  - The cores of the container are a map from core name to collection.
- In `ZkCLI`, an environment value says which store calls throw, whether the chroot check
  passes, the cluster state snapshot, and the instance directory the resource loader makes
  of a solr home.
- A run of the tool is a trace of events: prints, exits, server start and stop, store calls
  with their success, chroot checks, and client close.

## Model

| member | source | states |
|---|---|---|
| SentryCheck.CheckThenDelegate | solr/core/src/java/org/apache/solr/handler/admin/SecureAdminHandlers.java:48-55 | the trace is exactly the admin check, followed by one call to the base handler when the check passes and nothing otherwise. The base handler is reached exactly when the check passes, and only after it. A denial is `Forbidden` with the check that failed. |
| SecureCoreAdminHandler.NamesCore | solr/core/src/java/org/apache/solr/handler/admin/SecureCoreAdminHandler.java:60-70 | the eleven actions about one existing core: RENAME, UNLOAD, STATUS, RELOAD, SWAP, MERGEINDEXES, SPLIT, PREPRECOVERY, REQUESTRECOVERY, REQUESTSYNCSHARD and REQUESTAPPLYUPDATES |
| SecureCoreAdminHandler.NamedCoreCollection | solr/core/src/java/org/apache/solr/handler/admin/SecureCoreAdminHandler.java:71-77 | NAME is read with "" as its default and compared with "" by reference. So a NAME that is present, even as "", is looked up among the cores, and only an absent NAME skips the lookup. The result is the collection of the core of that name, or null when no such core exists or NAME is absent. |
| SecureCoreAdminHandler.Scope | solr/core/src/java/org/apache/solr/handler/admin/SecureCoreAdminHandler.java:56-95 | the first switch: an action about one core checks the collection of the core named by NAME; CREATE checks the COLLECTION parameter (null when absent); every other action (PERSIST, CREATEALIAS, DELETEALIAS, LOAD_ON_STARTUP, TRANSIENT, LOAD and any other) checks no collection |
| SecureCoreAdminHandler.NeedsUpdateOnly | solr/core/src/java/org/apache/solr/handler/admin/SecureCoreAdminHandler.java:102-120 | the seventeen actions of the second switch that need only UPDATE: LOAD, UNLOAD, RELOAD, CREATE, PERSIST, SWAP, RENAME, MERGEINDEXES, SPLIT, PREPRECOVERY, REQUESTRECOVERY, REQUESTSYNCSHARD, REQUESTAPPLYUPDATES, CREATEALIAS, DELETEALIAS, LOAD_ON_STARTUP and TRANSIENT |
| SecureCoreAdminHandler.Permission | solr/core/src/java/org/apache/solr/handler/admin/SecureCoreAdminHandler.java:97-129 | the second switch: STATUS needs QUERY_ONLY, the actions above need UPDATE_ONLY, and any other action needs QUERY_AND_UPDATE |
| SecureCoreAdminHandler.CoreAdminCheck | solr/core/src/java/org/apache/solr/handler/admin/SecureCoreAdminHandler.java:45-130 | with no action parameter, the request is a STATUS request: QUERY_ONLY, collection checked, collection of the core named by NAME. An action name that is not an action gives one QUERY_AND_UPDATE check with the collection checked and a null collection. For each action, the scope and the permission are stated. UPDATE is missing from the check exactly for STATUS. A collection is named only when it is checked. |
| SecureCoreAdminHandler.HandleRequestBody | solr/core/src/java/org/apache/solr/handler/admin/SecureCoreAdminHandler.java:45-132 | the trace is exactly one admin check with the arguments above, then one call to the core admin handler when that check passes and nothing otherwise |
| SecureAdminHandlers.StandardHandlers | solr/core/src/java/org/apache/solr/handler/admin/SecureAdminHandlers.java:35-46 | exactly eight entries, named luke, system, mbeans, plugins, threads, properties, logging and file in that order. No name or handler appears twice, and every secure handler is registered under its name. |
| SecureAdminHandlers.HandlerNamed | solr/core/src/java/org/apache/solr/handler/admin/SecureAdminHandlers.java:35-46 | a handler is found exactly for a name in the table, and it is the handler registered under that name |
| SecureAdminHandlers.HandlerCheck | solr/core/src/java/org/apache/solr/handler/admin/SecureAdminHandlers.java:48-114 | the collection is always null. Logging needs QUERY_AND_UPDATE; every other handler needs QUERY_ONLY. The collection is checked for luke, plugins, file and mbeans, and for system exactly when the request has a core; never for logging, properties or threads. |
| SecureAdminHandlers.HandleRequestBody | solr/core/src/java/org/apache/solr/handler/admin/SecureAdminHandlers.java:48-114 | the trace is exactly one admin check with the handler's arguments, then one call to the base handler when the check passes and nothing otherwise |
| UpdateIndexAuthorizationProcessor.Step | solr/core/src/java/org/apache/solr/update/processor/UpdateIndexAuthorizationProcessor.java:46-87 | the events of one `processX` call: one authorization of {UPDATE} on the captured request, then the same call forwarded to `super`, only when it was granted |
| UpdateIndexAuthorizationProcessor.Steps | solr/core/src/java/org/apache/solr/update/processor/UpdateIndexAuthorizationProcessor.java:51-87 | the log of a history of calls: the steps of its calls, in the order they were made |
| UpdateIndexAuthorizationProcessor.Granted | solr/core/src/java/org/apache/solr/update/processor/UpdateIndexAuthorizationProcessor.java:51-87 | the calls of a history that were granted, in order |
| UpdateIndexAuthorizationProcessor.Received | solr/core/src/java/org/apache/solr/update/processor/UpdateIndexAuthorizationProcessor.java:51-87 | the calls the next processor received: the forwarded calls of a log, in order |
| UpdateIndexAuthorizationProcessor.StepFacts | solr/core/src/java/org/apache/solr/update/processor/UpdateIndexAuthorizationProcessor.java:46-55 | one call makes one authorization, and forwards the call itself only when it is granted |
| UpdateIndexAuthorizationProcessor.NextReceivesGrantedCalls | solr/core/src/java/org/apache/solr/update/processor/UpdateIndexAuthorizationProcessor.java:51-87 | the next processor receives exactly the granted calls, unchanged and in order. A denied call is never forwarded. |
| UpdateIndexAuthorizationProcessor.OneAuthorizationPerCall | solr/core/src/java/org/apache/solr/update/processor/UpdateIndexAuthorizationProcessor.java:51-87 | every call is authorized exactly once |
| UpdateIndexAuthorizationProcessor.AuthorizedWithUpdateOnly | solr/core/src/java/org/apache/solr/update/processor/UpdateIndexAuthorizationProcessor.java:38-49 | every authorization asks for exactly {UPDATE} on the captured request. Every forwarded call directly follows a granted authorization. |
| UpdateIndexAuthorizationProcessor.UpdateIndexAuthorizationProcessor.constructor | solr/core/src/java/org/apache/solr/update/processor/UpdateIndexAuthorizationProcessor.java:40-44 | the request is captured, and the log and history start empty |
| UpdateIndexAuthorizationProcessor.UpdateIndexAuthorizationProcessor.AuthorizeThenForward | solr/core/src/java/org/apache/solr/update/processor/UpdateIndexAuthorizationProcessor.java:46-55 | the log grows by the authorization and, when granted, by the forwarded call. The log stays the log of the whole history. |
| UpdateIndexAuthorizationProcessor.UpdateIndexAuthorizationProcessor.ProcessAdd | solr/core/src/java/org/apache/solr/update/processor/UpdateIndexAuthorizationProcessor.java:51-55 | authorization, then `processAdd` with the same command, only if granted |
| UpdateIndexAuthorizationProcessor.UpdateIndexAuthorizationProcessor.ProcessDelete | solr/core/src/java/org/apache/solr/update/processor/UpdateIndexAuthorizationProcessor.java:57-61 | authorization, then `processDelete` with the same command, only if granted |
| UpdateIndexAuthorizationProcessor.UpdateIndexAuthorizationProcessor.ProcessMergeIndexes | solr/core/src/java/org/apache/solr/update/processor/UpdateIndexAuthorizationProcessor.java:63-67 | authorization, then `processMergeIndexes` with the same command, only if granted |
| UpdateIndexAuthorizationProcessor.UpdateIndexAuthorizationProcessor.ProcessCommit | solr/core/src/java/org/apache/solr/update/processor/UpdateIndexAuthorizationProcessor.java:69-74 | authorization, then `processCommit` with the same command, only if granted |
| UpdateIndexAuthorizationProcessor.UpdateIndexAuthorizationProcessor.ProcessRollback | solr/core/src/java/org/apache/solr/update/processor/UpdateIndexAuthorizationProcessor.java:76-81 | authorization, then `processRollback` with the same command, only if granted |
| UpdateIndexAuthorizationProcessor.UpdateIndexAuthorizationProcessor.Finish | solr/core/src/java/org/apache/solr/update/processor/UpdateIndexAuthorizationProcessor.java:83-87 | authorization, then `finish`, only if granted |
| DelegationTokenResponse.GetDelegationToken | solr/solrj/src/java/org/apache/solr/client/solrj/response/DelegationTokenResponse.java:41-52 | an absent or null Token gives null. A Token that is not a map is a parsing error. For a map: an absent urlString gives null, a string gives itself, and any other value is a parsing error. |
| DelegationTokenResponse.GetRoundTrip | solr/solrj/src/java/org/apache/solr/client/solrj/response/DelegationTokenResponse.java:41-52 | reading the Get response built from a url string gives that url string back, with or without other entries |
| DelegationTokenResponse.GetExpirationTime | solr/solrj/src/java/org/apache/solr/client/solrj/response/DelegationTokenResponse.java:56-63 | absent or null gives null, a Long gives itself, and any other type is a parsing error |
| DelegationTokenResponse.RenewRoundTrip | solr/solrj/src/java/org/apache/solr/client/solrj/response/DelegationTokenResponse.java:56-63 | reading the Renew response built from an expiration time gives that time back |
| DelegationTokenResponse.SmallExpirationIsParsingError | solr/solrj/src/java/org/apache/solr/client/solrj/response/DelegationTokenResponse.java:56-63 | an expiration value decoded as an Integer fails the `(Long)` cast and is a parsing error |
| DelegationTokenResponse.WriterType | solr/solrj/src/java/org/apache/solr/client/solrj/response/DelegationTokenResponse.java:72-116 | "json" for the JSON map parser, null for the null parser |
| DelegationTokenResponse.ContentType | solr/solrj/src/java/org/apache/solr/client/solrj/response/DelegationTokenResponse.java:98-142 | "application/json" for the JSON map parser, null for the null parser |
| DelegationTokenResponse.Version | solr/solrj/src/java/org/apache/solr/client/solrj/response/DelegationTokenResponse.java:103-147 | both parsers report version "1" |
| DelegationTokenResponse.ProcessReader | solr/solrj/src/java/org/apache/solr/client/solrj/response/DelegationTokenResponse.java:93-137 | both parsers reject a character stream with "Cannot handle character stream" |
| DelegationTokenResponse.ProcessJsonBody | solr/solrj/src/java/org/apache/solr/client/solrj/response/DelegationTokenResponse.java:79-91 | it succeeds exactly for a decoded map, and gives its entries. A decoding failure is a parsing error. A null map gives a NullPointerException. |
| DelegationTokenResponse.ProcessEmptyBody | solr/solrj/src/java/org/apache/solr/client/solrj/response/DelegationTokenResponse.java:119-132 | it succeeds, with an empty list, exactly for an empty stream. A read failure is a parsing error. A non-empty body is a server error naming the first byte. |
| DelegationTokenResponse.EmptyBodyErrorNamesFirstByte | solr/solrj/src/java/org/apache/solr/client/solrj/response/DelegationTokenResponse.java:122-126 | the error message is the fixed prefix followed by digits that parse back to the first byte |
| DelegationTokenResponse.Decimal | solr/solrj/src/java/org/apache/solr/client/solrj/response/DelegationTokenResponse.java:124-125 | the text Java's string concatenation writes for the byte read: at least one decimal digit, with no leading zero |
| DelegationTokenResponse.DecimalRoundTrip | solr/solrj/src/java/org/apache/solr/client/solrj/response/DelegationTokenResponse.java:124-125 | the decimal text of an int, as string concatenation writes it, parses back to the int |
| JapanesePartOfSpeechStopFilter.PosStopFilter.Accept | lucene/analysis/kuromoji/src/java/org/apache/lucene/analysis/ja/JapanesePartOfSpeechStopFilter.java:52-56 | `accept`: a token is kept when its tag is null or not a stop tag |
| JapanesePartOfSpeechStopFilter.AcceptIff | lucene/analysis/kuromoji/src/java/org/apache/lucene/analysis/ja/JapanesePartOfSpeechStopFilter.java:52-56 | a single token passes the filter exactly when its tag is null or not a stop tag, so a token without a tag always passes |
| JapanesePartOfSpeechStopFilter.PosStopFilter.Apply | lucene/analysis/kuromoji/src/java/org/apache/lucene/analysis/ja/JapanesePartOfSpeechStopFilter.java:27-56 | the output is no longer than the input. Everything kept is accepted, and every accepted input token is kept. |
| JapanesePartOfSpeechStopFilter.ApplyIsOrderedSelection | lucene/analysis/kuromoji/src/java/org/apache/lucene/analysis/ja/JapanesePartOfSpeechStopFilter.java:27-56 | the output is a subsequence of the input. Each accepted token occurs as often as in the input; a rejected one never occurs. |
| JapanesePartOfSpeechStopFilter.ApplyAppend | lucene/analysis/kuromoji/src/java/org/apache/lucene/analysis/ja/JapanesePartOfSpeechStopFilter.java:52-56 | filtering is token by token: filtering a concatenation concatenates the filtered parts |
| JapanesePartOfSpeechStopFilter.NoStopTagsKeepsAll | lucene/analysis/kuromoji/src/java/org/apache/lucene/analysis/ja/JapanesePartOfSpeechStopFilter.java:47-56 | with an empty stop-tag set every token is kept |
| JapanesePartOfSpeechStopFilter.ApplyIdempotent | lucene/analysis/kuromoji/src/java/org/apache/lucene/analysis/ja/JapanesePartOfSpeechStopFilter.java:52-56 | filtering twice gives the same as filtering once |
| JapanesePartOfSpeechStopFilter.UntaggedTokensSurvive | lucene/analysis/kuromoji/src/java/org/apache/lucene/analysis/ja/JapanesePartOfSpeechStopFilter.java:54-55 | every untagged token survives, as often as it occurs |
| ZkCli.ParsedCommandName | solr/core/src/java/org/apache/solr/cloud/ZkCLI.java:189-305 | the command read from a `-cmd` value carries that name |
| ZkCli.ParseCommandName | solr/core/src/java/org/apache/solr/cloud/ZkCLI.java:55-78 | every known command is read back from its constant name |
| ZkCli.CommandCheckMeetsRequirements | solr/core/src/java/org/apache/solr/cloud/ZkCLI.java:189-310 | a command's check passes exactly when it has all the options it requires and exactly the number of positional arguments it takes |
| ZkCli.CommandCheck | solr/core/src/java/org/apache/solr/cloud/ZkCLI.java:189-310 | the intended check of each command: its required options and its positional argument count, with the message each refusal is meant to print |
| ZkCli.CommandCheckNamesOptions | solr/core/src/java/org/apache/solr/cloud/ZkCLI.java:189-237 | a failing options check is meant to print "-a [and -b] is/are required for cmd", naming the required options and the command |
| ZkCli.CommandCheckNamesArgCount | solr/core/src/java/org/apache/solr/cloud/ZkCLI.java:264-310 | a failing argument check is meant to print "-cmd requires one arg / two args - …" for the command and its count |
| ZkCli.LinkConfigMessageNamesWrongOption | solr/core/src/java/org/apache/solr/cloud/ZkCLI.java:232-237 | as written, a `linkconfig` line with `-confdir` and `-confname` but no `-collection` is refused with a message that names `-confdir` and not the missing `-collection` |
| ZkCli.LinkConfigCheckAsWritten | solr/core/src/java/org/apache/solr/cloud/ZkCLI.java:232-237 | the `linkconfig` check as the tool writes it: it tests `-collection` and `-confname` and prints the message naming `-confdir` and `-confname` |
| ZkCli.GetFileCheckAsWritten | solr/core/src/java/org/apache/solr/cloud/ZkCLI.java:305-310 | the `getfile` check as the tool writes it: two arguments, and the message without the space |
| ZkCli.CommandCheckAsWritten | solr/core/src/java/org/apache/solr/cloud/ZkCLI.java:189-310 | the check the tool makes, with the messages it prints. It refuses exactly the lines the intended check refuses, with the same message for every command but `linkconfig` and `getfile`. |
| ZkCli.AsWrittenMessageDiffers | solr/core/src/java/org/apache/solr/cloud/ZkCLI.java:232-310 | for `linkconfig` and `getfile`, every refusal prints a message other than the intended one |
| ZkCli.GetFileMessageLacksSpace | solr/core/src/java/org/apache/solr/cloud/ZkCLI.java:305-310 | as written, the `getfile` message is one character (the space) short of the argument-count message |
| ZkCli.Validate | solr/core/src/java/org/apache/solr/cloud/ZkCLI.java:141-174 | an accepted line has `-cmd`, and the command run is the one its value names. A refused line carries the message the tool prints. |
| ZkCli.ValidateAccepts | solr/core/src/java/org/apache/solr/cloud/ZkCLI.java:141-310 | a line is accepted exactly when it asks for no help, has `-zkhost` and `-cmd`, gives `-solrhome` whenever it gives `-runzk`, and meets its command's requirements |
| ZkCli.ValidateCommand | solr/core/src/java/org/apache/solr/cloud/ZkCLI.java:189-313 | past the help and `-runzk` checks, the command's own check decides |
| ZkCli.UnknownCommandAccepted | solr/core/src/java/org/apache/solr/cloud/ZkCLI.java:189-313 | an unknown command is never refused |
| ZkCli.RunCommand | solr/core/src/java/org/apache/solr/cloud/ZkCLI.java:189-313 | a failing check prints the tool's message for that command and exits, with no store call. An exit of an accepted command is a failing chroot check, and only `bootstrap`/`upconfig` check the chroot. A throw comes from a failing call or an unreadable host. An unknown command does nothing. When nothing fails, the command makes exactly its store calls. |
| ZkCli.Dispatch | solr/core/src/java/org/apache/solr/cloud/ZkCLI.java:195-312 | as `RunCommand`, for a command whose check passed. For `get`, the node is printed exactly when the read does not throw and the node has data. |
| ZkCli.RunBootstrap | solr/core/src/java/org/apache/solr/cloud/ZkCLI.java:195-205 | load the solr home, check the chroot, then bootstrap the configuration from the loader's instance directory. A failed chroot check prints the message and exits before any write. |
| ZkCli.RunUpConfig | solr/core/src/java/org/apache/solr/cloud/ZkCLI.java:213-221 | check the chroot, then upload the directory under the name. A failed chroot check prints the message and exits before any write. |
| ZkCli.OneCall | solr/core/src/java/org/apache/solr/cloud/ZkCLI.java:228-284 | the single store call of downconfig, linkconfig, list, clear, makepath and put. The command completes exactly when the call does not throw. |
| ZkCli.RunGetCollections | solr/core/src/java/org/apache/solr/cloud/ZkCLI.java:244-263 | refresh the cluster state, then print the lines of the walk. It completes exactly when every host is readable. |
| ZkCli.RunPutFile | solr/core/src/java/org/apache/solr/cloud/ZkCLI.java:285-296 | open, read, create. The local file is closed exactly when it was opened. |
| ZkCli.RunGet | solr/core/src/java/org/apache/solr/cloud/ZkCLI.java:297-304 | read the node. Its data is printed exactly when the read does not throw and the node has data. A node whose data is null (as one made by `makepath`) throws after the read succeeded, with nothing printed. |
| ZkCli.RunGetFile | solr/core/src/java/org/apache/solr/cloud/ZkCLI.java:305-312 | read the node, then write its data to the local file. Writing the data of a node with null data throws. |
| ZkCli.Run | solr/core/src/java/org/apache/solr/cloud/ZkCLI.java:137-324 | a parse error prints "Unexpected exception:" and its message. Help, or a missing `-zkhost`/`-cmd`, prints only the help. `-runzk` without `-solrhome` prints its message and exits with no store call. Otherwise the run keeps every clause of the session outcome. |
| ZkCli.Session | solr/core/src/java/org/apache/solr/cloud/ZkCLI.java:163-321 | A rejected line makes only the connection, then prints and exits (or throws from the connection). An exit ends the trace, with no cleanup. Any other run stops the server exactly when it started it and closes the client exactly when it obtained it, as the last events in that order. The server is started exactly for `-runzk`. Configuration is written only after a passing chroot check. With nothing failing, the run makes exactly the connection and the command's calls. |
| ZkCli.StartAndTry | solr/core/src/java/org/apache/solr/cloud/ZkCLI.java:163-313 | the embedded server is started exactly when `-runzk` is given, before the `try` block |
| ZkCli.TryBlock | solr/core/src/java/org/apache/solr/cloud/ZkCLI.java:185-313 | the first event is the client connection with the 30000 ms timeouts. A failed connection ends the block. Nothing in the block stops the server or closes the client. |
| ZkCli.ExitedOutcome | solr/core/src/java/org/apache/solr/cloud/ZkCLI.java:185-321 | a block that called `System.exit` ends the run, with no `finally` |
| ZkCli.FinishedOutcome | solr/core/src/java/org/apache/solr/cloud/ZkCLI.java:185-321 | a block that completed or threw, followed by `finally`, meets the session outcome |
| ZkCli.Finally | solr/core/src/java/org/apache/solr/cloud/ZkCLI.java:314-321 | the trace is the body followed by the server stop (if started) and the client close (if obtained) |
| ZkCli.FinallyFacts | solr/core/src/java/org/apache/solr/cloud/ZkCLI.java:314-321 | after `finally` the server is stopped exactly when it was started and the client closed exactly when it was obtained, as the last events |
| ZkCli.FinallyKeeps | solr/core/src/java/org/apache/solr/cloud/ZkCLI.java:314-321 | `finally` makes no store call and no chroot check |
| ZkCli.CleanupEvents | solr/core/src/java/org/apache/solr/cloud/ZkCLI.java:314-321 | the clean-up holds a stop exactly when started and a close exactly when obtained, and makes no call |
| ZkCli.ParseCommand | solr/core/src/java/org/apache/solr/cloud/ZkCLI.java:189-305 | the `-cmd` value is compared with the command names in the order of the `if` chain. A value equal to none of them is `Unknown`, for which no branch runs. |
| ZkCli.ShowsHelp | solr/core/src/java/org/apache/solr/cloud/ZkCLI.java:141-142 | help is shown exactly when `-help` is given, or `-zkhost` or `-cmd` is missing |
| ZkCli.RequiredOptions | solr/core/src/java/org/apache/solr/cloud/ZkCLI.java:189-240 | bootstrap needs `-solrhome`; upconfig and downconfig need `-confdir` and `-confname`; linkconfig needs `-collection` and `-confname`. No other command needs an option. |
| ZkCli.RequiredArgCount | solr/core/src/java/org/apache/solr/cloud/ZkCLI.java:264-310 | clear, makepath and get take exactly one positional argument; put, putfile and getfile take exactly two. The other commands do not look at the arguments. |
| ZkCli.ChecksChroot | solr/core/src/java/org/apache/solr/cloud/ZkCLI.java:200-219 | bootstrap and upconfig, and only these, check the chroot before they write |
| ZkCli.ActionCalls | solr/core/src/java/org/apache/solr/cloud/ZkCLI.java:195-312 | the store calls each accepted command makes, in order, when nothing fails: bootstrap loads the solr home and bootstraps the configuration from its instance directory; getcollections refreshes the state; putfile opens, reads and creates; getfile reads and writes the local file; each other command makes its one call, and an unknown one none. |
| ZkCli.Cleanup | solr/core/src/java/org/apache/solr/cloud/ZkCLI.java:314-321 | the `finally` block: stop the server if it was started, then close the client if it was obtained |
| ZkCli.RunOutcome | solr/core/src/java/org/apache/solr/cloud/ZkCLI.java:137-324 | what `Run` and `Session` are proved to keep: a refused line makes only the connection and then prints its message and exits, or throws from the connection; an exit ends the trace with status 1 and no clean-up; otherwise the clean-up comes last; the server starts exactly for `-runzk`; configuration is written only after a passing chroot check; an accepted command exits only for a failing chroot check of bootstrap or upconfig, and with nothing failing makes exactly the connection and its `ActionCalls` |
| ZkCli.TryOutcome | solr/core/src/java/org/apache/solr/cloud/ZkCLI.java:185-313 | what `TryBlock` is proved to keep: the client is obtained exactly when the connection does not throw, and a failed connection ends the block by throwing; the block exits exactly when its last event is the exit; a refused command makes only the connection before printing the as-written message; an accepted one keeps the chroot, exit and call facts of `RunOutcome` |
| ZkCliCollections.ActiveSlices | solr/core/src/java/org/apache/solr/cloud/ZkCLI.java:248 | `getActiveSlicesMap`: the active slices of a collection, in the order listed |
| ZkCliCollections.Walk | solr/core/src/java/org/apache/solr/cloud/ZkCLI.java:247-249 | the replicas visited: for each collection in order, every replica of each of its active slices |
| ZkCliCollections.Host | solr/core/src/java/org/apache/solr/cloud/ZkCLI.java:250 | `nodeName.split(":")[0]`: missing (the read throws) for a non-empty name of colons only, and otherwise the text before the first ':' |
| ZkCliCollections.Prop | solr/core/src/java/org/apache/solr/cloud/ZkCLI.java:257-260 | `replica.getStr(key)` as `%s` prints it: the property's value, or "null" when it is missing |
| ZkCliCollections.Render | solr/core/src/java/org/apache/solr/cloud/ZkCLI.java:256-260 | the `printf` format of the core line, with the descriptor's shard, instance directory, name and collection in the four `%s` places |
| ZkCliCollections.ReplicaLines | solr/core/src/java/org/apache/solr/cloud/ZkCLI.java:250-260 | with no `-hostname`, the host, a tab and the core line; with a `-hostname` equal to the host, only the core line; for any other host nothing (the `continue`) |
| ZkCliCollections.Emit | solr/core/src/java/org/apache/solr/cloud/ZkCLI.java:247-263 | the lines written for the walk in order, stopping at the first replica whose host cannot be read; it is complete exactly when the walk got to its end |
| ZkCliCollections.SliceReplicas | solr/core/src/java/org/apache/solr/cloud/ZkCLI.java:248-249 | the replicas of the given slices: slice by slice, each slice's replicas in their order |
| ZkCliCollections.BeforeColon | solr/core/src/java/org/apache/solr/cloud/ZkCLI.java:250 | the longest prefix of the node name that holds no ':'; it is followed by ':' or ends the name |
| ZkCliCollections.OnHost | solr/core/src/java/org/apache/solr/cloud/ZkCLI.java:251-255 | the replicas of the walk whose host is the given `-hostname`, in walk order; it never holds more replicas than the walk |
| ZkCliCollections.HostIsTextBeforeColon | solr/core/src/java/org/apache/solr/cloud/ZkCLI.java:250 | `split(":")[0]` throws exactly for a non-empty name made only of ':'. Otherwise it is the longest prefix without ':', which is followed by ':' or ends the name. |
| ZkCliCollections.Descriptor | solr/core/src/java/org/apache/solr/cloud/ZkCLI.java:256-260 | name is the core, instanceDir is the core followed by "/", and shard and collection are the replica's. A missing property prints "null". |
| ZkCliCollections.GetCollections | solr/core/src/java/org/apache/solr/cloud/ZkCLI.java:246-263 | the outer loop writes exactly what the walk emits, and stops where the walk stops |
| ZkCliCollections.EmitSlices | solr/core/src/java/org/apache/solr/cloud/ZkCLI.java:248-262 | the loop over active slices extends the emission by their replicas |
| ZkCliCollections.EmitReplicas | solr/core/src/java/org/apache/solr/cloud/ZkCLI.java:249-261 | the loop over replicas extends the emission replica by replica |
| ZkCliCollections.EmitStep | solr/core/src/java/org/apache/solr/cloud/ZkCLI.java:249-261 | one replica of the emission: stop on an unreadable host, else write its lines |
| ZkCliCollections.EmitStopsAtFailure | solr/core/src/java/org/apache/solr/cloud/ZkCLI.java:250 | once a host cannot be read, nothing more is written |
| ZkCliCollections.ActiveSlicesMembers | solr/core/src/java/org/apache/solr/cloud/ZkCLI.java:248 | the slices walked are exactly the active ones |
| ZkCliCollections.SliceReplicasMembers | solr/core/src/java/org/apache/solr/cloud/ZkCLI.java:248-249 | a replica is visited exactly when one of the slices holds it |
| ZkCliCollections.WalkMembers | solr/core/src/java/org/apache/solr/cloud/ZkCLI.java:247-249 | a replica is visited exactly when it belongs to an active slice of some collection |
| ZkCliCollections.EmitCompleteIff | solr/core/src/java/org/apache/solr/cloud/ZkCLI.java:250 | the walk reaches its end exactly when every host can be read, whatever host is asked for |
| ZkCliCollections.EmitUpToFailure | solr/core/src/java/org/apache/solr/cloud/ZkCLI.java:250 | the output stops at the first unreadable host with what came before it |
| ZkCliCollections.EmitEveryReplica | solr/core/src/java/org/apache/solr/cloud/ZkCLI.java:251-260 | without `-hostname`, one line per visited replica, in order: its host, a tab, its descriptor |
| ZkCliCollections.OnHostMembers | solr/core/src/java/org/apache/solr/cloud/ZkCLI.java:253-255 | the host filter keeps exactly the replicas on that host |
| ZkCliCollections.EmitOnlyHost | solr/core/src/java/org/apache/solr/cloud/ZkCLI.java:251-260 | with `-hostname`, exactly the descriptor lines of the replicas on that host, in walk order, with no prefix |
| ZkCliCollections.EmitIgnoresOtherProperties | solr/core/src/java/org/apache/solr/cloud/ZkCLI.java:249-260 | the output depends only on node names and descriptor properties |
| ZkCliCollections.ReplicaStateIgnored | solr/core/src/java/org/apache/solr/cloud/ZkCLI.java:249-260 | a replica's own state does not change what it writes (no filter on replica state) |

## Left out

- The Sentry authorization engine behind `checkSentryAdmin` and `authorizeCollectionAction`
  is not modelled. Its verdict is the `allow` parameter.
- The base handlers (`CoreAdminHandler`, `AdminHandlers`, the eight handlers they extend)
  and the next update processor are not modelled. Reaching them is a `Delegate` or
  `Forward` event.
- `CoreAdminAction.get` is not shown in the source. It is a parameter that gives `None` for
  a name that is not an action.
- `SecureCoreAdminHandler.CoreAdminCheck` does not model a core whose cloud descriptor is
  null. In that case the Java code throws a NullPointerException before any check; the model
  always has a collection for an existing core.
- ZooKeeper, `ZkStateReader`, the cluster state watcher, `ZkController` and the
  `SolrZkClient` internals are not modelled. Each store call is an event that succeeds or
  throws as the environment says. Which nodes hold null data is also given by the
  environment. The cluster state is one snapshot taken after the refresh.
- The commons-cli parsing of raw arguments and the help text are not modelled. The parsed
  line, or the parse exception's message, is the input; help is one `PrintHelp` event.
- Standard output and the file system are modelled only as events.
- `ZkCli.Session`: the embedded `SolrZkServer` is assumed to start and stop without
  throwing. Its configuration parsing is not modelled.
- `ZkCli.RunBootstrap`: the resource loader and `ConfigSolr.fromSolrHome` are one
  `LoadSolrHome` call. The instance directory the loader makes of the solr home comes from
  the environment.
- `ZkCli.RunBootstrap` and `ZkCli.RunUpConfig`: `checkChrootPath` is an answer from the
  environment and never throws.
- `ZkCliCollections.Host`: a replica's node name is always a string. A null node name, on which `split` throws a NullPointerException, is not modelled.
- `ZkCliCollections.EmitReplicas`: a `%` in a node name, which `printf` would read as a
  format directive, is not modelled. The host is written as text.
- `DelegationTokenResponse.ProcessJsonBody`: Jackson's decoding of the bytes is a given
  result. The model keeps only which Java type each number was decoded to.
- `PreemptiveBasicAuthConfigurer` is not modelled.
- The filter's position increments, the `FilteringTokenFilter` machinery and the
  deprecated constructor's `enablePositionIncrements` flag are not modelled. The filter is a
  value holding its stop tags, which never change after construction.
- The tests are not modelled.
- Concurrency is not modelled anywhere.
- The three nested loops of `getcollections` are three methods, one loop each; the `continue`
  is the branch that writes nothing.
- The body of the tool's `try` is split into the command check (`ZkCli.RunCommand`) and the
  per-command calls (`ZkCli.Dispatch`). The order of events is the source's.

## Findings

| source | as written | input that shows it | evidently intended | confidence | as-written member | corrected member |
|---|---|---|---|---|---|---|
| solr/core/src/java/org/apache/solr/cloud/ZkCLI.java:233-235 | `linkconfig` tests `-collection` and `-confname`, but its message says "-confdir and -confname are required for linkconfig" | `-cmd linkconfig -confdir /opt/conf -confname myconf` (no `-collection`) | the message names `-collection` and `-confname`, the options the command requires | not executed | ZkCli.LinkConfigMessageNamesWrongOption (on ZkCli.LinkConfigCheckAsWritten) | ZkCli.CommandCheckNamesOptions (on ZkCli.CommandCheck) |
| solr/core/src/java/org/apache/solr/cloud/ZkCLI.java:307-308 | the `getfile` message is `"-" + GET_FILE + "requires two args - …"`, with no space, so it prints "-getfilerequires two args - …" | `-cmd getfile /solr.xml` (one argument) | "-getfile requires two args - …", like every other argument-count message | not executed | ZkCli.GetFileMessageLacksSpace (on ZkCli.GetFileCheckAsWritten) | ZkCli.CommandCheckNamesArgCount (on ZkCli.CommandCheck) |

The run of the tool (`ZkCli.Validate`, `ZkCli.RunCommand`, `ZkCli.TryBlock`, `ZkCli.Run`) prints the messages as written, through `ZkCli.CommandCheckAsWritten`. `ZkCli.CommandCheck` is the intended check. The two refuse the same command lines, and `ZkCli.AsWrittenMessageDiffers` proves the two messages always differ for these two commands.
