/**
 * The ZooKeeper command-line tool (`zkcli.sh`): which commands it knows, what each needs
 * from the command line, and the order of the effects of one run (an embedded ZooKeeper
 * server, the ZooKeeper client, the store calls of the command, the clean-up in `finally`).
 * Parsing of the raw arguments, the help text and the store itself are outside the model:
 * the parsed command line comes in as a value and every store call is an event that
 * either succeeds or throws.
 */
module ZkCli {
  import opened Sequences
  import opened Wrappers
  import ZkCliCollections

  // ---- Option names ----

  const Help := "help"
  const ZkHost := "zkhost"
  const Cmd := "cmd"
  const RunZk := "runzk"
  const SolrHome := "solrhome"
  const ConfDir := "confdir"
  const ConfName := "confname"
  const CollectionOption := "collection"
  const HostName := "hostname"

  /** The session and connection timeouts, in milliseconds, of the client. */
  const ClientTimeout := 30000

  /** A parsed command line: the options given, with their values (an option without a
      value, such as `-help`, maps to ""), and the remaining positional arguments. */
  datatype CommandLine = CommandLine(options: map<string, string>, args: seq<string>)

  /** What the command-line parser gives back: a command line, or the message of the
      parse exception. */
  datatype Input = Parsed(line: CommandLine) | Unparseable(message: string)

  // ---- Commands ----

  datatype Command =
    | Bootstrap | UpConfig | DownConfig | LinkConfig | List | GetCollections
    | Clear | MakePath | Put | PutFile | Get | GetFile
    | Unknown(name: string)

  function CommandName(c: Command): string {
    match c
    case Bootstrap => "bootstrap"
    case UpConfig => "upconfig"
    case DownConfig => "downconfig"
    case LinkConfig => "linkconfig"
    case List => "list"
    case GetCollections => "getcollections"
    case Clear => "clear"
    case MakePath => "makepath"
    case Put => "put"
    case PutFile => "putfile"
    case Get => "get"
    case GetFile => "getfile"
    case Unknown(name) => name
  }

  /** The value of `-cmd` compared, in the order of the tool's `if` chain, with each
      command name. */
  function ParseCommand(name: string): Command {
    if name == "bootstrap" then Bootstrap
    else if name == "upconfig" then UpConfig
    else if name == "downconfig" then DownConfig
    else if name == "linkconfig" then LinkConfig
    else if name == "list" then List
    else if name == "getcollections" then GetCollections
    else if name == "clear" then Clear
    else if name == "makepath" then MakePath
    else if name == "put" then Put
    else if name == "putfile" then PutFile
    else if name == "get" then Get
    else if name == "getfile" then GetFile
    else Unknown(name)
  }

  /** The command read from a name carries that name. */
  lemma ParsedCommandName(name: string)
    ensures CommandName(ParseCommand(name)) == name
  {
  }

  /** Every known command is read back from its name. */
  lemma ParseCommandName(c: Command)
    requires !c.Unknown?
    ensures ParseCommand(CommandName(c)) == c
  {
  }

  // ---- What each command needs from the command line ----

  /** The options a command cannot run without, in the order its message names them. */
  function RequiredOptions(c: Command): seq<string> {
    match c
    case Bootstrap => [SolrHome]
    case UpConfig => [ConfDir, ConfName]
    case DownConfig => [ConfDir, ConfName]
    case LinkConfig => [CollectionOption, ConfName]
    case _ => []
  }

  /** The number of positional arguments a command takes, for those that take any. */
  function RequiredArgCount(c: Command): Option<nat> {
    match c
    case Clear => Some(1)
    case MakePath => Some(1)
    case Get => Some(1)
    case Put => Some(2)
    case PutFile => Some(2)
    case GetFile => Some(2)
    case _ => None
  }

  /** The commands that check the chroot of the ZooKeeper address before they write. */
  predicate ChecksChroot(c: Command) {
    c == Bootstrap || c == UpConfig
  }

  /** The message for missing options: "-a is required for c", "-a and -b are
      required for c". */
  function OptionsMessage(options: seq<string>, command: string): string
    requires |options| == 1 || |options| == 2
  {
    if |options| == 1 then "-" + options[0] + " is required for " + command
    else "-" + options[0] + " and -" + options[1] + " are required for " + command
  }

  /** The message for a wrong number of positional arguments. */
  function ArgsMessage(command: string, count: nat, what: string): string {
    "-" + command + " requires " + (if count == 1 then "one arg" else "two args") + " - " + what
  }

  /** Whether some option of the list is missing. */
  predicate Missing(line: CommandLine, options: seq<string>) {
    exists i | 0 <= i < |options| :: options[i] !in line.options
  }

  /** What `getfile` says its two arguments are. */
  const GetFileArgs := "the path to get and the file to save it to"

  /** The check each command makes of its command line before it runs, and the message it
      is meant to print when the check fails. For `linkconfig` and `getfile` the tool prints
      a different message (see `CommandCheckAsWritten`). */
  function CommandCheck(c: Command, line: CommandLine): Option<string> {
    var has := (o: string) => o in line.options;
    match c
    case Bootstrap =>
      if !has(SolrHome) then Some(OptionsMessage([SolrHome], "bootstrap")) else None
    case UpConfig =>
      if !has(ConfDir) || !has(ConfName) then Some(OptionsMessage([ConfDir, ConfName], "upconfig")) else None
    case DownConfig =>
      if !has(ConfDir) || !has(ConfName) then Some(OptionsMessage([ConfDir, ConfName], "downconfig")) else None
    case LinkConfig =>
      if !has(CollectionOption) || !has(ConfName) then Some(OptionsMessage([CollectionOption, ConfName], "linkconfig")) else None
    case Clear =>
      if |line.args| != 1 then Some(ArgsMessage("clear", 1, "the path to clear")) else None
    case MakePath =>
      if |line.args| != 1 then Some(ArgsMessage("makepath", 1, "the path to make")) else None
    case Put =>
      if |line.args| != 2 then Some(ArgsMessage("put", 2, "the path to create and the data string")) else None
    case PutFile =>
      if |line.args| != 2 then Some(ArgsMessage("putfile", 2, "the path to create in ZK and the path to the local file")) else None
    case Get =>
      if |line.args| != 1 then Some(ArgsMessage("get", 1, "the path to get")) else None
    case GetFile =>
      if |line.args| != 2 then Some(ArgsMessage("getfile", 2, GetFileArgs)) else None
    case _ => None
  }

  /** A command's check passes exactly when every option it requires is given and it has
      exactly the number of positional arguments it takes. */
  lemma CommandCheckMeetsRequirements(c: Command, line: CommandLine)
    ensures CommandCheck(c, line).None? <==>
      !Missing(line, RequiredOptions(c))
      && (RequiredArgCount(c).Some? ==> |line.args| == RequiredArgCount(c).value)
  {
    var opts := RequiredOptions(c);
    if |opts| == 1 {
      assert Missing(line, opts) <==> opts[0] !in line.options;
    } else if |opts| == 2 {
      assert Missing(line, opts) <==> opts[0] !in line.options || opts[1] !in line.options;
    }
  }

  /** A failing check of a command that requires options names those options and the
      command. */
  lemma CommandCheckNamesOptions(c: Command, line: CommandLine)
    requires CommandCheck(c, line).Some? && RequiredOptions(c) != []
    ensures CommandCheck(c, line).value == OptionsMessage(RequiredOptions(c), CommandName(c))
  {
  }

  /** A failing check of a command that takes positional arguments names the command and
      the number of arguments it takes. */
  lemma CommandCheckNamesArgCount(c: Command, line: CommandLine)
    requires CommandCheck(c, line).Some? && RequiredArgCount(c).Some?
    ensures exists what :: CommandCheck(c, line).value == ArgsMessage(CommandName(c), RequiredArgCount(c).value, what)
  {
    match c
    case Clear => ArgsMessageWitness(c, line, "the path to clear");
    case MakePath => ArgsMessageWitness(c, line, "the path to make");
    case Get => ArgsMessageWitness(c, line, "the path to get");
    case Put => ArgsMessageWitness(c, line, "the path to create and the data string");
    case PutFile => ArgsMessageWitness(c, line, "the path to create in ZK and the path to the local file");
    case GetFile => ArgsMessageWitness(c, line, GetFileArgs);
  }

  lemma ArgsMessageWitness(c: Command, line: CommandLine, what: string)
    requires CommandCheck(c, line).Some? && RequiredArgCount(c).Some?
    requires CommandCheck(c, line).value == ArgsMessage(CommandName(c), RequiredArgCount(c).value, what)
    ensures exists what :: CommandCheck(c, line).value == ArgsMessage(CommandName(c), RequiredArgCount(c).value, what)
  {
  }

  /** The `linkconfig` check as the tool writes it: it tests `-collection` and
      `-confname`, but its message names `-confdir` and `-confname`. */
  function LinkConfigCheckAsWritten(line: CommandLine): Option<string> {
    if CollectionOption !in line.options || ConfName !in line.options
    then Some(OptionsMessage([ConfDir, ConfName], "linkconfig"))
    else None
  }

  /** With `-confdir` and `-confname` but no `-collection`, the as-written check fails and
      blames the two options it was given, not the one that is missing; the corrected check
      names the options `linkconfig` requires. */
  lemma LinkConfigMessageNamesWrongOption()
    ensures var line := CommandLine(map[ConfDir := "/opt/conf", ConfName := "myconf"], []);
      && LinkConfigCheckAsWritten(line) == Some(OptionsMessage([ConfDir, ConfName], "linkconfig"))
      && ConfDir in line.options && ConfDir !in RequiredOptions(LinkConfig)
      && CollectionOption !in line.options && CollectionOption in RequiredOptions(LinkConfig)
      && CommandCheck(LinkConfig, line) == Some(OptionsMessage(RequiredOptions(LinkConfig), "linkconfig"))
  {
    assert ConfDir != CollectionOption && ConfDir != ConfName;
  }

  /** The `getfile` check as the tool writes it: its message has no space between the
      command and "requires". */
  function GetFileCheckAsWritten(line: CommandLine): Option<string> {
    if |line.args| != 2
    then Some("-" + "getfile" + "requires two args - " + GetFileArgs)
    else None
  }

  /** With one argument, the as-written message is one character short of the
      argument-count message `getfile` is meant to print; the corrected check prints that
      message. */
  lemma GetFileMessageLacksSpace()
    ensures var line := CommandLine(map[ZkHost := "localhost:9983", Cmd := "getfile"], ["/solr.xml"]);
      && GetFileCheckAsWritten(line).Some?
      && |GetFileCheckAsWritten(line).value| + 1 == |ArgsMessage("getfile", 2, GetFileArgs)|
      && CommandCheck(GetFile, line) == Some(ArgsMessage("getfile", 2, GetFileArgs))
  {
  }

  /** The check the tool makes, with the messages it prints: the intended check, except for
      `linkconfig` and `getfile`, whose messages are the ones written in the tool. It passes
      on the same command lines as the intended check. */
  function CommandCheckAsWritten(c: Command, line: CommandLine): (r: Option<string>)
    ensures r.None? <==> CommandCheck(c, line).None?
    ensures c != LinkConfig && c != GetFile ==> r == CommandCheck(c, line)
  {
    match c
    case LinkConfig => LinkConfigCheckAsWritten(line)
    case GetFile => GetFileCheckAsWritten(line)
    case _ => CommandCheck(c, line)
  }

  /** For `linkconfig` and `getfile`, every refusal prints a message other than the
      intended one. */
  lemma AsWrittenMessageDiffers(c: Command, line: CommandLine)
    requires c == LinkConfig || c == GetFile
    requires CommandCheck(c, line).Some?
    ensures CommandCheckAsWritten(c, line).value != CommandCheck(c, line).value
  {
    var written, meant := CommandCheckAsWritten(c, line).value, CommandCheck(c, line).value;
    if c == LinkConfig {
      assert written[3] == 'n' && meant[3] == 'l';
    } else {
      assert |written| + 1 == |meant|;
    }
  }

  // ---- Validation of a whole command line ----

  /** Help is shown when asked for, or when the ZooKeeper address or the command is
      missing. */
  predicate ShowsHelp(line: CommandLine) {
    Help in line.options || ZkHost !in line.options || Cmd !in line.options
  }

  /** The message printed when `-runzk` comes without `-solrhome`. */
  const RunZkMessage := "-" + SolrHome + " is required for " + RunZk

  datatype Validation = ShowHelp | Rejected(message: string) | Accepted(command: Command)

  /** What the command line decides before any store call is made: help, a rejection with
      its message, or the command to run. */
  function Validate(line: CommandLine): (v: Validation)
    ensures v.Accepted? ==> Cmd in line.options && v.command == ParseCommand(line.options[Cmd])
  {
    if ShowsHelp(line) then ShowHelp
    else if RunZk in line.options && SolrHome !in line.options then Rejected(RunZkMessage)
    else
      var c := ParseCommand(line.options[Cmd]);
      match CommandCheckAsWritten(c, line)
      case Some(message) => Rejected(message)
      case None => Accepted(c)
  }

  /** A command line is accepted exactly when it does not ask for help, gives `-solrhome`
      whenever it gives `-runzk`, and meets its command's requirements. */
  lemma ValidateAccepts(line: CommandLine)
    ensures Validate(line).Accepted? <==>
      && !ShowsHelp(line)
      && (RunZk in line.options ==> SolrHome in line.options)
      && var c := ParseCommand(line.options[Cmd]);
         && !Missing(line, RequiredOptions(c))
         && (RequiredArgCount(c).Some? ==> |line.args| == RequiredArgCount(c).value)
  {
    if !ShowsHelp(line) {
      CommandCheckMeetsRequirements(ParseCommand(line.options[Cmd]), line);
    }
  }

  /** Past the help and `-runzk` checks, the command's own check decides. */
  lemma ValidateCommand(line: CommandLine)
    requires !ShowsHelp(line) && (RunZk in line.options ==> SolrHome in line.options)
    ensures var c := ParseCommand(line.options[Cmd]);
      Validate(line) == if CommandCheckAsWritten(c, line).Some? then Rejected(CommandCheckAsWritten(c, line).value) else Accepted(c)
  {
  }

  /** An unknown command is never rejected for its options or arguments. */
  lemma UnknownCommandAccepted(line: CommandLine)
    requires !ShowsHelp(line) && (RunZk in line.options ==> SolrHome in line.options)
    requires ParseCommand(line.options[Cmd]).Unknown?
    ensures Validate(line) == Accepted(Unknown(line.options[Cmd]))
  {
  }

  // ---- The effects of a run ----

  /** What a store call writes. */
  datatype Payload = Utf8(text: string) | LocalFileContent(path: string) | NodeData(path: string)

  /** The calls a run makes to the outside: the ZooKeeper store, the solr home and local
      files. Each one can throw. */
  datatype StoreCall =
    | Connect(zkHost: string, sessionTimeout: int, connectTimeout: int)
    | LoadSolrHome(solrHome: string)
    | BootstrapConf(instanceDir: string)
    | UploadConfigDir(confDir: string, confName: string)
    | DownloadConfigDir(confName: string, confDir: string)
    | LinkConfSet(collection: string, confName: string)
    | PrintLayout
    | UpdateClusterState
    | Clean(path: string)
    | MakePathCall(path: string)
    | Create(path: string, data: Payload)
    | OpenLocalFile(path: string)
    | ReadLocalFile(path: string)
    | GetData(path: string)
    | WriteLocalFile(path: string, data: Payload)

  /** What a run does, in order. */
  datatype Event =
    | PrintHelp
    | Print(text: string)
    | Exit(status: int)
    | StartServer(dataDir: string, solrHome: string, port: string)
    | StopServer
    | Call(call: StoreCall, succeeded: bool)
    | CheckChroot(zkHost: string, passed: bool)
    | PrintLines(lines: seq<string>)
    | PrintNode(path: string)
    | CloseLocalFile(path: string)
    | CloseClient

  /** The world a run meets: the calls that throw, the nodes whose data reads back as
      null (a node made by `makepath` has none), whether the chroot check passes, the
      cluster state read by `getcollections`, and the instance directory the resource
      loader makes of a solr home. */
  datatype Env = Env(failing: set<StoreCall>, nullData: set<string>, chrootPasses: bool,
                     cluster: ZkCliCollections.ClusterState, instanceDir: string -> string)

  datatype Ending = Returned | Threw | Exited(status: int)

  /** How the body of the `try` ends: it completes, an exception leaves it, or it calls
      `System.exit`, which ends the process without running `finally`. */
  datatype BodyEnd = Completed | Thrown | ExitCalled

  const ChrootMessage := "A chroot was specified in zkHost but the znode doesn't exist. "
  const ParseErrorPrefix := "Unexpected exception:"

  /** The store calls of a trace, whether they succeeded or not. */
  function CallsOf(trace: seq<Event>): seq<StoreCall> {
    if trace == [] then []
    else CallsOf(trace[..|trace| - 1]) + (if trace[|trace| - 1].Call? then [trace[|trace| - 1].call] else [])
  }

  lemma {:induction false} CallsOfAppend(a: seq<Event>, b: seq<Event>)
    ensures CallsOf(a + b) == CallsOf(a) + CallsOf(b)
    decreases |b|
  {
    if b == [] {
      AppendEmpty(a);
      AppendEmpty(CallsOf(a));
    } else {
      DropLastOfAppend(a, b);
      CallsOfAppend(a, b[..|b| - 1]);
      Assoc3(CallsOf(a), CallsOf(b[..|b| - 1]), (if b[|b| - 1].Call? then [b[|b| - 1].call] else []));
    }
  }

  lemma CallsOfFour(a: Event, b: Event, c: Event, d: Event)
    ensures CallsOf([a, b, c, d]) == CallsOf([a]) + CallsOf([b]) + CallsOf([c]) + CallsOf([d])
  {
    CallsOfAppend([a, b, c], [d]);
    CallsOfAppend([a, b], [c]);
    CallsOfAppend([a], [b]);
    assert [a, b, c] + [d] == [a, b, c, d] && [a, b] + [c] == [a, b, c] && [a] + [b] == [a, b];
  }

  lemma CallsOfPair(a: Event, b: Event)
    ensures a.Call? && b.Call? ==> CallsOf([a, b]) == [a.call, b.call]
    ensures a.Call? && !b.Call? ==> CallsOf([a, b]) == [a.call]
    ensures !a.Call? && b.Call? ==> CallsOf([a, b]) == [b.call]
    ensures !a.Call? && !b.Call? ==> CallsOf([a, b]) == []
  {
    assert [a, b][..1] == [a];
    CallsOfOne(a);
    if a.Call? && b.Call? {
      Pair(a.call, b.call);
    } else if !a.Call? {
      AppendEmpty(CallsOf([a, b][1..]));
    }
  }

  lemma CallsOfOne(e: Event)
    ensures CallsOf([e]) == if e.Call? then [e.call] else []
  {
    assert [e][..0] == [];
  }

  /** A call that writes configuration to the store. */
  predicate WritesConfig(call: StoreCall) {
    call.BootstrapConf? || call.UploadConfigDir?
  }

  /** Every configuration write comes after a chroot check that passed. */
  predicate ChrootGuarded(trace: seq<Event>) {
    forall i | 0 <= i < |trace| && trace[i].Call? && WritesConfig(trace[i].call) ::
      exists j | 0 <= j < i :: trace[j].CheckChroot? && trace[j].passed
  }

  predicate NoChrootCheck(trace: seq<Event>) {
    forall i | 0 <= i < |trace| :: !trace[i].CheckChroot?
  }

  /** The store calls a command makes when nothing fails. */
  function ActionCalls(c: Command, line: CommandLine, env: Env): seq<StoreCall>
    requires CommandCheck(c, line).None?
  {
    var o := line.options;
    match c
    case Bootstrap => [LoadSolrHome(o[SolrHome]), BootstrapConf(env.instanceDir(o[SolrHome]))]
    case UpConfig => [UploadConfigDir(o[ConfDir], o[ConfName])]
    case DownConfig => [DownloadConfigDir(o[ConfName], o[ConfDir])]
    case LinkConfig => [LinkConfSet(o[CollectionOption], o[ConfName])]
    case List => [PrintLayout]
    case GetCollections => [UpdateClusterState]
    case Clear => [Clean(line.args[0])]
    case MakePath => [MakePathCall(line.args[0])]
    case Put => [Create(line.args[0], Utf8(line.args[1]))]
    case PutFile => [OpenLocalFile(line.args[1]), ReadLocalFile(line.args[1]), Create(line.args[0], LocalFileContent(line.args[1]))]
    case Get => [GetData(line.args[0])]
    case GetFile => [GetData(line.args[0]), WriteLocalFile(line.args[1], NodeData(line.args[0]))]
    case Unknown(_) => []
  }

  /** Nothing fails, every node has data, the chroot check passes, and every host in the
      cluster state can be read. */
  predicate Smooth(env: Env) {
    env.failing == {} && env.nullData == {} && env.chrootPasses
    && ZkCliCollections.Readable(ZkCliCollections.Walk(env.cluster))
  }

  /** One store call: its event records whether it threw. */
  function Attempt(call: StoreCall, env: Env): (e: Event)
    ensures e.Call? && e.call == call && (e.succeeded <==> call !in env.failing)
  {
    Call(call, call !in env.failing)
  }

  lemma ChrootGuardedAppend(a: seq<Event>, b: seq<Event>)
    requires ChrootGuarded(a) && ChrootGuarded(b)
    ensures ChrootGuarded(a + b)
  {
    forall i | 0 <= i < |a + b| && (a + b)[i].Call? && WritesConfig((a + b)[i].call)
      ensures exists j | 0 <= j < i :: (a + b)[j].CheckChroot? && (a + b)[j].passed
    {
      if i < |a| {
        assert (a + b)[i] == a[i];
        var j :| 0 <= j < i && a[j].CheckChroot? && a[j].passed;
        assert (a + b)[j] == a[j];
      } else {
        assert (a + b)[i] == b[i - |a|];
        var j :| 0 <= j < i - |a| && b[j].CheckChroot? && b[j].passed;
        assert (a + b)[j + |a|] == b[j];
      }
    }
  }

  /** After a failed call a command makes no other call; only the local file it opened
      is closed. */
  predicate StopsAtFailure(events: seq<Event>) {
    forall i, j | 0 <= i < j < |events| && events[i].Call? && !events[i].succeeded :: events[j].CloseLocalFile?
  }

  /** A command body neither starts nor stops the server, nor opens nor closes the
      client. */
  predicate Inside(events: seq<Event>) {
    forall i | 0 <= i < |events| ::
      && !events[i].StartServer? && !events[i].StopServer? && !events[i].CloseClient?
      && !(events[i].Call? && events[i].call.Connect?)
  }

  /** Some call of the trace threw. */
  predicate Failed(events: seq<Event>) {
    exists i | 0 <= i < |events| :: events[i].Call? && !events[i].succeeded
  }

  /** What every command body keeps to: it calls `System.exit` exactly when its last event
      is the exit, it writes configuration only after a passing chroot check, and it stops
      at the first failing call. */
  predicate BodyShape(events: seq<Event>, end: BodyEnd) {
    && Inside(events)
    && (end == ExitCalled <==> |events| > 0 && events[|events| - 1] == Exit(1))
    && ChrootGuarded(events)
    && StopsAtFailure(events)
  }

  /** The body of the `try` for one command: the command's check of its command line, then
      its store calls in order. A failing check prints its message and exits; a failing
      call throws and ends the body. */
  method RunCommand(c: Command, line: CommandLine, zkHost: string, env: Env)
    returns (events: seq<Event>, end: BodyEnd)
    ensures CommandCheckAsWritten(c, line).Some? ==> events == [Print(CommandCheckAsWritten(c, line).value), Exit(1)] && end == ExitCalled
    ensures BodyShape(events, end)
    ensures end == ExitCalled && CommandCheck(c, line).None? ==>
      && ChecksChroot(c) && !env.chrootPasses && |events| >= 3
      && events[|events| - 3..] == [CheckChroot(zkHost, false), Print(ChrootMessage), Exit(1)]
    ensures !ChecksChroot(c) ==> NoChrootCheck(events)
    ensures end == Thrown ==>
      || Failed(events)
      || (c == GetCollections && !ZkCliCollections.Readable(ZkCliCollections.Walk(env.cluster)))
      || (c == Get && |line.args| == 1 && line.args[0] in env.nullData)
    ensures c.Unknown? ==> events == [] && end == Completed
    ensures c == GetCollections && CommandCheck(c, line).None? && UpdateClusterState !in env.failing ==>
      var emission := ZkCliCollections.Emit(ZkCliCollections.Walk(env.cluster), Lookup(line.options, HostName));
      events == [Call(UpdateClusterState, true), PrintLines(emission.lines)]
      && (end == Completed <==> emission.complete)
    ensures CommandCheck(c, line).None? && Smooth(env) ==>
      end == Completed && CallsOf(events) == ActionCalls(c, line, env)
  {
    var check := CommandCheckAsWritten(c, line);
    if check.Some? {
      return [Print(check.value), Exit(1)], ExitCalled;
    }
    events, end := Dispatch(c, line, zkHost, env);
  }

  /** The store calls of a command whose check passed, chosen by the command. */
  method Dispatch(c: Command, line: CommandLine, zkHost: string, env: Env)
    returns (events: seq<Event>, end: BodyEnd)
    requires CommandCheck(c, line).None?
    ensures BodyShape(events, end)
    ensures end == ExitCalled ==>
      && ChecksChroot(c) && !env.chrootPasses && |events| >= 3
      && events[|events| - 3..] == [CheckChroot(zkHost, false), Print(ChrootMessage), Exit(1)]
    ensures !ChecksChroot(c) ==> NoChrootCheck(events)
    ensures end == Thrown ==>
      || Failed(events)
      || (c == GetCollections && !ZkCliCollections.Readable(ZkCliCollections.Walk(env.cluster)))
      || (c == Get && |line.args| == 1 && line.args[0] in env.nullData)
    ensures c.Unknown? ==> events == [] && end == Completed
    ensures c == GetCollections && UpdateClusterState !in env.failing ==>
      var emission := ZkCliCollections.Emit(ZkCliCollections.Walk(env.cluster), Lookup(line.options, HostName));
      events == [Call(UpdateClusterState, true), PrintLines(emission.lines)]
      && (end == Completed <==> emission.complete)
    ensures c == Get ==>
      (PrintNode(line.args[0]) in events <==> GetData(line.args[0]) !in env.failing && line.args[0] !in env.nullData)
    ensures Smooth(env) ==> end == Completed && CallsOf(events) == ActionCalls(c, line, env)
  {
    var o, args := line.options, line.args;
    match c
    case Bootstrap =>
      events, end := RunBootstrap(o[SolrHome], zkHost, env);
    case UpConfig =>
      events, end := RunUpConfig(o[ConfDir], o[ConfName], zkHost, env);
    case DownConfig =>
      events, end := OneCall(DownloadConfigDir(o[ConfName], o[ConfDir]), env);
    case LinkConfig =>
      events, end := OneCall(LinkConfSet(o[CollectionOption], o[ConfName]), env);
    case List =>
      events, end := OneCall(PrintLayout, env);
    case GetCollections =>
      events, end := RunGetCollections(Lookup(o, HostName), env);
    case Clear =>
      events, end := OneCall(Clean(args[0]), env);
    case MakePath =>
      events, end := OneCall(MakePathCall(args[0]), env);
    case Put =>
      events, end := OneCall(Create(args[0], Utf8(args[1])), env);
    case PutFile =>
      events, end := RunPutFile(args[0], args[1], env);
    case Get =>
      events, end := RunGet(args[0], env);
    case GetFile =>
      events, end := RunGetFile(args[0], args[1], env);
    case Unknown(_) =>
      events, end := [], Completed;
  }

  /** `bootstrap`: load the solr home, check the chroot, upload the configurations of its
      cores. */
  method RunBootstrap(solrHome: string, zkHost: string, env: Env) returns (events: seq<Event>, end: BodyEnd)
    ensures BodyShape(events, end)
    ensures end == Thrown ==> Failed(events)
    ensures end == ExitCalled ==>
      !env.chrootPasses && |events| >= 3 && events[|events| - 3..] == [CheckChroot(zkHost, false), Print(ChrootMessage), Exit(1)]
    ensures env.failing == {} && env.chrootPasses ==>
      end == Completed && CallsOf(events) == [LoadSolrHome(solrHome), BootstrapConf(env.instanceDir(solrHome))]
  {
    var load := Attempt(LoadSolrHome(solrHome), env);
    if !load.succeeded {
      events, end := [load], Thrown;
      assert events[0] == load;
      return;
    }
    var instanceDir := env.instanceDir(solrHome);
    SucceededCallShape(load);
    if !env.chrootPasses {
      ChrootRefusedShape([load], zkHost);
      events, end := [load] + ChrootRefusal(zkHost), ExitCalled;
      return;
    }
    var bootstrap := Attempt(BootstrapConf(instanceDir), env);
    ChrootPassedShape([load], zkHost, bootstrap);
    events, end := [load] + [CheckChroot(zkHost, true), bootstrap], if bootstrap.succeeded then Completed else Thrown;
    CallsOfOne(load);
    Pair(load.call, bootstrap.call);
  }

  /** `upconfig`: check the chroot, upload a configuration directory under a name. */
  method RunUpConfig(confDir: string, confName: string, zkHost: string, env: Env) returns (events: seq<Event>, end: BodyEnd)
    ensures BodyShape(events, end)
    ensures end == Thrown ==> Failed(events)
    ensures end == ExitCalled ==>
      !env.chrootPasses && |events| >= 3 && events[|events| - 3..] == [CheckChroot(zkHost, false), Print(ChrootMessage), Exit(1)]
    ensures env.failing == {} && env.chrootPasses ==> end == Completed && CallsOf(events) == [UploadConfigDir(confDir, confName)]
  {
    NoEventShape();
    if !env.chrootPasses {
      ChrootRefusedShape([], zkHost);
      events, end := ChrootRefusal(zkHost), ExitCalled;
      assert [] + events == events;
      return;
    }
    var upload := Attempt(UploadConfigDir(confDir, confName), env);
    ChrootPassedShape([], zkHost, upload);
    events, end := [CheckChroot(zkHost, true), upload], if upload.succeeded then Completed else Thrown;
    assert [] + events == events;
  }

  /** What a command prints and does when the chroot check fails. */
  function ChrootRefusal(zkHost: string): seq<Event> {
    [CheckChroot(zkHost, false), Print(ChrootMessage), Exit(1)]
  }

  lemma NoEventShape()
    ensures BodyShape([], Completed) && !Failed([])
  {
  }

  lemma SucceededCallShape(e: Event)
    requires e.Call? && e.succeeded && !WritesConfig(e.call) && !e.call.Connect?
    ensures BodyShape([e], Completed) && !Failed([e])
  {
    assert [e][0] == e;
  }

  lemma StopsAtFailureAppend(a: seq<Event>, b: seq<Event>)
    requires StopsAtFailure(a) && StopsAtFailure(b) && !Failed(a)
    ensures StopsAtFailure(a + b)
  {
    forall i, j | 0 <= i < j < |a + b| && (a + b)[i].Call? && !(a + b)[i].succeeded
      ensures (a + b)[j].CloseLocalFile?
    {
      assert (a + b)[j] == b[j - |a|];
    }
  }

  lemma InsideAppend(a: seq<Event>, b: seq<Event>)
    requires Inside(a) && Inside(b)
    ensures Inside(a + b)
  {
    forall i | 0 <= i < |a + b|
      ensures (a + b)[i] == if i < |a| then a[i] else b[i - |a|]
    {
    }
  }

  /** A command body followed by a refused chroot check exits. */
  lemma ChrootRefusedShape(pre: seq<Event>, zkHost: string)
    requires BodyShape(pre, Completed) && !Failed(pre)
    ensures var events := pre + ChrootRefusal(zkHost);
      && BodyShape(events, ExitCalled)
      && |events| >= 3 && events[|events| - 3..] == ChrootRefusal(zkHost)
  {
    var tail := ChrootRefusal(zkHost);
    assert tail[0].CheckChroot? && tail[1].Print? && tail[2] == Exit(1);
    assert BodyShape(tail, ExitCalled);
    InsideAppend(pre, tail);
    ChrootGuardedAppend(pre, tail);
    StopsAtFailureAppend(pre, tail);
    SuffixOfAppend(pre, tail, 3);
  }

  /** A command body followed by a passed chroot check and one call. */
  lemma ChrootPassedShape(pre: seq<Event>, zkHost: string, call: Event)
    requires BodyShape(pre, Completed) && !Failed(pre)
    requires call.Call? && !call.call.Connect?
    ensures var events := pre + [CheckChroot(zkHost, true), call];
      && BodyShape(events, if call.succeeded then Completed else Thrown)
      && (!call.succeeded ==> Failed(events))
      && CallsOf(events) == CallsOf(pre) + [call.call]
  {
    var tail := [CheckChroot(zkHost, true), call];
    assert tail[0].CheckChroot? && tail[1] == call;
    assert ChrootGuarded(tail);
    assert BodyShape(tail, if call.succeeded then Completed else Thrown);
    InsideAppend(pre, tail);
    ChrootGuardedAppend(pre, tail);
    StopsAtFailureAppend(pre, tail);
    assert (pre + tail)[|pre| + 1] == call;
    CallsOfAppend(pre, tail);
    CallsOfPair(CheckChroot(zkHost, true), call);
  }

  /** `getcollections`: refresh the cluster state, then print the descriptor lines of its
      replicas. */
  method RunGetCollections(hostname: Option<string>, env: Env) returns (events: seq<Event>, end: BodyEnd)
    ensures BodyShape(events, end) && NoChrootCheck(events) && end != ExitCalled
    ensures end == Thrown ==> Failed(events) || !ZkCliCollections.Readable(ZkCliCollections.Walk(env.cluster))
    ensures UpdateClusterState !in env.failing ==>
      var emission := ZkCliCollections.Emit(ZkCliCollections.Walk(env.cluster), hostname);
      events == [Call(UpdateClusterState, true), PrintLines(emission.lines)]
      && (end == Completed <==> emission.complete)
    ensures Smooth(env) ==> end == Completed && CallsOf(events) == [UpdateClusterState]
  {
    var update := Attempt(UpdateClusterState, env);
    if !update.succeeded {
      events, end := [update], Thrown;
      assert events[0] == update;
      return;
    }
    var lines, complete := ZkCliCollections.GetCollections(env.cluster, hostname);
    events, end := [update, PrintLines(lines)], if complete then Completed else Thrown;
    ZkCliCollections.EmitCompleteIff(ZkCliCollections.Walk(env.cluster), hostname);
    CallsOfPair(update, PrintLines(lines));
  }

  /** `putfile`: open the local file, read it, create the node with its content; the file
      is closed once it was opened, whatever happens after. */
  method RunPutFile(path: string, file: string, env: Env) returns (events: seq<Event>, end: BodyEnd)
    ensures BodyShape(events, end) && NoChrootCheck(events) && end != ExitCalled
    ensures end == Thrown ==> Failed(events)
    ensures Call(OpenLocalFile(file), true) in events <==> CloseLocalFile(file) in events
    ensures env.failing == {} ==>
      end == Completed && CallsOf(events) == [OpenLocalFile(file), ReadLocalFile(file), Create(path, LocalFileContent(file))]
  {
    var open := Attempt(OpenLocalFile(file), env);
    if !open.succeeded {
      events, end := [open], Thrown;
      assert events[0] == open;
      return;
    }
    var read := Attempt(ReadLocalFile(file), env);
    var close := CloseLocalFile(file);
    if !read.succeeded {
      events, end := [open, read, close], Thrown;
      assert events[1] == read;
      return;
    }
    var create := Attempt(Create(path, LocalFileContent(file)), env);
    events, end := [open, read, create, close], if create.succeeded then Completed else Thrown;
    assert events[2] == create;
    CallsOfFour(open, read, create, close);
  }

  /** `get`: read a node and print its data. Printing null data throws
      (`new String(null, ...)`), after a read that succeeded. */
  method RunGet(path: string, env: Env) returns (events: seq<Event>, end: BodyEnd)
    ensures BodyShape(events, end) && NoChrootCheck(events) && end != ExitCalled
    ensures end == Thrown ==> Failed(events) || path in env.nullData
    ensures PrintNode(path) in events <==> GetData(path) !in env.failing && path !in env.nullData
    ensures GetData(path) !in env.failing && path in env.nullData ==>
      events == [Call(GetData(path), true)] && end == Thrown
    ensures env.failing == {} && path !in env.nullData ==> end == Completed && CallsOf(events) == [GetData(path)]
  {
    var get := Attempt(GetData(path), env);
    if !get.succeeded || path in env.nullData {
      events, end := [get], Thrown;
      assert events[0] == get;
      return;
    }
    events, end := [get, PrintNode(path)], Completed;
    CallsOfPair(get, PrintNode(path));
  }

  /** `getfile`: read a node and write its data to a local file. */
  method RunGetFile(path: string, file: string, env: Env) returns (events: seq<Event>, end: BodyEnd)
    ensures BodyShape(events, end) && NoChrootCheck(events) && end != ExitCalled
    ensures end == Thrown ==> Failed(events)
    ensures env.failing == {} && path !in env.nullData ==>
      end == Completed && CallsOf(events) == [GetData(path), WriteLocalFile(file, NodeData(path))]
    ensures path in env.nullData ==> end == Thrown
  {
    var get := Attempt(GetData(path), env);
    if !get.succeeded {
      events, end := [get], Thrown;
      assert events[0] == get;
      return;
    }
    // Writing null data throws inside `writeByteArrayToFile`.
    var writeCall := WriteLocalFile(file, NodeData(path));
    var write := Call(writeCall, writeCall !in env.failing && path !in env.nullData);
    events, end := [get, write], if write.succeeded then Completed else Thrown;
    assert events[1] == write;
    CallsOfPair(get, write);
  }

  /** A command that makes one store call. */
  method OneCall(call: StoreCall, env: Env) returns (events: seq<Event>, end: BodyEnd)
    requires !WritesConfig(call) && !call.Connect?
    ensures BodyShape(events, end) && NoChrootCheck(events) && end != ExitCalled
    ensures end == Thrown ==> Failed(events)
    ensures end == Completed <==> call !in env.failing
    ensures CallsOf(events) == [call]
  {
    var attempt := Attempt(call, env);
    events, end := [attempt], if attempt.succeeded then Completed else Thrown;
    assert events[0] == attempt;
    CallsOfOne(attempt);
  }

  // ---- A whole run ----

  /** The client's connection to the ZooKeeper address of a command line. */
  function ClientConnect(line: CommandLine): StoreCall
    requires ZkHost in line.options
  {
    Connect(line.options[ZkHost], ClientTimeout, ClientTimeout)
  }

  predicate ServerStarted(trace: seq<Event>) {
    exists i | 0 <= i < |trace| :: trace[i].StartServer?
  }

  predicate ClientObtained(trace: seq<Event>) {
    exists i | 0 <= i < |trace| :: trace[i].Call? && trace[i].call.Connect? && trace[i].succeeded
  }

  /** The `finally` block: the server is stopped if it was started, then the client is
      closed if it was obtained. */
  function Cleanup(started: bool, obtained: bool): seq<Event> {
    (if started then [StopServer] else []) + (if obtained then [CloseClient] else [])
  }

  /** What a run that got past the help and `-runzk` checks does:
      - a rejected command line makes no store call but the connection, and ends by printing
        the message and exiting, or, when the connection throws, by throwing;
      - a run that exits ends with the exit (status 1), and neither stops the server nor
        closes the client;
      - any other run stops the server exactly when it started it and closes the client
        exactly when it obtained it, and does these last, in that order;
      - the server is started exactly when `-runzk` is given;
      - configuration is written only after a passing chroot check;
      - an accepted command checks the chroot only if it is `bootstrap` or `upconfig`, exits
        only for a failing chroot check, and, when nothing fails, makes exactly the
        connection and its own store calls and returns. */
  predicate RunOutcome(line: CommandLine, env: Env, trace: seq<Event>, ending: Ending)
    requires !ShowsHelp(line)
  {
    && (Validate(line).Rejected? ==>
         && CallsOf(trace) == [ClientConnect(line)]
         && ((ending == Exited(1) && |trace| >= 2 && trace[|trace| - 2..] == [Print(Validate(line).message), Exit(1)])
             || (ending == Threw && ClientConnect(line) in env.failing)))
    && (ending.Exited? ==>
         ending == Exited(1) && |trace| > 0 && trace[|trace| - 1] == Exit(1) && StopServer !in trace && CloseClient !in trace)
    && (!ending.Exited? ==>
         && (ServerStarted(trace) <==> StopServer in trace)
         && (ClientObtained(trace) <==> CloseClient in trace)
         && var cleanup := Cleanup(ServerStarted(trace), ClientObtained(trace));
            |trace| >= |cleanup| && trace[|trace| - |cleanup|..] == cleanup)
    && (ServerStarted(trace) <==> RunZk in line.options)
    && ChrootGuarded(trace)
    && (Validate(line).Accepted? ==>
         var c := Validate(line).command;
         && (!ChecksChroot(c) ==> NoChrootCheck(trace))
         && (ending.Exited? ==> ChecksChroot(c) && !env.chrootPasses)
         && (c.Unknown? ==> CallsOf(trace) == [ClientConnect(line)])
         && (Smooth(env) ==> ending == Returned && CallsOf(trace) == [ClientConnect(line)] + ActionCalls(c, line, env)))
  }

  /** One run of the tool: an unreadable command line prints the parse error, a request for
      help (or a missing `-zkhost` or `-cmd`) prints the help, `-runzk` without `-solrhome`
      prints its message and exits; anything else runs a session. */
  method Run(input: Input, env: Env) returns (trace: seq<Event>, ending: Ending)
    ensures input.Unparseable? ==> trace == [Print(ParseErrorPrefix + input.message)] && ending == Returned
    ensures input.Parsed? && ShowsHelp(input.line) ==> trace == [PrintHelp] && ending == Returned
    ensures input.Parsed? && !ShowsHelp(input.line) && RunZk in input.line.options && SolrHome !in input.line.options ==>
      trace == [Print(RunZkMessage), Exit(1)] && ending == Exited(1) && CallsOf(trace) == []
    ensures input.Parsed? && !ShowsHelp(input.line) && (RunZk in input.line.options ==> SolrHome in input.line.options) ==>
      RunOutcome(input.line, env, trace, ending)
  {
    if input.Unparseable? {
      return [Print(ParseErrorPrefix + input.message)], Returned;
    }
    var line := input.line;
    if ShowsHelp(line) {
      return [PrintHelp], Returned;
    }
    if RunZk in line.options && SolrHome !in line.options {
      MessageMakesNoCall(RunZkMessage);
      return [Print(RunZkMessage), Exit(1)], Exited(1);
    }
    trace, ending := Session(line, env);
  }

  /** The part of a run after the command line was read: start the embedded server when
      asked to, connect the client, run the command, and in `finally` stop the server and
      close the client. `System.exit` ends the run at once. */
  method Session(line: CommandLine, env: Env) returns (trace: seq<Event>, ending: Ending)
    requires !ShowsHelp(line) && (RunZk in line.options ==> SolrHome in line.options)
    ensures RunOutcome(line, env, trace, ending)
  {
    var body, end, connected := StartAndTry(line, env);
    if end == ExitCalled {
      ExitedOutcome(line, env, body, connected);
      return body, Exited(1);
    }
    trace := Finally(body, RunZk in line.options, connected);
    ending := if end == Completed then Returned else Threw;
    FinishedOutcome(line, env, body, end, connected);
  }

  /** A run whose `try` block called `System.exit`. */
  lemma ExitedOutcome(line: CommandLine, env: Env, body: seq<Event>, connected: bool)
    requires !ShowsHelp(line) && (RunZk in line.options ==> SolrHome in line.options)
    requires TryOutcome(line, env, body, ExitCalled, connected) && (ServerStarted(body) <==> RunZk in line.options)
    ensures RunOutcome(line, env, body, Exited(1))
  {
    ValidateCommand(line);
  }

  /** A run whose `try` block completed or threw, followed by the `finally` block. */
  lemma FinishedOutcome(line: CommandLine, env: Env, body: seq<Event>, end: BodyEnd, connected: bool)
    requires !ShowsHelp(line) && (RunZk in line.options ==> SolrHome in line.options)
    requires end != ExitCalled
    requires TryOutcome(line, env, body, end, connected) && (ServerStarted(body) <==> RunZk in line.options)
    ensures RunOutcome(line, env, body + Cleanup(RunZk in line.options, connected),
                       if end == Completed then Returned else Threw)
  {
    ValidateCommand(line);
    FinallyFacts(body, RunZk in line.options, connected);
    FinallyKeeps(body, RunZk in line.options, connected);
  }

  /** What the `try` block leaves behind, seen from the client and the command: whether
      the client connected, how the block ended, and what the command's check decided.
      Starting the server in front of the block keeps all of it. */
  predicate TryOutcome(line: CommandLine, env: Env, body: seq<Event>, end: BodyEnd, connected: bool)
    requires !ShowsHelp(line)
  {
    && (connected <==> ClientConnect(line) !in env.failing)
    && StopServer !in body && CloseClient !in body
    && (ClientObtained(body) <==> connected)
    && (!connected ==> end == Thrown)
    && (end == ExitCalled <==> |body| > 0 && body[|body| - 1] == Exit(1))
    && ChrootGuarded(body)
    && var c := ParseCommand(line.options[Cmd]);
       && (CommandCheckAsWritten(c, line).Some? ==>
            && CallsOf(body) == [ClientConnect(line)]
            && ((end == ExitCalled && |body| >= 2 && body[|body| - 2..] == [Print(CommandCheckAsWritten(c, line).value), Exit(1)])
                || (end == Thrown && !connected)))
       && (CommandCheck(c, line).None? ==>
            && (!ChecksChroot(c) ==> NoChrootCheck(body))
            && (end == ExitCalled ==> ChecksChroot(c) && !env.chrootPasses)
            && (c.Unknown? ==> CallsOf(body) == [ClientConnect(line)])
            && (Smooth(env) ==> end == Completed && CallsOf(body) == [ClientConnect(line)] + ActionCalls(c, line, env)))
  }

  /** Everything before `finally`: the embedded server is started when `-runzk` is given,
      then the `try` block runs. */
  method StartAndTry(line: CommandLine, env: Env) returns (body: seq<Event>, end: BodyEnd, connected: bool)
    requires !ShowsHelp(line) && (RunZk in line.options ==> SolrHome in line.options)
    ensures TryOutcome(line, env, body, end, connected)
    ensures ServerStarted(body) <==> RunZk in line.options
  {
    var solrHome := Lookup(line.options, SolrHome);
    var solrPort := Lookup(line.options, RunZk);
    body := [];
    if solrPort.Some? {
      body := [StartServer(solrHome.value + "/zoo_data", solrHome.value, solrPort.value)];
    }
    ghost var start := body;
    var tried;
    tried, end, connected := TryBlock(line, env);
    body := body + tried;
    if start == [] {
      assert body == tried;
    } else {
      PrependStart(line, env, start[0], tried, end, connected);
    }
  }

  /** The `finally` block. */
  method Finally(body: seq<Event>, started: bool, connected: bool) returns (trace: seq<Event>)
    requires StopServer !in body && CloseClient !in body
    requires ServerStarted(body) == started && ClientObtained(body) == connected
    ensures trace == body + Cleanup(started, connected)
  {
    trace := body;
    if started {
      trace := trace + [StopServer];
    }
    if connected {
      trace := trace + [CloseClient];
    }
  }

  /** What the `finally` block adds: it stops the server exactly when it was started and
      closes the client exactly when it was obtained, as the last events. */
  lemma FinallyFacts(body: seq<Event>, started: bool, connected: bool)
    requires StopServer !in body && CloseClient !in body
    requires ServerStarted(body) == started && ClientObtained(body) == connected
    ensures var trace := body + Cleanup(started, connected);
      && ServerStarted(trace) == started && ClientObtained(trace) == connected
      && (StopServer in trace <==> started)
      && (CloseClient in trace <==> connected)
      && |trace| >= |Cleanup(started, connected)|
      && trace[|trace| - |Cleanup(started, connected)|..] == Cleanup(started, connected)
  {
    var cleanup := Cleanup(started, connected);
    AppendFacts(body, cleanup);
    CleanupEvents(started, connected);
    SuffixOfAppend(body, cleanup, |cleanup|);
  }

  /** The `finally` block makes no store call and no chroot check. */
  lemma FinallyKeeps(body: seq<Event>, started: bool, connected: bool)
    ensures var trace := body + Cleanup(started, connected);
      && (ChrootGuarded(body) ==> ChrootGuarded(trace))
      && (NoChrootCheck(body) ==> NoChrootCheck(trace))
      && CallsOf(trace) == CallsOf(body)
  {
    var cleanup := Cleanup(started, connected);
    AppendFacts(body, cleanup);
    CleanupEvents(started, connected);
  }

  lemma CleanupEvents(started: bool, connected: bool)
    ensures var cleanup := Cleanup(started, connected);
      && !ServerStarted(cleanup) && !ClientObtained(cleanup)
      && (StopServer in cleanup <==> started) && (CloseClient in cleanup <==> connected)
      && ChrootGuarded(cleanup) && NoChrootCheck(cleanup) && CallsOf(cleanup) == []
  {
    var cleanup := Cleanup(started, connected);
    assert forall i | 0 <= i < |cleanup| :: cleanup[i] == StopServer || cleanup[i] == CloseClient;
    if started && connected {
      CallsOfPair(StopServer, CloseClient);
    } else if started {
      CallsOfOne(StopServer);
    } else if connected {
      CallsOfOne(CloseClient);
    }
  }

  /** The `try` block: connect the client, then run the command. */
  method TryBlock(line: CommandLine, env: Env) returns (tried: seq<Event>, end: BodyEnd, connected: bool)
    requires !ShowsHelp(line) && (RunZk in line.options ==> SolrHome in line.options)
    ensures TryOutcome(line, env, tried, end, connected)
    ensures |tried| >= 1 && tried[0] == Call(ClientConnect(line), connected)
    ensures !connected ==> tried == [tried[0]]
    ensures !ServerStarted(tried)
  {
    var zkServerAddress := line.options[ZkHost];
    var connect := Attempt(ClientConnect(line), env);
    connected := connect.succeeded;
    var events: seq<Event> := [];
    end := Thrown;
    var c := ParseCommand(line.options[Cmd]);
    if connected {
      events, end := RunCommand(c, line, zkServerAddress, env);
    }
    tried := [connect] + events;
    ConnectFacts(connect, events);
    var check := CommandCheckAsWritten(c, line);
    if check.Some? {
      MessageMakesNoCall(check.value);
    }
  }

  /** Starting the server in front of the `try` block keeps its outcome. */
  lemma PrependStart(line: CommandLine, env: Env, e: Event, tried: seq<Event>, end: BodyEnd, connected: bool)
    requires !ShowsHelp(line) && e.StartServer?
    requires TryOutcome(line, env, tried, end, connected) && !ServerStarted(tried)
    ensures TryOutcome(line, env, [e] + tried, end, connected) && ServerStarted([e] + tried)
  {
    StartFacts(e, tried);
    if |tried| >= 1 { SuffixOfAppend([e], tried, 1); }
    if |tried| >= 2 { SuffixOfAppend([e], tried, 2); }
  }

  /** Starting the server in front of the `try` block. */
  lemma StartFacts(e: Event, tried: seq<Event>)
    requires e.StartServer?
    requires StopServer !in tried && CloseClient !in tried && !ServerStarted(tried)
    ensures var body := [e] + tried;
      && ServerStarted(body)
      && (ClientObtained(body) <==> ClientObtained(tried))
      && StopServer !in body && CloseClient !in body
      && (ChrootGuarded(tried) ==> ChrootGuarded(body))
      && (NoChrootCheck(tried) ==> NoChrootCheck(body))
      && CallsOf(body) == CallsOf(tried)
  {
    AppendFacts([e], tried);
    OneEventFacts(e);
  }

  /** The connection in front of the command body. */
  lemma ConnectFacts(connect: Event, events: seq<Event>)
    requires connect.Call? && connect.call.Connect?
    requires Inside(events)
    ensures var tried := [connect] + events;
      && !ServerStarted(tried)
      && (ClientObtained(tried) <==> connect.succeeded)
      && StopServer !in tried && CloseClient !in tried
      && (ChrootGuarded(events) ==> ChrootGuarded(tried))
      && (NoChrootCheck(events) ==> NoChrootCheck(tried))
      && CallsOf(tried) == [connect.call] + CallsOf(events)
      && (|events| >= 1 ==> tried[|tried| - 1] == events[|events| - 1])
      && (|events| >= 2 ==> tried[|tried| - 2..] == events[|events| - 2..])
  {
    AppendFacts([connect], events);
    InsideFacts(events);
    OneEventFacts(connect);
    if |events| >= 2 {
      SuffixOfAppend([connect], events, 2);
    }
  }

  lemma MessageMakesNoCall(text: string)
    ensures CallsOf([Print(text), Exit(1)]) == []
  {
    CallsOfPair(Print(text), Exit(1));
  }

  lemma SuffixOfAppend(a: seq<Event>, b: seq<Event>, k: nat)
    requires k <= |b|
    ensures (a + b)[|a + b| - k..] == b[|b| - k..]
  {
    var left, right := (a + b)[|a + b| - k..], b[|b| - k..];
    assert forall i | 0 <= i < k :: left[i] == right[i];
  }

  /** How the trace predicates distribute over an append. */
  lemma AppendFacts(a: seq<Event>, b: seq<Event>)
    ensures ServerStarted(a + b) <==> ServerStarted(a) || ServerStarted(b)
    ensures ClientObtained(a + b) <==> ClientObtained(a) || ClientObtained(b)
    ensures NoChrootCheck(a + b) <==> NoChrootCheck(a) && NoChrootCheck(b)
    ensures StopServer in a + b <==> StopServer in a || StopServer in b
    ensures CloseClient in a + b <==> CloseClient in a || CloseClient in b
    ensures CallsOf(a + b) == CallsOf(a) + CallsOf(b)
    ensures ChrootGuarded(a) && ChrootGuarded(b) ==> ChrootGuarded(a + b)
  {
    ServerStartedAppend(a, b);
    ClientObtainedAppend(a, b);
    NoChrootCheckAppend(a, b);
    CallsOfAppend(a, b);
    if ChrootGuarded(a) && ChrootGuarded(b) {
      ChrootGuardedAppend(a, b);
    }
  }

  lemma ServerStartedAppend(a: seq<Event>, b: seq<Event>)
    ensures ServerStarted(a + b) <==> ServerStarted(a) || ServerStarted(b)
  {
    if ServerStarted(a + b) {
      var i :| 0 <= i < |a + b| && (a + b)[i].StartServer?;
      if i < |a| { assert a[i] == (a + b)[i]; } else { assert b[i - |a|] == (a + b)[i]; }
    }
    if ServerStarted(a) {
      var i :| 0 <= i < |a| && a[i].StartServer?;
      assert (a + b)[i] == a[i];
    }
    if ServerStarted(b) {
      var i :| 0 <= i < |b| && b[i].StartServer?;
      assert (a + b)[|a| + i] == b[i];
    }
  }

  lemma ClientObtainedAppend(a: seq<Event>, b: seq<Event>)
    ensures ClientObtained(a + b) <==> ClientObtained(a) || ClientObtained(b)
  {
    if ClientObtained(a + b) {
      var i :| 0 <= i < |a + b| && (a + b)[i].Call? && (a + b)[i].call.Connect? && (a + b)[i].succeeded;
      if i < |a| { assert a[i] == (a + b)[i]; } else { assert b[i - |a|] == (a + b)[i]; }
    }
    if ClientObtained(a) {
      var i :| 0 <= i < |a| && a[i].Call? && a[i].call.Connect? && a[i].succeeded;
      assert (a + b)[i] == a[i];
    }
    if ClientObtained(b) {
      var i :| 0 <= i < |b| && b[i].Call? && b[i].call.Connect? && b[i].succeeded;
      assert (a + b)[|a| + i] == b[i];
    }
  }

  lemma NoChrootCheckAppend(a: seq<Event>, b: seq<Event>)
    ensures NoChrootCheck(a + b) <==> NoChrootCheck(a) && NoChrootCheck(b)
  {
    if NoChrootCheck(a + b) {
      assert forall i | 0 <= i < |a| :: a[i] == (a + b)[i];
      assert forall i | 0 <= i < |b| :: b[i] == (a + b)[|a| + i];
    }
    if NoChrootCheck(a) && NoChrootCheck(b) {
      forall i | 0 <= i < |a + b|
        ensures !(a + b)[i].CheckChroot?
      {
        if i < |a| { assert (a + b)[i] == a[i]; } else { assert (a + b)[i] == b[i - |a|]; }
      }
    }
  }

  /** A command body contributes no lifecycle event. */
  lemma InsideFacts(events: seq<Event>)
    requires Inside(events)
    ensures !ServerStarted(events) && !ClientObtained(events)
    ensures StopServer !in events && CloseClient !in events
  {
    assert forall i | 0 <= i < |events| :: events[i] != StopServer && events[i] != CloseClient;
  }

  lemma OneEventFacts(e: Event)
    ensures ServerStarted([e]) <==> e.StartServer?
    ensures ClientObtained([e]) <==> e.Call? && e.call.Connect? && e.succeeded
    ensures NoChrootCheck([e]) <==> !e.CheckChroot?
    ensures ChrootGuarded([e]) <==> !(e.Call? && WritesConfig(e.call))
    ensures CallsOf([e]) == if e.Call? then [e.call] else []
  {
    assert [e][0] == e;
    CallsOfOne(e);
  }
}
