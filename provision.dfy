/**
 * The provisioning run: the tool check, the positional-argument check, then disk
 * creation, XML generation and VM definition, each of which ends the run when it
 * fails. The outside world (the search path, the file system and the processes
 * started) is an environment the run consults; the run reports the commands it
 * started, in order, and how it ended.
 */
module Provision {
  import opened Wrappers
  import opened Paths
  import opened Commands
  import opened Preflight

  /** What `os.Stat` reports for a path: it exists, it does not exist, or some other error. */
  datatype StatResult = Exists | NotExist | OtherError

  /**
   * The outside world as the run sees it: whether a tool is on the search path,
   * what a stat of a directory reports, and how each started command ends.
   */
  datatype Env = Env(
    toolFound: string -> bool,
    stat: string -> StatResult,
    exec: Command -> Reply)

  /** The parsed command line: the flag values and the positional arguments. */
  datatype Invocation = Invocation(
    size: string,
    memory: int,
    vcpus: int,
    network: string,
    args: seq<string>)

  /** The command line with every flag at its default value. */
  function WithDefaults(args: seq<string>): Invocation {
    Invocation("20G", 1024, 1, "network=default", args)
  }

  /** The default network string passes the network check. */
  lemma DefaultNetworkIsValid(args: seq<string>)
    ensures ValidNetwork(WithDefaults(args).network)
    ensures ParseAttachment(WithDefaults(args).network) == Some(VirtualNetwork("default"))
  {
    RenderIsValid(VirtualNetwork("default"));
    assert Render(VirtualNetwork("default")) == "network=default";
  }

  /** The reasons the program stops with a fatal message. */
  datatype Fatal =
    | MissingTool(tool: string)
    | UsageError
    | DirectoryMissing(dir: string)
    | DiskCreationFailed
    | InvalidNetwork(network: string)
    | XmlGenerationFailed
    | DefineFailed

  /** How a run ends: with the two confirmation lines, or with a fatal error and exit status 1. */
  datatype Outcome = Created(messages: seq<string>) | Exited(fatal: Fatal) {
    function ExitStatus(): int {
      if Created? then 0 else 1
    }
  }

  function SuccessMessages(vmName: string, network: string, diskPath: string): seq<string> {
    ["Empty VM '" + vmName + "' created successfully with network: " + network + "\n",
     "Disk image created at: " + diskPath + "\n"]
  }

  /**
   * Creates the disk image unless the directory that should hold it is reported
   * missing. Only a "does not exist" answer stops it: a stat that fails for
   * another reason lets qemu-img run.
   */
  method CreateDisk(env: Env, path: string, size: string) returns (invoked: seq<Command>, err: Option<Fatal>)
    ensures env.stat(Dir(path)) == NotExist ==> invoked == [] && err == Some(DirectoryMissing(Dir(path)))
    ensures env.stat(Dir(path)) != NotExist ==>
              && invoked == [Command(QemuImgArgv(path, size), None)]
              && (err.None? <==> env.exec(invoked[0]).ok)
              && (err.Some? ==> err.value == DiskCreationFailed)
  {
    var dir := Dir(path);
    if env.stat(dir) == NotExist {
      return [], Some(DirectoryMissing(dir));
    }
    var cmd := Command(QemuImgArgv(path, size), None);
    var reply := env.exec(cmd);
    invoked := [cmd];
    if !reply.ok {
      return invoked, Some(DiskCreationFailed);
    }
    err := None;
  }

  /**
   * Checks the network string, then runs virt-install in print-only mode and
   * returns what it printed. An unaccepted network string stops the run before
   * virt-install is started.
   */
  method GenerateXml(env: Env, name: string, diskPath: string, memory: int, vcpus: int, network: string)
    returns (invoked: seq<Command>, xml: Result<string, Fatal>)
    ensures !ValidNetwork(network) ==> invoked == [] && xml == Failure(InvalidNetwork(network))
    ensures ValidNetwork(network) ==>
              && invoked == [Command(VirtInstallArgv(name, memory, vcpus, diskPath, network), None)]
              && (env.exec(invoked[0]).ok ==> xml == Success(env.exec(invoked[0]).stdout))
              && (!env.exec(invoked[0]).ok ==> xml == Failure(XmlGenerationFailed))
  {
    var args := [
      "virt-install",
      "--name", name,
      "--memory", Decimal.Format(memory),
      "--vcpus", Decimal.Format(vcpus),
      "--disk", "path=" + diskPath + ",format=qcow2",
      "--os-variant", "generic",
      "--print-xml"
    ];
    if HasPrefix(network, "bridge=") || HasPrefix(network, "network=") {
      args := args + ["--network", network];
    } else {
      return [], Failure(InvalidNetwork(network));
    }
    var cmd := Command(["sudo"] + args, None);
    assert cmd.argv == VirtInstallArgv(name, memory, vcpus, diskPath, network);
    var reply := env.exec(cmd);
    invoked := [cmd];
    if !reply.ok {
      return invoked, Failure(XmlGenerationFailed);
    }
    xml := Success(reply.stdout);
  }

  /** Registers the VM by feeding the XML to `virsh define` on standard input. */
  method DefineVm(env: Env, xml: string) returns (invoked: seq<Command>, err: Option<Fatal>)
    ensures invoked == [Command(VIRSH_DEFINE_ARGV, Some(xml))]
    ensures err.None? <==> env.exec(invoked[0]).ok
    ensures err.Some? ==> err.value == DefineFailed
  {
    var cmd := Command(VIRSH_DEFINE_ARGV, Some(xml));
    var reply := env.exec(cmd);
    invoked := [cmd];
    if !reply.ok {
      return invoked, Some(DefineFailed);
    }
    err := None;
  }

  /** The preflight succeeds and there is exactly one positional argument, the VM name. */
  predicate ReachesDisk(env: Env, inv: Invocation) {
    FirstMissing(REQUIRED_COMMANDS, env.toolFound).None? && |inv.args| == 1
  }

  function DiskCommand(inv: Invocation): Command
    requires |inv.args| == 1
  {
    Command(QemuImgArgv(DiskPath(inv.args[0]), inv.size), None)
  }

  function XmlCommand(inv: Invocation): Command
    requires |inv.args| == 1
  {
    var name := inv.args[0];
    Command(VirtInstallArgv(name, inv.memory, inv.vcpus, DiskPath(name), inv.network), None)
  }

  function DefineCommand(env: Env, inv: Invocation): Command
    requires |inv.args| == 1
  {
    Command(VIRSH_DEFINE_ARGV, Some(env.exec(XmlCommand(inv)).stdout))
  }

  /** The commands a run starts when nothing fails, in the order it starts them. */
  function Plan(env: Env, inv: Invocation): seq<Command>
    requires |inv.args| == 1
  {
    [DiskCommand(inv), XmlCommand(inv), DefineCommand(env, inv)]
  }

  /** The directory guard lets the run go on to qemu-img. */
  predicate GuardPasses(env: Env, inv: Invocation)
    requires |inv.args| == 1
  {
    env.stat(Dir(DiskPath(inv.args[0]))) != NotExist
  }

  /**
   * One run of the program. The commands it starts always follow the plan
   * (disk, then XML, then define) and stop at the first failure; nothing is
   * undone on the way out, so a run that fails after qemu-img succeeded leaves
   * the disk image in place.
   */
  method Run(env: Env, inv: Invocation) returns (trace: seq<Command>, outcome: Outcome)
    // the tool check comes first and decides alone, whatever the command line
    ensures FirstMissing(REQUIRED_COMMANDS, env.toolFound).Some? ==>
              trace == [] && outcome == Exited(MissingTool(FirstMissing(REQUIRED_COMMANDS, env.toolFound).value))
    ensures FirstMissing(REQUIRED_COMMANDS, env.toolFound).None? && |inv.args| != 1 ==>
              trace == [] && outcome == Exited(UsageError)
    // whatever happens, the commands started are a prefix of the plan
    ensures ReachesDisk(env, inv) ==> |trace| <= 3 && trace == Plan(env, inv)[..|trace|]
    ensures ReachesDisk(env, inv) && !GuardPasses(env, inv) ==>
              trace == [] && outcome == Exited(DirectoryMissing(Dir(DiskPath(inv.args[0]))))
    ensures ReachesDisk(env, inv) && GuardPasses(env, inv) ==> |trace| >= 1
    ensures outcome == Exited(DiskCreationFailed) <==>
              ReachesDisk(env, inv) && GuardPasses(env, inv) && !env.exec(DiskCommand(inv)).ok
    ensures outcome == Exited(DiskCreationFailed) ==> |trace| == 1
    // the network string is checked only after the disk exists
    ensures outcome.Exited? && outcome.fatal.InvalidNetwork? <==>
              && ReachesDisk(env, inv) && GuardPasses(env, inv)
              && env.exec(DiskCommand(inv)).ok && !ValidNetwork(inv.network)
    ensures outcome.Exited? && outcome.fatal.InvalidNetwork? ==>
              trace == [DiskCommand(inv)] && outcome.fatal.network == inv.network
    ensures outcome == Exited(XmlGenerationFailed) <==>
              && ReachesDisk(env, inv) && GuardPasses(env, inv)
              && env.exec(DiskCommand(inv)).ok && ValidNetwork(inv.network)
              && !env.exec(XmlCommand(inv)).ok
    ensures outcome == Exited(XmlGenerationFailed) ==> |trace| == 2
    ensures outcome == Exited(DefineFailed) <==>
              && ReachesDisk(env, inv) && GuardPasses(env, inv)
              && env.exec(DiskCommand(inv)).ok && ValidNetwork(inv.network)
              && env.exec(XmlCommand(inv)).ok && !env.exec(DefineCommand(env, inv)).ok
    // success: every step succeeded, all three commands ran, and the messages name the VM
    ensures outcome.Created? <==>
              && ReachesDisk(env, inv) && GuardPasses(env, inv)
              && env.exec(DiskCommand(inv)).ok && ValidNetwork(inv.network)
              && env.exec(XmlCommand(inv)).ok && env.exec(DefineCommand(env, inv)).ok
    ensures outcome == Exited(DefineFailed) || outcome.Created? ==> |trace| == 3
    ensures outcome.ExitStatus() == 0 <==> outcome.Created?
    ensures outcome.Created? ==>
              outcome.messages == SuccessMessages(inv.args[0], inv.network, DiskPath(inv.args[0]))
  {
    var _, missing := CheckRequiredCommands(env.toolFound);
    if missing.Some? {
      return [], Exited(MissingTool(missing.value));
    }
    if |inv.args| != 1 {
      return [], Exited(UsageError);
    }
    var vmName := inv.args[0];
    var diskPath := DiskPath(vmName);

    var diskCommands, diskErr := CreateDisk(env, diskPath, inv.size);
    trace := diskCommands;
    if diskErr.Some? {
      return trace, Exited(diskErr.value);
    }

    var xmlCommands, xml := GenerateXml(env, vmName, diskPath, inv.memory, inv.vcpus, inv.network);
    trace := trace + xmlCommands;
    if xml.Failure? {
      return trace, Exited(xml.error);
    }

    var defineCommands, defineErr := DefineVm(env, xml.value);
    trace := trace + defineCommands;
    if defineErr.Some? {
      return trace, Exited(defineErr.value);
    }

    outcome := Created(SuccessMessages(vmName, inv.network, diskPath));
  }
}
