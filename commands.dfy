/**
 * The external commands the program runs, as argument vectors, and the check it
 * makes on the network string before it builds the virt-install command.
 */
module Commands {
  import opened Wrappers
  import Decimal

  /** One process the program starts: its argument vector and what it reads on standard input. */
  datatype Command = Command(argv: seq<string>, stdin: Option<string>)

  /** What a finished process reports: whether it exited successfully, and its standard output. */
  datatype Reply = Reply(ok: bool, stdout: string)

  predicate HasPrefix(s: string, prefix: string) {
    |prefix| <= |s| && s[..|prefix|] == prefix
  }

  predicate HasSuffix(s: string, suffix: string) {
    |suffix| <= |s| && s[|s| - |suffix|..] == suffix
  }

  const BRIDGE_PREFIX: string := "bridge="
  const NETWORK_PREFIX: string := "network="

  /** The only network strings the program passes on to virt-install. */
  predicate ValidNetwork(network: string) {
    HasPrefix(network, BRIDGE_PREFIX) || HasPrefix(network, NETWORK_PREFIX)
  }

  /** The two attachments a network string can name: a host bridge or a libvirt virtual network. */
  datatype Attachment = Bridge(name: string) | VirtualNetwork(name: string)

  function Render(a: Attachment): string {
    match a
    case Bridge(n) => BRIDGE_PREFIX + n
    case VirtualNetwork(n) => NETWORK_PREFIX + n
  }

  /** Reads a network string as an attachment; the name after the prefix may be empty. */
  function ParseAttachment(network: string): Option<Attachment> {
    if HasPrefix(network, BRIDGE_PREFIX) then Some(Bridge(network[|BRIDGE_PREFIX|..]))
    else if HasPrefix(network, NETWORK_PREFIX) then Some(VirtualNetwork(network[|NETWORK_PREFIX|..]))
    else None
  }

  /** A network string is accepted exactly when it is the rendering of an attachment. */
  lemma ValidNetworkIsAttachment(network: string)
    ensures ValidNetwork(network) <==> ParseAttachment(network).Some?
    ensures ParseAttachment(network).Some? ==> Render(ParseAttachment(network).value) == network
  {
    if HasPrefix(network, BRIDGE_PREFIX) {
      assert network == BRIDGE_PREFIX + network[|BRIDGE_PREFIX|..];
    } else if HasPrefix(network, NETWORK_PREFIX) {
      assert network == NETWORK_PREFIX + network[|NETWORK_PREFIX|..];
    }
  }

  /** Every attachment renders to an accepted string that reads back as itself. */
  lemma RenderIsValid(a: Attachment)
    ensures ValidNetwork(Render(a))
    ensures ParseAttachment(Render(a)) == Some(a)
  {
    var s := Render(a);
    match a
    case Bridge(n) =>
      assert s[..|BRIDGE_PREFIX|] == BRIDGE_PREFIX;
      assert s[|BRIDGE_PREFIX|..] == n;
    case VirtualNetwork(n) =>
      assert s[..|NETWORK_PREFIX|] == NETWORK_PREFIX;
      assert s[|NETWORK_PREFIX|..] == n;
      assert s[0] == 'n';
  }

  /** `sudo qemu-img create -f qcow2 <path> <size>`. */
  function QemuImgArgv(path: string, size: string): seq<string> {
    ["sudo", "qemu-img", "create", "-f", "qcow2", path, size]
  }

  /** Reads a qemu-img argument vector of the program's fixed shape back into its path and size. */
  function ParseQemuImgArgv(argv: seq<string>): Option<(string, string)> {
    if |argv| == 7 && argv[..5] == ["sudo", "qemu-img", "create", "-f", "qcow2"]
    then Some((argv[5], argv[6]))
    else None
  }

  /** The qemu-img command creates a qcow2 image and carries the path and size at fixed places. */
  lemma QemuImgArgvRoundTrip(path: string, size: string)
    ensures ParseQemuImgArgv(QemuImgArgv(path, size)) == Some((path, size))
  {
    assert QemuImgArgv(path, size)[..5] == ["sudo", "qemu-img", "create", "-f", "qcow2"];
  }

  const DISK_OPTION_PREFIX: string := "path="
  const DISK_OPTION_SUFFIX: string := ",format=qcow2"

  /** The value of virt-install's `--disk` option: `path=<diskPath>,format=qcow2`. */
  function DiskOption(diskPath: string): string {
    DISK_OPTION_PREFIX + diskPath + DISK_OPTION_SUFFIX
  }

  /** The virt-install command for a VM: print-only, with the disk, memory, vCPUs and network given. */
  function VirtInstallArgv(name: string, memory: int, vcpus: int, diskPath: string, network: string): seq<string> {
    ["sudo", "virt-install",
     "--name", name,
     "--memory", Decimal.Format(memory),
     "--vcpus", Decimal.Format(vcpus),
     "--disk", DiskOption(diskPath),
     "--os-variant", "generic",
     "--print-xml",
     "--network", network]
  }

  /** `sudo virsh define /dev/stdin`: the domain XML arrives on standard input. */
  const VIRSH_DEFINE_ARGV: seq<string> := ["sudo", "virsh", "define", "/dev/stdin"]

  /** What a virt-install command asks for, read back from its argument vector. */
  datatype XmlRequest = XmlRequest(name: string, memory: int, vcpus: int, diskPath: string, network: string)

  function ParseDiskOption(s: string): Option<string> {
    if |DISK_OPTION_PREFIX| + |DISK_OPTION_SUFFIX| <= |s|
       && HasPrefix(s, DISK_OPTION_PREFIX) && HasSuffix(s, DISK_OPTION_SUFFIX)
    then Some(s[|DISK_OPTION_PREFIX|..|s| - |DISK_OPTION_SUFFIX|])
    else None
  }

  /**
   * Reads a virt-install argument vector of the program's fixed shape; None for
   * any vector of another shape.
   */
  function ParseVirtInstallArgv(argv: seq<string>): Option<XmlRequest> {
    if |argv| == 15
       && argv[0] == "sudo" && argv[1] == "virt-install"
       && argv[2] == "--name" && argv[4] == "--memory" && argv[6] == "--vcpus"
       && argv[8] == "--disk" && argv[10] == "--os-variant" && argv[11] == "generic"
       && argv[12] == "--print-xml" && argv[13] == "--network"
       && Decimal.Parse(argv[5]).Some? && Decimal.Parse(argv[7]).Some?
       && ParseDiskOption(argv[9]).Some?
    then Some(XmlRequest(argv[3], Decimal.Parse(argv[5]).value, Decimal.Parse(argv[7]).value,
                         ParseDiskOption(argv[9]).value, argv[14]))
    else None
  }

  lemma DiskOptionRoundTrip(diskPath: string)
    ensures ParseDiskOption(DiskOption(diskPath)) == Some(diskPath)
  {
    var s := DiskOption(diskPath);
    assert s[..|DISK_OPTION_PREFIX|] == DISK_OPTION_PREFIX;
    assert s[|s| - |DISK_OPTION_SUFFIX|..] == DISK_OPTION_SUFFIX;
    assert s[|DISK_OPTION_PREFIX|..|s| - |DISK_OPTION_SUFFIX|] == diskPath;
  }

  /**
   * The virt-install command carries every input at a fixed place and in a form
   * that reads back exactly: the name, the memory and vCPU counts in decimal, the
   * disk path and the network string.
   */
  lemma VirtInstallArgvRoundTrip(name: string, memory: int, vcpus: int, diskPath: string, network: string)
    ensures ParseVirtInstallArgv(VirtInstallArgv(name, memory, vcpus, diskPath, network))
            == Some(XmlRequest(name, memory, vcpus, diskPath, network))
  {
    Decimal.FormatRoundTrip(memory);
    Decimal.FormatRoundTrip(vcpus);
    DiskOptionRoundTrip(diskPath);
  }
}
