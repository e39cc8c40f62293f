# kvm-vm-bare in Dafny

A model of `main.go`, a command-line program that provisions an empty KVM
virtual machine. It runs three external tools in turn: `qemu-img` creates a
qcow2 disk image under `/var/lib/libvirt/images`, `virt-install --print-xml`
prints the domain XML, and `virsh define /dev/stdin` registers the VM from that
XML. Before any of this it checks that the three tools are on the search path,
and that exactly one positional argument (the VM name) was given. Every failure
ends the process with a fatal message.

The model has six modules, one file each:

- `wrappers.dfy` (`Wrappers`): `Option` and `Result`.
- `decimal.dfy` (`Decimal`): `%d` rendering of the memory and vCPU counts, with
  a parser and the round-trip lemma.
- `paths.dfy` (`Paths`): the image directory, the disk path
  `filepath.Join(IMAGE_DIR, name + ".qcow2")`, and `filepath.Dir`. Join, Dir and
  the Clean they rely on are written out by the lexical rules for
  slash-separated paths, so the disk path is defined for every name. The
  properties are stated for names without a slash, plus one for a name that
  starts with `../`.
- `commands.dfy` (`Commands`): commands as argument vectors plus standard
  input, the `bridge=` / `network=` prefix check, and the argument vectors of
  `qemu-img`, `virt-install` and `virsh`. The network string and the `qemu-img`
  and `virt-install` vectors each have a parser that reads them back; the
  `virsh` vector is a constant.
- `preflight.dfy` (`Preflight`): the tool lookup loop and the function that
  specifies it.
- `provision.dfy` (`Provision`): the environment, the three steps as methods,
  and `Run`, which performs a whole run.

The outside world is an `Env` value with three parts:

- `toolFound` answers `exec.LookPath`.
- `stat` answers `os.Stat` of a directory with `Exists`, `NotExist` or
  `OtherError`.
- `exec` gives each started command's exit status and standard output.

`Run` returns the commands it started, in order, and how the run ended. The
run ends either with the two confirmation lines or with one of the fatal exits:
`MissingTool`, `UsageError`, `DirectoryMissing`, `DiskCreationFailed`,
`InvalidNetwork`, `XmlGenerationFailed` or `DefineFailed`.

Points where the code's behaviour may surprise:

- Nothing is undone on failure.
- There is no check that a disk image already exists.
- The network string is validated only after `qemu-img` has created the disk.
  So a run with an invalid network leaves the disk in place and never starts
  `virsh`. `Run`'s contract states exactly this.
- The directory guard stops the run only when stat reports that the directory
  does not exist. Any other stat error lets `qemu-img` run.
- A network string of just `bridge=` or `network=`, with an empty name, is
  accepted.
- The confirmation message names the network as well as the VM and the disk
  path.

The model follows the code in each of these points.

## Model

| member | source | states |
|---|---|---|
| `Preflight.FirstMissing` | main.go:59-66 | the reported tool is missing and every tool before it in the list is found; None exactly when all are found |
| `Preflight.FirstMissingAt` | main.go:62-65 | a missing tool that comes after only found tools is the one reported |
| `Preflight.CheckRequiredCommands` | main.go:59-66 | looks up qemu-img, virsh, virt-install in that order; stops right after the first missing one and reports it; reports nothing only when all three are found |
| `Paths.DiskPathOfPlainName` | main.go:46 | for a name without a slash the disk path is `/var/lib/libvirt/images/<name>.qcow2` and its directory is the image directory |
| `Paths.DiskPathOfClimbingName` | main.go:46 | a name `../<rest>` puts the disk at `/var/lib/libvirt/<rest>.qcow2`, outside the image directory, and the guard then inspects `/var/lib/libvirt` |
| `Decimal.NaturalRoundTrip` | main.go:86-87 | the digits of a natural number are non-empty decimal digits without a leading zero (only zero itself renders as `0`) and read back as the number |
| `Decimal.FormatRoundTrip` | main.go:86-87 | the `%d` rendering of any integer, negative ones included, reads back as that integer |
| `Commands.ValidNetworkIsAttachment` | main.go:94-98 | a network string is accepted exactly when it reads as a bridge or a virtual-network attachment, and that attachment renders back to the same string |
| `Commands.RenderIsValid` | main.go:94 | every bridge or virtual-network attachment renders to an accepted string that reads back as itself |
| `Commands.QemuImgArgvRoundTrip` | main.go:75 | the qemu-img vector is `create -f qcow2` under sudo and gives back exactly the disk path and size |
| `Commands.DiskOptionRoundTrip` | main.go:88 | the `--disk` value `path=<p>,format=qcow2` gives back exactly the disk path |
| `Commands.VirtInstallArgvRoundTrip` | main.go:83-100 | the 15-entry virt-install vector holds the name, memory, vCPUs, disk path and network at fixed places, and reading it back gives exactly those inputs |
| `Provision.DefaultNetworkIsValid` | main.go:26 | the default `--network` value `network=default` passes the check of main.go:94 and names the virtual network `default` |
| `Provision.CreateDisk` | main.go:69-80 | a "does not exist" stat of the path's directory fails with that directory and starts nothing; otherwise it starts exactly `sudo qemu-img create -f qcow2 <path> <size>` and fails exactly when that command fails |
| `Provision.GenerateXml` | main.go:82-110 | a network without the `bridge=` or `network=` prefix fails naming the string and starts nothing; otherwise it starts exactly the print-only virt-install command and returns its standard output, or fails when it fails |
| `Provision.DefineVm` | main.go:112-119 | starts exactly `sudo virsh define /dev/stdin` with the XML as its standard input and fails exactly when that command fails |
| `Provision.Run` | main.go:18-57 | the tool check decides first, whatever the arguments; without exactly one argument the run is a usage error that starts nothing; the started commands are always a prefix of disk, XML, define; each fatal exit happens exactly when its step is the first to fail; an invalid network is reported only after the disk was created, with the disk left in place and virsh never started; virsh receives virt-install's output; success prints the VM name, the network and the disk path; the exit status is 0 exactly on success |

## Left out

- Process execution, `exec.LookPath` and `os.Stat` are not modelled. They are the answers of the `Env` value.
- The text of the fatal messages is not modelled. This covers the error values and the captured tool output that the messages quote. The outcome names the missing tool, the missing directory or the rejected network string where the code prints them.
- The usage text printed on a usage error is not modelled.
- Standard error and the combined output of `qemu-img` and `virsh` are not modelled. Only virt-install's standard output is, because it becomes the XML.
- The `flag` package is not modelled: parsing, help and rejection of malformed flag values. `Invocation` holds the parsed values. `WithDefaults` holds the defaults: `20G`, 1024, 1 and `network=default`; `Provision.DefaultNetworkIsValid` shows the default network passes the network check.
- Integers are unbounded, so the model does not limit `--memory` and `--vcpus` to Go's 64-bit `int`. The flag package rejects out-of-range values before the code sees them.
- `log.Fatalf` and `os.Exit` are modelled only as the `Exited` outcome. `Outcome.ExitStatus` gives the exit status, 1 for every fatal exit and 0 for success, and `Run`'s contract ties status 0 to success.
- `sudo` appears only as the first entry of each argument vector. Privileges are not modelled.
- `Paths.Clean`, `Paths.Join` and `Paths.Dir` follow the Unix lexical rules of Go's `path/filepath`. That library is not part of this model, so the correspondence is not proved.
- Volume names and other non-Unix path forms are not modelled.
