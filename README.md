# Emulator argument-list builder of uefi-run

This project models how uefi-run turns a launch configuration into the
command line for QEMU (`src/qemu.rs`). `QemuConfig::run` serialises the
configuration into an ordered list of tokens before it spawns the emulator:

1. the firmware image as a pflash drive at index 0;
2. the variable store as a pflash drive at index 1;
3. the boot shell image as a raw drive at index 2;
4. each configured drive, in input order, at the next index;
5. `-serial file:<output path>`;
6. the extra arguments, verbatim.

The model is split into two modules:

- `Decimal` (`decimal.dfy`) renders a drive index in decimal, the way `{}`
  in `format!` prints it. `ParseDecimal` reads the text back, and the
  round-trip lemma shows that the rendering loses nothing.
- `Qemu` (`qemu.dfy`) holds:
  - the two records as datatypes, with the `Default` configuration and
    `QemuDriveConfig::new`;
  - `ArgList`, a function that specifies the argument list;
  - `BuildArgs`, the imperative assembly. It pushes onto `args` step by
    step, a mutable `index` counter hands out drive indices, and a loop over
    the configured drives carries the invariants. Its `ensures` ties the
    result to `ArgList`.

`ArgList` is checked against `IsArgLayout`, a separate description of
the list position by position. The lemma `ArgListIsLayout` proves that
the layout admits `ArgList(c)` and nothing else. `DriveList` gives a
structured view of the drives that are mounted. Through it,
`DriveIndicesConsecutive` shows that drive indices start at 0 and rise by
one per drive, with no gap and no repeat.

The configuration is an immutable value and `BuildArgs` returns a value
that its `ensures` fixes completely. So assembly is deterministic:
building twice from the same configuration gives identical lists, and the
configuration is unchanged afterwards, as `run(&self)` promises.

The code emits `8 + 2·|drives| + |additional_args|` tokens. That count
includes the `-serial` pair.

## Model

| member | source | states |
|---|---|---|
| `Decimal.NatToString` | src/qemu.rs:39-42 | an index is printed as a non-empty run of decimal digits with no leading zero ("0" exactly for zero), one digit exactly below ten |
| `Decimal.ParseNatToString` | src/qemu.rs:39-42 | reading the printed index back as a decimal number gives the index itself |
| `Decimal.NatToStringInjective` | src/qemu.rs:36-65 | two indices print the same text if and only if they are equal, so distinct drive indices appear as distinct `index=` values |
| `Qemu.DefaultConfig` | src/qemu.rs:19-29 | the default uses `qemu-system-x86_64`, `OVMF.fd`, `OVMF_VARS.fd`, `UefiShell.iso` and `Output.txt`, and has no drives and no extra arguments |
| `Qemu.NewDrive` | src/qemu.rs:87-93 | `QemuDriveConfig::new` copies file, media and format unchanged |
| `Qemu.BuildArgs` | src/qemu.rs:35-71 | the step-by-step pushes produce exactly `ArgList(c)`. The loop keeps `index = 3 + k` before the k-th drive and ends with `index = 3 + |drives|` |
| `Qemu.DriveListShape` | src/qemu.rs:38-66 | the drives are mounted in this order: firmware at 0, variable store at 1, boot shell at 2, then configured drive k at index 3 + k, in input order |
| `Qemu.DriveIndicesConsecutive` | src/qemu.rs:36-65 | the j-th drive mounted carries index j: indices start at 0 and strictly increase with no gap or repeat |
| `Qemu.ArgListDrivePairs` | src/qemu.rs:38-66 | every mounted drive j appears as the pair `-drive` and its specification at positions 2j and 2j+1, and that specification carries index j |
| `Qemu.ArgListLength` | src/qemu.rs:35-71 | the argument list has exactly 8 + 2·|drives| + |additional_args| tokens |
| `Qemu.ArgListSatisfiesLayout` | src/qemu.rs:35-71 | the argument list meets the positional description: fixed prefix, drive pairs, serial pair, verbatim suffix |
| `Qemu.LayoutUnique` | src/qemu.rs:35-71 | the positional description determines the list completely: two lists that meet it are equal |
| `Qemu.ArgListIsLayout` | src/qemu.rs:35-71 | a list meets the positional description if and only if it is the assembled argument list |
| `Qemu.ArgListPositions` | src/qemu.rs:38-71 | the six fixed tokens come first. Token 6+2k is `-drive` and 7+2k is `file=<file>,index=<3+k>,media=<media>,format=<format>`, with the fields unvalidated. `-serial` and `file:<output>` sit at 6+2n and 7+2n, and the suffix is the extra arguments, verbatim and in order |
| `Qemu.DefaultConfigArgs` | src/qemu.rs:19-29 | the default configuration yields exactly the eight tokens for OVMF.fd, OVMF_VARS.fd and UefiShell.iso at indices 0 to 2, then `-serial file:Output.txt` |
| `Qemu.SingleDriveArgs` | src/qemu.rs:59-66 | a configuration with the one drive `QemuDriveConfig::new(file, media, format)` has `-drive`, `file=<file>,index=3,media=<media>,format=<format>` right after the three fixed drives |

## Left out

- Spawning the emulator (`Command::new(&self.qemu_path).args(args).spawn()`, src/qemu.rs:73-74) and its error propagation. These are OS process creation and an error type defined outside this file. `qemu_path` is kept in the configuration but takes no part in the argument list.
- `QemuProcess::wait` (src/qemu.rs:104-109) is left out. It is a timed blocking wait through the `wait_timeout` crate, and its outcome depends on wall-clock time and the OS process status. It also aborts through `expect`.
- `QemuProcess::kill` (src/qemu.rs:112-114) is left out. It passes straight through to the OS process primitive.
- `Duration`, timing, and the concurrency between the caller and the child process are left out.
- Path validity is not modelled. The code never checks paths, and neither does the model.
- Qemu.BuildArgs: the drive counter is an unbounded `nat`. In the source it is an `i32` by default (src/qemu.rs:36), equal to 3 + k before drive k, so the increment after drive number 2^31 − 3 (src/qemu.rs:65) overflows. A debug build panics there, and a release build wraps and prints a negative `index=` for any later drive. The model captures neither behaviour.
