/** The emulator launch configuration of src/qemu.rs and the ordered list of
    command-line tokens that `QemuConfig::run` assembles from it before it
    spawns the emulator. */
module Qemu {
  import opened Decimal

  /** One auxiliary drive: backing file, media kind and storage format, all
      free-form and passed through unvalidated. */
  datatype QemuDriveConfig = QemuDriveConfig(file: string, media: string, format: string)

  /** A launch configuration. `qemuPath` names the executable to spawn and
      takes no part in the argument list. */
  datatype QemuConfig = QemuConfig(
    qemuPath: string,
    biosPath: string,
    varsPath: string,
    shellPath: string,
    outputPath: string,
    drives: seq<QemuDriveConfig>,
    additionalArgs: seq<string>)

  /** `Default for QemuConfig`: well-known file names, no drives, no extra arguments. */
  function DefaultConfig(): (c: QemuConfig)
    ensures c.qemuPath == "qemu-system-x86_64"
    ensures c.biosPath == "OVMF.fd" && c.varsPath == "OVMF_VARS.fd"
    ensures c.shellPath == "UefiShell.iso" && c.outputPath == "Output.txt"
    ensures c.drives == [] && c.additionalArgs == []
  {
    QemuConfig("qemu-system-x86_64", "OVMF.fd", "OVMF_VARS.fd", "UefiShell.iso", "Output.txt", [], [])
  }

  /** `QemuDriveConfig::new`: copies its three arguments unchanged. */
  function NewDrive(file: string, media: string, format: string): (d: QemuDriveConfig)
    ensures d.file == file && d.media == media && d.format == format
  {
    QemuDriveConfig(file, media, format)
  }

  // The three `format!` templates of the drive specifications.

  function FlashSpec(path: string, index: nat): string {
    "if=pflash,format=raw,file=" + path + ",index=" + NatToString(index)
  }

  function ShellSpec(path: string, index: nat): string {
    "format=raw,file=" + path + ",index=" + NatToString(index)
  }

  function AttachedSpec(drive: QemuDriveConfig, index: nat): string {
    "file=" + drive.file + ",index=" + NatToString(index) + ",media=" + drive.media + ",format=" + drive.format
  }

  /** A structured view of one emitted `-drive` argument: which template it
      uses, what it mounts, and the drive index it carries. */
  datatype DriveArg =
    | Flash(path: string, index: nat)
    | Shell(path: string, index: nat)
    | Attached(drive: QemuDriveConfig, index: nat)

  function Render(a: DriveArg): string {
    match a
    case Flash(path, i) => FlashSpec(path, i)
    case Shell(path, i) => ShellSpec(path, i)
    case Attached(d, i) => AttachedSpec(d, i)
  }

  /** The configured drives, numbered consecutively from `first`. */
  function AttachedFrom(ds: seq<QemuDriveConfig>, first: nat): seq<DriveArg>
    decreases |ds|
  {
    if ds == [] then [] else [Attached(ds[0], first)] + AttachedFrom(ds[1..], first + 1)
  }

  /** Every drive the emulator is given, in attachment order: firmware,
      variable store, boot shell, then the configured drives. */
  function DriveList(c: QemuConfig): seq<DriveArg> {
    [Flash(c.biosPath, 0), Flash(c.varsPath, 1), Shell(c.shellPath, 2)] + AttachedFrom(c.drives, 3)
  }

  /** Each drive becomes the pair `-drive`, <its specification>. */
  function DriveTokens(das: seq<DriveArg>): seq<string>
    decreases |das|
  {
    if das == [] then [] else ["-drive", Render(das[0])] + DriveTokens(das[1..])
  }

  /** The argument list `run` hands to the emulator. */
  function ArgList(c: QemuConfig): seq<string> {
    DriveTokens(DriveList(c)) + ["-serial", "file:" + c.outputPath] + c.additionalArgs
  }

  /** An independent, position-by-position description of the argument list:
      the three fixed drive pairs, one pair per configured drive, the serial
      pair, then the extra arguments. */
  predicate IsArgLayout(c: QemuConfig, args: seq<string>) {
    var n := |c.drives|;
    |args| == 8 + 2 * n + |c.additionalArgs|
    && args[..6] == ["-drive", FlashSpec(c.biosPath, 0),
                     "-drive", FlashSpec(c.varsPath, 1),
                     "-drive", ShellSpec(c.shellPath, 2)]
    && (forall k :: 0 <= k < n ==>
          args[6 + 2 * k] == "-drive" && args[7 + 2 * k] == AttachedSpec(c.drives[k], 3 + k))
    && args[6 + 2 * n] == "-serial" && args[7 + 2 * n] == "file:" + c.outputPath
    && args[8 + 2 * n..] == c.additionalArgs
  }

  /** The argument assembly of `QemuConfig::run`: push the three fixed drive
      pairs, then one pair per configured drive while a counter hands out the
      next index, then the serial redirection, then the extra arguments. */
  method BuildArgs(c: QemuConfig) returns (args: seq<string>)
    ensures args == ArgList(c)
  {
    args := [];
    var index: nat := 0;

    args := args + ["-drive"];
    args := args + [FlashSpec(c.biosPath, index)];
    index := index + 1;

    args := args + ["-drive"];
    args := args + [FlashSpec(c.varsPath, index)];
    index := index + 1;

    args := args + ["-drive"];
    args := args + [ShellSpec(c.shellPath, index)];
    index := index + 1;

    ghost var fixed := [Flash(c.biosPath, 0), Flash(c.varsPath, 1), Shell(c.shellPath, 2)];
    assert DriveList(c)[..3] == fixed;
    assert fixed[1..][1..] == fixed[2..] && fixed[2..][1..] == [];
    assert DriveTokens(fixed[2..]) == ["-drive", ShellSpec(c.shellPath, 2)];
    assert DriveTokens(fixed[1..]) == ["-drive", FlashSpec(c.varsPath, 1)] + DriveTokens(fixed[2..]);
    assert args == DriveTokens(fixed);
    DriveListShape(c);

    for k := 0 to |c.drives|
      invariant index == 3 + k
      invariant args == DriveTokens(DriveList(c)[..3 + k])
    {
      var drive := c.drives[k];
      args := args + ["-drive"];
      args := args + [AttachedSpec(drive, index)];
      index := index + 1;

      ghost var done := DriveList(c)[..3 + k];
      assert DriveList(c)[..3 + k + 1] == done + [Attached(drive, 3 + k)];
      DriveTokensAppend(done, [Attached(drive, 3 + k)]);
    }
    assert DriveList(c)[..3 + |c.drives|] == DriveList(c);

    args := args + ["-serial"];
    args := args + ["file:" + c.outputPath];

    args := args + c.additionalArgs;
  }

  // ---------------------------------------------------------------------
  // Properties of the drive list and of the argument list.

  lemma {:induction false} AttachedFromAt(ds: seq<QemuDriveConfig>, first: nat)
    ensures |AttachedFrom(ds, first)| == |ds|
    ensures forall k :: 0 <= k < |ds| ==> AttachedFrom(ds, first)[k] == Attached(ds[k], first + k)
    decreases |ds|
  {
    if ds != [] {
      AttachedFromAt(ds[1..], first + 1);
    }
  }

  /** The drive list holds the three fixed drives and then every configured
      drive, in input order, with the next index. */
  lemma DriveListShape(c: QemuConfig)
    ensures |DriveList(c)| == 3 + |c.drives|
    ensures DriveList(c)[0] == Flash(c.biosPath, 0)
    ensures DriveList(c)[1] == Flash(c.varsPath, 1)
    ensures DriveList(c)[2] == Shell(c.shellPath, 2)
    ensures forall k :: 0 <= k < |c.drives| ==> DriveList(c)[3 + k] == Attached(c.drives[k], 3 + k)
  {
    AttachedFromAt(c.drives, 3);
  }

  /** Drive indices are handed out from 0, one per drive, with no gap and no
      repeat: the j-th drive mounted carries index j. */
  lemma DriveIndicesConsecutive(c: QemuConfig)
    ensures |DriveList(c)| == 3 + |c.drives|
    ensures forall j :: 0 <= j < |DriveList(c)| ==> DriveList(c)[j].index == j
    ensures forall i, j :: 0 <= i < j < |DriveList(c)| ==> DriveList(c)[i].index < DriveList(c)[j].index
  {
    DriveListShape(c);
    forall j | 0 <= j < |DriveList(c)| ensures DriveList(c)[j].index == j {
      if j >= 3 {
        assert DriveList(c)[3 + (j - 3)] == Attached(c.drives[j - 3], 3 + (j - 3));
      }
    }
  }

  lemma {:induction false} DriveTokensAppend(a: seq<DriveArg>, b: seq<DriveArg>)
    ensures DriveTokens(a + b) == DriveTokens(a) + DriveTokens(b)
    decreases |a|
  {
    if a == [] {
      assert a + b == b;
    } else {
      assert (a + b)[1..] == a[1..] + b;
      DriveTokensAppend(a[1..], b);
    }
  }

  lemma {:induction false} DriveTokensAt(das: seq<DriveArg>)
    ensures |DriveTokens(das)| == 2 * |das|
    ensures forall j :: 0 <= j < |das| ==>
              DriveTokens(das)[2 * j] == "-drive" && DriveTokens(das)[2 * j + 1] == Render(das[j])
    decreases |das|
  {
    if das != [] {
      DriveTokensAt(das[1..]);
      var rest := DriveTokens(das[1..]);
      var t := DriveTokens(das);
      assert t == ["-drive", Render(das[0])] + rest;
      forall j | 1 <= j < |das|
        ensures t[2 * j] == "-drive" && t[2 * j + 1] == Render(das[j])
      {
        assert das[1..][j - 1] == das[j];
        assert t[2 * j] == rest[2 * (j - 1)];
        assert t[2 * j + 1] == rest[2 * (j - 1) + 1];
      }
    }
  }

  /** Every mounted drive appears as the pair at positions 2j and 2j+1, and
      the specification there carries that drive's index j. */
  lemma ArgListDrivePairs(c: QemuConfig)
    ensures |ArgList(c)| == 2 * |DriveList(c)| + 2 + |c.additionalArgs|
    ensures forall j :: 0 <= j < |DriveList(c)| ==>
              ArgList(c)[2 * j] == "-drive" && ArgList(c)[2 * j + 1] == Render(DriveList(c)[j])
              && DriveList(c)[j].index == j
  {
    DriveTokensAt(DriveList(c));
    DriveIndicesConsecutive(c);
  }

  /** The argument list has length 8 + 2·|drives| + |additional_args|. */
  lemma ArgListLength(c: QemuConfig)
    ensures |ArgList(c)| == 8 + 2 * |c.drives| + |c.additionalArgs|
  {
    DriveTokensAt(DriveList(c));
    DriveListShape(c);
  }

  /** The argument list splits into the drive pairs and the tail that follows them. */
  lemma ArgListSplit(c: QemuConfig)
    ensures |DriveTokens(DriveList(c))| == 6 + 2 * |c.drives|
    ensures ArgList(c)[..6 + 2 * |c.drives|] == DriveTokens(DriveList(c))
    ensures ArgList(c)[6 + 2 * |c.drives|] == "-serial"
    ensures ArgList(c)[7 + 2 * |c.drives|] == "file:" + c.outputPath
    ensures ArgList(c)[8 + 2 * |c.drives|..] == c.additionalArgs
  {
    DriveListShape(c);
    DriveTokensAt(DriveList(c));
    var t := DriveTokens(DriveList(c));
    var tail := ["-serial", "file:" + c.outputPath] + c.additionalArgs;
    assert ArgList(c) == t + tail;
  }

  lemma DriveTokensFixed(c: QemuConfig)
    ensures |DriveTokens(DriveList(c))| >= 6
    ensures DriveTokens(DriveList(c))[..6] == ["-drive", FlashSpec(c.biosPath, 0),
                                               "-drive", FlashSpec(c.varsPath, 1),
                                               "-drive", ShellSpec(c.shellPath, 2)]
  {
    var dl := DriveList(c);
    DriveListShape(c);
    DriveTokensAt(dl);
    var t := DriveTokens(dl);
    assert t[..6] == [t[0], t[1], t[2], t[3], t[4], t[5]];
    assert t[1] == Render(dl[0]) && t[3] == Render(dl[1]) && t[5] == Render(dl[2]);
  }

  lemma DriveTokensConfigured(c: QemuConfig)
    ensures |DriveTokens(DriveList(c))| == 6 + 2 * |c.drives|
    ensures forall k :: 0 <= k < |c.drives| ==>
              DriveTokens(DriveList(c))[6 + 2 * k] == "-drive"
              && DriveTokens(DriveList(c))[7 + 2 * k] == AttachedSpec(c.drives[k], 3 + k)
  {
    var dl := DriveList(c);
    DriveListShape(c);
    DriveTokensAt(dl);
    var t := DriveTokens(dl);
    forall k | 0 <= k < |c.drives|
      ensures t[6 + 2 * k] == "-drive" && t[7 + 2 * k] == AttachedSpec(c.drives[k], 3 + k)
    {
      assert t[2 * (3 + k)] == "-drive" && t[2 * (3 + k) + 1] == Render(dl[3 + k]);
    }
  }

  lemma ArgListSatisfiesLayout(c: QemuConfig)
    ensures IsArgLayout(c, ArgList(c))
  {
    var a := ArgList(c);
    var n := |c.drives|;
    var t := DriveTokens(DriveList(c));
    ArgListLength(c);
    ArgListSplit(c);
    DriveTokensFixed(c);
    DriveTokensConfigured(c);
    assert a[..6] == t[..6];
    forall k | 0 <= k < n
      ensures a[6 + 2 * k] == "-drive" && a[7 + 2 * k] == AttachedSpec(c.drives[k], 3 + k)
    {
      assert a[6 + 2 * k] == t[6 + 2 * k] && a[7 + 2 * k] == t[7 + 2 * k];
    }
  }

  lemma LayoutUnique(c: QemuConfig, a: seq<string>, b: seq<string>)
    requires IsArgLayout(c, a) && IsArgLayout(c, b)
    ensures a == b
  {
    var n := |c.drives|;
    forall i | 0 <= i < |a| ensures a[i] == b[i] {
      if i < 6 {
        assert a[i] == a[..6][i] && b[i] == b[..6][i];
      } else if i < 6 + 2 * n {
        var k := (i - 6) / 2;
        assert i == 6 + 2 * k || i == 7 + 2 * k;
        assert a[6 + 2 * k] == b[6 + 2 * k] && a[7 + 2 * k] == b[7 + 2 * k];
      } else if i >= 8 + 2 * n {
        assert a[i] == a[8 + 2 * n..][i - (8 + 2 * n)];
        assert b[i] == b[8 + 2 * n..][i - (8 + 2 * n)];
      }
    }
  }

  /** `ArgList` is exactly the list the positional description admits, and
      it is the only one. */
  lemma ArgListIsLayout(c: QemuConfig, args: seq<string>)
    ensures IsArgLayout(c, args) <==> args == ArgList(c)
  {
    ArgListSatisfiesLayout(c);
    if IsArgLayout(c, args) {
      LayoutUnique(c, args, ArgList(c));
    }
  }

  /** The positions the source promises, one by one: the six fixed tokens,
      the pair for the k-th configured drive, the serial pair right after the
      drives, and the extra arguments as the verbatim suffix. */
  lemma ArgListPositions(c: QemuConfig)
    ensures |ArgList(c)| == 8 + 2 * |c.drives| + |c.additionalArgs|
    ensures ArgList(c)[..6] == ["-drive", "if=pflash,format=raw,file=" + c.biosPath + ",index=0",
                                "-drive", "if=pflash,format=raw,file=" + c.varsPath + ",index=1",
                                "-drive", "format=raw,file=" + c.shellPath + ",index=2"]
    ensures forall k :: 0 <= k < |c.drives| ==>
              ArgList(c)[6 + 2 * k] == "-drive"
              && ArgList(c)[7 + 2 * k] == "file=" + c.drives[k].file + ",index=" + NatToString(3 + k)
                                          + ",media=" + c.drives[k].media + ",format=" + c.drives[k].format
    ensures ArgList(c)[6 + 2 * |c.drives|] == "-serial"
    ensures ArgList(c)[7 + 2 * |c.drives|] == "file:" + c.outputPath
    ensures ArgList(c)[8 + 2 * |c.drives|..] == c.additionalArgs
  {
    ArgListSatisfiesLayout(c);
    assert NatToString(0) == "0" && NatToString(1) == "1" && NatToString(2) == "2";
    assert FlashSpec(c.biosPath, 0) == "if=pflash,format=raw,file=" + c.biosPath + ",index=0";
    assert FlashSpec(c.varsPath, 1) == "if=pflash,format=raw,file=" + c.varsPath + ",index=1";
    assert ShellSpec(c.shellPath, 2) == "format=raw,file=" + c.shellPath + ",index=2";
  }

  // The default drive specifications spelled out, one template at a time.

  lemma DefaultBiosSpec()
    ensures FlashSpec("OVMF.fd", 0) == "if=pflash,format=raw,file=OVMF.fd,index=0"
  {
  }

  lemma DefaultVarsSpec()
    ensures FlashSpec("OVMF_VARS.fd", 1) == "if=pflash,format=raw,file=OVMF_VARS.fd,index=1"
  {
  }

  lemma DefaultShellSpec()
    ensures ShellSpec("UefiShell.iso", 2) == "format=raw,file=UefiShell.iso,index=2"
  {
  }

  /** The default configuration yields exactly eight tokens: the three fixed
      drives over the well-known files and the serial redirection. */
  lemma DefaultConfigArgs()
    ensures ArgList(DefaultConfig()) == [
      "-drive", "if=pflash,format=raw,file=OVMF.fd,index=0",
      "-drive", "if=pflash,format=raw,file=OVMF_VARS.fd,index=1",
      "-drive", "format=raw,file=UefiShell.iso,index=2",
      "-serial", "file:Output.txt"]
  {
    var c := DefaultConfig();
    var a := ArgList(c);
    ArgListSatisfiesLayout(c);
    DefaultBiosSpec();
    DefaultVarsSpec();
    DefaultShellSpec();
    assert |a| == 8;
    assert a[..6] == ["-drive", "if=pflash,format=raw,file=OVMF.fd,index=0",
                      "-drive", "if=pflash,format=raw,file=OVMF_VARS.fd,index=1",
                      "-drive", "format=raw,file=UefiShell.iso,index=2"];
    assert "file:" + "Output.txt" == "file:Output.txt";
    assert a == a[..6] + [a[6], a[7]];
  }

  /** A single configured drive follows the fixed three as index 3, with its
      file, media and format copied verbatim. */
  lemma SingleDriveArgs(file: string, media: string, format: string, c: QemuConfig)
    requires c.drives == [NewDrive(file, media, format)]
    ensures |ArgList(c)| == 10 + |c.additionalArgs|
    ensures ArgList(c)[6..8] == ["-drive", "file=" + file + ",index=3,media=" + media + ",format=" + format]
  {
    var a := ArgList(c);
    ArgListSatisfiesLayout(c);
    assert a[6 + 2 * 0] == "-drive" && a[7 + 2 * 0] == AttachedSpec(c.drives[0], 3 + 0);
    assert NatToString(3) == "3";
    assert AttachedSpec(c.drives[0], 3) == "file=" + file + ",index=3,media=" + media + ",format=" + format;
    assert a[6..8] == [a[6], a[7]];
  }
}
