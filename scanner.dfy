/**
 * The scanner service: its start-up checks, and the log paths and command
 * lines it builds for the three kinds of task. Launching the process is
 * outside the model; what is modelled is every string the service computes
 * and the record it returns.
 */
module Scanner {
  import opened Wrappers
  import opened Text
  import opened NmapTypes

  const DefaultFscanPath: string := "/usr/local/bin/fscan"
  const DefaultNmapPath: string := "/usr/local/bin/nmap"

  /** Why the service refuses to start. */
  datatype StartupError =
    | FscanNotFound(path: string)
    | NmapNotFound(path: string)
    | SudoCheckFailed

  /** `process.env[name] || fallback`: an unset or empty variable gives the fallback. */
  function EnvOr(env: map<string, string>, name: string, fallback: string): (r: string)
    ensures r == fallback || (name in env && r == env[name])
    ensures fallback != "" ==> r != ""
    ensures name !in env ==> r == fallback
    ensures name in env && env[name] != "" ==> r == env[name]
    ensures name in env && env[name] == "" ==> r == fallback
  {
    if name in env && env[name] != "" then env[name] else fallback
  }

  /**
   * The constructor. The file system and `sudo` are oracles: `pathExists` for
   * `fs.existsSync`, `realpath` for `fs.realpathSync`, and `sudoAllows` for a
   * zero exit of `sudo -n -l -- <path>`. The fscan path is checked first,
   * then the nmap path; the sudo probe runs on the resolved paths, nmap first.
   */
  function NewScannerService(
    env: map<string, string>,
    pathExists: string -> bool,
    realpath: string -> string,
    sudoAllows: string -> bool): (r: Result<ScannerService, StartupError>)
    ensures var rawFscan := EnvOr(env, "FSCAN_PATH_LINUX", DefaultFscanPath);
            var rawNmap := EnvOr(env, "NMAP_PATH_LINUX", DefaultNmapPath);
      && (r.Success? <==> pathExists(rawFscan) && pathExists(rawNmap)
                          && sudoAllows(realpath(rawNmap)) && sudoAllows(realpath(rawFscan)))
      && (r.Success? ==> r.value.fscanPath == realpath(rawFscan) && r.value.nmapPath == realpath(rawNmap))
      && (!pathExists(rawFscan) ==> r == Failure(FscanNotFound(rawFscan)))
      && (pathExists(rawFscan) && !pathExists(rawNmap) ==> r == Failure(NmapNotFound(rawNmap)))
      && ((pathExists(rawFscan) && pathExists(rawNmap)
           && !(sudoAllows(realpath(rawNmap)) && sudoAllows(realpath(rawFscan)))) ==> r == Failure(SudoCheckFailed))
  {
    var rawFscanPath := EnvOr(env, "FSCAN_PATH_LINUX", DefaultFscanPath);
    var rawNmapPath := EnvOr(env, "NMAP_PATH_LINUX", DefaultNmapPath);
    if !pathExists(rawFscanPath) then Failure(FscanNotFound(rawFscanPath))
    else if !pathExists(rawNmapPath) then Failure(NmapNotFound(rawNmapPath))
    else
      var fscanPath := realpath(rawFscanPath);
      var nmapPath := realpath(rawNmapPath);
      if !sudoAllows(nmapPath) || !sudoAllows(fscanPath) then Failure(SudoCheckFailed)
      else Success(ScannerService(nmapPath, fscanPath))
  }

  /** What each `run*` operation returns. */
  datatype ScannerTaskExecuteResult = ScannerTaskExecuteResult(
    taskId: string,
    logFilePath: string,
    command: string)

  datatype TaskKind = Diy | Fscan | Nmap

  /** `./log/diy_<UUID>.log`, `./log/fscan_<UUID>.json` or `./log/nmap_<UUID>.xml`. */
  function LogFileName(kind: TaskKind, uuid: string): (r: string)
    ensures IsPrefix("./log/", r) && |r| > 6 + |uuid|
    ensures kind == Diy ==> IsSuffix(uuid + ".log", r)
    ensures kind == Fscan ==> IsSuffix(uuid + ".json", r)
    ensures kind == Nmap ==> IsSuffix(uuid + ".xml", r)
  {
    match kind
    case Diy => "./log/diy_" + uuid + ".log"
    case Fscan => "./log/fscan_" + uuid + ".json"
    case Nmap => "./log/nmap_" + uuid + ".xml"
  }

  /** `ports.length > 0 ? ports.join(',') : '1-65535'`. */
  function PortSpec(ports: seq<nat>): string {
    if |ports| > 0 then Join(seq(|ports|, i requires 0 <= i < |ports| => NatToString(ports[i])), ',')
    else "1-65535"
  }

  /** The shell line that actually runs a DIY command (before the launcher quotes it). */
  function DiyShellLine(command: string, logFileName: string): string {
    "sudo -n bash -c " + command + " > " + logFileName + " 2>&1"
  }

  /** The service after a successful start: the resolved executable paths. */
  datatype ScannerService = ScannerService(nmapPath: string, fscanPath: string) {

    /** `runDIYCommand`: the recorded command is the caller's, not the wrapper that runs it. */
    function RunDiyCommand(command: string, uuid: string): (r: ScannerTaskExecuteResult)
      ensures r.taskId == uuid && r.logFilePath == LogFileName(Diy, uuid)
      ensures r.command == command
      ensures r.command != DiyShellLine(command, r.logFilePath)
    {
      var logFileName := "./log/diy_" + uuid + ".log";
      ScannerTaskExecuteResult(uuid, logFileName, command)
    }

    /** The message `runDIYCommand` logs. */
    function DiyLogMessage(command: string, uuid: string): string {
      Concat(["executing diy command: ", command, ", log file: ", "./log/diy_" + uuid + ".log"])
    }

    /** The message `runFscanScan` logs, command included. */
    function FscanLogMessage(target: string, uuid: string, threads: nat := 200): string {
      Concat(["executing fscan scan: ", target, ", command: sudo -n ", fscanPath, " -h ", target,
              " -t ", NatToString(threads), " -fingerprint -log ALL -nopoc -nobr -f json -o ",
              "./log/fscan_" + uuid + ".json"])
    }

    /** The template of the fscan command line, piece by piece. */
    function FscanCommand(target: string, threads: nat, logFileName: string): seq<string> {
      ["sudo -n ", fscanPath, " -h ", target, " -t ", NatToString(threads),
       " -fingerprint -log ALL -nopoc -nobr -f json -o ", logFileName]
    }

    /** `runFscanScan`. */
    function RunFscanScan(target: string, uuid: string, threads: nat := 200): (r: ScannerTaskExecuteResult)
      ensures r.taskId == uuid && r.logFilePath == LogFileName(Fscan, uuid)
    {
      var logFileName := "./log/fscan_" + uuid + ".json";
      ScannerTaskExecuteResult(uuid, logFileName, Concat(FscanCommand(target, threads, logFileName)))
    }

    /** The message `runNmapScan` logs, command included. */
    function NmapLogMessage(
      target: string, uuid: string, timeout: nat := 90, ports: seq<nat> := [],
      speed: NmapScanSpeed := Aggressive): string
    {
      Concat(["executing nmap scan: ", target, ", command: sudo -n ", nmapPath, " -n ", target,
              " --host-timeout ", NatToString(timeout), "s -O --osscan-guess -sS -p ", PortSpec(ports),
              " -T", speed.Value(), " -oX ", "./log/nmap_" + uuid + ".xml"])
    }

    /** The template of the nmap command line, piece by piece. */
    function NmapCommand(
      target: string, timeout: nat, scanPorts: string, speed: NmapScanSpeed, logFileName: string): seq<string>
    {
      ["sudo -n ", nmapPath, " -n ", target, " --host-timeout ", NatToString(timeout),
       "s -O --osscan-guess -sS -p ", scanPorts, " -T", speed.Value(), " -oX ", logFileName]
    }

    /** `runNmapScan`. */
    function RunNmapScan(
      target: string, uuid: string, timeout: nat := 90, ports: seq<nat> := [],
      speed: NmapScanSpeed := Aggressive): (r: ScannerTaskExecuteResult)
      ensures r.taskId == uuid && r.logFilePath == LogFileName(Nmap, uuid)
    {
      var scanPorts := PortSpec(ports);
      var logFileName := "./log/nmap_" + uuid + ".xml";
      ScannerTaskExecuteResult(uuid, logFileName, Concat(NmapCommand(target, timeout, scanPorts, speed, logFileName)))
    }
  }

  // ---------------------------------------------------------------------------
  // Properties

  /** Recovers a task's kind and id from a log path. */
  function ParseLogFileName(path: string): Option<(TaskKind, string)> {
    if |path| >= 14 && path[..10] == "./log/diy_" && path[|path| - 4..] == ".log" then
      Some((Diy, path[10..|path| - 4]))
    else if |path| >= 17 && path[..12] == "./log/fscan_" && path[|path| - 5..] == ".json" then
      Some((Fscan, path[12..|path| - 5]))
    else if |path| >= 15 && path[..11] == "./log/nmap_" && path[|path| - 4..] == ".xml" then
      Some((Nmap, path[11..|path| - 4]))
    else None
  }

  /** A log path names its task kind and id, so distinct tasks never share a log file. */
  lemma LogFileNameRoundTrip(kind: TaskKind, uuid: string)
    ensures ParseLogFileName(LogFileName(kind, uuid)) == Some((kind, uuid))
  {
    var p := LogFileName(kind, uuid);
    match kind
    case Diy =>
      assert p[..10] == "./log/diy_" && p[|p| - 4..] == ".log" && p[10..|p| - 4] == uuid;
    case Fscan =>
      assert p[..10] != "./log/diy_" by { assert p[6] == 'f'; }
      assert p[..12] == "./log/fscan_" && p[|p| - 5..] == ".json" && p[12..|p| - 5] == uuid;
    case Nmap =>
      assert p[..10] != "./log/diy_" by { assert p[6] == 'n'; }
      assert p[..12] != "./log/fscan_" by { assert p[6] == 'n'; }
      assert p[..11] == "./log/nmap_" && p[|p| - 4..] == ".xml" && p[11..|p| - 4] == uuid;
  }

  lemma LogFileNameInjective(k1: TaskKind, u1: string, k2: TaskKind, u2: string)
    requires LogFileName(k1, u1) == LogFileName(k2, u2)
    ensures k1 == k2 && u1 == u2
  {
    LogFileNameRoundTrip(k1, u1);
    LogFileNameRoundTrip(k2, u2);
  }

  /** The port spec is "1-65535" for no ports; otherwise splitting it on ','
      and reading each piece gives back the ports, in order. */
  lemma PortSpecRoundTrip(ports: seq<nat>)
    ensures |ports| == 0 ==> PortSpec(ports) == "1-65535"
    ensures |ports| > 0 ==> |Split(PortSpec(ports), ',')| == |ports|
    ensures |ports| > 0 ==> forall i :: 0 <= i < |ports| ==>
              IsNumeral(Split(PortSpec(ports), ',')[i]) && DigitsValue(Split(PortSpec(ports), ',')[i]) == ports[i]
  {
    if |ports| > 0 {
      var parts := seq(|ports|, i requires 0 <= i < |ports| => NatToString(ports[i]));
      forall i | 0 <= i < |parts| ensures ',' !in parts[i] {
        assert IsDigits(parts[i]);
      }
      SplitJoin(parts, ',');
      forall i | 0 <= i < |ports| ensures DigitsValue(parts[i]) == ports[i] {
        DigitsValueOfNatToString(ports[i]);
      }
    }
  }

  /** The fscan command runs the resolved fscan binary under `sudo -n` against the
      target with the requested thread count, and writes JSON to its log file. */
  lemma FscanCommandShape(svc: ScannerService, target: string, uuid: string, threads: nat)
    ensures var r := svc.RunFscanScan(target, uuid, threads);
      && IsPrefix("sudo -n " + svc.fscanPath, r.command)
      && IsInfix(" -h " + target + " -t " + NatToString(threads), r.command)
      && IsSuffix(" -fingerprint -log ALL -nopoc -nobr -f json -o " + r.logFilePath, r.command)
  {
    var r := svc.RunFscanScan(target, uuid, threads);
    var p := svc.FscanCommand(target, threads, r.logFilePath);
    ConcatParts(p, 2, 6);
    assert p[..2] == ["sudo -n ", svc.fscanPath];
    assert p[2..6] == [" -h ", target, " -t ", NatToString(threads)];
    assert p[6..] == [" -fingerprint -log ALL -nopoc -nobr -f json -o ", r.logFilePath];
    ConcatTwo("sudo -n ", svc.fscanPath);
    ConcatFour(" -h ", target, " -t ", NatToString(threads));
    ConcatTwo(" -fingerprint -log ALL -nopoc -nobr -f json -o ", r.logFilePath);
  }

  /** With the thread count left out, fscan runs with 200 threads. */
  lemma FscanDefaults(svc: ScannerService, target: string, uuid: string)
    ensures IsInfix(" -h " + target + " -t 200", svc.RunFscanScan(target, uuid).command)
  {
    TwoHundred();
    assert " -h " + target + " -t " + NatToString(200) == " -h " + target + " -t 200";
    FscanCommandShape(svc, target, uuid, 200);
  }

  /** `String(200)`. */
  lemma TwoHundred()
    ensures NatToString(200) == "200"
  {
    assert NatToString(2) == "2";
    assert NatToString(20) == "2" + "0";
  }

  /** `runFscanScan` logs exactly the command line it records. */
  lemma FscanLogShowsCommand(svc: ScannerService, target: string, uuid: string, threads: nat)
    ensures svc.FscanLogMessage(target, uuid, threads)
         == "executing fscan scan: " + target + ", command: " + svc.RunFscanScan(target, uuid, threads).command
  {
    var r := svc.RunFscanScan(target, uuid, threads);
    var c := svc.FscanCommand(target, threads, r.logFilePath);
    var l := ["executing fscan scan: ", target, ", command: sudo -n "] + c[1..];
    assert c[1..] == [svc.fscanPath, " -h ", target, " -t ", NatToString(threads),
                      " -fingerprint -log ALL -nopoc -nobr -f json -o ", r.logFilePath];
    assert l == ["executing fscan scan: ", target, ", command: sudo -n ", svc.fscanPath, " -h ", target,
                 " -t ", NatToString(threads), " -fingerprint -log ALL -nopoc -nobr -f json -o ", r.logFilePath];
    ConcatSplit(l, 3);
    assert l[..3] == ["executing fscan scan: ", target, ", command: sudo -n "] && l[3..] == c[1..];
    ConcatThree("executing fscan scan: ", target, ", command: sudo -n ");
    assert Concat(c) == "sudo -n " + Concat(c[1..]);
    assert ", command: sudo -n " == ", command: " + "sudo -n ";
  }

  /** The nmap command runs the resolved nmap binary under `sudo -n` against the
      target, with the host timeout in seconds, OS detection and a SYN scan of the
      port spec at the requested timing template, and writes XML to its log file. */
  lemma NmapCommandShape(
    svc: ScannerService, target: string, uuid: string, timeout: nat, ports: seq<nat>, speed: NmapScanSpeed)
    ensures var r := svc.RunNmapScan(target, uuid, timeout, ports, speed);
      && IsPrefix("sudo -n " + svc.nmapPath + " -n " + target, r.command)
      && IsInfix(" --host-timeout " + NatToString(timeout) + "s -O --osscan-guess -sS -p " + PortSpec(ports),
                 r.command)
      && IsSuffix(" -T" + speed.Value() + " -oX " + r.logFilePath, r.command)
  {
    var r := svc.RunNmapScan(target, uuid, timeout, ports, speed);
    var p := svc.NmapCommand(target, timeout, PortSpec(ports), speed, r.logFilePath);
    ConcatParts(p, 4, 8);
    assert p[..4] == ["sudo -n ", svc.nmapPath, " -n ", target];
    assert p[4..8] == [" --host-timeout ", NatToString(timeout), "s -O --osscan-guess -sS -p ", PortSpec(ports)];
    assert p[8..] == [" -T", speed.Value(), " -oX ", r.logFilePath];
    ConcatFour("sudo -n ", svc.nmapPath, " -n ", target);
    ConcatFour(" --host-timeout ", NatToString(timeout), "s -O --osscan-guess -sS -p ", PortSpec(ports));
    ConcatFour(" -T", speed.Value(), " -oX ", r.logFilePath);
  }

  /** With the optional arguments left out, nmap gives up on a host after 90 seconds,
      scans every port from 1 to 65535, and uses timing template 4 (aggressive). */
  lemma NmapDefaults(svc: ScannerService, target: string, uuid: string)
    ensures var r := svc.RunNmapScan(target, uuid);
      && IsInfix(" --host-timeout " + "90" + "s -O --osscan-guess -sS -p " + "1-65535", r.command)
      && IsSuffix(" -T4 -oX " + r.logFilePath, r.command)
  {
    var r := svc.RunNmapScan(target, uuid);
    assert NatToString(90) == "90" by {
      assert NatToString(9) == "9";
    }
    assert PortSpec([]) == "1-65535";
    assert Aggressive.Value() == "4";
    NmapCommandShape(svc, target, uuid, 90, [], Aggressive);
    assert " -T" + Aggressive.Value() + " -oX " + r.logFilePath == " -T4 -oX " + r.logFilePath;
  }

  /** `runNmapScan` logs exactly the command line it records. */
  lemma NmapLogShowsCommand(
    svc: ScannerService, target: string, uuid: string, timeout: nat, ports: seq<nat>, speed: NmapScanSpeed)
    ensures svc.NmapLogMessage(target, uuid, timeout, ports, speed)
         == "executing nmap scan: " + target + ", command: " + svc.RunNmapScan(target, uuid, timeout, ports, speed).command
  {
    var r := svc.RunNmapScan(target, uuid, timeout, ports, speed);
    var c := svc.NmapCommand(target, timeout, PortSpec(ports), speed, r.logFilePath);
    var l := ["executing nmap scan: ", target, ", command: sudo -n "] + c[1..];
    assert c[1..] == [svc.nmapPath, " -n ", target, " --host-timeout ", NatToString(timeout),
                      "s -O --osscan-guess -sS -p ", PortSpec(ports), " -T", speed.Value(), " -oX ", r.logFilePath];
    assert l == ["executing nmap scan: ", target, ", command: sudo -n ", svc.nmapPath, " -n ", target,
                 " --host-timeout ", NatToString(timeout), "s -O --osscan-guess -sS -p ", PortSpec(ports),
                 " -T", speed.Value(), " -oX ", r.logFilePath];
    ConcatSplit(l, 3);
    assert l[..3] == ["executing nmap scan: ", target, ", command: sudo -n "] && l[3..] == c[1..];
    ConcatThree("executing nmap scan: ", target, ", command: sudo -n ");
    assert Concat(c) == "sudo -n " + Concat(c[1..]);
    assert ", command: sudo -n " == ", command: " + "sudo -n ";
  }

  /** `runDIYCommand` logs the caller's command and its log file. */
  lemma DiyLogShowsCommand(svc: ScannerService, command: string, uuid: string)
    ensures svc.DiyLogMessage(command, uuid)
         == "executing diy command: " + command + ", log file: " + svc.RunDiyCommand(command, uuid).logFilePath
  {
    ConcatFour("executing diy command: ", command, ", log file: ", "./log/diy_" + uuid + ".log");
  }

  /** The shell line of a DIY task runs the caller's command under `sudo -n bash -c` and
      sends both output streams to the DIY log file; the command itself is kept
      verbatim between the two fixed parts. */
  lemma DiyShellLineShape(command: string, uuid: string)
    ensures var line := DiyShellLine(command, LogFileName(Diy, uuid));
      && IsPrefix("sudo -n bash -c " + command, line)
      && IsSuffix(" > " + LogFileName(Diy, uuid) + " 2>&1", line)
      && |line| == |"sudo -n bash -c "| + |command| + |" > "| + |LogFileName(Diy, uuid)| + |" 2>&1"|
  {
    var head, log := "sudo -n bash -c " + command, LogFileName(Diy, uuid);
    var tail := " > " + log + " 2>&1";
    assert DiyShellLine(command, log) == head + tail;
  }
}
