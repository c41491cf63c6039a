/** The page's decision layer (app.py:27-61, 80-107) over abstract
    observations of the operating system and the network: whether the agent
    binary exists, what the download returned, what `ps -ef` printed before
    and after the spawn, and whether the spawn raised. The model answers which
    outcome the page reaches and which effects it performs, in order. */
module Lifecycle {
  import opened Wrappers
  import opened AsciiText
  import AgentCommand
  import Redaction
  import TlsFlag

  /** The substring `ps -ef` output is searched for. */
  const ProcessMarker := "nezha-agent"
  /** The only HTTP status accepted for the release download. */
  const HttpOk := 200

  /** The four configuration values, as strings. */
  datatype Config = Config(server: string, password: string, uuid: string, tls: string)

  /** What `subprocess.run(["ps", "-ef"], ...)` gave: an exception, or the
      standard output of a `ps` that ran without raising (whatever its exit
      status, which the source does not check). */
  datatype PsScan = PsRaised | PsListing(stdout: string)

  /** What the download gave: an exception from `requests.get`, or a response
      with its status and whether extraction and `chmod` went through without
      an exception. */
  datatype Download = RequestRaised | Response(status: int, unpackOk: bool)

  /** Whether opening the log and `subprocess.Popen` raised. */
  datatype Spawn = SpawnRaised | SpawnReturned

  /** Everything the page observes in one run. */
  datatype World = World(binaryPresent: bool, download: Download, psBefore: PsScan, spawn: Spawn, psAfter: PsScan)

  /** The externally visible actions, in the order they happen. */
  datatype Effect = HttpGet | Unpack | ScanProcesses | Launch(argv: seq<string>)

  /** Why install failed: a non-200 status, or an exception from the request,
      the extraction or `chmod`. */
  datatype InstallError = BadStatus(status: int) | InstallRaised

  /** The terminal outcomes of one page run. `Started` carries what is shown:
      the server and, when an identity is set, its redacted form. */
  datatype Outcome =
    | MissingConfig
    | InstallFailed(error: InstallError)
    | AlreadyRunning
    | Started(server: string, shownUuid: Option<string>)
    | StartFailed
    | LaunchRaised

  datatype Run = Run(outcome: Outcome, effects: seq<Effect>)

  /** `get_agent_status`: running exactly when the listing contains the marker;
      a `ps` that raised counts as not running. */
  function AgentRunning(scan: PsScan): bool {
    match scan
    case PsRaised => false
    case PsListing(out) => Contains(out, ProcessMarker)
  }

  /** `install_agent`: `None` on success, the error otherwise, with the effects
      it performed. */
  function Install(binaryPresent: bool, download: Download): (Option<InstallError>, seq<Effect>) {
    if binaryPresent then (None, [])
    else match download
      case RequestRaised => (Some(InstallRaised), [HttpGet])
      case Response(status, unpackOk) =>
        if status != HttpOk then (Some(BadStatus(status)), [HttpGet])
        else if !unpackOk then (Some(InstallRaised), [HttpGet, Unpack])
        else (None, [HttpGet, Unpack])
  }

  /** The identity as shown after a successful start. */
  function ShownUuid(uuid: string): Option<string> {
    if uuid != "" then Some(Redaction.Redact(uuid)) else None
  }

  /** `run_agent`: check, build the command, spawn, wait, check again. */
  function RunAgent(cfg: Config, w: World): Run {
    if AgentRunning(w.psBefore) then Run(AlreadyRunning, [ScanProcesses])
    else
      var argv := AgentCommand.Render(AgentCommand.ArgsOf(cfg.server, cfg.password, cfg.uuid, cfg.tls));
      match w.spawn
      case SpawnRaised => Run(LaunchRaised, [ScanProcesses])
      case SpawnReturned =>
        var effects := [ScanProcesses, Launch(argv), ScanProcesses];
        if AgentRunning(w.psAfter) then Run(Started(cfg.server, ShownUuid(cfg.uuid)), effects)
        else Run(StartFailed, effects)
  }

  /** The entry gate: both server and password must be non-empty. */
  predicate HasRequiredConfig(cfg: Config) {
    cfg.server != "" && cfg.password != ""
  }

  /** One page load, from the gate to a terminal outcome. */
  function Page(cfg: Config, w: World): Run {
    if !HasRequiredConfig(cfg) then Run(MissingConfig, [])
    else
      var (err, installEffects) := Install(w.binaryPresent, w.download);
      if err.Some? then Run(InstallFailed(err.value), installEffects)
      else
        var run := RunAgent(cfg, w);
        Run(run.outcome, installEffects + run.effects)
  }

  /** How many agent processes a run of effects starts. */
  function Spawns(effects: seq<Effect>): nat {
    if effects == [] then 0
    else (if effects[0].Launch? then 1 else 0) + Spawns(effects[1..])
  }

  /** How many download requests a run of effects makes. */
  function Downloads(effects: seq<Effect>): nat {
    if effects == [] then 0
    else (if effects[0] == HttpGet then 1 else 0) + Downloads(effects[1..])
  }

  lemma {:induction false} SpawnsAppend(a: seq<Effect>, b: seq<Effect>)
    ensures Spawns(a + b) == Spawns(a) + Spawns(b)
  {
    if a != [] {
      assert (a + b)[1..] == a[1..] + b;
      SpawnsAppend(a[1..], b);
    } else {
      assert a + b == b;
    }
  }

  lemma {:induction false} DownloadsAppend(a: seq<Effect>, b: seq<Effect>)
    ensures Downloads(a + b) == Downloads(a) + Downloads(b)
  {
    if a != [] {
      assert (a + b)[1..] == a[1..] + b;
      DownloadsAppend(a[1..], b);
    } else {
      assert a + b == b;
    }
  }

  // ---- get_agent_status ----

  /** Running exactly when `ps` ran without raising and the marker occurs
      somewhere in its output. */
  lemma AgentRunningIff(scan: PsScan)
    ensures AgentRunning(scan) <==> scan.PsListing? && OccursIn(ProcessMarker, scan.stdout)
  {
    if scan.PsListing? {
      ContainsIff(scan.stdout, ProcessMarker);
    }
  }

  /** A listing that has a line mentioning the agent is detected, whatever
      the other lines hold. */
  lemma AgentDetectedAnywhere(before: string, after: string)
    ensures AgentRunning(PsListing(before + ProcessMarker + after))
  {
    ContainsInContext(before, ProcessMarker, after);
  }

  /** A listing shorter than the marker can never show the agent. */
  lemma ShortListingNotRunning(out: string)
    requires |out| < |ProcessMarker|
    ensures !AgentRunning(PsListing(out))
  {
  }

  // ---- install_agent ----

  /** Install succeeds exactly when the binary is present, or the download
      answered 200 and unpacking went through. */
  lemma InstallSucceedsIff(binaryPresent: bool, download: Download)
    ensures Install(binaryPresent, download).0.None? <==>
      binaryPresent || (download.Response? && download.status == HttpOk && download.unpackOk)
  {
  }

  /** On failure the error names the cause: the status of a non-200 answer,
      otherwise the exception. */
  lemma InstallErrors(download: Download)
    ensures download.RequestRaised? ==> Install(false, download).0 == Some(InstallRaised)
    ensures download.Response? && download.status != HttpOk ==>
      Install(false, download).0 == Some(BadStatus(download.status))
    ensures download.Response? && download.status == HttpOk && !download.unpackOk ==>
      Install(false, download).0 == Some(InstallRaised)
  {
  }

  /** A present binary means no network request at all; an absent one means
      exactly one. */
  lemma InstallDownloads(binaryPresent: bool, download: Download)
    ensures Downloads(Install(binaryPresent, download).1) == if binaryPresent then 0 else 1
  {
  }

  // ---- the page as a whole ----

  /** A whole page load requests the download once when the gate passes and
      the binary is absent, and never otherwise. */
  lemma PageDownloads(cfg: Config, w: World)
    ensures Downloads(Page(cfg, w).effects) == if HasRequiredConfig(cfg) && !w.binaryPresent then 1 else 0
  {
    var (err, installEffects) := Install(w.binaryPresent, w.download);
    assert Downloads(installEffects) == if w.binaryPresent then 0 else 1 by {
      assert Downloads([Unpack]) == 0;
    }
    if HasRequiredConfig(cfg) && err.None? {
      var run := RunAgent(cfg, w);
      DownloadsAppend(installEffects, run.effects);
      assert Downloads([ScanProcesses]) == 0;
      assert Downloads(run.effects) == 0 by {
        if run.effects != [ScanProcesses] {
          var argv := AgentCommand.Render(AgentCommand.ArgsOf(cfg.server, cfg.password, cfg.uuid, cfg.tls));
          assert run.effects == [ScanProcesses, Launch(argv), ScanProcesses];
          assert Downloads(run.effects) == Downloads([Launch(argv), ScanProcesses]);
        }
      }
    }
  }

  /** Which outcome a page load reports, for every combination of
      observations: the checks are made in the source's order and the first
      one that decides stops the run. */
  lemma OutcomeCases(cfg: Config, w: World)
    ensures var err := Install(w.binaryPresent, w.download).0;
      Page(cfg, w).outcome ==
        if !HasRequiredConfig(cfg) then MissingConfig
        else if err.Some? then InstallFailed(err.value)
        else if AgentRunning(w.psBefore) then AlreadyRunning
        else if w.spawn == SpawnRaised then LaunchRaised
        else if AgentRunning(w.psAfter) then Started(cfg.server, ShownUuid(cfg.uuid))
        else StartFailed
  {
  }

  /** The gate: a missing server or password is reported before anything
      happens, and only then. */
  lemma GateIff(cfg: Config, w: World)
    ensures Page(cfg, w).outcome == MissingConfig <==> !HasRequiredConfig(cfg)
    ensures !HasRequiredConfig(cfg) ==> Page(cfg, w).effects == []
  {
  }

  /** The process check of `run_agent` happens only after the gate passed and
      install succeeded. */
  lemma RunReachedOnlyAfterInstall(cfg: Config, w: World)
    requires ScanProcesses in Page(cfg, w).effects
    ensures HasRequiredConfig(cfg)
    ensures Install(w.binaryPresent, w.download).0.None?
  {
  }

  /** An agent already running means no spawn, and the outcome says so. */
  lemma AlreadyRunningNoSpawn(cfg: Config, w: World)
    requires HasRequiredConfig(cfg) && Install(w.binaryPresent, w.download).0.None?
    requires AgentRunning(w.psBefore)
    ensures Page(cfg, w).outcome == AlreadyRunning
    ensures Spawns(Page(cfg, w).effects) == 0
  {
    SpawnsAppend(Install(w.binaryPresent, w.download).1, [ScanProcesses]);
  }

  /** At most one agent is spawned per page load, and one is exactly when the
      gate passed, install succeeded, the first check found no agent and the
      spawn did not raise. */
  lemma SpawnCount(cfg: Config, w: World)
    ensures Spawns(Page(cfg, w).effects) <= 1
    ensures Spawns(Page(cfg, w).effects) == 1 <==>
      HasRequiredConfig(cfg) && Install(w.binaryPresent, w.download).0.None? &&
      !AgentRunning(w.psBefore) && w.spawn == SpawnReturned
  {
    var (err, installEffects) := Install(w.binaryPresent, w.download);
    assert Spawns(installEffects) == 0 by {
      assert Spawns([Unpack]) == 0;
    }
    if HasRequiredConfig(cfg) && err.None? {
      var run := RunAgent(cfg, w);
      SpawnsAppend(installEffects, run.effects);
      assert Spawns([ScanProcesses]) == 0;
      if run.effects != [ScanProcesses] {
        assert Spawns(run.effects) == 1 + Spawns([ScanProcesses]);
      }
    }
  }

  /** Whatever is spawned is the command the builder renders from the
      configuration. */
  lemma LaunchesRenderedCommand(cfg: Config, w: World, e: Effect)
    requires e in Page(cfg, w).effects && e.Launch?
    ensures e.argv == AgentCommand.Render(AgentCommand.ArgsOf(cfg.server, cfg.password, cfg.uuid, cfg.tls))
  {
  }

  /** The outcome after a spawn is decided by the second check alone; a
      success shows the server and the redacted identity. */
  lemma OutcomeAfterSpawn(cfg: Config, w: World)
    requires HasRequiredConfig(cfg) && Install(w.binaryPresent, w.download).0.None?
    requires !AgentRunning(w.psBefore) && w.spawn == SpawnReturned
    ensures AgentRunning(w.psAfter) ==>
      Page(cfg, w).outcome == Started(cfg.server, ShownUuid(cfg.uuid))
    ensures !AgentRunning(w.psAfter) ==> Page(cfg, w).outcome == StartFailed
  {
  }

  /** A run that started the agent, reloaded while the binary is there and the
      listing still shows it, reports "already running" with no download and
      no spawn. */
  lemma ReloadAfterStart(cfg: Config, w: World, w': World)
    requires Page(cfg, w).outcome.Started?
    requires w'.binaryPresent && w'.psBefore == w.psAfter
    ensures Page(cfg, w').outcome == AlreadyRunning
    ensures Spawns(Page(cfg, w').effects) == 0 && Downloads(Page(cfg, w').effects) == 0
  {
  }

  /** The command the first-run scenario launches: TLS `true`, no identity. */
  lemma FirstRunCommand()
    ensures AgentCommand.Render(AgentCommand.ArgsOf("panel.example.com:443", "S3cr3t", "", "true")) ==
      ["./nezha-agent", "-s", "panel.example.com:443", "-p", "S3cr3t", "--tls", "--disable-auto-update"]
  {
    LowerFixesLowercase("true");
    assert TlsFlag.TlsEnabled("true");
  }

  /** The first-run scenario: binary absent, download fine, no agent yet, and
      the agent visible after the settle delay. */
  lemma FirstRunScenario()
    ensures var cfg := Config("panel.example.com:443", "S3cr3t", "", "true");
      var w := World(false, Response(200, true), PsListing("PID CMD"), SpawnReturned,
                     PsListing("7 ./nezha-agent -s"));
      Page(cfg, w) == Run(Started("panel.example.com:443", None),
        [HttpGet, Unpack, ScanProcesses,
         Launch(["./nezha-agent", "-s", "panel.example.com:443", "-p", "S3cr3t", "--tls", "--disable-auto-update"]),
         ScanProcesses])
  {
    var cfg := Config("panel.example.com:443", "S3cr3t", "", "true");
    assert "7 ./nezha-agent -s" == "7 ./" + ProcessMarker + " -s";
    AgentDetectedAnywhere("7 ./", " -s");
    ShortListingNotRunning("PID CMD");
    FirstRunCommand();
    var w := World(false, Response(200, true), PsListing("PID CMD"), SpawnReturned,
                   PsListing("7 ./nezha-agent -s"));
    assert Install(w.binaryPresent, w.download) == (None, [HttpGet, Unpack]);
  }
}
