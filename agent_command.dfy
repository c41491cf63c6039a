/** The argument vector handed to the agent (app.py:67-78). */
module AgentCommand {
  import opened Wrappers
  import TlsFlag

  const Binary := "./nezha-agent"
  const ServerFlag := "-s"
  const PasswordFlag := "-p"
  const UuidFlag := "--uuid"
  const TlsSwitch := "--tls"
  const NoAutoUpdate := "--disable-auto-update"

  /** What the command line carries: the TLS setting already decided. */
  datatype LaunchArgs = LaunchArgs(server: string, password: string, uuid: string, tls: bool)

  /** The configuration as the agent receives it. */
  function ArgsOf(server: string, password: string, uuid: string, tlsSetting: string): LaunchArgs {
    LaunchArgs(server, password, uuid, TlsFlag.TlsEnabled(tlsSetting))
  }

  function Base(a: LaunchArgs): seq<string> {
    [Binary, ServerFlag, a.server, PasswordFlag, a.password]
  }

  function UuidPart(a: LaunchArgs): seq<string> {
    if a.uuid != "" then [UuidFlag, a.uuid] else []
  }

  function TlsPart(a: LaunchArgs): seq<string> {
    if a.tls then [TlsSwitch] else []
  }

  /** The command line for `a`: base tokens, optional identity pair, optional
      TLS switch, and the auto-update switch last. */
  function Render(a: LaunchArgs): seq<string> {
    Base(a) + UuidPart(a) + TlsPart(a) + [NoAutoUpdate]
  }

  /** Reads a command line of the shape `Render` produces back into its
      arguments; any other vector is refused. */
  function Parse(cmd: seq<string>): Option<LaunchArgs> {
    if |cmd| < 6 || cmd[0] != Binary || cmd[1] != ServerFlag || cmd[3] != PasswordFlag then None
    else
      var hasUuid := cmd[5] == UuidFlag;
      if hasUuid && (|cmd| < 8 || cmd[6] == "") then None
      else
        var uuid := if hasUuid then cmd[6] else "";
        var rest := if hasUuid then cmd[7..] else cmd[5..];
        if rest == [NoAutoUpdate] then Some(LaunchArgs(cmd[2], cmd[4], uuid, false))
        else if rest == [TlsSwitch, NoAutoUpdate] then Some(LaunchArgs(cmd[2], cmd[4], uuid, true))
        else None
  }

  /** Every argument set survives the trip through the command line. */
  lemma ParseRender(a: LaunchArgs)
    ensures Parse(Render(a)) == Some(a)
  {
  }

  /** Conversely, every vector the parser accepts is the rendering of what it
      reads, so `Render` and `Parse` are inverse on well-formed commands. */
  lemma RenderParse(cmd: seq<string>)
    requires Parse(cmd).Some?
    ensures Render(Parse(cmd).value) == cmd
  {
  }

  /** The layout rules: the five base tokens first and in order; the identity
      pair right after them exactly when an identity is set; the TLS switch
      right after that exactly when TLS is on; the auto-update switch last;
      and nothing else. */
  lemma RenderShape(a: LaunchArgs)
    ensures var cmd := Render(a);
      var u := if a.uuid != "" then 2 else 0;
      |cmd| == 6 + u + (if a.tls then 1 else 0) &&
      cmd[..5] == [Binary, ServerFlag, a.server, PasswordFlag, a.password] &&
      (a.uuid != "" <==> cmd[5] == UuidFlag) &&
      (a.uuid != "" ==> cmd[6] == a.uuid) &&
      (a.tls <==> cmd[5 + u] == TlsSwitch) &&
      cmd[|cmd| - 1] == NoAutoUpdate
  {
  }

  /** Distinct argument sets give distinct command lines. */
  lemma RenderInjective(a: LaunchArgs, b: LaunchArgs)
    requires Render(a) == Render(b)
    ensures a == b
  {
    ParseRender(a);
    ParseRender(b);
  }

  /** Builds the command as the source does: a list of the base tokens,
      extended with the identity pair, then the TLS switch, then the
      auto-update switch. */
  method BuildCommand(server: string, password: string, uuid: string, tlsSetting: string)
    returns (cmd: seq<string>)
    ensures cmd == Render(ArgsOf(server, password, uuid, tlsSetting))
  {
    cmd := [Binary, ServerFlag, server, PasswordFlag, password];
    if uuid != "" {
      cmd := cmd + [UuidFlag, uuid];
    }
    if TlsFlag.TlsEnabled(tlsSetting) {
      cmd := cmd + [TlsSwitch];
    }
    cmd := cmd + [NoAutoUpdate];
  }
}
