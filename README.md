# Nezha agent launcher: the decision layer

`app.py` is a Streamlit page that installs and starts the Nezha monitoring
agent. When the page loads, it checks that a panel server and a password are
configured. It downloads and unpacks the agent binary if the binary is
missing, and looks for a running agent in the `ps -ef` listing. If none is
running, it builds the agent's command line, spawns it, waits, and checks
again.

This project models the deterministic part of that page. Everything the page
learns from the operating system and the network is an input:

- whether the binary exists;
- the download's HTTP status, or the exception it raised;
- whether extraction and `chmod` went through;
- whether opening the log file and the spawn raised;
- the `ps -ef` output before and after the spawn.

Modules:

- `AsciiText`: ASCII lowercasing (`str.lower()` restricted to ASCII) and
  substring search (`needle in haystack`), the latter proved equal to "occurs
  at some offset".
- `TlsFlag`: the TLS switch, `NEZHA_TLS.lower() in ["true", "1", "yes", "on"]`,
  proved equal to "one of the four words with any letter in either case".
- `Redaction`: the shown identity `uuid[:4] + "..." + uuid[-4:]`, with
  Python's slice-bound normalisation written out.
- `AgentCommand`: the argument vector. `Render` is its specification,
  `BuildCommand` builds it step by step in the source's order, and `Parse`
  is the inverse of `Render`. They are proved to round-trip in both
  directions.
- `Lifecycle`: `get_agent_status`, `install_agent`, `run_agent` and the entry
  gate, as functions over a `World` of observations. A run yields an
  `Outcome` and the ordered trace of `Effect`s: download request, unpack,
  process scans and agent launches. Spawn and download counts are read off
  that trace.

The comment at app.py:90 says the display hides part of the identity. It
hides nothing for identities of at most 8 characters: `RedactRevealsShort`
proves that the shown form determines such an identity once its length is
known. From 9 characters on, only the two four-character ends are shown.

The outcomes are: missing configuration, install failed (non-200 status or
an exception), already running, started, start failed, and launch raised.
The source reports "launch raised" (app.py:99-100) with its own message, so
the model keeps it apart from "start failed".

## Model

| member | source | states |
|---|---|---|
| `AsciiText.Lower` | app.py:74 | lowercasing keeps the length and lowercases each ASCII capital in place, leaving every other character as it is |
| `AsciiText.ContainsIff` | app.py:31 | the left-to-right scan behind `in` answers true exactly when the needle occurs at some offset of the haystack |
| `AsciiText.ContainsInContext` | app.py:31 | an occurrence is found whatever text surrounds it |
| `TlsFlag.TlsEnabledIff` | app.py:74 | TLS is on exactly when the setting spells `true`, `1`, `yes` or `on` with each letter in either case; every other string turns it off |
| `TlsFlag.TlsIgnoresCase` | app.py:74 | lowercasing the setting first never changes the decision |
| `TlsFlag.TlsExamples` | app.py:74-75 | `TRUE`, `On`, `1`, `Yes` enable TLS; `false`, the empty string, `0` and ` true` do not |
| `Redaction.SliceEnds` | app.py:92 | under Python slice rules, `s[:k]` is the first `min(k, len)` characters and `s[-k:]` the last `min(k, len)` for every `k > 0`, while `s[-0:]` is the whole string |
| `Redaction.RedactShape` | app.py:92 | the shown identity is the first and the last `min(4, len)` characters joined by `...`, of length `2*min(4, len) + 3` |
| `Redaction.RedactLong` | app.py:92 | for identities of 8 or more characters the shown form is `uuid[0..4] + "..." + uuid[len-4..]` |
| `Redaction.RedactShortExposes` | app.py:92 | an identity of at most 4 characters is shown in full, on both sides of `...` |
| `Redaction.RedactRevealsShort` | app.py:90-92 | two identities of equal length at most 8 that are shown alike are equal: for such identities the shown form gives the whole value away |
| `Redaction.RedactHidesMiddle` | app.py:90-92 | identities of 8 or more characters that agree on the first and last four characters are shown identically, so nothing between them is revealed |
| `Redaction.RedactExample` | app.py:92 | `abcd1234efgh` is shown as `abcd...efgh` |
| `AgentCommand.BuildCommand` | app.py:67-78 | appending the base list, the identity pair, the TLS switch and `--disable-auto-update` in turn yields exactly the rendered command for the configuration |
| `AgentCommand.RenderShape` | app.py:67-78 | the command starts with `./nezha-agent -s server -p password` in order; `--uuid uuid` follows directly if and only if the identity is non-empty; `--tls` follows if and only if TLS is on; `--disable-auto-update` is last; the length is 6 + 2 for the identity + 1 for TLS |
| `AgentCommand.ParseRender` | app.py:67-78 | reading a rendered command back gives the arguments it was rendered from |
| `AgentCommand.RenderParse` | app.py:67-78 | every vector the reader accepts is the rendering of the arguments it reads |
| `AgentCommand.RenderInjective` | app.py:67-78 | different arguments never produce the same command |
| `Lifecycle.AgentRunningIff` | app.py:27-35 | the agent counts as running exactly when `ps` ran without raising and `nezha-agent` occurs in its output; a `ps` that raised means not running. A non-zero exit status raises nothing, so that output is searched as well |
| `Lifecycle.AgentDetectedAnywhere` | app.py:31 | a listing that contains `nezha-agent` anywhere counts as running, whatever the other lines are |
| `Lifecycle.ShortListingNotRunning` | app.py:31 | a listing shorter than `nezha-agent` never counts as running |
| `Lifecycle.InstallSucceedsIff` | app.py:37-56 | install succeeds exactly when the binary is present, or the download answered 200 and unpacking raised nothing |
| `Lifecycle.InstallErrors` | app.py:45-55 | a non-200 answer fails with its status; a request or unpack exception fails as an exception |
| `Lifecycle.InstallDownloads` | app.py:38-44 | a present binary means no download request; an absent one means exactly one |
| `Lifecycle.PageDownloads` | app.py:37-44 | a page load requests the download once when the gate passes and the binary is absent, and never otherwise |
| `Lifecycle.OutcomeCases` | app.py:37-107 | the reported outcome for every observation: missing configuration when the server or password is empty; otherwise install failed with its error; otherwise already running when the first scan finds the agent; otherwise launch raised when opening the log or `Popen` raised; otherwise started or start failed by the second scan |
| `Lifecycle.GateIff` | app.py:103-107 | the outcome is "missing configuration" exactly when the server or the password is empty, and then no effect happens |
| `Lifecycle.RunReachedOnlyAfterInstall` | app.py:105-107 | a process check happens only when the gate passed and install succeeded |
| `Lifecycle.AlreadyRunningNoSpawn` | app.py:58-61 | with the agent already running, the outcome is "already running" and nothing is spawned |
| `Lifecycle.SpawnCount` | app.py:58-83 | a page load spawns at most one agent. It spawns one exactly when the gate passed, install succeeded, the first check found no agent and the spawn did not raise |
| `Lifecycle.LaunchesRenderedCommand` | app.py:67-83 | every launch uses the command rendered from the configuration |
| `Lifecycle.OutcomeAfterSpawn` | app.py:85-94 | after a spawn, the second check alone decides between "started" and "start failed". "Started" shows the server, and shows the redacted identity only when one is set |
| `Lifecycle.ReloadAfterStart` | app.py:37-39 | reloading after a successful start, with the binary present and the agent still listed, gives "already running" with no download and no spawn |
| `Lifecycle.FirstRunCommand` | app.py:67-78 | the configuration `panel.example.com:443`, `S3cr3t`, no identity, TLS `true` gives `./nezha-agent -s panel.example.com:443 -p S3cr3t --tls --disable-auto-update` |
| `Lifecycle.FirstRunScenario` | app.py:37-94 | a first run with default TLS `true` and no identity downloads, unpacks, checks, launches `./nezha-agent -s panel.example.com:443 -p S3cr3t --tls --disable-auto-update`, checks again and reports "started" |

## Left out

- Streamlit page setup, messages, rendering and the footer (app.py:9-11, 40, 49, 51, 54, 60, 63, 88-98, 100, 104, 110-111): presentation only. The model keeps the values the messages show: the HTTP status, the server and the redacted identity.
- Reading `st.secrets` (app.py:15-24): the four values are parameters of type string. Their defaults, `""` and `"true"` for TLS, are not modelled. A non-string secret (say a TOML boolean for `NEZHA_TLS`) would make `.lower()` raise outside any handler. The string-typed model cannot express that case.
- The HTTP request, zip extraction and `chmod` (app.py:43-48): these are network and filesystem effects. They become the `Download` observation. The model does not track that a failed `chmod` or a zip without `nezha-agent` leaves the binary absent or not executable. Such a case shows up later as a `SpawnRaised` observation.
- `subprocess.Popen`, the log file and `time.sleep(2)` (app.py:80-98): process spawning, file I/O and timing. They are reduced to the `Spawn` observation and the second `ps` listing. The log content shown on failure is not modelled.
- `AsciiText.Lower`: does not model Python's full Unicode `str.lower()`, only ASCII capitals.
- The double spawn when two page loads pass the first check at the same time: this is concurrency, which a sequential model cannot express.
- Reading `agent.log` after a failed start (app.py:96-98): if that read raises, the handler at app.py:99-100 also reports a launch exception, after "start failed" is already on the page. The model reports `StartFailed` alone.
- How `ps -ef` lists processes, for example whether a defunct `[nezha-agent]` entry still matches the substring test: the listing is an input.
