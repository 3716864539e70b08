# Minecraft server builder — verified model of its deterministic rules

The builder provisions a Minecraft server in one of two flows, chosen at an
interactive prompt. The vanilla flow looks up the latest release in Mojang's
version manifest, downloads `server.jar` into `servers/<version>`, runs it once
so that it writes `eula.txt`, flips `eula=false` to `eula=true`, and writes
`start_server.bat`. The Forge flow also takes the last entry of the tag
list Forge's repository API returns, normalises it to three segments, downloads the Forge installer
from a URL built from both versions, runs it in `servers/forge-<version>`,
renames the shim jar it leaves to `server.jar`, and then does the same EULA
and script steps.

Everything around these steps is downloads, a `java` subprocess and file
operations. This project models the parts that are pure rules, in Dafny:

- `Wrappers` — `Option` and `Result`.
- `Strings` — the Python string operations the rules use: `lstrip` of one
  character, `split` on one character (with `join` as its inverse),
  `replace`, and `format` over a template already cut into text and
  positional fields.
- `ServerConfig` — the heap bounds from `config/config.json`, or the
  built-in default.
- `VersionResolver` — the latest release from a decoded manifest (a method
  with a loop, like the source's `for` loop), Forge tag normalisation, and the
  latest Forge version from a decoded tag list.
- `ForgeInstaller` — the installer URL, and the rename of the shim jar.
- `License` — the EULA rewrite.
- `LaunchScript` — the first-run `java` command and the start script text.
- `Layout` — directory and file names, with a path as a list of components.
- `Selector` — the dispatch on the answer to the prompt.

Two behaviours of the code are easy to misread, and the model keeps both:

- `lstrip("v")` removes every leading `v`, not just one, so `"vv51.0"`
  becomes `"51.0.0"` (`VersionResolver.FormatTagNameStripsAllVs`).
- The EULA rewrite is not idempotent in general. Re-running it changes
  nothing on text without `eula=false` (`License.AcceptEulaNoOp`), and
  nothing on `"eula=false"` itself. But `"eula=falseula=false"` becomes
  `"eula=trueula=false"`, and a second run changes that again
  (`License.AcceptEulaNotIdempotent`).

## Model

| member | source | states |
|---|---|---|
| `ServerConfig.LoadConfig` | lib/server_builder.py:24-29 | a configuration file that is present is used as decoded; without one, both heap bounds are "1024M" |
| `VersionResolver.GetLatestVersionUrl` | lib/server_builder.py:35-43 | succeeds exactly when some entry's id equals `latest.release`; then it returns that id and the url of the FIRST such entry, so later duplicates are ignored; otherwise it fails with ValueError("Failed to get latest version.") and no fallback entry |
| `Strings.LStrip` | lib/server_builder.py:108 | the result is a suffix of the input, everything removed was the stripped character, and the result does not start with it (all leading copies go, not one) |
| `Strings.Split` | lib/server_builder.py:109 | there is always one more piece than separators, and no piece contains the separator |
| `Strings.JoinSplit` | lib/server_builder.py:109 | joining the pieces of a split with the separator gives back the original text |
| `VersionResolver.FormatTagName` | lib/server_builder.py:107-111 | a normalised tag never starts with 'v' and never has exactly two dot-separated segments |
| `VersionResolver.FormatTagNameShape` | lib/server_builder.py:108-111 | after the leading run of 'v's, the result is the rest of the tag, followed by ".0" exactly when that rest has a single '.'; otherwise it is the rest unchanged |
| `VersionResolver.FormatTagNameIdempotent` | lib/server_builder.py:107-111 | normalising a normalised tag changes nothing |
| `VersionResolver.FormatTagNameStripsAllVs` | lib/server_builder.py:108-110 | "vv51.0" becomes "51.0.0": both 'v's go and the third segment is added |
| `VersionResolver.FormatTagNameKeepsOthers` | lib/server_builder.py:109-111 | "51.0.0" and "51" are returned unchanged |
| `VersionResolver.LatestForgeVersion` | lib/server_builder.py:113-116 | an empty tag list fails with IndexError; otherwise the result is the LAST tag's name, normalised |
| `Strings.Fill` | lib/server_builder.py:119 | filling a template succeeds exactly when every field names an existing argument; otherwise it fails, as Python's IndexError does |
| `Strings.FillAppend` | lib/server_builder.py:119 | filling two template parts and joining the results is filling the joined template |
| `ForgeInstaller.InstallerTemplateExpands` | lib/server_builder.py:105 | the installer template with [mc, forge, mc, forge] always fills, to the maven base URL + mc + "-" + forge + "/forge-" + mc + "-" + forge + "-installer.jar" |
| `ForgeInstaller.BuildInstallerUrl` | lib/server_builder.py:118-119 | the installer URL is exactly `https://maven.minecraftforge.net/net/minecraftforge/forge/` + mc + "-" + forge + "/forge-" + mc + "-" + forge + "-installer.jar" |
| `ForgeInstaller.RenameShimJar` | lib/server_builder.py:142-144 | if the shim jar `forge-<mc>-<forge>-shim.jar` is present, afterwards server.jar is present and the shim jar is gone; if not, the listing is unchanged; no other name is added or removed |
| `Strings.ReplaceAbsent` | lib/server_builder.py:61 | `replace` leaves text that does not contain the pattern exactly as it is |
| `Strings.ReplaceFirstMatch` | lib/server_builder.py:61 | when no match starts before an occurrence, that occurrence is replaced and the scan goes on with the text after it; applied repeatedly, this gives the result for any number of occurrences |
| `License.RewriteEulaFile` | lib/server_builder.py:58-63 | the file is written back exactly when it exists, and then holds its text with every "eula=false" rewritten; an existing file without "eula=false" is written back unchanged |
| `License.AcceptEulaNoOp` | lib/server_builder.py:61 | text with no "eula=false", such as an already accepted file, is unchanged, so re-running the step is a no-op |
| `License.AcceptEulaFlipsFlag` | lib/server_builder.py:61 | the text "eula=false" becomes "eula=true" |
| `License.AcceptEulaSingleFlag` | lib/server_builder.py:61 | in a file whose only match is its flag, the flag is flipped and the text around it is kept |
| `License.AcceptEulaEveryFlag` | lib/server_builder.py:61 | every occurrence is rewritten, not only the first: two "eula=false" lines both become "eula=true" |
| `License.AcceptEulaNotIdempotent` | lib/server_builder.py:61 | the scan is left to right and skips overlapping matches: "eula=falseula=false" becomes "eula=trueula=false", and a second run turns that into "eula=trueula=true" |
| `LaunchScript.StartScriptDeterminesBounds` | lib/server_builder.py:67-81 | when the maximum bound has no space, equal scripts come only from equal bounds: the script depends on the two bounds and on nothing else, and shows both |
| `LaunchScript.FirstRunMatchesScriptIff` | lib/server_builder.py:56 | the first run uses the same heap flags as the corrected command, which the start script runs, exactly when the two bounds are equal |
| `LaunchScript.DefaultFirstRunMatchesScript` | lib/server_builder.py:53-56 | with the default configuration the first run's flags equal the start script's |
| `LaunchScript.FirstRunSwapsHeapBounds` | lib/server_builder.py:56 | with min "512M" and max "2048M" the first run is given -Xmx512M and -Xms2048M, unlike the start script |
| `LaunchScript.IntendedFirstRunMatchesScript` | lib/server_builder.py:70-81 | the start script is its fixed header, then the corrected first-run command (-Xmx the maximum, -Xms the minimum) joined by spaces, then its fixed footer |
| `Layout.ScratchDisjointFromServers` | lib/server_builder.py:10-11 | no path is both under the servers directory and under the scratch directory, so removing the scratch directory never touches an installation |
| `Layout.InstallerInScratch` | lib/server_builder.py:135 | the installer is downloaded inside the scratch directory and outside the servers directory |
| `Layout.VanillaForgeDirsIff` | lib/server_builder.py:132 | a vanilla and a Forge installation share a directory only when the vanilla version is "forge-" followed by the Forge flow's version; never for the same release |
| `Layout.ServerPathsInjective` | lib/server_builder.py:93 | different releases get different installation directories in both flows |
| `Layout.InstallationFiles` | lib/server_builder.py:96 | server.jar, eula.txt and start_server.bat are three distinct files directly inside the installation directory |
| `Selector.SelectFlow` | lib/server_builder.py:162-168 | "1" and only "1" selects the vanilla flow, "2" and only "2" the Forge flow; every other answer exits with "Unknown server type." |

## Findings

| source | as written | input that shows it | evidently intended | confidence | as-written member | corrected member |
|---|---|---|---|---|---|---|
| lib/server_builder.py:56 | the first run passes `-Xmx{min_memory} -Xms{max_memory}` | min "512M", max "2048M": the server starts with a 2048M initial heap under a 512M maximum, which the JVM refuses, so `eula.txt` is never written | `-Xmx{max_memory} -Xms{min_memory}`, as the start script at line 76 does | not executed; high | `LaunchScript.FirstRunSwapsHeapBounds` | `LaunchScript.IntendedFirstRunMatchesScript` |

## Left out

- Network I/O (`fetch_json`, `download_file`, lines 31-33 and 45-48): the manifest and the tag list arrive as decoded `Manifest` and `Tag` values. Request headers, the per-version metadata document and its `downloads.server.url` field are not modelled.
- The `java` subprocesses (lines 56 and 123): only the first run's argument list is modelled. The process itself and its exit status are not.
- File-system effects (`os.chdir`, `os.makedirs`, `os.rename`, `shutil.move`, `shutil.rmtree`, reads and writes): the existence of eula.txt is an `Option`, and the installation directory is a set of file names for the rename. Moving the installer into the installation directory (line 124) is not modelled.
- JSON decoding: the configuration is taken to hold both bounds, and manifest entries are taken to hold `id` and `url`. The `KeyError` a missing field would raise is not modelled.
- `textwrap.dedent`: the start script is its final text. The model takes the bounds to hold no line break; Python would then compute the margin differently.
- Line endings: writing the script and eula.txt in text mode turns `\n` into the platform's line ending. That is not modelled.
- Paths are lists of components. How `os.path.join` handles separators, drive letters and absolute components is not modelled. The base directory (derived from `sys.argv[0]`) is a parameter.
- `str.format`: the installer template is held already cut into text and positional fields. Parsing the format string itself is not modelled.
- `Strings.Replace`: an empty pattern is not modelled, because the only pattern used is "eula=false".
- `ForgeInstaller.RenameShimJar`: replaces an existing server.jar, as `os.rename` does on POSIX. On Windows `os.rename` raises instead, and that is not modelled.
- `input()` and `sys.exit` (lines 151-168): the answer is a parameter. The prompt text is not modelled, and exiting is the `Exit` outcome with its message; the process exit status is not modelled.
- The order of the steps in both `main` methods and in `setup_server` is not modelled. Only the names and texts those steps use are modelled.
