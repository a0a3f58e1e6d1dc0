# Ziti option resolver of the OpenZiti helm client, in Dafny

This fork of `helm` sends its traffic to the Kubernetes API server through an
OpenZiti service instead of a direct TCP connection. This project models the
part of `cmd/helm/helm.go` that decides which Ziti identity file
(`configFilePath`) and which service (`serviceName`) an invocation uses. It
also models how the Ziti dialer is installed into client-go's REST
configuration. The model proves what that resolution guarantees.

- `wrappers.dfy`: module `Wrappers`, with `Option` and `Result`.
- `kube_config.dfy`: module `KubeConfig`. It holds the `Context` and
  `MinKubeConfig` types, and what reading a kubeconfig yields
  (`readKubeConfig`, and the current context from
  `clientcmd.GetConfigFromFileOrDie`). It also holds the two match rules:
  `FirstMatch`, used by the precedence-list walk, which stops at its `break`,
  and `LastMatch`, used by the explicit-path scan, which has no `break`.
- `ziti_resolution.dfy`: module `ZitiResolution`. It defines the resolver as
  pure functions (`ResolveFromList`, `ResolveFromFile`,
  `ResolveFromKubeconfig`, `Resolve`) and proves lemmas about them:
  fill-not-overwrite, earliest file wins, fields fill independently,
  unreadable files are fatal, no match changes nothing, both flags skip the
  kubeconfig, and an explicit path excludes the precedence list.
- `ziti_options.dfy`: module `ZitiOptions`. Class `ZitiGlobals` holds the two
  package-level variables. Its methods have the Go functions' loops, nested
  loop and `break` included. Each method is proved to end with the pair and
  the fatal condition that the pure resolver gives.
- `rest_config.dfy`: module `RestConfigWrap`, for `wrapConfigFn`.

Where the Go code panics or exits (`panic`, `GetConfigFromFileOrDie`), the
model returns a `Fatal` value. The pair reached before that point is kept.
The inputs are modelled as follows:

- A `FileSystem` maps each readable path to what decoding it yields.
- The precedence list and the merged kubeconfig's current context are given
  as an `Environment`.
- The flag values are given as `Flags`.

Three behaviours of `cmd/helm/helm.go` shape the proofs:

- A file of the precedence list that is missing or cannot be read ends the
  process. `readKubeConfig` panics on it (lines 260 and 289-293); no file is
  skipped. See `UnreadableFileIsFatal`.
- The walk over the precedence list never stops early (lines 257-281). Once
  both fields are set, it still reads every later file and can still fail on
  one.
- The kubeconfig is read when either value is empty: the condition at line
  118 is `configFilePath == "" || serviceName == ""`. See
  `OneEmptyFlagReadsKubeconfig`.

Duplicate context names are handled differently on the two paths. The
precedence-list walk takes the first matching context in a file. An explicit
`--kubeconfig` file gives the last one. See `DuplicateNamesDifferByPath` and
`DuplicateNamesExample`.

## Model

| member | source | states |
|---|---|---|
| `KubeConfig.ReadKubeConfig` | cmd/helm/helm.go:284-305 | reading fails exactly when the path cannot be read or its content does not decode into `MinKubeConfig`. The error names the path. On success the decoded contexts are returned |
| `KubeConfig.LoadCurrentContext` | cmd/helm/helm.go:310-313 | a missing file yields an empty current context. An existing file yields its current context when it loads. Otherwise the process ends, with the path named |
| `KubeConfig.FirstMatch` | cmd/helm/helm.go:263-279 | no result exactly when no entry has the name. Otherwise the result is the context of the earliest entry with that name |
| `KubeConfig.LastMatch` | cmd/helm/helm.go:318-325 | no result exactly when no entry has the name. Otherwise the result is the context of the latest entry with that name |
| `ZitiResolution.Fill` | cmd/helm/helm.go:268-276 | a field that is set keeps its value. An empty field takes the context's value for that field |
| `ZitiResolution.FirstNonEmpty` | cmd/helm/helm.go:257-281 | the reference for "earliest supplier": "" exactly when every candidate is empty. Otherwise the earliest non-empty candidate, with all candidates before it empty |
| `ZitiResolution.ListNeverOverwrites` | cmd/helm/helm.go:255-282 | after the precedence-list walk, a field that was set on entry still has its entry value |
| `ZitiResolution.NeverOverwrites` | cmd/helm/helm.go:327-335 | fill-not-overwrite for `parseKubeConfig` on both paths: a field set before inspection is unchanged afterwards |
| `ZitiResolution.EarliestFileWins` | cmd/helm/helm.go:257-281 | when every listed file is readable, the walk ends without error. Each field keeps its entry value if set. Otherwise it holds the earliest non-empty value offered by the files' first matching contexts, or "" if there is none |
| `ZitiResolution.FieldsFillIndependently` | cmd/helm/helm.go:268-276 | one file may supply only the service and a later one only the identity path. An empty pair then ends up holding both |
| `ZitiResolution.UnreadableFileIsFatal` | cmd/helm/helm.go:257-293 | the first unreadable or undecodable file of the precedence list ends the resolution with that file's error, whatever the pair already holds |
| `ZitiResolution.NoMatchInListLeavesUnchanged` | cmd/helm/helm.go:257-281 | when no listed file has a context with the current name, or the list is empty, the walk ends without error and leaves the pair exactly as it was |
| `ZitiResolution.NoMatchInFileLeavesUnchanged` | cmd/helm/helm.go:318-335 | on the explicit path, when no context has the file's current name, the zero context leaves the pair exactly as it was |
| `ZitiResolution.MissingExplicitFileIsFatal` | cmd/helm/helm.go:307-316 | a missing explicit `--kubeconfig` file passes the loader as an empty config. It then fails in `readKubeConfig` with a read error, leaving the pair unchanged |
| `ZitiResolution.BothFlagsSkipKubeconfig` | cmd/helm/helm.go:110-120 | when both flags are non-empty, the resolved pair is the flag pair and no file is inspected, whatever the environment |
| `ZitiResolution.OneEmptyFlagReadsKubeconfig` | cmd/helm/helm.go:117-120 | when one flag is empty, the precedence list is still walked. An unreadable file in it is fatal, even though the other flag is set |
| `ZitiResolution.ExplicitPathExcludesList` | cmd/helm/helm.go:229-253 | with an explicit `--kubeconfig` path, the result depends only on that file. The precedence list, the merged current context and the other files do not matter |
| `ZitiResolution.DuplicateNamesDifferByPath` | cmd/helm/helm.go:318-325 | for one file, the list walk fills from the first context with the current name. The explicit path fills from the last one |
| `ZitiResolution.DuplicateNamesExample` | cmd/helm/helm.go:263-279 | a file with two contexts named the current context, holding different values, resolves an empty pair to the first context's values on the list path and to the second context's values on the explicit path (lines 320-325) |
| `ZitiOptions.ZitiGlobals.constructor` | cmd/helm/helm.go:59-60 | both package-level variables start empty |
| `ZitiOptions.ZitiGlobals.GetZitiOptionsFromConfigList` | cmd/helm/helm.go:255-282 | the nested loops with `break` leave the pair and the fatal condition exactly as `ResolveFromList` gives them for the pair on entry |
| `ZitiOptions.ZitiGlobals.GetZitiOptionsFromConfig` | cmd/helm/helm.go:307-336 | the scan without `break` and the two guarded assignments leave the pair and the fatal condition exactly as `ResolveFromFile` gives them |
| `ZitiOptions.ZitiGlobals.ParseKubeConfig` | cmd/helm/helm.go:229-253 | dispatches to the explicit path or the precedence list. A failed merged config is fatal. The result agrees with `ResolveFromKubeconfig` |
| `ZitiOptions.ZitiGlobals.ApplyFlags` | cmd/helm/helm.go:110-120 | seeds the pair from the flags. It inspects the kubeconfig when either flag is empty. The final pair and fatal condition are those of `Resolve` |
| `RestConfigWrap.WrapConfigFn` | cmd/helm/helm.go:191-195 | sets `Dial` to the Ziti dialer, changes no other field, and returns the same object |

## Left out

- `dialFunc` is left out. It loads the identity with the OpenZiti SDK, exits
  the process on failure, and dials through the SDK, which are foreign calls
  and a process exit. The model records only which dialer is installed. The
  Go code ignores `network` and `address` and dials `serviceName`.
- File I/O, `filepath.Abs` and YAML decoding are left out. A `FileSystem`
  keyed by the path as given stands in for them.
- The client-go calls `GetLoadingPrecedence` and `RawConfig` are left out.
  Their results are inputs: the precedence list, and the merged current
  context (`None` when `RawConfig` fails).
- The client-go loader's own checks on the files are left out. The merged
  current context is an input that does not depend on the `FileSystem`. A
  `Loaded` file may repeat a context name. If client-go's loader refuses a
  list file or a repeated context name first, the process ends at lines
  241-243 or 310 before either context loop runs. The first-versus-last
  difference is then observable only for files the loader accepts.
- `GetConfigFromFileOrDie` is left out. It is modelled only by what it
  yields: an empty config for a missing file, the file's current context
  when it loads, and the end of the process for any other file.
- `RestConfigWrap.RestConfig` keeps three of `rest.Config`'s many fields
  besides `Dial`. The frame of `WrapConfigFn` is the proof that it writes
  only `Dial`.
- The cobra command tree, flag registration and parsing (`setZitiFlags`,
  `newRootCmd`, `OnInitialize`, `Execute`) and exit codes are left out. They
  are the host command tree. Flag values are inputs.
- `loadReleasesInMemory`, `debug`, `warning` and `checkOCIFeatureGate` are
  left out. They deal with environment variables, storage and logging, not
  with resolution.
- Concurrent dials by the HTTP layer are left out. The resolver runs once,
  single-threaded, before any request.
