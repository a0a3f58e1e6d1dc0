/**
  The slice of a kubeconfig file that the Ziti option resolver reads
  (`MinKubeConfig` and `Context` in cmd/helm/helm.go), and the two ways
  the resolver obtains it from disk.

  File I/O and YAML decoding are not modelled: a `FileSystem` says, for
  each path, what reading and decoding that path yields.
*/
module KubeConfig {
  import opened Wrappers

  /** The two Ziti settings a kubeconfig context may carry (`zConfig`, `service`). */
  datatype Context = Context(zConfig: string, service: string)

  /** Go's zero value of `Context`: both fields empty. */
  const ZeroContext := Context("", "")

  /** One element of the `contexts` list: its `name` and its `context` object. */
  datatype NamedContext = NamedContext(name: string, context: Context)

  /** `MinKubeConfig`: only the `contexts` list is decoded, in file order. */
  datatype MinKubeConfig = MinKubeConfig(contexts: seq<NamedContext>)

  /**
    What an existing path holds. `Unreadable` is a file that exists but
    cannot be read (no permission, say). `Malformed` is content neither
    decoder accepts. `Loaded` is content that client-go's loader accepts, with the
    file's `current-context`; `minimal` is `None` when decoding the same
    bytes into `MinKubeConfig` fails (a `zConfig` that is not a string, say).
  */
  datatype KubeFile =
    | Unreadable
    | Malformed
    | Loaded(currentContext: string, minimal: Option<MinKubeConfig>)

  /** The files on disk; a path that is not a key does not exist. */
  type FileSystem = map<string, KubeFile>

  /** The conditions on which the resolver ends the process. */
  datatype Fatal =
    | ReadFailed(path: string)       // ioutil.ReadFile failed: panic
    | UnmarshalFailed(path: string)  // yaml.Unmarshal failed: panic
    | LoadFailed(path: string)       // clientcmd.GetConfigFromFileOrDie exits on an existing bad file
    | RawConfigFailed                // the merged kubeconfig could not be built: panic

  /**
    `readKubeConfig`: read the file at `path` and decode it into
    `MinKubeConfig`. Every failure is fatal; nothing is skipped.
  */
  function ReadKubeConfig(fs: FileSystem, path: string): (r: Result<MinKubeConfig, Fatal>)
    ensures r.Err? <==> path !in fs || !fs[path].Loaded? || fs[path].minimal.None?
    ensures r.Err? ==> r.error == (if path !in fs || fs[path].Unreadable? then ReadFailed(path) else UnmarshalFailed(path))
    ensures r.Ok? ==> fs[path].Loaded? && fs[path].minimal == Some(r.value)
  {
    if path !in fs then Err(ReadFailed(path))
    else match fs[path]
      case Unreadable => Err(ReadFailed(path))
      case Malformed => Err(UnmarshalFailed(path))
      case Loaded(_, minimal) =>
        if minimal.None? then Err(UnmarshalFailed(path)) else Ok(minimal.value)
  }

  /**
    `clientcmd.GetConfigFromFileOrDie(path).CurrentContext`: the file's
    `current-context`. A missing file gives an empty config, so "". A file
    that exists but cannot be read or loaded ends the process.
  */
  function LoadCurrentContext(fs: FileSystem, path: string): (r: Result<string, Fatal>)
    ensures r.Ok? <==> path !in fs || fs[path].Loaded?
    ensures r.Ok? ==> r.value == (if path in fs then fs[path].currentContext else "")
    ensures r.Err? ==> r.error == LoadFailed(path)
  {
    if path !in fs then Ok("")
    else if fs[path].Loaded? then Ok(fs[path].currentContext)
    else Err(LoadFailed(path))
  }

  /** `entries[i]` is the first entry named `name`. */
  ghost predicate IsFirstMatch(entries: seq<NamedContext>, name: string, i: int)
  {
    0 <= i < |entries| && entries[i].name == name
    && forall k :: 0 <= k < i ==> entries[k].name != name
  }

  /** `entries[i]` is the last entry named `name`. */
  ghost predicate IsLastMatch(entries: seq<NamedContext>, name: string, i: int)
  {
    0 <= i < |entries| && entries[i].name == name
    && forall k :: i < k < |entries| ==> entries[k].name != name
  }

  /**
    The context of the first entry named `name`: what the loop over
    `config.Contexts` in the precedence-list walk picks before its `break`.
  */
  function FirstMatch(entries: seq<NamedContext>, name: string): (r: Option<Context>)
    ensures r.None? <==> forall i :: 0 <= i < |entries| ==> entries[i].name != name
    ensures r.Some? ==> exists i :: IsFirstMatch(entries, name, i) && entries[i].context == r.value
  {
    if entries == [] then None
    else if entries[0].name == name then
      assert IsFirstMatch(entries, name, 0);
      Some(entries[0].context)
    else
      var r := FirstMatch(entries[1..], name);
      assert r.Some? ==> exists i :: IsFirstMatch(entries, name, i) && entries[i].context == r.value by {
        if r.Some? {
          var i :| IsFirstMatch(entries[1..], name, i) && entries[1..][i].context == r.value;
          assert IsFirstMatch(entries, name, i + 1);
        }
      }
      r
  }

  /**
    The context of the last entry named `name`: what the loop over
    `minKubeConfig.Contexts` for an explicit path ends with, since it has
    no `break` and every match overwrites the previous one.
  */
  function LastMatch(entries: seq<NamedContext>, name: string): (r: Option<Context>)
    ensures r.None? <==> forall i :: 0 <= i < |entries| ==> entries[i].name != name
    ensures r.Some? ==> exists i :: IsLastMatch(entries, name, i) && entries[i].context == r.value
  {
    if entries == [] then None
    else if entries[|entries| - 1].name == name then
      assert IsLastMatch(entries, name, |entries| - 1);
      Some(entries[|entries| - 1].context)
    else
      var r := LastMatch(entries[..|entries| - 1], name);
      assert r.Some? ==> exists i :: IsLastMatch(entries, name, i) && entries[i].context == r.value by {
        if r.Some? {
          var i :| IsLastMatch(entries[..|entries| - 1], name, i) && entries[..|entries| - 1][i].context == r.value;
          assert IsLastMatch(entries, name, i);
        }
      }
      r
  }

  /** A missing match read as Go's zero `Context`. */
  function OrZero(m: Option<Context>): Context
  {
    if m.Some? then m.value else ZeroContext
  }
}
