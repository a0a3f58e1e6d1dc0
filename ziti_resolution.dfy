/**
  The Ziti option resolver of cmd/helm/helm.go as pure functions: how the
  pair (`configFilePath`, `serviceName`) is seeded from the flags and then
  filled, never overwritten, from kubeconfig contexts; and the properties
  that follow from it.
*/
module ZitiResolution {
  import opened Wrappers
  import opened KubeConfig

  /** The package-level pair `configFilePath`, `serviceName`. */
  datatype Session = Session(configFilePath: string, serviceName: string)

  /**
    Where a resolution run ends: the pair as it stands, and the fatal
    condition that stopped the run early, if any. On a fatal condition the
    pair is the one reached just before it (the process then ends).
  */
  datatype Resolution = Resolution(session: Session, fatal: Option<Fatal>)

  /** The values of the `--zConfig`, `--service` and `--kubeconfig` flags. */
  datatype Flags = Flags(zConfig: string, service: string, kubeconfig: string)

  /**
    What the resolver learns from client-go: the loading-precedence list of
    kubeconfig paths, the current context of the merged kubeconfig (`None`
    when `RawConfig` fails), and the files on disk.
  */
  datatype Environment = Environment(precedence: seq<string>, rawCurrentContext: Option<string>, fs: FileSystem)

  /** Names one of the two settings, so that a property can be stated once for both. */
  datatype Field = ZConfigField | ServiceField

  function SessionField(s: Session, f: Field): string
  {
    match f
    case ZConfigField => s.configFilePath
    case ServiceField => s.serviceName
  }

  function ContextField(c: Context, f: Field): string
  {
    match f
    case ZConfigField => c.zConfig
    case ServiceField => c.service
  }

  /**
    Fill-not-overwrite: each field of the pair takes the context's value
    only while it is still empty.
  */
  function Fill(s: Session, c: Context): (r: Session)
    ensures forall f :: SessionField(s, f) != "" ==> SessionField(r, f) == SessionField(s, f)
    ensures forall f :: SessionField(s, f) == "" ==> SessionField(r, f) == ContextField(c, f)
  {
    Session(
      if s.configFilePath == "" then c.zConfig else s.configFilePath,
      if s.serviceName == "" then c.service else s.serviceName)
  }

  /**
    `getZitiOptionsFromConfigList`: walk the precedence list in order; each
    file is read (a failure is fatal) and its first context named `current`,
    if any, fills the pair.
  */
  function ResolveFromList(s: Session, fs: FileSystem, paths: seq<string>, current: string): Resolution
    decreases |paths|
  {
    if paths == [] then Resolution(s, None)
    else match ReadKubeConfig(fs, paths[0])
      case Err(e) => Resolution(s, Some(e))
      case Ok(config) =>
        var next := match FirstMatch(config.contexts, current)
          case None => s
          case Some(c) => Fill(s, c);
        ResolveFromList(next, fs, paths[1..], current)
  }

  /**
    `getZitiOptionsFromConfig`: load the file for its current context, read
    it again as `MinKubeConfig`, and fill the pair from its last context
    with that name, or from the zero `Context` when none has it.
  */
  function ResolveFromFile(s: Session, fs: FileSystem, path: string): Resolution
  {
    match LoadCurrentContext(fs, path)
    case Err(e) => Resolution(s, Some(e))
    case Ok(current) =>
      match ReadKubeConfig(fs, path)
      case Err(e) => Resolution(s, Some(e))
      case Ok(config) => Resolution(Fill(s, OrZero(LastMatch(config.contexts, current))), None)
  }

  /**
    `parseKubeConfig`: an explicit `--kubeconfig` path is the only file
    inspected; otherwise the merged kubeconfig supplies the current context
    and the precedence list is walked.
  */
  function ResolveFromKubeconfig(s: Session, kubeconfigPath: string, env: Environment): Resolution
  {
    if kubeconfigPath == "" then
      match env.rawCurrentContext
      case None => Resolution(s, Some(RawConfigFailed))
      case Some(current) => ResolveFromList(s, env.fs, env.precedence, current)
    else
      ResolveFromFile(s, env.fs, kubeconfigPath)
  }

  /**
    The resolution in `main`: seed the pair from the flags, and inspect
    kubeconfig files when at least one of the two is still empty.
  */
  function Resolve(flags: Flags, env: Environment): Resolution
  {
    var seeded := Session(flags.zConfig, flags.service);
    if seeded.configFilePath == "" || seeded.serviceName == "" then
      ResolveFromKubeconfig(seeded, flags.kubeconfig, env)
    else
      Resolution(seeded, None)
  }

  /** Every path of the list can be read and decoded. */
  ghost predicate AllReadable(fs: FileSystem, paths: seq<string>)
  {
    forall i :: 0 <= i < |paths| ==> ReadKubeConfig(fs, paths[i]).Ok?
  }

  /**
    For each file of the list, the value of field `f` in its first context
    named `current` ("" when no context has that name).
  */
  ghost function Offered(fs: FileSystem, paths: seq<string>, current: string, f: Field): (r: seq<string>)
    requires AllReadable(fs, paths)
    ensures |r| == |paths|
    decreases |paths|
  {
    if paths == [] then []
    else
      [ContextField(OrZero(FirstMatch(ReadKubeConfig(fs, paths[0]).value.contexts, current)), f)]
      + Offered(fs, paths[1..], current, f)
  }

  /** The first non-empty string of `xs`, or "" when there is none. */
  function FirstNonEmpty(xs: seq<string>): (r: string)
    ensures r == "" <==> forall i :: 0 <= i < |xs| ==> xs[i] == ""
    ensures r != "" ==> exists i :: 0 <= i < |xs| && xs[i] == r && forall k :: 0 <= k < i ==> xs[k] == ""
  {
    if xs == [] then ""
    else if xs[0] != "" then xs[0]
    else
      var r := FirstNonEmpty(xs[1..]);
      assert r != "" ==> exists i :: 0 <= i < |xs| && xs[i] == r && forall k :: 0 <= k < i ==> xs[k] == "" by {
        if r != "" {
          var i :| 0 <= i < |xs[1..]| && xs[1..][i] == r && forall k :: 0 <= k < i ==> xs[1..][k] == "";
          assert xs[i + 1] == r;
        }
      }
      r
  }

  /** Fill-not-overwrite over the whole precedence list: a field set on entry is never replaced. */
  lemma {:induction false} ListNeverOverwrites(s: Session, fs: FileSystem, paths: seq<string>, current: string, f: Field)
    requires SessionField(s, f) != ""
    ensures SessionField(ResolveFromList(s, fs, paths, current).session, f) == SessionField(s, f)
    decreases |paths|
  {
    if paths != [] && ReadKubeConfig(fs, paths[0]).Ok? {
      var config := ReadKubeConfig(fs, paths[0]).value;
      var next := match FirstMatch(config.contexts, current)
        case None => s
        case Some(c) => Fill(s, c);
      ListNeverOverwrites(next, fs, paths[1..], current, f);
    }
  }

  /**
    Fill-not-overwrite for `parseKubeConfig` on either path: a field that is
    set before the kubeconfig is inspected keeps its value.
  */
  lemma NeverOverwrites(s: Session, kubeconfigPath: string, env: Environment, f: Field)
    requires SessionField(s, f) != ""
    ensures SessionField(ResolveFromKubeconfig(s, kubeconfigPath, env).session, f) == SessionField(s, f)
  {
    if kubeconfigPath == "" && env.rawCurrentContext.Some? {
      ListNeverOverwrites(s, env.fs, env.precedence, env.rawCurrentContext.value, f);
    }
  }

  /**
    Earliest file wins, field by field: after the walk a field keeps its
    entry value when that is set, and otherwise holds the value offered by
    the earliest file whose first matching context has it non-empty ("" if
    no file offers one). Field `f` of the result depends on field `f` of
    the contexts only, so the two fields fill independently.
  */
  lemma {:induction false} EarliestFileWins(s: Session, fs: FileSystem, paths: seq<string>, current: string, f: Field)
    requires AllReadable(fs, paths)
    ensures ResolveFromList(s, fs, paths, current).fatal == None
    ensures SessionField(ResolveFromList(s, fs, paths, current).session, f)
         == if SessionField(s, f) != "" then SessionField(s, f) else FirstNonEmpty(Offered(fs, paths, current, f))
    decreases |paths|
  {
    if paths != [] {
      var config := ReadKubeConfig(fs, paths[0]).value;
      var m := FirstMatch(config.contexts, current);
      var next := match m
        case None => s
        case Some(c) => Fill(s, c);
      var offered := Offered(fs, paths, current, f);
      assert AllReadable(fs, paths[1..]) by {
        forall i | 0 <= i < |paths[1..]| ensures ReadKubeConfig(fs, paths[1..][i]).Ok? {
          assert paths[1..][i] == paths[i + 1];
        }
      }
      EarliestFileWins(next, fs, paths[1..], current, f);
      assert offered[1..] == Offered(fs, paths[1..], current, f);
      assert SessionField(next, f) == if SessionField(s, f) != "" then SessionField(s, f) else offered[0];
      if SessionField(next, f) != "" {
        ListNeverOverwrites(next, fs, paths[1..], current, f);
      }
    }
  }

  /**
    Fields fill independently across files: when the first file offers only
    a service name and the second only an identity path, an empty pair
    ends up holding both.
  */
  lemma FieldsFillIndependently(fs: FileSystem, first: string, second: string, current: string, identity: string, service: string)
    requires AllReadable(fs, [first, second])
    requires Offered(fs, [first, second], current, ZConfigField) == ["", identity]
    requires Offered(fs, [first, second], current, ServiceField) == [service, ""]
    ensures ResolveFromList(Session("", ""), fs, [first, second], current) == Resolution(Session(identity, service), None)
  {
    var r := ResolveFromList(Session("", ""), fs, [first, second], current);
    EarliestFileWins(Session("", ""), fs, [first, second], current, ZConfigField);
    EarliestFileWins(Session("", ""), fs, [first, second], current, ServiceField);
    assert FirstNonEmpty(["", identity]) == identity;
    assert FirstNonEmpty([service, ""]) == service;
    assert r.session == Session(SessionField(r.session, ZConfigField), SessionField(r.session, ServiceField));
  }

  /**
    Any file of the precedence list that cannot be read or decoded ends the
    resolution, even when both fields are already set: the walk reads
    every file and skips none. The error is that of the first such file.
  */
  lemma {:induction false} UnreadableFileIsFatal(s: Session, fs: FileSystem, paths: seq<string>, current: string, i: int)
    requires 0 <= i < |paths| && ReadKubeConfig(fs, paths[i]).Err?
    requires AllReadable(fs, paths[..i])
    ensures ResolveFromList(s, fs, paths, current).fatal == Some(ReadKubeConfig(fs, paths[i]).error)
    decreases |paths|
  {
    if i > 0 {
      assert ReadKubeConfig(fs, paths[..i][0]).Ok?;
      var config := ReadKubeConfig(fs, paths[0]).value;
      var next := match FirstMatch(config.contexts, current)
        case None => s
        case Some(c) => Fill(s, c);
      assert paths[1..][i - 1] == paths[i];
      var before := paths[1..][..i - 1];
      assert AllReadable(fs, before) by {
        forall k | 0 <= k < |before| ensures ReadKubeConfig(fs, before[k]).Ok? {
          assert before[k] == paths[..i][k + 1];
        }
      }
      UnreadableFileIsFatal(next, fs, paths[1..], current, i - 1);
    }
  }

  /**
    No match leaves the pair unchanged: when no file of the list has a
    context named `current` (in particular when the list is empty), the
    walk ends without error and with the pair it started with.
  */
  lemma {:induction false} NoMatchInListLeavesUnchanged(s: Session, fs: FileSystem, paths: seq<string>, current: string)
    requires AllReadable(fs, paths)
    requires forall i :: 0 <= i < |paths| ==> FirstMatch(ReadKubeConfig(fs, paths[i]).value.contexts, current) == None
    ensures ResolveFromList(s, fs, paths, current) == Resolution(s, None)
    decreases |paths|
  {
    if paths != [] {
      assert AllReadable(fs, paths[1..]) by {
        forall i | 0 <= i < |paths[1..]| ensures ReadKubeConfig(fs, paths[1..][i]).Ok? {
          assert paths[1..][i] == paths[i + 1];
        }
      }
      forall i | 0 <= i < |paths[1..]|
        ensures FirstMatch(ReadKubeConfig(fs, paths[1..][i]).value.contexts, current) == None
      {
        assert paths[1..][i] == paths[i + 1];
      }
      NoMatchInListLeavesUnchanged(s, fs, paths[1..], current);
    }
  }

  /**
    No match leaves the pair unchanged on the explicit path too: filling
    from the zero `Context` assigns "" only to fields that are already "".
  */
  lemma NoMatchInFileLeavesUnchanged(s: Session, fs: FileSystem, path: string)
    requires path in fs && fs[path].Loaded? && fs[path].minimal.Some?
    requires forall i :: 0 <= i < |fs[path].minimal.value.contexts| ==>
               fs[path].minimal.value.contexts[i].name != fs[path].currentContext
    ensures ResolveFromFile(s, fs, path) == Resolution(s, None)
  {
  }

  /**
    A missing explicit `--kubeconfig` file is fatal. The loader hands back an
    empty config for it, and reading the file again then fails. The pair is
    left as it was.
  */
  lemma MissingExplicitFileIsFatal(s: Session, fs: FileSystem, path: string)
    requires path !in fs
    ensures ResolveFromFile(s, fs, path) == Resolution(s, Some(ReadFailed(path)))
  {
  }

  /** When both flags are set the pair is the flag pair and no kubeconfig file is consulted. */
  lemma BothFlagsSkipKubeconfig(flags: Flags, env: Environment)
    requires flags.zConfig != "" && flags.service != ""
    ensures Resolve(flags, env) == Resolution(Session(flags.zConfig, flags.service), None)
  {
  }

  /**
    One empty flag is enough for the precedence list to be walked: an
    unreadable file in it is then fatal although the other flag is set.
  */
  lemma OneEmptyFlagReadsKubeconfig(flags: Flags, env: Environment, i: int)
    requires flags.zConfig == "" || flags.service == ""
    requires flags.kubeconfig == "" && env.rawCurrentContext.Some?
    requires 0 <= i < |env.precedence| && ReadKubeConfig(env.fs, env.precedence[i]).Err?
    requires AllReadable(env.fs, env.precedence[..i])
    ensures Resolve(flags, env).fatal == Some(ReadKubeConfig(env.fs, env.precedence[i]).error)
  {
    UnreadableFileIsFatal(Session(flags.zConfig, flags.service), env.fs, env.precedence, env.rawCurrentContext.value, i);
  }

  /**
    An explicit `--kubeconfig` path excludes the precedence list: the
    result depends on that one file only, not on the list, the merged
    current context or any other file.
  */
  lemma ExplicitPathExcludesList(flags: Flags, env1: Environment, env2: Environment)
    requires flags.kubeconfig != ""
    requires (flags.kubeconfig in env1.fs) == (flags.kubeconfig in env2.fs)
    requires flags.kubeconfig in env1.fs ==> env1.fs[flags.kubeconfig] == env2.fs[flags.kubeconfig]
    ensures Resolve(flags, env1) == Resolve(flags, env2)
  {
  }

  /**
    The two match rules differ on duplicate context names: the list walk
    takes the first context with the current name, the explicit path the
    last.
  */
  lemma DuplicateNamesDifferByPath(s: Session, fs: FileSystem, path: string)
    requires path in fs && fs[path].Loaded? && fs[path].minimal.Some?
    ensures var current := fs[path].currentContext;
            var entries := fs[path].minimal.value.contexts;
            ResolveFromList(s, fs, [path], current) == Resolution(Fill(s, OrZero(FirstMatch(entries, current))), None)
            && ResolveFromFile(s, fs, path) == Resolution(Fill(s, OrZero(LastMatch(entries, current))), None)
  {
  }

  /**
    An instance of the two match rules: one file whose two contexts both
    carry the current name fills an empty pair from the first on the list
    path and from the second on the explicit path.
  */
  lemma DuplicateNamesExample(fs: FileSystem, path: string, current: string)
    requires path in fs
    requires fs[path] == Loaded(current, Some(MinKubeConfig([
               NamedContext(current, Context("a", "s1")),
               NamedContext(current, Context("b", "s2"))])))
    ensures ResolveFromList(Session("", ""), fs, [path], current) == Resolution(Session("a", "s1"), None)
    ensures ResolveFromFile(Session("", ""), fs, path) == Resolution(Session("b", "s2"), None)
  {
    DuplicateNamesDifferByPath(Session("", ""), fs, path);
  }
}
