/**
  The resolver as the Go code runs it: the package-level variables
  `configFilePath` and `serviceName` are fields of one object, and the
  functions of cmd/helm/helm.go that assign them are methods with the
  same loops. Each method is proved to leave the pair, and report the
  fatal condition, exactly as the pure resolver in `ZitiResolution` says.
*/
module ZitiOptions {
  import opened Wrappers
  import opened KubeConfig
  import opened ZitiResolution

  class ZitiGlobals {
    var configFilePath: string
    var serviceName: string

    /** The pair as it stands. */
    function Current(): Session
      reads this
    {
      Session(configFilePath, serviceName)
    }

    /** Both variables start as Go's zero string. */
    constructor ()
      ensures Current() == Session("", "")
    {
      configFilePath, serviceName := "", "";
    }

    /**
      `getZitiOptionsFromConfigList`: for each path in order, read the file
      (returning the fatal condition where the Go code panics), find the
      first context named `currentContext` and fill the empty fields from it.
    */
    method GetZitiOptionsFromConfigList(fs: FileSystem, precedence: seq<string>, currentContext: string)
      returns (fatal: Option<Fatal>)
      modifies this
      ensures Resolution(Current(), fatal) == ResolveFromList(old(Current()), fs, precedence, currentContext)
    {
      var i := 0;
      while i < |precedence|
        invariant 0 <= i <= |precedence|
        invariant ResolveFromList(old(Current()), fs, precedence, currentContext)
               == ResolveFromList(Current(), fs, precedence[i..], currentContext)
      {
        var config := ReadKubeConfig(fs, precedence[i]);
        if config.Err? {
          return Some(config.error);
        }
        var contexts := config.value.contexts;
        ghost var before := Current();
        var j := 0;
        while j < |contexts|
          invariant 0 <= j <= |contexts|
          invariant Current() == before
          invariant FirstMatch(contexts, currentContext) == FirstMatch(contexts[j..], currentContext)
        {
          if currentContext == contexts[j].name {
            if configFilePath == "" {
              configFilePath := contexts[j].context.zConfig;
            }
            if serviceName == "" {
              serviceName := contexts[j].context.service;
            }
            break;
          }
          j := j + 1;
        }
        assert precedence[i..][1..] == precedence[i + 1..];
        i := i + 1;
      }
      fatal := None;
    }

    /**
      `getZitiOptionsFromConfig`: take the current context from the file at
      `path`, scan all of its contexts keeping the last one with that name
      (the zero `Context` if none), then fill the empty fields from it.
    */
    method GetZitiOptionsFromConfig(fs: FileSystem, path: string) returns (fatal: Option<Fatal>)
      modifies this
      ensures Resolution(Current(), fatal) == ResolveFromFile(old(Current()), fs, path)
    {
      var loaded := LoadCurrentContext(fs, path);
      if loaded.Err? {
        return Some(loaded.error);
      }
      var currentContext := loaded.value;
      var minKubeConfig := ReadKubeConfig(fs, path);
      if minKubeConfig.Err? {
        return Some(minKubeConfig.error);
      }
      var contexts := minKubeConfig.value.contexts;
      var context := ZeroContext;
      var j := 0;
      while j < |contexts|
        invariant 0 <= j <= |contexts|
        invariant context == OrZero(LastMatch(contexts[..j], currentContext))
      {
        assert contexts[..j + 1][..j] == contexts[..j];
        if contexts[j].name == currentContext {
          context := contexts[j].context;
        }
        j := j + 1;
      }
      assert contexts[..j] == contexts;
      if configFilePath == "" {
        configFilePath := context.zConfig;
      }
      if serviceName == "" {
        serviceName := context.service;
      }
      fatal := None;
    }

    /**
      `parseKubeConfig`: an explicit `--kubeconfig` path is read alone;
      otherwise the merged kubeconfig gives the current context (its
      failure is fatal) and the precedence list is walked.
    */
    method ParseKubeConfig(kubeconfigPath: string, env: Environment) returns (fatal: Option<Fatal>)
      modifies this
      ensures Resolution(Current(), fatal) == ResolveFromKubeconfig(old(Current()), kubeconfigPath, env)
    {
      if kubeconfigPath == "" {
        if env.rawCurrentContext.None? {
          return Some(RawConfigFailed);
        }
        fatal := GetZitiOptionsFromConfigList(env.fs, env.precedence, env.rawCurrentContext.value);
      } else {
        fatal := GetZitiOptionsFromConfig(env.fs, kubeconfigPath);
      }
    }

    /**
      The resolution steps of `main`: seed both variables from the flags,
      then inspect the kubeconfig when either of them is still empty.
    */
    method ApplyFlags(flags: Flags, env: Environment) returns (fatal: Option<Fatal>)
      modifies this
      ensures Resolution(Current(), fatal) == Resolve(flags, env)
    {
      configFilePath := flags.zConfig;
      serviceName := flags.service;
      fatal := None;
      if configFilePath == "" || serviceName == "" {
        fatal := ParseKubeConfig(flags.kubeconfig, env);
      }
    }
  }
}
