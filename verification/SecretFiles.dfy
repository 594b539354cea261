/** The life of secret temp files during a kube action or a remote run: whatever Vault, the file system,
    the client libraries and the remote side answer, no secret file outlives the call. */
module SecretFiles {
  import opened Json
  import opened Sequences

  /** Path to content. */
  type Files = map<string, string>

  datatype Fault = VaultUnavailable | OtherFault

  datatype Attempt<+T> = Done(value: T) | Raised(fault: Fault)

  /** How one secret resolves: Vault's answer, the name mkstemp finds, and whether writing succeeds. */
  datatype SecretSource = SecretSource(secret: Option<string>, tempName: string, created: bool, written: bool)

  /** A path to use, and the temp file to clean up if one was made. */
  datatype Resolved = Resolved(path: string, temp: Option<string>)

  const VAULT_PREFIX := "vault:"

  predicate FromVault(value: string) {
    VAULT_PREFIX <= value
  }

  /** The value is a path, or Vault has it and the temp file can be made. */
  predicate Materializes(value: string, source: SecretSource) {
    FromVault(value) ==> source.secret.Some? && source.created && source.written
  }

  /** kubeapi credentials of a controller; "" stands for a missing one. */
  datatype KubeController = KubeController(inCluster: bool, kubeconfig: string, apiServer: string, token: string, caCert: string)

  /** Nothing that was there is touched, and what is new are files whose unlink fails. */
  ghost predicate LeavesOnly(before: Files, after: Files, stuck: set<string>) {
    && (forall p :: p in before ==> p in after && after[p] == before[p])
    && (forall p :: p in after ==> p in before || p in stuck)
  }

  /** If every unlink succeeds, the files after are exactly the files before. */
  lemma BalanceWhenUnlinkWorks(before: Files, after: Files)
    ensures LeavesOnly(before, after, {}) <==> after == before
  {
  }

  /** The files without those of `paths` that can be unlinked. */
  ghost predicate Cleaned(before: Files, after: Files, paths: set<string>, stuck: set<string>) {
    && (forall p :: p in after <==> p in before && (p !in paths || p in stuck))
    && (forall p :: p in after ==> after[p] == before[p])
  }

  /** Beside what was there, only `added`, all of it new. */
  ghost predicate OnlyAdded(before: Files, after: Files, added: set<string>) {
    && (forall p :: p in before ==> p in after && after[p] == before[p] && p !in added)
    && (forall p :: p in after ==> p in before || p in added)
  }

  /** `value` as a credential that a client can open at `path`. */
  ghost predicate Usable(files: Files, value: string, source: SecretSource, path: string) {
    if FromVault(value) then source.secret.Some? && path in files && files[path] == source.secret.value
    else path == value
  }

  /** What the kubernetes client is configured with. */
  datatype Configuration = InCluster | ConfigFile(path: string) | BearerToken(token: string, caPath: Option<string>)

  datatype Configured = Configured(configuration: Configuration, cleanupPaths: seq<string>)

  /** The configuration uses the controller's first credentials in the order in_cluster, kubeconfig, token -
      each secret from Vault in a file that holds exactly it. */
  ghost predicate Ready(c: KubeController, k: Configuration, files: Files, first: SecretSource, second: SecretSource) {
    match k
    case InCluster => c.inCluster
    case ConfigFile(path) => !c.inCluster && c.kubeconfig != "" && Usable(files, c.kubeconfig, first, path)
    case BearerToken(token, caPath) =>
      && !c.inCluster && c.kubeconfig == "" && c.apiServer != "" && c.token != ""
      && (exists path :: path in files && Usable(files, c.token, first, path) && token == Strip(files[path]))
      && (caPath.Some? <==> c.caCert != "")
      && (caPath.Some? ==> Usable(files, c.caCert, second, caPath.value))
  }

  datatype ClientOutcome = Success | ApiError | Failure

  /** What formatting the templates of an action gives. Missing is a KeyError or IndexError (for a remote run also
      an action that defines nothing to run), which is reported; Malformed is any other error of format(), such
      as that of "{a" or of "{n:03d}" with a text, which nobody catches. */
  datatype Templates = Rendered | Missing | Malformed

  datatype KubeCall = KubeCall(
    known: bool,          // the verb is one of KUBE_ACTION_VERBS
    templates: Templates,
    dryRun: bool,
    configLoads: bool,    // loading the in-cluster or kubeconfig configuration works
    tokenReads: bool,     // reading an existing token file works
    outcome: ClientOutcome)

  datatype RemoteCall = RemoteCall(host: string, user: string, sshKey: string, templates: Templates, dryRun: bool, exitCode: Option<int>)

  datatype Verdict = Ok | Failed | Propagated

  /** When a configuration can be built: the first kind of credentials the controller has, and only that
      kind, resolves and loads. */
  predicate Configurable(c: KubeController, call: KubeCall, files: Files, first: SecretSource, second: SecretSource) {
    if c.inCluster then call.configLoads
    else if c.kubeconfig != "" then Materializes(c.kubeconfig, first) && call.configLoads
    else
      && c.apiServer != "" && c.token != ""
      && Materializes(c.token, first) && (FromVault(c.token) || c.token in files) && call.tokenReads
      && (c.caCert != "" ==> Materializes(c.caCert, second))
  }

  /** Whether run_remote gets as far as building the command. */
  predicate Addressed(call: RemoteCall) {
    call.host != "" && call.user != ""
  }

  /** Whether it gets as far as resolving the key. */
  predicate Starts(call: RemoteCall) {
    Addressed(call) && call.templates.Rendered? && !call.dryRun
  }

  class Executor {
    var files: Files

    /** os.unlink with its OSError ignored, where the caller ignores it. */
    method Unlink(path: string, ghost stuck: set<string>, works: bool)
      requires works <==> path !in stuck
      modifies this
      ensures Cleaned(old(files), files, {path}, stuck)
    {
      if works {
        files := files - {path};
      }
    }

    method UnlinkAll(paths: seq<string>, stuck: set<string>)
      modifies this
      ensures Cleaned(old(files), files, ToSet(paths), stuck)
    {
      for i := 0 to |paths|
        invariant Cleaned(old(files), files, ToSet(paths[..i]), stuck)
      {
        assert paths[..i + 1] == paths[..i] + [paths[i]];
        Unlink(paths[i], stuck, paths[i] !in stuck);
      }
      assert paths[..|paths|] == paths;
    }

    /** _resolve_secret_file. */
    method ResolveSecretFile(value: string, source: SecretSource, stuck: set<string>) returns (r: Attempt<Resolved>)
      requires source.tempName !in files
      modifies this
      ensures r.Done? && r.value.temp.None? ==> files == old(files) && r.value.path == value && !FromVault(value)
      ensures r.Done? && r.value.temp.Some? ==>
        && FromVault(value) && source.secret.Some? && r.value.path == source.tempName == r.value.temp.value
        && files == old(files)[source.tempName := source.secret.value]
      ensures r.Raised? ==> LeavesOnly(old(files), files, stuck)
      ensures r.Done? <==> Materializes(value, source)
      ensures r.Raised? ==> FromVault(value) && (r.fault.VaultUnavailable? <==> source.secret.None?)
    {
      if !FromVault(value) {
        return Done(Resolved(value, None));
      }
      if source.secret.None? {
        return Raised(VaultUnavailable);
      }
      if !source.created {
        return Raised(OtherFault);
      }
      files := files[source.tempName := ""];
      if source.written {
        files := files[source.tempName := source.secret.value];
        return Done(Resolved(source.tempName, Some(source.tempName)));
      }
      Unlink(source.tempName, stuck, source.tempName !in stuck);
      return Raised(OtherFault);
    }

    /** _build_kube_configuration: the configuration and the paths to clean up once the client is done,
        or what was raised - then with everything cleaned up already. */
    method BuildKubeConfiguration(c: KubeController, call: KubeCall, first: SecretSource, second: SecretSource, stuck: set<string>)
        returns (r: Attempt<Configured>)
      requires first.tempName !in files && second.tempName !in files && first.tempName != second.tempName
      modifies this
      ensures r.Done? <==> Configurable(c, call, old(files), first, second)
      ensures r.Raised? ==> LeavesOnly(old(files), files, stuck)
      ensures r.Done? ==>
        && OnlyAdded(old(files), files, ToSet(r.value.cleanupPaths))
        && Ready(c, r.value.configuration, files, first, second)
    {
      var cleanupPaths: seq<string> := [];
      if c.inCluster {
        return if call.configLoads then Done(Configured(InCluster, cleanupPaths)) else Raised(OtherFault);
      }
      if c.kubeconfig != "" {
        var resolved := ResolveSecretFile(c.kubeconfig, first, stuck);
        if resolved.Raised? {
          return Raised(resolved.fault);
        }
        if resolved.value.temp.Some? {
          cleanupPaths := [resolved.value.temp.value];
        }
        if !call.configLoads {
          UnlinkAll(cleanupPaths, stuck);
          return Raised(OtherFault);
        }
        return Done(Configured(ConfigFile(resolved.value.path), cleanupPaths));
      }
      if c.apiServer != "" && c.token != "" {
        r := BuildTokenConfiguration(c, call, first, second, stuck);
        return;
      }
      return Raised(OtherFault);
    }

    /** The api_server and token branch. */
    method BuildTokenConfiguration(c: KubeController, call: KubeCall, first: SecretSource, second: SecretSource, stuck: set<string>)
        returns (r: Attempt<Configured>)
      requires !c.inCluster && c.kubeconfig == "" && c.apiServer != "" && c.token != ""
      requires first.tempName !in files && second.tempName !in files && first.tempName != second.tempName
      modifies this
      ensures r.Done? <==> Configurable(c, call, old(files), first, second)
      ensures r.Raised? ==> LeavesOnly(old(files), files, stuck)
      ensures r.Done? ==>
        && OnlyAdded(old(files), files, ToSet(r.value.cleanupPaths))
        && Ready(c, r.value.configuration, files, first, second)
    {
      var resolved := ResolveSecretFile(c.token, first, stuck);
      if resolved.Raised? {
        return Raised(resolved.fault);
      }
      var tokenPath := resolved.value.path;
      var cleanupPaths := if resolved.value.temp.Some? then [resolved.value.temp.value] else [];
      if tokenPath !in files || !call.tokenReads {
        UnlinkAll(cleanupPaths, stuck);
        return Raised(OtherFault);
      }
      var token := Strip(files[tokenPath]);
      if c.caCert == "" {
        assert Usable(files, c.token, first, tokenPath);
        return Done(Configured(BearerToken(token, None), cleanupPaths));
      }
      var ca := ResolveSecretFile(c.caCert, second, stuck);
      if ca.Raised? {
        UnlinkAll(cleanupPaths, stuck);
        return Raised(ca.fault);
      }
      if ca.value.temp.Some? {
        cleanupPaths := cleanupPaths + [ca.value.temp.value];
      }
      assert tokenPath in files && Usable(files, c.token, first, tokenPath);
      return Done(Configured(BearerToken(token, Some(ca.value.path)), cleanupPaths));
    }

    /** run_kube_action: the files are what they were, whatever happens; `atCall` is what the client saw. Only a
        template that format() rejects makes it raise, before any secret is touched. */
    method RunKubeAction(c: KubeController, call: KubeCall, first: SecretSource, second: SecretSource, stuck: set<string>)
        returns (v: Verdict, ghost atCall: Option<(Configuration, Files)>)
      requires first.tempName !in files && second.tempName !in files && first.tempName != second.tempName
      modifies this
      ensures LeavesOnly(old(files), files, stuck)
      ensures call.dryRun || !call.known || !call.templates.Rendered? ==> files == old(files)
      ensures atCall.Some? <==>
        call.known && call.templates.Rendered? && !call.dryRun && Configurable(c, call, old(files), first, second)
      ensures v.Propagated? <==> call.known && call.templates.Malformed?
      ensures atCall.Some? ==> Ready(c, atCall.value.0, atCall.value.1, first, second)
      ensures v.Ok? <==> call.known && call.templates.Rendered? && (call.dryRun || (atCall.Some? && call.outcome.Success?))
    {
      atCall := None;
      if !call.known {
        return Failed, atCall;
      }
      match call.templates {
        case Missing => return Failed, atCall;
        case Malformed => return Propagated, atCall;
        case Rendered =>
      }
      if call.dryRun {
        return Ok, atCall;
      }
      var built := BuildKubeConfiguration(c, call, first, second, stuck);
      if built.Raised? {
        return Failed, atCall;
      }
      atCall := Some((built.value.configuration, files));
      v := if call.outcome.Success? then Ok else Failed;
      UnlinkAll(built.value.cleanupPaths, stuck);
    }

    /** run_remote. What propagates to the caller: a template that format() rejects, and a fault that is not
        Vault's while the key is materialized. */
    method RunRemote(call: RemoteCall, source: SecretSource, stuck: set<string>)
        returns (v: Verdict, ghost atCall: Option<(string, Files)>)
      requires source.tempName !in files
      modifies this
      ensures LeavesOnly(old(files), files, stuck)
      ensures !Starts(call) ==> files == old(files)
      ensures atCall.Some? <==> Starts(call) && Materializes(call.sshKey, source)
      ensures atCall.Some? ==> Usable(atCall.value.1, call.sshKey, source, atCall.value.0)
      ensures v.Propagated? <==>
        || (Addressed(call) && call.templates.Malformed?)
        || (Starts(call) && !Materializes(call.sshKey, source) && source.secret.Some?)
      ensures v.Ok? <==>
        Addressed(call) && call.templates.Rendered? && (call.dryRun || (atCall.Some? && call.exitCode == Some(0)))
    {
      atCall := None;
      if call.host == "" || call.user == "" {
        return Failed, atCall;
      }
      match call.templates {
        case Missing => return Failed, atCall;
        case Malformed => return Propagated, atCall;
        case Rendered =>
      }
      if call.dryRun {
        return Ok, atCall;
      }
      var key := ResolveSecretFile(call.sshKey, source, stuck);
      if key.Raised? {
        return if key.fault.VaultUnavailable? then Failed else Propagated, atCall;
      }
      atCall := Some((key.value.path, files));
      v := if call.exitCode == Some(0) then Ok else Failed;
      if key.value.temp.Some? {
        Unlink(key.value.temp.value, stuck, key.value.temp.value !in stuck);
      }
    }
  }
}
