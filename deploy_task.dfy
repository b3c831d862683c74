/** The deployment task itself: its configuration fields, its setters, the
    execute channel, and the pipeline methods, each issuing the action list
    of module Commands and stopping at the first exception. */
module DeployTask {
  import opened Wrappers
  import opened Text
  import opened Commands
  import opened Remote
  import opened Settings

  class SilverStripeDeployTask {
    /** The settings the issued commands depend on: local path, package,
        apache group, remote path, framework path, the incremental and
        in-place switches, host, port, user name and private key file. */
    var config: Config
    var password: string
    var pubkeyfile: string
    var privkeyfilepassphrase: string
    var ignoreerrors: bool
    /** Every command sent over SSH and every local command run, in order. */
    var log: seq<Event>
    /** The remote host's replies. */
    const remote: Responder

    /** A task with the declared defaults and an empty log. */
    constructor (remote: Responder)
      ensures config == Config("", "", "apache", "", "framework", false, false, "", "22", "", "")
      ensures password == "" && pubkeyfile == "" && privkeyfilepassphrase == "" && !ignoreerrors
      ensures log == [] && this.remote == remote
    {
      config := Config("", "", "apache", "", "framework", false, false, "", "22", "", "");
      password := "";
      pubkeyfile := "";
      privkeyfilepassphrase := "";
      ignoreerrors := false;
      log := [];
      this.remote := remote;
    }

    method SetIncremental(v: SettingValue)
      modifies this`config
      ensures config == old(config).(incremental := Coerce(v))
    {
      config := config.(incremental := Coerce(v));
    }

    method SetInplace(v: SettingValue)
      modifies this`config
      ensures config == old(config).(inplace := Coerce(v))
    {
      config := config.(inplace := Coerce(v));
    }

    method SetIgnoreErrors(v: SettingValue)
      modifies this`ignoreerrors
      ensures ignoreerrors == Coerce(v)
    {
      ignoreerrors := Coerce(v);
    }

    method SetPort(v: string)
      modifies this`config
      ensures config == old(config).(port := if Contains(v, Placeholder) then old(config.port) else v)
    {
      config := config.(port := Guarded(config.port, v));
    }

    method SetPassword(v: string)
      modifies this`password
      ensures password == if Contains(v, Placeholder) then old(password) else v
    {
      password := Guarded(password, v);
    }

    method SetPubkeyfile(v: string)
      modifies this`pubkeyfile
      ensures pubkeyfile == if Contains(v, Placeholder) then old(pubkeyfile) else v
    {
      pubkeyfile := Guarded(pubkeyfile, v);
    }

    /** Send `cmd` wrapped with the sentinel echo, read its output, and judge
        it: the value on success, the exception's message otherwise. */
    method Execute(cmd: string, failOkay: bool) returns (r: Result<string>)
      modifies this`log
      ensures log == old(log) + [Sent(Wire(cmd))]
      ensures r == Judge(remote(|old(log)|, Wire(cmd)), ignoreerrors, failOkay)
    {
      var command := Wire(cmd);
      var reply := remote(|log|, command);
      log := log + [Sent(command)];
      match reply
      case NoStream =>
        r := Err(NoStreamError);
      case Captured(data) =>
        if Find(data, Sentinel).Some? || ignoreerrors || failOkay {
          r := Ok(DeleteAll(data, Sentinel));
        } else {
          r := Err(FailurePrefix + data);
        }
    }

    /** A command run on the local machine by the base task. */
    method RunLocal(cmd: string)
      modifies this`log
      ensures log == old(log) + [Ran(cmd)]
    {
      log := log + [Ran(cmd)];
    }

    /** Upload a file with scp. */
    method CopyFile(localEndpoint: string, remoteEndpoint: string)
      modifies this`log
      ensures log == old(log) + [Ran(ScpCmd(config, localEndpoint, remoteEndpoint))]
      ensures Perform(remote, ignoreerrors, old(log), [Local(ScpCmd(config, localEndpoint, remoteEndpoint))])
              == Trace(log, Pass)
    {
      RunLocal(ScpCmd(config, localEndpoint, remoteEndpoint));
      PerformSingle(remote, ignoreerrors, old(log), Local(ScpCmd(config, localEndpoint, remoteEndpoint)));
    }

    /** Issue consecutive actions one after the other; an exception stops
        the run. */
    method ExecuteAll(acts: seq<Action>) returns (r: Outcome)
      modifies this`log
      ensures Perform(remote, ignoreerrors, old(log), acts) == Trace(log, r)
    {
      var i := 0;
      while i < |acts|
        invariant 0 <= i <= |acts|
        invariant Perform(remote, ignoreerrors, old(log), acts) == Perform(remote, ignoreerrors, log, acts[i..])
      {
        assert acts[i..][0] == acts[i] && acts[i..][1..] == acts[i + 1..];
        if acts[i].Local? {
          RunLocal(acts[i].cmd);
        } else {
          var e := Execute(acts[i].cmd, acts[i].failOkay);
          if e.Err? {
            return Fail(e.error);
          }
        }
        i := i + 1;
      }
      return Pass;
    }

    /** Choose the release directory and, for a new release, create its
        cache and assets directories. */
    method ConfigureReleaseDir(ts: string) returns (releasePath: string, r: Outcome)
      modifies this`log
      ensures releasePath == ReleasePath(config, ts)
      ensures Perform(remote, ignoreerrors, old(log), ConfigureReleaseDirActions(config, ts)) == Trace(log, r)
    {
      if config.inplace {
        releasePath := config.remotepath + "/current";
        r := Pass;
      } else {
        releasePath := config.remotepath + "/releases/" + ts;
        r := ExecuteAll(ConfigureReleaseDirActions(config, ts));
      }
    }

    method BeforeDeploy(releasePath: string, currentPath: string) returns (r: Outcome)
      modifies this`log
      ensures Perform(remote, ignoreerrors, old(log), BeforeDeployActions(config, releasePath, currentPath)) == Trace(log, r)
    {
      r := ExecuteAll(BeforeDeployActions(config, releasePath, currentPath));
    }

    method ExtractPackage(remotePackage: string, releasePath: string) returns (r: Outcome)
      modifies this`log
      ensures Perform(remote, ignoreerrors, old(log), ExtractPackageActions(remotePackage, releasePath)) == Trace(log, r)
    {
      r := ExecuteAll(ExtractPackageActions(remotePackage, releasePath));
    }

    /** Run `script` with `args` on the remote host if it exists there. */
    method ExecuteOptionalPhpScript(script: string, args: seq<string>) returns (r: Outcome)
      modifies this`log
      ensures log == old(log) + [Sent(Wire(OptionalScriptCmd(script, args)))]
      ensures Perform(remote, ignoreerrors, old(log), [OptionalScript(script, args)]) == Trace(log, r)
    {
      var e := Execute(OptionalScriptCmd(script, args), false);
      r := if e.Ok? then Pass else Fail(e.error);
    }

    /** Copy every folder the readable manifest names from the live tree into
        the release; `found` says whether the manifest could be read. */
    method CopyManagedFolders(releasePath: string, currentPath: string, manifest: Manifest)
      returns (r: Outcome, found: bool)
      modifies this`log
      ensures found <==> manifest.Readable?
      ensures Perform(remote, ignoreerrors, old(log), ManagedFolderActions(releasePath, currentPath, manifest)) == Trace(log, r)
    {
      if !manifest.Readable? {
        return Pass, false;
      }
      found := true;
      var lines := FileLines(manifest.content);
      var i := 0;
      while i < |lines|
        invariant 0 <= i <= |lines|
        invariant Perform(remote, ignoreerrors, old(log), ManagedFolderActions(releasePath, currentPath, manifest))
                  == Perform(remote, ignoreerrors, log, FolderActions(releasePath, currentPath, ManagedFolders(lines[i..])))
      {
        var folder := CleanFolder(lines[i]);
        FolderActionsStep(releasePath, currentPath, lines, i);
        if HasNonSpace(folder) {
          PerformFirst(remote, ignoreerrors, log, Strict(FolderCmd(releasePath, currentPath, folder)),
                       FolderActions(releasePath, currentPath, ManagedFolders(lines[i + 1..])));
          var e := Execute(FolderCmd(releasePath, currentPath, folder), false);
          if e.Err? {
            return Fail(e.error), true;
          }
        }
        i := i + 1;
      }
      return Pass, true;
    }

    /** The pre_switch hook, then the cache permissions. */
    method PreLinkSwitch(releasePath: string) returns (r: Outcome)
      modifies this`log
      ensures Perform(remote, ignoreerrors, old(log), PreLinkSwitchActions(config, releasePath)) == Trace(log, r)
    {
      var hook := [OptionalScript(releasePath + PreSwitchScript, [Dirname(releasePath)])];
      var perms := PermissionActions(config.apachegroup, releasePath + CacheDir);
      r := ExecuteOptionalPhpScript(releasePath + PreSwitchScript, [Dirname(releasePath)]);
      ghost var t1 := Trace(log, r);
      if r.Pass? {
        r := ExecuteAll(perms);
      }
      Steps2(remote, ignoreerrors, old(log), hook, perms, t1, Trace(log, r));
    }

    /** The post_deploy hook, the permissions, and the finalise_deployment
        hook. */
    method PostDeploy(releasePath: string) returns (r: Outcome)
      modifies this`log
      ensures Perform(remote, ignoreerrors, old(log), PostDeployActions(config, releasePath)) == Trace(log, r)
    {
      var arg := Dirname(releasePath);
      ghost var first := [OptionalScript(releasePath + PostDeployScript, [arg])];
      var perms := PostDeployPermissions(config, releasePath);
      ghost var last := [OptionalScript(releasePath + FinaliseScript, [arg])];
      r := ExecuteOptionalPhpScript(releasePath + PostDeployScript, [arg]);
      ghost var t1 := Trace(log, r);
      if r.Pass? {
        r := ExecuteAll(perms);
      }
      ghost var t2 := Trace(log, r);
      if r.Pass? {
        r := ExecuteOptionalPhpScript(releasePath + FinaliseScript, [arg]);
      }
      Steps3(remote, ignoreerrors, old(log), first, perms, last, t1, t2, Trace(log, r));
    }

    /** doDeploy's first block: with the full copy policy for a new
        release, copy the configuration files and the assets from the live
        release, then the managed folders. */
    method SeedRelease(releasePath: string, currentPath: string, manifest: Manifest) returns (r: Outcome)
      modifies this`log
      ensures Perform(remote, ignoreerrors, old(log), SeedActions(config, releasePath, currentPath, manifest)) == Trace(log, r)
    {
      if !config.incremental && !config.inplace {
        var copies := SeedCopies(releasePath, currentPath);
        r := ExecuteAll(copies);
        ghost var t := Trace(log, r);
        if r.Pass? {
          var found;
          r, found := CopyManagedFolders(releasePath, currentPath, manifest);
        }
        Steps2(remote, ignoreerrors, old(log), copies, ManagedFolderActions(releasePath, currentPath, manifest), t, Trace(log, r));
      } else {
        r := Pass;
      }
    }

    /** doDeploy's middle: the pre_deploy hook, the database backup, the
        maintenance .htaccess and dev/build. */
    method BuildRelease(releasePath: string, currentPath: string) returns (r: Outcome)
      modifies this`log
      ensures Perform(remote, ignoreerrors, old(log), BuildPhaseActions(config, releasePath, currentPath)) == Trace(log, r)
    {
      ghost var hook := [OptionalScript(releasePath + PreDeployScript, [])];
      var build := BuildActions(config, releasePath, currentPath);
      r := ExecuteOptionalPhpScript(releasePath + PreDeployScript, []);
      ghost var t1 := Trace(log, r);
      if r.Pass? {
        r := ExecuteAll(build);
      }
      Steps2(remote, ignoreerrors, old(log), hook, build, t1, Trace(log, r));
    }

    /** doDeploy's link switch, for a new release only: the preLinkSwitch
        step, then the current link replaced by one to the release. */
    method SwitchRelease(releasePath: string, currentPath: string) returns (r: Outcome)
      modifies this`log
      ensures Perform(remote, ignoreerrors, old(log), LinkActions(config, releasePath, currentPath)) == Trace(log, r)
    {
      if !config.inplace {
        var switch := SwitchActions(releasePath, currentPath);
        r := PreLinkSwitch(releasePath);
        ghost var t1 := Trace(log, r);
        if r.Pass? {
          r := ExecuteAll(switch);
        }
        Steps2(remote, ignoreerrors, old(log), PreLinkSwitchActions(config, releasePath), switch, t1, Trace(log, r));
      } else {
        r := Pass;
      }
    }

    /** Seed the release, build it, switch the link, restore .htaccess and
        mark the release deployed; an exception ends the method. */
    method DoDeploy(releasePath: string, currentPath: string, manifest: Manifest) returns (r: Outcome)
      modifies this`log
      ensures Perform(remote, ignoreerrors, old(log), DoDeployActions(config, releasePath, currentPath, manifest)) == Trace(log, r)
    {
      ghost var log0 := log;
      ghost var seed := SeedActions(config, releasePath, currentPath, manifest);
      ghost var build := BuildPhaseActions(config, releasePath, currentPath);
      ghost var link := LinkActions(config, releasePath, currentPath);
      var finish := FinishActions(releasePath);
      r := SeedRelease(releasePath, currentPath, manifest);
      if r.Fail? {
        FailedRunStops(remote, ignoreerrors, log0, seed, build);
        FailedRunStops(remote, ignoreerrors, log0, seed + build, link);
        FailedRunStops(remote, ignoreerrors, log0, seed + build + link, finish);
        return;
      }
      ghost var l1 := log;
      r := BuildRelease(releasePath, currentPath);
      Extend(remote, ignoreerrors, log0, seed, l1, build, Trace(log, r));
      if r.Fail? {
        FailedRunStops(remote, ignoreerrors, log0, seed + build, link);
        FailedRunStops(remote, ignoreerrors, log0, seed + build + link, finish);
        return;
      }
      ghost var l2 := log;
      r := SwitchRelease(releasePath, currentPath);
      Extend(remote, ignoreerrors, log0, seed + build, l2, link, Trace(log, r));
      if r.Fail? {
        FailedRunStops(remote, ignoreerrors, log0, seed + build + link, finish);
        return;
      }
      ghost var l3 := log;
      r := ExecuteAll(finish);
      Extend(remote, ignoreerrors, log0, seed + build + link, l3, finish, Trace(log, r));
    }

    /** main: ask for the password when no key file and no password are set,
        then run the deployment. `answer` is the password typed at the
        prompt. */
    method Deploy(ts: string, manifest: Manifest, answer: string) returns (r: Outcome)
      modifies this`log, this`password
      ensures password == if old(pubkeyfile) == "" && old(password) == "" then answer else old(password)
      ensures Perform(remote, ignoreerrors, old(log), DeployActions(config, ts, manifest)) == Trace(log, r)
    {
      if pubkeyfile == "" && password == "" {
        password := answer;
      }
      r := Run(ts, manifest);
    }

    /** The rest of main: plan the release directory, upload and unpack
        the package, and install the release, the first exception ending
        the deployment. `ts` is the date('YmdHis') of the run. */
    method Run(ts: string, manifest: Manifest) returns (r: Outcome)
      modifies this`log
      ensures Perform(remote, ignoreerrors, old(log), DeployActions(config, ts, manifest)) == Trace(log, r)
    {
      var currentPath := CurrentPath(config);
      var releasePath;
      releasePath, r := ConfigureReleaseDir(ts);
      ghost var t1 := Trace(log, r);
      if r.Pass? {
        r := ShipRelease(releasePath, currentPath, manifest);
      }
      Steps2(remote, ignoreerrors, old(log), ConfigureReleaseDirActions(config, ts),
             ShipActions(config, releasePath, currentPath, manifest), t1, Trace(log, r));
    }

    /** Everything main does once the release directory is ready: the
        upload block, then doDeploy and postDeploy. */
    method ShipRelease(releasePath: string, currentPath: string, manifest: Manifest) returns (r: Outcome)
      modifies this`log
      ensures Perform(remote, ignoreerrors, old(log), ShipActions(config, releasePath, currentPath, manifest)) == Trace(log, r)
    {
      ghost var upload := UploadActions(config, releasePath, currentPath);
      r := UploadRelease(releasePath, currentPath);
      ghost var t1 := Trace(log, r);
      if r.Pass? {
        r := InstallRelease(releasePath, currentPath, manifest);
      }
      Steps2(remote, ignoreerrors, old(log), upload, InstallActions(config, releasePath, currentPath, manifest),
             t1, Trace(log, r));
    }

    /** Copy the package to the release directory, then beforeDeploy and
        extractPackage. */
    method UploadRelease(releasePath: string, currentPath: string) returns (r: Outcome)
      modifies this`log
      ensures Perform(remote, ignoreerrors, old(log), UploadActions(config, releasePath, currentPath)) == Trace(log, r)
    {
      ghost var log0 := log;
      var remotePackage := releasePath + "/" + config.package;
      var localPackage := config.localpath + "/" + config.package;
      ghost var upload := [Local(ScpCmd(config, localPackage, remotePackage))];
      ghost var before := BeforeDeployActions(config, releasePath, currentPath);
      ghost var extract := ExtractPackageActions(remotePackage, releasePath);
      CopyFile(localPackage, remotePackage);
      ghost var l1 := log;
      r := BeforeDeploy(releasePath, currentPath);
      Extend(remote, ignoreerrors, log0, upload, l1, before, Trace(log, r));
      if r.Fail? {
        FailedRunStops(remote, ignoreerrors, log0, upload + before, extract);
        return;
      }
      ghost var l2 := log;
      r := ExtractPackage(remotePackage, releasePath);
      Extend(remote, ignoreerrors, log0, upload + before, l2, extract, Trace(log, r));
    }

    /** doDeploy, then postDeploy unless doDeploy threw. */
    method InstallRelease(releasePath: string, currentPath: string, manifest: Manifest) returns (r: Outcome)
      modifies this`log
      ensures Perform(remote, ignoreerrors, old(log), InstallActions(config, releasePath, currentPath, manifest)) == Trace(log, r)
    {
      ghost var log0 := log;
      ghost var main := DoDeployActions(config, releasePath, currentPath, manifest);
      ghost var post := PostDeployActions(config, releasePath);
      r := DoDeploy(releasePath, currentPath, manifest);
      if r.Fail? {
        FailedRunStops(remote, ignoreerrors, log0, main, post);
        return;
      }
      ghost var l1 := log;
      r := PostDeploy(releasePath);
      Extend(remote, ignoreerrors, log0, main, l1, post, Trace(log, r));
    }
  }
}
