/** The commands the deployment sends, built from the task's configuration:
    one action list per method of SilverStripeDeployTask, in the order the
    method issues them. */
module Commands {
  import opened Text
  import opened Shell

  /** One effect of the deployment: a shell command passed to execute over
      SSH, with its failOkay flag, or a command run on the local machine
      through the base task's exec (the scp upload of copyFile). */
  datatype Action = Exec(cmd: string, failOkay: bool) | Local(cmd: string)

  /** The local .managedfolders file as the task finds it: not a file, a file
      it may not read, or a readable file with its content. */
  datatype Manifest = Missing | Unreadable | Readable(content: string)

  /** The fields of the task that decide which commands are issued. */
  datatype Config = Config(
    localpath: string,
    package: string,
    apachegroup: string,
    remotepath: string,
    sapphirepath: string,
    incremental: bool,
    inplace: bool,
    host: string,
    port: string,
    username: string,
    privkeyfile: string)

  /** Paths inside a release tree, and the fixed parts of the commands. */
  const CacheDir := "/silverstripe-cache"
  const LocalConf := "/mysite/local.conf.php"
  const LocalYml := "/mysite/_config/local.yml"
  const EnvironmentFile := "/_ss_environment.php"
  const AssetsHtaccessSource := "/mysite/.assets-htaccess"
  const AssetsHtaccessFile := "/assets/.htaccess"
  const MaintenancePage := "/mysite/.htaccess-maintenance"
  const HtaccessBackup := "/mysite/.htaccess.bak"
  const DeployedMarker := "/DEPLOYED"
  const BackupScript := "/mysite/scripts/backup_database.php"
  const PreDeployScript := "/mysite/scripts/pre_deploy.php"
  const PreSwitchScript := "/mysite/scripts/pre_switch.php"
  const PostDeployScript := "/mysite/scripts/post_deploy.php"
  const FinaliseScript := "/mysite/scripts/finalise_deployment.php"
  const DevBuildScript := "/cli-script.php dev/build"
  const MakeDir := "mkdir --mode=2775 -p "
  const FullCopy := "rsync -rl --exclude=silverstripe-cache "
  const FileModes := " -type f -exec chmod 664 {} \\;"
  const DirModes := " -type d -exec chmod 2775 {} \\;"

  /** A date('YmdHis') value: fourteen decimal digits. */
  predicate IsTimestamp(ts: string) {
    |ts| == 14 && forall k :: 0 <= k < |ts| ==> '0' <= ts[k] <= '9'
  }

  /** A command whose failure aborts the deployment. */
  function Strict(cmd: string): Action { Exec(cmd, false) }

  /** A command run with failOkay set: its failure is ignored. */
  function Lenient(cmd: string): Action { Exec(cmd, true) }

  function CurrentPath(c: Config): string {
    c.remotepath + "/current"
  }

  /** The release directory configureReleaseDir chooses. */
  function ReleasePath(c: Config, ts: string): string {
    if c.inplace then CurrentPath(c) else c.remotepath + "/releases/" + ts
  }

  /** configureReleaseDir: create the cache and assets directories of a new
      release; nothing in place. */
  function ConfigureReleaseDirActions(c: Config, ts: string): seq<Action> {
    if c.inplace then []
    else
      var release := ReleasePath(c, ts);
      [Strict(MakeDir + release + CacheDir), Strict(MakeDir + release + "/assets")]
  }

  function AssetsHtaccess(release: string): Action {
    Strict("cp " + release + AssetsHtaccessSource + " " + release + AssetsHtaccessFile)
  }

  /** The configuration files both seeding policies copy from the live tree. */
  function CopyConfigs(release: string, current: string): seq<Action> {
    var localConf := current + LocalYml;
    [Strict("cp " + current + "/.htaccess " + release + "/"),
     Strict("cp " + current + EnvironmentFile + " " + release + "/"),
     Strict("cp " + current + LocalConf + " " + release + LocalConf),
     Strict("if [ -f " + localConf + " ]; then cp " + localConf + " " + release + "/mysite/_config/; fi")]
  }

  function FullCopyCmd(release: string, current: string): string {
    FullCopy + current + "/* " + release + "/"
  }

  /** beforeDeploy: the incremental seeding, before extraction. */
  function BeforeDeployActions(c: Config, release: string, current: string): seq<Action> {
    if c.incremental && !c.inplace then
      [Strict(FullCopyCmd(release, current)), AssetsHtaccess(release)] + CopyConfigs(release, current)
    else []
  }

  /** extractPackage: unpack the uploaded package, then delete it. */
  function ExtractPackageActions(remotePackage: string, release: string): seq<Action> {
    [Strict("tar -zx -C " + release + " -f " + remotePackage), Strict("rm " + remotePackage)]
  }

  /** A manifest line as copyManagedFolders cleans it: trimmed, then without
      line feeds and carriage returns. */
  function CleanFolder(line: string): string {
    RemoveChars(Trim(line), {'\n', '\r'})
  }

  /** The folders named by the manifest lines, in order, blank lines skipped. */
  function ManagedFolders(lines: seq<string>): (folders: seq<string>)
    ensures |folders| <= |lines|
  {
    if lines == [] then []
    else
      var folder := CleanFolder(lines[0]);
      (if HasNonSpace(folder) then [folder] else []) + ManagedFolders(lines[1..])
  }

  /** Every folder taken from the manifest has a non-blank name without line
      breaks. */
  lemma {:induction false} ManagedFoldersAreClean(lines: seq<string>)
    ensures forall i :: 0 <= i < |ManagedFolders(lines)| ==> HasNonSpace(ManagedFolders(lines)[i])
    ensures forall i :: 0 <= i < |ManagedFolders(lines)| ==>
              '\n' !in ManagedFolders(lines)[i] && '\r' !in ManagedFolders(lines)[i]
  {
    if lines != [] {
      var folder := CleanFolder(lines[0]);
      var rest := ManagedFolders(lines[1..]);
      ManagedFoldersAreClean(lines[1..]);
      assert '\n' !in folder && '\r' !in folder by {
        forall k | 0 <= k < |folder| ensures folder[k] != '\n' && folder[k] != '\r' { }
      }
      var head := if HasNonSpace(folder) then [folder] else [];
      assert ManagedFolders(lines) == head + rest;
      forall i | 0 <= i < |head + rest|
        ensures HasNonSpace((head + rest)[i])
        ensures '\n' !in (head + rest)[i] && '\r' !in (head + rest)[i]
      {
        if i >= |head| {
          assert (head + rest)[i] == rest[i - |head|];
        }
      }
    }
  }

  /** The folders of the manifest from line i on: line i's folder, unless it
      is blank, then those of the following lines. */
  lemma ManagedFoldersStep(lines: seq<string>, i: nat)
    requires i < |lines|
    ensures ManagedFolders(lines[i..]) ==
            (if HasNonSpace(CleanFolder(lines[i])) then [CleanFolder(lines[i])] else []) + ManagedFolders(lines[i + 1..])
  {
    assert lines[i..][0] == lines[i] && lines[i..][1..] == lines[i + 1..];
  }

  /** The folders of a manifest are those of its first lines followed by
      those of the rest: each line is read on its own. */
  lemma {:induction false} ManagedFoldersAppend(a: seq<string>, b: seq<string>)
    ensures ManagedFolders(a + b) == ManagedFolders(a) + ManagedFolders(b)
    decreases |a|
  {
    if a == [] {
      assert a + b == b;
    } else {
      var folder := CleanFolder(a[0]);
      var head := if HasNonSpace(folder) then [folder] else [];
      assert (a + b)[0] == a[0];
      assert (a + b)[1..] == a[1..] + b;
      ManagedFoldersAppend(a[1..], b);
      AppendAssoc(head, ManagedFolders(a[1..]), ManagedFolders(b));
    }
  }

  function FolderCmd(release: string, current: string, folder: string): string {
    var source := current + "/" + folder;
    var destination := release + "/" + folder;
    "if [ -d " + source + " ]; then rsync -rl " + source + " " + destination + "; fi"
  }

  /** One guarded rsync per folder, in order. */
  function FolderActions(release: string, current: string, folders: seq<string>): (r: seq<Action>)
    ensures |r| == |folders|
  {
    if folders == [] then []
    else [Strict(FolderCmd(release, current, folders[0]))] + FolderActions(release, current, folders[1..])
  }

  lemma {:induction false} FolderActionsAppend(release: string, current: string, a: seq<string>, b: seq<string>)
    ensures FolderActions(release, current, a + b) == FolderActions(release, current, a) + FolderActions(release, current, b)
    decreases |a|
  {
    if a == [] {
      assert a + b == b;
    } else {
      assert (a + b)[0] == a[0];
      assert (a + b)[1..] == a[1..] + b;
      FolderActionsAppend(release, current, a[1..], b);
    }
  }

  /** The actions for the manifest from line i on: the copy of line i's
      folder, unless it is blank, then those of the following lines. */
  lemma FolderActionsStep(release: string, current: string, lines: seq<string>, i: nat)
    requires i < |lines|
    ensures HasNonSpace(CleanFolder(lines[i])) ==>
              FolderActions(release, current, ManagedFolders(lines[i..])) ==
              [Strict(FolderCmd(release, current, CleanFolder(lines[i])))]
                + FolderActions(release, current, ManagedFolders(lines[i + 1..]))
    ensures !HasNonSpace(CleanFolder(lines[i])) ==>
              FolderActions(release, current, ManagedFolders(lines[i..])) ==
              FolderActions(release, current, ManagedFolders(lines[i + 1..]))
  {
    var folder := CleanFolder(lines[i]);
    var later := ManagedFolders(lines[i + 1..]);
    ManagedFoldersStep(lines, i);
    if HasNonSpace(folder) {
      assert ([folder] + later)[0] == folder && ([folder] + later)[1..] == later;
    } else {
      assert [] + later == later;
    }
  }

  /** The i-th action copies the i-th folder. */
  lemma {:induction false} FolderActionsPointwise(release: string, current: string, folders: seq<string>)
    ensures forall i :: 0 <= i < |folders| ==>
              FolderActions(release, current, folders)[i] == Strict(FolderCmd(release, current, folders[i]))
  {
    if folders != [] {
      FolderActionsPointwise(release, current, folders[1..]);
    }
  }

  /** copyManagedFolders: nothing unless the manifest is a readable file. */
  function ManagedFolderActions(release: string, current: string, manifest: Manifest): seq<Action> {
    match manifest
    case Readable(content) => FolderActions(release, current, ManagedFolders(FileLines(content)))
    case _ => []
  }

  /** The command executeOptionalPhpScript sends for `script` and `args`. */
  function OptionalScriptCmd(script: string, args: seq<string>): string {
    var exe := Escape(script);
    "if [ -e " + exe + " ]; then php " + exe + " " + Arguments(args) + "; fi"
  }

  function OptionalScript(script: string, args: seq<string>): Action {
    Strict(OptionalScriptCmd(script, args))
  }

  function AssetsCopyCmd(release: string, current: string): string {
    "rsync -rl " + current + "/assets " + release + "/"
  }

  /** doDeploy's first block: the full (not incremental) seeding, after
      extraction. */
  function SeedActions(c: Config, release: string, current: string, manifest: Manifest): seq<Action> {
    if !c.incremental && !c.inplace then
      SeedCopies(release, current) + ManagedFolderActions(release, current, manifest)
    else []
  }

  /** The configuration files and the assets tree copied from the live
      release, and the assets .htaccess. */
  function SeedCopies(release: string, current: string): seq<Action> {
    CopyConfigs(release, current)
      + [Strict(AssetsCopyCmd(release, current)), AssetsHtaccess(release)]
  }

  function SaveHtaccessCmd(release: string): string {
    "cp " + release + "/.htaccess " + release + HtaccessBackup
  }

  /** Install the maintenance .htaccess of the release onto `target`, if the
      release ships one. */
  function MaintenanceCmd(release: string, target: string): string {
    var maintenance := release + MaintenancePage;
    "if [ -f " + maintenance + " ]; then cp " + maintenance + " " + target + "/.htaccess; fi"
  }

  function DevBuildCmd(c: Config, release: string): string {
    "php " + release + "/" + c.sapphirepath + DevBuildScript
  }

  function RestoreHtaccessCmd(release: string): string {
    var backup := release + HtaccessBackup;
    "if [ -f " + backup + " ]; then cp " + backup + " " + release + "/.htaccess; fi"
  }

  function MarkerCmd(release: string): string {
    "touch " + release + DeployedMarker
  }

  /** doDeploy from the database backup to dev/build. */
  function BuildActions(c: Config, release: string, current: string): seq<Action> {
    [Strict("php " + current + BackupScript),
     Strict(SaveHtaccessCmd(release)),
     Strict(MaintenanceCmd(release, current)),
     Strict(MaintenanceCmd(release, release)),
     Strict(DevBuildCmd(c, release))]
  }

  /** Group ownership and modes 664 / 2775 under `dir`; failures ignored. */
  function PermissionActions(group: string, dir: string): seq<Action> {
    [Lenient("chgrp -R " + group + " " + dir),
     Lenient("find " + dir + FileModes),
     Lenient("find " + dir + DirModes)]
  }

  /** preLinkSwitch: the pre_switch hook, then the cache permissions. */
  function PreLinkSwitchActions(c: Config, release: string): seq<Action> {
    [OptionalScript(release + PreSwitchScript, [Dirname(release)])]
      + PermissionActions(c.apachegroup, release + CacheDir)
  }

  /** The symlink switch: remove the current link, link it to the release. */
  function SwitchActions(release: string, current: string): seq<Action> {
    [Strict("rm " + current), Strict("ln -s " + release + " " + current)]
  }

  function FinishActions(release: string): seq<Action> {
    [Strict(RestoreHtaccessCmd(release)), Strict(MarkerCmd(release))]
  }

  /** doDeploy: seeding, pre_deploy hook and build, link switch (not in
      place), .htaccess restore and the DEPLOYED marker. */
  function DoDeployActions(c: Config, release: string, current: string, manifest: Manifest): seq<Action> {
    SeedActions(c, release, current, manifest)
      + BuildPhaseActions(c, release, current)
      + LinkActions(c, release, current)
      + FinishActions(release)
  }

  /** The pre_deploy hook, then the build. */
  function BuildPhaseActions(c: Config, release: string, current: string): seq<Action> {
    [OptionalScript(release + PreDeployScript, [])] + BuildActions(c, release, current)
  }

  /** The link switch of a new release: nothing when deploying in place. */
  function LinkActions(c: Config, release: string, current: string): seq<Action> {
    if c.inplace then [] else PreLinkSwitchActions(c, release) + SwitchActions(release, current)
  }

  /** postDeploy: post_deploy hook, cache then whole-tree permissions, and
      the finalise_deployment hook. */
  function PostDeployActions(c: Config, release: string): seq<Action> {
    var parent := Dirname(release);
    [OptionalScript(release + PostDeployScript, [parent])]
      + PostDeployPermissions(c, release)
      + [OptionalScript(release + FinaliseScript, [parent])]
  }

  /** The cache permissions, then those of the whole release. */
  function PostDeployPermissions(c: Config, release: string): seq<Action> {
    PermissionActions(c.apachegroup, release + CacheDir)
      + PermissionActions(c.apachegroup, release)
  }

  /** PHP's truth value of a string: false only for "" and "0". */
  predicate Truthy(s: string) {
    s != "" && s != "0"
  }

  /** copyFile: the scp command line uploading `local` to `remote`, with the
      port option only when the port is truthy. */
  function ScpCmd(c: Config, local: string, remote: string): string {
    var port := if Truthy(c.port) then " -P " + c.port + " " else "";
    "scp -i " + c.privkeyfile + " " + port + " " + local + " " + c.username + "@" + c.host + ":" + remote
  }

  /** main: plan the release directory, then ship the release into it. */
  function DeployActions(c: Config, ts: string, manifest: Manifest): seq<Action> {
    ConfigureReleaseDirActions(c, ts) + ShipActions(c, ReleasePath(c, ts), CurrentPath(c), manifest)
  }

  /** The rest of main: upload and unpack the package, then doDeploy and
      postDeploy. */
  function ShipActions(c: Config, release: string, current: string, manifest: Manifest): seq<Action> {
    UploadActions(c, release, current) + InstallActions(c, release, current, manifest)
  }

  /** The package's path in the release directory. */
  function RemotePackage(c: Config, release: string): string {
    release + "/" + c.package
  }

  /** The upload of the package, beforeDeploy and extractPackage. */
  function UploadActions(c: Config, release: string, current: string): seq<Action> {
    [Local(ScpCmd(c, c.localpath + "/" + c.package, RemotePackage(c, release)))]
      + BeforeDeployActions(c, release, current)
      + ExtractPackageActions(RemotePackage(c, release), release)
  }

  /** doDeploy, then postDeploy. */
  function InstallActions(c: Config, release: string, current: string, manifest: Manifest): seq<Action> {
    DoDeployActions(c, release, current, manifest) + PostDeployActions(c, release)
  }
}
