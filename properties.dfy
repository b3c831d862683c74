/** What the deployment's action lists promise: where the release goes, which
    seeding block runs, the order of the .htaccess, build, link switch and
    marker commands, and how the manifest becomes rsync commands. */
module Properties {
  import opened Wrappers
  import opened Text
  import opened Commands
  import opened Remote

  /** The remote root as the build file gives it: a path without a
      trailing slash. */
  predicate PlainRoot(root: string) {
    root != [] && root[|root| - 1] != '/'
  }

  /** The live link sits directly under the remote root. */
  lemma CurrentParent(c: Config)
    requires PlainRoot(c.remotepath)
    ensures Dirname(CurrentPath(c)) == c.remotepath
  {
    var name := "current";
    assert CurrentPath(c) == c.remotepath + "/" + name;
    assert forall k :: 0 <= k < |name| ==> name[k] != '/';
    DirnameChild(c.remotepath, name);
  }

  /** configureReleaseDir creates directories exactly when the release is
      new. In place the release is the live tree, whose parent the hooks
      receive as the remote root; otherwise it is a child of
      remotepath/releases named by the timestamp. */
  lemma ReleaseDirPlan(c: Config, ts: string)
    requires PlainRoot(c.remotepath) && IsTimestamp(ts)
    ensures ConfigureReleaseDirActions(c, ts) == [] <==> c.inplace
    ensures c.inplace ==> ReleasePath(c, ts) == CurrentPath(c) && Dirname(ReleasePath(c, ts)) == c.remotepath
    ensures !c.inplace ==> Dirname(ReleasePath(c, ts)) == c.remotepath + "/releases"
  {
    if c.inplace {
      CurrentParent(c);
    } else {
      var parent := c.remotepath + "/releases";
      assert parent[|parent| - 1] == 's';
      forall k | 0 <= k < |ts| ensures ts[k] != '/' {
        assert '0' <= ts[k] <= '9';
      }
      assert ReleasePath(c, ts) == parent + "/" + ts;
      DirnameChild(parent, ts);
    }
  }

  /** Two runs at different times never share a new release directory. */
  lemma ReleasesAreDistinct(c: Config, ts1: string, ts2: string)
    requires !c.inplace && ts1 != ts2
    ensures ReleasePath(c, ts1) != ReleasePath(c, ts2)
  {
    var prefix := c.remotepath + "/releases/";
    assert ReleasePath(c, ts1) == prefix + ts1 && ReleasePath(c, ts2) == prefix + ts2;
    assert (prefix + ts1)[|prefix|..] == ts1 && (prefix + ts2)[|prefix|..] == ts2;
  }

  /** The incremental block of beforeDeploy and the full block of doDeploy
      exclude each other, and neither runs in place. */
  lemma SeedingIsExclusive(c: Config, release: string, current: string, manifest: Manifest)
    ensures BeforeDeployActions(c, release, current) != [] <==> c.incremental && !c.inplace
    ensures SeedActions(c, release, current, manifest) != [] <==> !c.incremental && !c.inplace
    ensures BeforeDeployActions(c, release, current) == [] || SeedActions(c, release, current, manifest) == []
  {
    if !c.incremental && !c.inplace {
      assert |SeedCopies(release, current)| == 6;
    }
  }

  /** doDeploy after its seeding block: the pre_deploy hook and the build,
      the link switch of a new release, and the finish. */
  function AfterSeed(c: Config, release: string, current: string): seq<Action> {
    BuildPhaseActions(c, release, current) + LinkActions(c, release, current) + FinishActions(release)
  }

  /** doDeploy is its seeding block followed by the rest. */
  lemma DoDeployAfterSeed(c: Config, release: string, current: string, manifest: Manifest)
    ensures var acts := DoDeployActions(c, release, current, manifest);
            var s := |SeedActions(c, release, current, manifest)|;
            var after := AfterSeed(c, release, current);
            && |acts| == s + |after|
            && forall k :: 0 <= k < |after| ==> acts[s + k] == after[k]
  {
    var seed := SeedActions(c, release, current, manifest);
    var build := BuildPhaseActions(c, release, current);
    var link := LinkActions(c, release, current);
    AppendAssoc(seed, build, link);
    AppendAssoc(seed, build + link, FinishActions(release));
  }

  /** After the seeding come six build commands, six link commands for a
      new release only, and last the .htaccess restore and the DEPLOYED
      marker. */
  lemma AfterSeedShape(c: Config, release: string, current: string)
    ensures var after := AfterSeed(c, release, current);
            var n := |after|;
            && n == 8 + (if c.inplace then 0 else 6)
            && after[n - 2] == Strict(RestoreHtaccessCmd(release))
            && after[n - 1] == Strict(MarkerCmd(release))
  {
    var front := BuildPhaseActions(c, release, current) + LinkActions(c, release, current);
    var finish := FinishActions(release);
    assert (front + finish)[|front|] == finish[0] && (front + finish)[|front| + 1] == finish[1];
  }

  /** The build, right after the seeding: the pre_deploy hook, the database
      backup, the .htaccess backup, the maintenance page copied onto the
      live tree and then onto the release, and dev/build. */
  lemma BuildOrder(c: Config, release: string, current: string)
    ensures var after := AfterSeed(c, release, current);
            && 6 <= |after|
            && after[0] == OptionalScript(release + PreDeployScript, [])
            && after[1] == Strict("php " + current + BackupScript)
            && after[2] == Strict(SaveHtaccessCmd(release))
            && after[3] == Strict(MaintenanceCmd(release, current))
            && after[4] == Strict(MaintenanceCmd(release, release))
            && after[5] == Strict(DevBuildCmd(c, release))
  {
    var build := BuildPhaseActions(c, release, current);
    var rest := LinkActions(c, release, current) + FinishActions(release);
    AppendAssoc(build, LinkActions(c, release, current), FinishActions(release));
    assert forall k :: 0 <= k < 6 ==> (build + rest)[k] == build[k];
  }

  /** For a new release, dev/build is followed by preLinkSwitch (the
      pre_switch hook and the cache permissions), the removal of the
      current link and the link to the release. */
  lemma LinkOrder(c: Config, release: string, current: string)
    requires !c.inplace
    ensures var after := AfterSeed(c, release, current);
            && 12 <= |after|
            && (forall k :: 0 <= k < 4 ==> after[6 + k] == PreLinkSwitchActions(c, release)[k])
            && after[10] == Strict("rm " + current)
            && after[11] == Strict("ln -s " + release + " " + current)
  {
    var build := BuildPhaseActions(c, release, current);
    var link := LinkActions(c, release, current);
    var front := build + link;
    assert forall k :: 0 <= k < 6 ==> front[6 + k] == link[k];
    assert forall k :: 0 <= k < 12 ==> (front + FinishActions(release))[k] == front[k];
  }

  /** In place, doDeploy after its seeding (which is empty) is eight
      commands, and the current link is never removed. */
  lemma InPlaceKeepsLink(c: Config, release: string, current: string, manifest: Manifest)
    requires c.inplace
    ensures SeedActions(c, release, current, manifest) == []
    ensures |AfterSeed(c, release, current)| == 8
    ensures Strict("rm " + current) !in AfterSeed(c, release, current)
  {
    var after := AfterSeed(c, release, current);
    var build := BuildPhaseActions(c, release, current);
    var finish := FinishActions(release);
    assert after == build + [] + finish;
    assert forall k :: 0 <= k < 6 ==> after[k] == build[k];
    assert after[6] == finish[0] && after[7] == finish[1];
    var rm := "rm " + current;
    assert rm[0] == 'r';
    var firsts := "ipciipit";
    forall i | 0 <= i < 8 ensures after[i].cmd[0] == firsts[i] {
    }
    assert forall i :: 0 <= i < 8 ==> after[i].cmd != rm;
  }

  /** The actions of copyManagedFolders: none without a readable manifest;
      otherwise one guarded rsync per folder, in file order, each folder a
      non-blank name without line breaks. */
  lemma ManagedFolderActionsShape(release: string, current: string, manifest: Manifest)
    ensures !manifest.Readable? ==> ManagedFolderActions(release, current, manifest) == []
    ensures manifest.Readable? ==>
              var folders := ManagedFolders(FileLines(manifest.content));
              var acts := ManagedFolderActions(release, current, manifest);
              && |acts| == |folders|
              && (forall i :: 0 <= i < |folders| ==>
                    && acts[i] == Strict(FolderCmd(release, current, folders[i]))
                    && HasNonSpace(folders[i])
                    && '\n' !in folders[i] && '\r' !in folders[i])
  {
    if manifest.Readable? {
      var folders := ManagedFolders(FileLines(manifest.content));
      FolderActionsPointwise(release, current, folders);
      ManagedFoldersAreClean(FileLines(manifest.content));
    }
  }

  /** A manifest line that copyManagedFolders leaves as it is: not blank,
      nothing for trim() at either end, no line break inside. */
  predicate IsFolderName(line: string) {
    && HasNonSpace(line)
    && line[0] !in TrimChars && line[|line| - 1] !in TrimChars
    && forall k :: 0 <= k < |line| ==> line[k] != '\n' && line[k] != '\r'
  }

  /** Cleaning a folder name gives it back. */
  lemma CleanFolderKeepsName(line: string)
    requires IsFolderName(line)
    ensures CleanFolder(line) == line
  {
    assert TrimLeft(line, TrimChars) == line;
    assert TrimRight(line, TrimChars) == line;
    RemoveCharsKeepsOthers(line, {'\n', '\r'});
  }

  /** The text of a manifest that lists `names`, one per line, each line
      ended by a line feed. */
  function ManifestText(names: seq<string>): string {
    if names == [] then [] else names[0] + "\n" + ManifestText(names[1..])
  }

  /** Cleaning a folder name with its line feed gives the name back. */
  lemma CleanLine(name: string)
    requires IsFolderName(name)
    ensures CleanFolder(name + "\n") == name
  {
    var line := name + "\n";
    assert TrimLeft(line, TrimChars) == line;
    assert line[..|line| - 1] == name;
    assert TrimRight(name, TrimChars) == name;
    assert Trim(line) == name;
    RemoveCharsKeepsOthers(name, {'\n', '\r'});
  }

  /** A manifest file listing folder names names exactly those folders, in
      order. */
  lemma {:induction false} CleanManifestKept(names: seq<string>)
    requires forall i :: 0 <= i < |names| ==> IsFolderName(names[i])
    ensures ManagedFolders(FileLines(ManifestText(names))) == names
  {
    if names != [] {
      ManifestStep(names[0], ManifestText(names[1..]));
      CleanManifestKept(names[1..]);
      assert names == [names[0]] + names[1..];
    }
  }

  /** A blank line anywhere in such a manifest is skipped. */
  lemma {:induction false} ManifestSkipsBlankLine(before: seq<string>, after: seq<string>)
    requires forall i :: 0 <= i < |before| ==> IsFolderName(before[i])
    requires forall i :: 0 <= i < |after| ==> IsFolderName(after[i])
    ensures ManagedFolders(FileLines(ManifestText(before) + "\n" + ManifestText(after))) == before + after
  {
    var text := ManifestText(before) + "\n" + ManifestText(after);
    if before == [] {
      assert ManifestText(before) == [];
      assert text == "\n" + ManifestText(after);
      ManifestAfterBlank(after);
    } else {
      var rest := ManifestText(before[1..]) + "\n" + ManifestText(after);
      ManifestTextSplit(before, after);
      ManifestStep(before[0], rest);
      ManifestSkipsBlankLine(before[1..], after);
      AppendAssoc([before[0]], before[1..], after);
      assert before == [before[0]] + before[1..];
    }
  }

  /** The first line of a manifest, and the lines after it. */
  lemma ManifestTextSplit(names: seq<string>, after: seq<string>)
    requires names != []
    ensures ManifestText(names) + "\n" + ManifestText(after) ==
            names[0] + "\n" + (ManifestText(names[1..]) + "\n" + ManifestText(after))
  {
    var first, m := names[0] + "\n", ManifestText(names[1..]);
    AppendAssoc(first, m, "\n");
    AppendAssoc(first, m + "\n", ManifestText(after));
  }

  /** A folder name on the first line of a manifest is the first folder. */
  lemma ManifestStep(name: string, rest: string)
    requires IsFolderName(name)
    ensures ManagedFolders(FileLines(name + "\n" + rest)) == [name] + ManagedFolders(FileLines(rest))
  {
    FileLinesCons(name, rest);
    CleanLine(name);
    ManagedFoldersCons(name + "\n", FileLines(rest));
  }

  /** A manifest that starts with a blank line. */
  lemma ManifestAfterBlank(names: seq<string>)
    requires forall i :: 0 <= i < |names| ==> IsFolderName(names[i])
    ensures ManagedFolders(FileLines("\n" + ManifestText(names))) == names
  {
    var m := ManifestText(names);
    FileLinesCons([], m);
    assert [] + "\n" + m == "\n" + m;
    BlankLineCleaned();
    ManagedFoldersCons("\n", FileLines(m));
    CleanManifestKept(names);
  }

  /** A line holding only a line feed names no folder. */
  lemma BlankLineCleaned()
    ensures CleanFolder("\n") == [] && !HasNonSpace(CleanFolder("\n"))
  {
    assert TrimLeft("\n", TrimChars) == [];
  }

  /** ManagedFolders takes its first line, then the others. */
  lemma ManagedFoldersCons(line: string, lines: seq<string>)
    ensures ManagedFolders([line] + lines) ==
            (if HasNonSpace(CleanFolder(line)) then [CleanFolder(line)] else []) + ManagedFolders(lines)
  {
    assert ([line] + lines)[0] == line && ([line] + lines)[1..] == lines;
  }

  /** Two folders with a blank line between them are those two folders. */
  lemma BlankLineBetween(a: string, b: string)
    requires IsFolderName(a) && IsFolderName(b)
    ensures ManagedFolders(FileLines(a + "\n\n" + b + "\n")) == [a, b]
  {
    assert ManifestText([a]) == a + "\n" by {
      assert [a][1..] == [];
    }
    assert ManifestText([b]) == b + "\n" by {
      assert [b][1..] == [];
    }
    ManifestSkipsBlankLine([a], [b]);
    assert "\n\n" == "\n" + "\n";
    AppendAssoc(a, "\n", "\n");
    AppendAssoc(a + "\n" + "\n", b, "\n");
  }

  /** The permission commands are issued with failOkay: when every command
      gets a reply, they never end a run. */
  lemma PermissionsNeverThrow(remote: Responder, ignoreErrors: bool, log: seq<Event>, group: string, dir: string)
    requires forall k: nat, w: string :: remote(k, w).Captured?
    ensures Perform(remote, ignoreErrors, log, PermissionActions(group, dir)) ==
            Trace(log + Events(PermissionActions(group, dir)), Pass)
  {
    PerformCompletes(remote, ignoreErrors, log, PermissionActions(group, dir));
  }

  /** Where the parts of a three-part list sit in it. */
  lemma Concat3<T>(a: seq<T>, b: seq<T>, c: seq<T>)
    ensures var x := a + b + c;
            && |x| == |a| + |b| + |c|
            && (forall k :: 0 <= k < |b| ==> x[|a| + k] == b[k])
            && (forall k :: 0 <= k < |c| ==> x[|a| + |b| + k] == c[k])
  {
    var x := a + b + c;
    forall k | 0 <= k < |b| ensures x[|a| + k] == b[k] {
      assert x[|a| + k] == (a + b)[|a| + k];
    }
  }

  /** The upload block of main: the scp upload of the package into the
      release, the incremental seeding, then the extraction and removal of
      the package. */
  lemma UploadOrder(c: Config, release: string, current: string)
    ensures var u := UploadActions(c, release, current);
            var package := RemotePackage(c, release);
            var b := |BeforeDeployActions(c, release, current)|;
            && |u| == b + 3
            && u[0] == Local(ScpCmd(c, c.localpath + "/" + c.package, package))
            && u[b + 1] == Strict("tar -zx -C " + release + " -f " + package)
            && u[b + 2] == Strict("rm " + package)
  {
    var package := RemotePackage(c, release);
    Concat3([Local(ScpCmd(c, c.localpath + "/" + c.package, package))],
            BeforeDeployActions(c, release, current), ExtractPackageActions(package, release));
  }

  /** main's order: the directories of a new release, then the upload
      block, then doDeploy and postDeploy. */
  lemma DeployOrder(c: Config, ts: string, manifest: Manifest)
    ensures var acts := DeployActions(c, ts, manifest);
            var release := ReleasePath(c, ts);
            var upload := UploadActions(c, release, CurrentPath(c));
            var install := InstallActions(c, release, CurrentPath(c), manifest);
            var m := |ConfigureReleaseDirActions(c, ts)|;
            && m == (if c.inplace then 0 else 2)
            && |acts| == m + |upload| + |install|
            && (forall k :: 0 <= k < |upload| ==> acts[m + k] == upload[k])
            && (forall k :: 0 <= k < |install| ==> acts[m + |upload| + k] == install[k])
  {
    var release := ReleasePath(c, ts);
    var current := CurrentPath(c);
    var configure := ConfigureReleaseDirActions(c, ts);
    var upload := UploadActions(c, release, current);
    var install := InstallActions(c, release, current, manifest);
    AppendAssoc(configure, upload, install);
    Concat3(configure, upload, install);
  }

  /** The finalise_deployment hook of postDeploy is the last command of the
      deployment; the DEPLOYED marker precedes all of postDeploy. */
  lemma InstallEndsWithFinalise(c: Config, release: string, current: string, manifest: Manifest)
    ensures var acts := InstallActions(c, release, current, manifest);
            var d := |DoDeployActions(c, release, current, manifest)|;
            && |acts| == d + 8
            && acts[d - 1] == Strict(MarkerCmd(release))
            && acts[|acts| - 1] == OptionalScript(release + FinaliseScript, [Dirname(release)])
  {
    var doDeploy := DoDeployActions(c, release, current, manifest);
    DoDeployAfterSeed(c, release, current, manifest);
    AfterSeedShape(c, release, current);
    var post := PostDeployActions(c, release);
    assert |post| == 8;
    Concat3(doDeploy, post, []);
    assert (doDeploy + post)[|doDeploy| - 1] == doDeploy[|doDeploy| - 1];
  }
}
