# SilverStripe deployment task, modelled in Dafny

`SilverStripeDeployTask` is a Phing task that deploys a SilverStripe site over SSH. It
uploads a package and unpacks it into a release directory. It then seeds the release
from the live tree, builds the database and switches the `current` symlink to the
release. Last, it fixes permissions and runs optional hook scripts. Every remote effect
goes through `execute`, which wraps the command with an `echo __COMPLETE` sentinel and
judges success by looking for that sentinel in the captured output.

This project models the task as a generator of commands plus one success rule:

- `Commands` builds, for each method of the task, the list of actions it issues, in
  order, from the task's configuration. An action is a remote `Exec(cmd, failOkay)` or
  a `Local(cmd)`, the scp upload.
- `Remote` holds three pieces:
  - `Wire` is the line `execute` sends.
  - `Judge` is its success and stripping rule.
  - `Perform` issues a list of actions after a log. It stops at the first exception,
    as PHP's exception propagation does.
- `DeployTask.SilverStripeDeployTask` is a class with the task's fields, its setters,
  `Execute`, and one method per pipeline step. Each method appends what it issues to
  the `log` field. Each is proved to leave exactly the log and outcome that `Perform`
  gives for its action list.
- `Properties` proves what the action lists promise. It covers:
  - where the release goes;
  - that the two seeding blocks exclude each other;
  - the order of the .htaccess, build, link-switch and marker commands;
  - how the `.managedfolders` manifest becomes rsync commands.
- `Text`, `Shell` and `Settings` model the PHP library behaviour the task relies on:
  - `strpos`, `str_replace`, `trim`, `file()`, `implode` and `dirname`;
  - `escapeshellarg`, with a reader of shell words for its round trip;
  - the loose comparisons in the boolean setters.

The remote host is a `Responder`: a function from the index of the log entry and the
sent text to a `Reply`. A reply is the captured output, or `NoStream` when `ssh2_exec`
fails. The timestamp `date('YmdHis')`, the manifest file as the local filesystem
presents it, and the password typed at the prompt are parameters.

## Model

| member | source | states |
|---|---|---|
| Text.FindFrom | SilverStripeDeployTask.php:250 | the result is the first occurrence of the needle at or after the start index, or None when there is none from there on |
| Text.Find | SilverStripeDeployTask.php:250 | strpos: the index of the first occurrence; None exactly when the needle does not occur (`!== false` iff the text contains it) |
| Text.DeleteAll | SilverStripeDeployTask.php:251 | str_replace with an empty replacement never lengthens the text |
| Text.DeleteAllKeepsFirst | SilverStripeDeployTask.php:251 | a first character that does not begin an occurrence is kept |
| Text.DeleteAllKeepsPrefix | SilverStripeDeployTask.php:251 | the text before the first occurrence is kept unchanged |
| Text.DeleteAllSkipsMatch | SilverStripeDeployTask.php:251 | an occurrence at the start is deleted and the scan resumes after it |
| Text.DeleteAllAfterPrefix | SilverStripeDeployTask.php:251 | when no occurrence starts inside `x`, deleting from `x + needle + y` gives `x` followed by the deletion applied to `y` |
| Text.Pieces | SilverStripeDeployTask.php:251 | the text between the occurrences the deletion removes, as a non-empty list |
| Text.JoinPieces | SilverStripeDeployTask.php:251 | putting the needle back between the pieces gives back the original text |
| Text.DeleteAllJoinsPieces | SilverStripeDeployTask.php:251 | the deletion's result is exactly the pieces run together |
| Text.DeleteAllIdentity | SilverStripeDeployTask.php:250-251 | the deletion leaves the text unchanged iff the needle does not occur in it |
| Text.TrimLeft | SilverStripeDeployTask.php:302 | stripping leading characters never lengthens the text |
| Text.TrimLeftSuffix | SilverStripeDeployTask.php:302 | the result is a suffix that does not start with a stripped character, and only stripped characters were dropped |
| Text.TrimLeftKeepsFrom | SilverStripeDeployTask.php:302 | every character left was in the input |
| Text.TrimRight | SilverStripeDeployTask.php:302 | stripping trailing characters never lengthens the text |
| Text.TrimRightPrefix | SilverStripeDeployTask.php:302 | the result is a prefix that does not end with a stripped character, and only stripped characters were dropped |
| Text.TrimRightKeepsFrom | SilverStripeDeployTask.php:302 | every character left was in the input |
| Text.Trim | SilverStripeDeployTask.php:302 | trim(): a non-empty result neither starts nor ends with one of trim's default characters |
| Text.TrimIsSlice | SilverStripeDeployTask.php:302 | trim()'s result is a contiguous slice of the input with only trim's characters outside it |
| Text.RemoveChars | SilverStripeDeployTask.php:302 | str_replace of "\n" and "\r" by '': no removed character is left |
| Text.RemoveCharsKeepsOthers | SilverStripeDeployTask.php:302 | every other character is kept as often as it occurs, and a text without them is unchanged |
| Text.FirstLineLength | SilverStripeDeployTask.php:299 | the first line of a non-empty file has between one character and the whole file |
| Text.FirstLineBreaks | SilverStripeDeployTask.php:299 | the first line holds no line feed except as its last character, and ends with one unless it is the whole file |
| Text.FileLines | SilverStripeDeployTask.php:299 | file() yields no more lines than the file has characters |
| Text.FileLinesAreLines | SilverStripeDeployTask.php:299 | file()'s lines are non-empty, hold a line feed only at their end, and all but the last end with one |
| Text.FileLinesJoin | SilverStripeDeployTask.php:299 | running file()'s lines together gives back the file |
| Text.FileLinesCons | SilverStripeDeployTask.php:299 | a first line without a line feed, followed by one, is file()'s first line, line feed kept, and the rest of the file gives the other lines |
| Text.Join | SilverStripeDeployTask.php:219 | implode: the parts with the separator between consecutive ones; its round trip through the shell is Shell.ArgumentsReadBack |
| Text.HasNonSpace | SilverStripeDeployTask.php:304 | preg_match('/\S/'): some character is not one of PCRE's six white-space characters |
| Text.DropTrailing | SilverStripeDeployTask.php:197 | the result is a prefix; everything dropped is of the dropped kind, and the last character kept is not |
| Text.DropTrailingAppend | SilverStripeDeployTask.php:197 | dropping a tail of the dropped kind from text that does not end in that kind gives back the text |
| Text.Dirname | SilverStripeDeployTask.php:197 | dirname() on POSIX paths: the path without trailing slashes, its last component and the slashes before it; the properties are DirnameChild and DirnameEdges |
| Text.DirnameChild | SilverStripeDeployTask.php:197 | dirname of `dir/name` is `dir` when `dir` has no trailing slash and `name` no slash |
| Text.DirnameEdges | SilverStripeDeployTask.php:197 | dirname("") is "", dirname("/") and dirname("/a") are "/", dirname("a") and dirname("a//") are "." |
| Shell.Escape | SilverStripeDeployTask.php:217 | escapeshellarg: the string in single quotes, each quote written `'\''`; the round trip is Shell.EscapeReadsBack |
| Shell.Arguments | SilverStripeDeployTask.php:217-219 | the escaped arguments joined by single spaces; the round trip is Shell.ArgumentsReadBack |
| Shell.EscapeAll | SilverStripeDeployTask.php:218 | array_map('escapeshellarg'): same length, each element escaped |
| Shell.QuotedBodyReadsBack | SilverStripeDeployTask.php:217 | inside single quotes, the escaped body of a string and its closing quote read back as that string |
| Shell.EscapedQuoteReadsBack | SilverStripeDeployTask.php:217 | the `'\''` escape inside quotes reads back as one quote character |
| Shell.EscapedWord | SilverStripeDeployTask.php:217 | an escaped argument followed by more text reads back as that argument, then the rest |
| Shell.EscapeReadsBack | SilverStripeDeployTask.php:217 | escapeshellarg round trip: the shell reads the escaped string as exactly that string, one word |
| Shell.ArgumentsReadBack | SilverStripeDeployTask.php:217-219 | the escaped arguments joined by single spaces split back into exactly the original argument list |
| Settings.Coerce | SilverStripeDeployTask.php:379-385 | a bool is kept as it is; a string becomes true iff it equals 'true' or is a PHP 8 numeric string whose value is 1, compared exactly for integers and after rounding to the nearest double otherwise |
| Settings.DigitRun | SilverStripeDeployTask.php:381 | the digits a string starts with: all digits, and the next character, if any, is not one |
| Settings.DigitsValueAppend | SilverStripeDeployTask.php:381 | the value of digits written one after the other is the first part shifted by the length of the second, plus the second |
| Settings.ParseDecimal | SilverStripeDeployTask.php:381 | `w.f` is numeric, with mantissa the digits of `w` and `f` run together and scale minus the length of `f` |
| Settings.RoundsToOneInteger | SilverStripeDeployTask.php:381 | an integer string equals 1 only when its value is exactly one |
| Settings.Pow10PastDoublePrecision | SilverStripeDeployTask.php:381 | 10^n reaches 2^53 iff n >= 16, and 2^54 iff n >= 17: where decimals stop being told apart from 1.0 |
| Settings.CoerceDigits | SilverStripeDeployTask.php:381 | a plain digit string turns a switch on iff its value is one, leading zeros allowed |
| Settings.CoerceNines | SilverStripeDeployTask.php:381 | "0." followed by n nines turns a switch on iff n >= 17, where 1 - 10^-n rounds to the double 1.0 |
| Settings.CoerceJustAboveOne | SilverStripeDeployTask.php:381 | "1." followed by n zeros and a 1 turns a switch on iff n >= 15, where 1 + 10^-(n+1) rounds to 1.0 |
| Settings.CoerceAcceptsExponent | SilverStripeDeployTask.php:381 | "0.1e1" turns a switch on |
| Settings.CoerceSigns | SilverStripeDeployTask.php:381 | "+1" turns a switch on, "-1" does not |
| Settings.CoerceTrimsSpace | SilverStripeDeployTask.php:381 | " 1\n" turns a switch on: white space around a numeric string is allowed |
| Settings.CoerceAcceptsLeadingZero | SilverStripeDeployTask.php:381 | "01" turns a switch on (loose numeric comparison) |
| Settings.CoerceAcceptsDecimal | SilverStripeDeployTask.php:381 | "1.0" turns a switch on |
| Settings.CoerceRejectsTen | SilverStripeDeployTask.php:381 | "10" leaves a switch off |
| Settings.CoerceRejectsZero | SilverStripeDeployTask.php:381 | "0" leaves a switch off |
| Settings.CoerceIsCaseSensitive | SilverStripeDeployTask.php:381 | "TRUE" leaves a switch off |
| Settings.Guarded | SilverStripeDeployTask.php:411-415 | a value containing "${" leaves the setting as it was; any other value replaces it |
| Remote.Wire | SilverStripeDeployTask.php:234 | the line execute sends: the command in a subshell with stderr merged, then `&& echo __COMPLETE`; every remote log entry is this wrapping (Remote.Events) |
| Remote.Judge | SilverStripeDeployTask.php:237-255 | execute returns iff there is a stream and its text contains `__COMPLETE` or ignoreerrors or failOkay is set; it then returns the text with every `__COMPLETE` deleted; otherwise it throws "Failed executing command : " plus the text, or "Could not execute command!" without a stream |
| Remote.UnmarkedOutputUnchanged | SilverStripeDeployTask.php:250-251 | output without the sentinel, accepted through an override, is returned unchanged |
| Remote.StrippedOutputPieces | SilverStripeDeployTask.php:251 | the returned text is the captured text cut at the sentinels and run together; re-inserting the sentinel at the cuts gives the captured text |
| Remote.StrippedOutputMayKeepSentinel | SilverStripeDeployTask.php:250-251 | the one-pass deletion can form a new sentinel: for a split `x + y` of `__COMPLETE` with no occurrence starting inside `x`, the output `x + __COMPLETE + y` is accepted and returns `__COMPLETE` |
| Remote.SentinelRejoinExample | SilverStripeDeployTask.php:250-251 | "__COMP__COMPLETELETE" is accepted and returns "__COMPLETE" |
| Remote.Events | SilverStripeDeployTask.php:52-55 | one log entry per action that ran |
| Remote.StepOutcome | SilverStripeDeployTask.php:233-255 | one action's effect on the run: a local command always lets it go on, a remote one goes on iff Judge accepts the host's reply |
| Remote.Perform | SilverStripeDeployTask.php:52-55 | the actions issued one by one after a log until one throws; its properties are the Perform lemmas below |
| Remote.PerformAppend | SilverStripeDeployTask.php:52-55 | issuing two lists in a row is issuing their concatenation: the second starts where the first ended, unless the first threw |
| Remote.FailedRunStops | SilverStripeDeployTask.php:52-55 | after an exception nothing further is issued |
| Remote.PerformPassLogsAll | SilverStripeDeployTask.php:52-55 | a run that ends normally has logged every one of its actions, in order |
| Remote.PerformCompletes | SilverStripeDeployTask.php:250 | with every reply captured, a run of commands that are all failOkay (or with ignoreerrors set) ends normally and logs everything |
| Remote.FailureCarriesOutput | SilverStripeDeployTask.php:238-254 | a failed run ends with the remote command that failed; the exception carries that command's raw output, which lacks the sentinel, or the no-stream message |
| Commands.ReleasePath | SilverStripeDeployTask.php:65-77 | configureReleaseDir's result: `remotepath/current` in place, `remotepath/releases/ts` otherwise (Properties.ReleaseDirPlan) |
| Commands.ConfigureReleaseDirActions | SilverStripeDeployTask.php:69-74 | the two `mkdir --mode=2775 -p` commands of a new release; none in place |
| Commands.CopyConfigs | SilverStripeDeployTask.php:91-97 | the four copies of the live .htaccess, _ss_environment.php, local.conf.php and, if present, local.yml |
| Commands.BeforeDeployActions | SilverStripeDeployTask.php:83-99 | beforeDeploy: nothing unless incremental and not in place; then the rsync of the live tree, the assets .htaccess and the config copies (Properties.SeedingIsExclusive) |
| Commands.ExtractPackageActions | SilverStripeDeployTask.php:107-111 | `tar -zx` of the package into the release, then `rm` of the package |
| Commands.CleanFolder | SilverStripeDeployTask.php:302 | a manifest line trimmed, then stripped of LF and CR (Properties.CleanFolderKeepsName, Properties.CleanLine) |
| Commands.ManagedFolders | SilverStripeDeployTask.php:300-306 | the manifest names at most one folder per line |
| Commands.ManagedFoldersAreClean | SilverStripeDeployTask.php:302-306 | every folder taken from the manifest has a non-whitespace character and no CR or LF |
| Commands.ManagedFoldersStep | SilverStripeDeployTask.php:300-306 | the folders from line i on are line i's cleaned folder, unless blank, then those of the later lines |
| Commands.ManagedFoldersAppend | SilverStripeDeployTask.php:300-306 | each line is read on its own: the folders of two parts of a manifest are the two parts' folders in order |
| Commands.FolderCmd | SilverStripeDeployTask.php:308-312 | the guarded rsync of one folder from the live tree to the release |
| Commands.FolderActions | SilverStripeDeployTask.php:312 | one rsync per folder |
| Commands.FolderActionsAppend | SilverStripeDeployTask.php:300-313 | the rsyncs for two runs of folders are the first run's, then the second's |
| Commands.FolderActionsStep | SilverStripeDeployTask.php:300-313 | a non-blank line issues its guarded rsync before those of the later lines; a blank line issues nothing |
| Commands.FolderActionsPointwise | SilverStripeDeployTask.php:308-312 | the i-th rsync is `if [ -d current/f ]; then rsync -rl current/f release/f; fi` for the i-th folder f |
| Commands.ManagedFolderActions | SilverStripeDeployTask.php:283-313 | copyManagedFolders: nothing for a missing or unreadable manifest, else the rsyncs of its folders (Properties.ManagedFolderActionsShape) |
| Commands.OptionalScriptCmd | SilverStripeDeployTask.php:213-221 | `if [ -e E ]; then php E A; fi` for the escaped script E and arguments A |
| Commands.SeedActions | SilverStripeDeployTask.php:120-135 | doDeploy's seeding: only when neither incremental nor in place (Properties.SeedingIsExclusive) |
| Commands.SeedCopies | SilverStripeDeployTask.php:122-132 | the config copies, the assets rsync and the assets .htaccess |
| Commands.BuildPhaseActions | SilverStripeDeployTask.php:137-156 | the pre_deploy hook, then BuildActions (Properties.BuildOrder) |
| Commands.BuildActions | SilverStripeDeployTask.php:140-156 | database backup, .htaccess backup, the maintenance page onto current then the release, dev/build |
| Commands.PermissionActions | SilverStripeDeployTask.php:185-187 | chgrp and the two chmod finds on a directory, all failOkay (Properties.PermissionsNeverThrow) |
| Commands.PreLinkSwitchActions | SilverStripeDeployTask.php:181-188 | the pre_switch hook with the release's parent, then the cache permissions |
| Commands.SwitchActions | SilverStripeDeployTask.php:161-162 | `rm current`, then `ln -s release current` |
| Commands.LinkActions | SilverStripeDeployTask.php:158-163 | preLinkSwitch and the switch for a new release; nothing in place (Properties.LinkOrder, Properties.InPlaceKeepsLink) |
| Commands.FinishActions | SilverStripeDeployTask.php:165-171 | the .htaccess restore, then `touch release/DEPLOYED` |
| Commands.PostDeployActions | SilverStripeDeployTask.php:196-211 | post_deploy hook, cache then whole-tree permissions, finalise_deployment hook (Properties.InstallEndsWithFinalise) |
| Commands.Truthy | SilverStripeDeployTask.php:268 | PHP's truth value of a string: false only for "" and "0" |
| Commands.ScpCmd | SilverStripeDeployTask.php:267-269 | `scp -i key [ -P port ] local user@host:remote`, the port option only for a truthy port |
| Commands.DeployActions | SilverStripeDeployTask.php:43-55 | main's actions: the release directory, the upload block, doDeploy and postDeploy (Properties.DeployOrder) |
| Properties.CurrentParent | SilverStripeDeployTask.php:43 | the live link `remotepath/current` sits directly under the remote root |
| Properties.ReleaseDirPlan | SilverStripeDeployTask.php:65-77 | configureReleaseDir issues commands iff not in place; in place the release is `remotepath/current`; otherwise it is a child of `remotepath/releases` |
| Properties.ReleasesAreDistinct | SilverStripeDeployTask.php:70 | two different timestamps give two different new release directories |
| Properties.SeedingIsExclusive | SilverStripeDeployTask.php:84-135 | beforeDeploy's block runs iff incremental and not in place; doDeploy's iff neither; never both |
| Properties.DoDeployAfterSeed | SilverStripeDeployTask.php:119-173 | doDeploy is its seeding block followed by the pre_deploy hook, build, link switch and finish |
| Properties.AfterSeedShape | SilverStripeDeployTask.php:137-171 | after the seeding come 8 commands in place and 14 otherwise; the .htaccess restore is next to last and `touch release/DEPLOYED` is last |
| Properties.BuildOrder | SilverStripeDeployTask.php:137-156 | after the seeding: pre_deploy hook, database backup, .htaccess backup, maintenance copy onto current, then onto the release, then dev/build |
| Properties.LinkOrder | SilverStripeDeployTask.php:158-163 | for a new release, dev/build is followed by preLinkSwitch's four commands, `rm current`, then `ln -s release current` |
| Properties.InPlaceKeepsLink | SilverStripeDeployTask.php:158-163 | in place there is no seeding, doDeploy issues eight commands, and `rm current` is never among them |
| Properties.ManagedFolderActionsShape | SilverStripeDeployTask.php:283-313 | no command for a missing or unreadable manifest; otherwise one guarded rsync per non-blank cleaned line, in file order |
| Properties.CleanFolderKeepsName | SilverStripeDeployTask.php:302 | cleaning a line that is already a folder name leaves it unchanged |
| Properties.CleanLine | SilverStripeDeployTask.php:302 | cleaning a folder name with its line feed, as file() hands it over, gives back the name |
| Properties.ManifestStep | SilverStripeDeployTask.php:299-312 | a folder name on the first line of the manifest file is the first folder, followed by those of the rest of the file |
| Properties.CleanManifestKept | SilverStripeDeployTask.php:299-306 | a manifest file listing folder names one per line, each with its line feed, yields exactly those folders, in order |
| Properties.BlankLineCleaned | SilverStripeDeployTask.php:302-305 | a line holding only a line feed cleans to "" and is skipped |
| Properties.ManifestAfterBlank | SilverStripeDeployTask.php:299-306 | a blank first line is skipped and the folders after it are kept |
| Properties.ManifestSkipsBlankLine | SilverStripeDeployTask.php:299-306 | a blank line anywhere between folder names is skipped: the folders before it, then those after it |
| Properties.BlankLineBetween | SilverStripeDeployTask.php:299-306 | `a\n\nb\n` yields exactly [a, b] for folder names a and b (e.g. "uploads" and "images") |
| Properties.PermissionsNeverThrow | SilverStripeDeployTask.php:185-187 | the chgrp and chmod commands are failOkay: with every reply captured they never end a run |
| Properties.UploadOrder | SilverStripeDeployTask.php:46-53 | the scp upload comes first, then beforeDeploy's block, then `tar -zx` and `rm` of the package |
| Properties.DeployOrder | SilverStripeDeployTask.php:43-55 | main issues the two mkdirs of a new release (none in place), then the upload block, then doDeploy and postDeploy |
| Properties.InstallEndsWithFinalise | SilverStripeDeployTask.php:54-55 | postDeploy adds eight commands after doDeploy's DEPLOYED marker; the finalise_deployment hook is the last command |
| DeployTask.SilverStripeDeployTask.constructor | SilverStripeDeployTask.php:13-31 | the declared defaults (apache group, framework path, port 22, switches off) and an empty log |
| DeployTask.SilverStripeDeployTask.SetIncremental | SilverStripeDeployTask.php:379-385 | incremental becomes the coerced value; nothing else changes |
| DeployTask.SilverStripeDeployTask.SetInplace | SilverStripeDeployTask.php:391-397 | inplace becomes the coerced value; nothing else changes |
| DeployTask.SilverStripeDeployTask.SetIgnoreErrors | SilverStripeDeployTask.php:491-497 | ignoreerrors becomes the coerced value |
| DeployTask.SilverStripeDeployTask.SetPort | SilverStripeDeployTask.php:411-415 | the port changes iff the value does not contain "${" |
| DeployTask.SilverStripeDeployTask.SetPassword | SilverStripeDeployTask.php:429-433 | the password changes iff the value does not contain "${" |
| DeployTask.SilverStripeDeployTask.SetPubkeyfile | SilverStripeDeployTask.php:442-446 | the public key file changes iff the value does not contain "${" |
| DeployTask.SilverStripeDeployTask.Execute | SilverStripeDeployTask.php:233-259 | sends `(cmd  2>&1) && echo __COMPLETE`, logs it, and returns what Judge decides for the host's reply |
| DeployTask.SilverStripeDeployTask.RunLocal | SilverStripeDeployTask.php:269 | the base task's exec: the local command is appended to the log |
| DeployTask.SilverStripeDeployTask.CopyFile | SilverStripeDeployTask.php:267-270 | runs `scp -i key [ -P port ] local user@host:remote` locally; the upload never ends the run |
| DeployTask.SilverStripeDeployTask.ExecuteAll | SilverStripeDeployTask.php:202-208 | consecutive execute calls leave the log and outcome Perform gives for them |
| DeployTask.SilverStripeDeployTask.ConfigureReleaseDir | SilverStripeDeployTask.php:65-77 | returns the planned release path and issues configureReleaseDir's mkdirs |
| DeployTask.SilverStripeDeployTask.BeforeDeploy | SilverStripeDeployTask.php:83-99 | issues the incremental seeding block, stopping at the first exception |
| DeployTask.SilverStripeDeployTask.ExtractPackage | SilverStripeDeployTask.php:107-111 | issues `tar -zx` then `rm` of the package |
| DeployTask.SilverStripeDeployTask.ExecuteOptionalPhpScript | SilverStripeDeployTask.php:213-225 | issues exactly one command, `if [ -e E ]; then php E A; fi`, with E the escaped script and A the escaped arguments joined by spaces |
| DeployTask.SilverStripeDeployTask.CopyManagedFolders | SilverStripeDeployTask.php:283-314 | reports whether the manifest was readable and issues exactly the manifest's rsyncs, in file order |
| DeployTask.SilverStripeDeployTask.PreLinkSwitch | SilverStripeDeployTask.php:181-188 | the pre_switch hook with the release's parent, then the failOkay cache permissions |
| DeployTask.SilverStripeDeployTask.PostDeploy | SilverStripeDeployTask.php:196-211 | the post_deploy hook, the cache then whole-tree permissions, then the finalise_deployment hook |
| DeployTask.SilverStripeDeployTask.SeedRelease | SilverStripeDeployTask.php:120-135 | the full seeding block of a new non-incremental release, ending with the managed folders |
| DeployTask.SilverStripeDeployTask.BuildRelease | SilverStripeDeployTask.php:137-156 | the pre_deploy hook, database backup, .htaccess backup, maintenance copies and dev/build |
| DeployTask.SilverStripeDeployTask.SwitchRelease | SilverStripeDeployTask.php:158-163 | for a new release only: preLinkSwitch, `rm current`, `ln -s release current` |
| DeployTask.SilverStripeDeployTask.DoDeploy | SilverStripeDeployTask.php:119-173 | issues doDeploy's commands in order, the first exception ending it |
| DeployTask.SilverStripeDeployTask.Deploy | SilverStripeDeployTask.php:33-58 | prompts for a password iff neither key file nor password is set, then issues the whole deployment in main's order |
| DeployTask.SilverStripeDeployTask.Run | SilverStripeDeployTask.php:43-55 | plans the release directory and issues everything main issues, the first exception ending it |
| DeployTask.SilverStripeDeployTask.ShipRelease | SilverStripeDeployTask.php:46-55 | once the release directory exists: the upload block, then doDeploy and postDeploy |
| DeployTask.SilverStripeDeployTask.UploadRelease | SilverStripeDeployTask.php:46-53 | scp of the package, beforeDeploy, extractPackage |
| DeployTask.SilverStripeDeployTask.InstallRelease | SilverStripeDeployTask.php:54-55 | doDeploy, then postDeploy unless doDeploy threw |

## Left out

- The SSH transport is not modelled: `connect` (SilverStripeDeployTask.php:319-341) with `ssh2_connect` and its authentication, and the final `ssh2_exec(..., 'exit')` (line 57). The remote host is a `Responder` parameter.
- DeployTask.SilverStripeDeployTask.Execute: the blocking `fread` loop (lines 242-248) is modelled as the whole captured text at once. A chunk that reads as the string "0" would end PHP's loop early; the model does not capture that.
- DeployTask.SilverStripeDeployTask.CopyFile: the upload never fails. The base task's `exec` is not part of this model, so its failure behaviour is unknown. The code after the `return` (lines 272-277) is unreachable and left out.
- The password prompt `getInput` (line 37) is the `answer` parameter of `Deploy`. All `log` calls and `Project::MSG_WARN` are left out as console output.
- `date('YmdHis')` (line 70) is the `ts` parameter of ConfigureReleaseDir, Run and Deploy, which accept any string, as PHP's concatenation does. Only Properties.ReleaseDirPlan assumes fourteen digits (`IsTimestamp`), to place the release under `releases/`.
- The `.managedfolders` file's existence, readability and content (lines 288-299) are the `Manifest` parameter. `clearstatcache` is left out.
- The meaning of the issued commands on the remote tree (tar, rsync, chgrp, chmod, dev/build, the hook scripts) is not modelled. Only which command strings are issued, and in what order.
- DeployTask.SilverStripeDeployTask.CopyManagedFolders: PHP returns `false` early and `null` at the end. The model returns `found`, which is false exactly on the early returns. No caller uses the value.
- Settings.Coerce: PHP 8's rules only. PHP 7 also compared leading-numeric strings such as "1abc" as 1; that is not modelled. A decimal or exponent form is read exactly and rounded once to the nearest double, ties to even. This is what a correctly rounding strtod gives; PHP's own strtod is taken to round correctly.
- Shell.Escape: escapeshellarg is modelled as its POSIX single-quote rule. Multibyte handling and the Windows rule are left out.
- Text.Dirname: the POSIX rule only, with dirname("") == "" as in PHP. Windows drive letters and backslashes are left out.
- The port is a string, as the build file hands it over; the default 22 becomes "22". `copyFile`'s `$this->port ? ...` test is PHP string truthiness.
- `localpath` defaults to null in PHP and to "" here; both print as the empty string.
- The plain setters and getters (lines 343-489) are not modelled, nor `setCommand`/`getCommand`, which nothing in the pipeline uses. The configuration fields are set directly on the class.
- Run, ShipRelease, UploadRelease, InstallRelease, SeedRelease, BuildRelease and SwitchRelease have no PHP method of their own. Each groups consecutive statements of `main` or `doDeploy` so that every proof stays small.
