# A model of the portal's stateful cores

This project models the parts of the repository whose behaviour is hardest to
see from the code, and proves what they promise, for all inputs, all runs and
all interleavings.

* **Packer HCL serialiser** (`JsonString`, `Hcl`, `HclRoundTrip`, `Transpile`,
  `UserStrings`, `GeneratedFile`, `SideFiles`). The printer is modelled on a tree of
  attributes and blocks, next to an independent reader of the printed subset, whose
  literals follow either RFC 8259 or the HCL native syntax. The text determines the tree. Apart from template
  sequences in user values (`${`, `%{`), which the source lets through on purpose and
  the model keeps as text, two things break a generated file. The pattern for file
  names ends in `$`, which also matches before a final line break, and the name of the
  SSH key goes into a raw literal; the comment beside that line says the name is safe.
  And the source takes HCL2 escaping to be JSON escaping, but HCL2 has no `\b` and
  `\f` and refuses escaped surrogates, so a file with such a character or one above
  the BMP is refused as a whole. The exact conditions are stated on the user's fields.
  What can be read says what the model holds, field by field. Two provisioners may
  bring files of one name; then the later content is stored for both.
* **Proxmox config files** (`Conf`, `ConfMeaning`, `ConfRoundTrip`). Parser and printer
  with all limits and both whitelists; what a file means line by line; the round trip
  and the re-parse fixed point with their exact conditions. The comment in the parser
  says that a section is skipped until the next header; the code skips the rest of
  the file, and so does the model.
* **Licence headers** (`License`). Stripping inverts injecting, and a second
  rewrite changes nothing, except for a lone shebang line without a line break. The
  code removes everything above an old header, not only the comment block that its
  documentation names; the theorem says when that costs a line of code.
* **Automatic snapshots** (`Calendar`, `Retention`, `RetentionRuns`,
  `SnapshotJob`, `SnapshotHistory`). Every row is tagged daily, so `keep_daily` is a
  second `keep_last`, and the `keep_*` settings apply with GFS off as well. Uniqueness
  of weekly and monthly snapshots holds over all histories. Coverage of recent
  weeks does not: tiers are computed at one clock reading and the row is written
  at a later one, and a run that straddles the boundary loses a bucket. The exact
  condition and a concrete history are given: only the single snapshot of a bucket
  can be lost. The results are carried to the table of a VM that several jobs share.
* **IPAM** (`IpPools`, `Ipam`, `IpamRuns`, `IpamDeploy`, `IpamStack`, `IpamUsage`).
  One table, thirteen kinds of statement, each committed transaction an atomic
  step. Exclusivity over all runs; the exact effect of the 30-minute sweep on long
  deploys; all-or-nothing stack reservation; pool arithmetic. A stack with one
  address in two pools has the note of the earlier row overwritten, and so
  confirms both rows for one VM.
* **Git sync** (`GitTrigger`, `GitSync`). The lock-and-flag protocol as a state
  machine over interleaved steps, with the exact states in which a queued trigger is
  served, and the item pass. The documentation of `_register_conflict` says that it
  updates the hash of an open conflict; the code does not, and the model follows the
  code. So a conflict resolved for the repository records an older commit than the
  content it copied, and a later pass at that commit takes the newer content for
  current; the theorem says exactly when.
* **Approvals** (`SecretMasking`, `Approvals`, `ApprovalCalls`). All statements that
  write to the table of requests, in any order. The update after the handler, the one that
  clears the blob and the one for a deleted VM go by id alone; what that allows is
  stated next to what it does not. `ApprovalCalls` interleaves whole approvals: the
  update has a guard on the status, but nobody looks at how many rows it changed, so
  two approvals that overlap run the handler twice and a request rejected in between
  is still executed. Both come with the exact condition.
* **Pool quotas** (`Quota`). The bulk check is the one-by-one check, in any order.

Tables are maps or sequences of rows held in classes, loops are loops, and each
method is tied to a function about which the theorems are proved. Text is a
sequence of characters or, for JSON strings, of code points; addresses are
integers. The hypervisor, git, the clock, copy results, random ids and the
handlers are parameters, constrained only where a contract says so.

## Model

| member | source | states |
|---|---|---|
| `JsonString.StringRoundTrip` | backend/plus/packer_editor/transpile.py:81-84 | for every string, reading the printed literal stops at its closing quote and gives the string with each high/low surrogate pair fused; HCL2 refuses it instead if it holds something HCL2 cannot read |
| `JsonString.StringSurvivesIff` | backend/plus/packer_editor/transpile.py:22-26 | read as in section 7 of RFC 8259, a user string comes back as itself if and only if it holds no adjacent surrogate pair |
| `JsonString.StringSurvivesHcl2Iff` | backend/plus/packer_editor/transpile.py:22-26 | read by HCL2, if and only if it holds no backspace, form feed, surrogate or character above the BMP; otherwise the literal is refused |
| `JsonString.FuseShrinks` | backend/plus/packer_editor/transpile.py:84 | fusing shortens a string exactly if it holds a pair, so proper Unicode text is unchanged |
| `JsonString.PairPrintsFused` | backend/plus/packer_editor/transpile.py:84 | a pair and the character it encodes print alike, so the exception is real |
| `Hcl.RenderBody` | backend/plus/packer_editor/transpile.py:111-124 | the loop that fills the output list computes the text that the reader's theorems are about, for any nesting |
| `Hcl.RenderLabels` | backend/plus/packer_editor/transpile.py:119 | the same for block labels |
| `HclRoundTrip.ReadValueText` | backend/plus/packer_editor/transpile.py:73-94 | every printed value (raw, bool, int, string, list, map, nested) is read back from any following text, up to literal templates and fused pairs, or refused exactly if it holds a string the dialect cannot read |
| `HclRoundTrip.ReadItemsText` | backend/plus/packer_editor/transpile.py:111-124 | the same for every printed body, item by item up to its closing brace |
| `HclRoundTrip.DocumentReadsBack` | backend/plus/packer_editor/transpile.py:349 | the text determines the tree: the reader applied to the whole file gives the tree and leaves nothing over, or refuses the file exactly if the tree holds a string the dialect cannot read |
| `HclRoundTrip.TreeSurvivesIff` | backend/plus/packer_editor/transpile.py:16-27 | the tree comes back unchanged if and only if the dialect can read its strings, no user string holds a surrogate pair and no template was passed as raw text |
| `HclRoundTrip.JsonBody` | backend/plus/packer_editor/transpile.py:81-84 | by the rules of RFC 8259 every tree can be read back |
| `HclRoundTrip.EqualTextEqualTree` | backend/plus/packer_editor/transpile.py:22-27 | two trees that print alike are the same tree, so a user value cannot change the structure around it |
| `HclRoundTrip.TreesThatPrintAlike` | backend/plus/packer_editor/transpile.py:78-84 | the two exceptions of the previous theorem occur |
| `Transpile.StackToHcl` | backend/plus/packer_editor/transpile.py:315-350 | the loops and appends compute the printed document of the model's tree, or the override; what the tree says is the row of GeneratedFile.Generate |
| `Transpile.WfTop` | backend/plus/packer_editor/transpile.py:315-347 | every block and attribute the editor builds from an accepted model meets the reader's conditions |
| `Transpile.BrokenDocument` | backend/plus/packer_editor/transpile.py:200-203 | an SSH key name ending in a line break makes the file unreadable by either rules |
| `Transpile.GeneratedFileReadsBackIff` | backend/plus/packer_editor/transpile.py:200-203 | an accepted model's file reads back as intended if and only if the SSH key name does not end in a line break, which the schema's pattern lets through, and the dialect can read the tree's strings; otherwise it cannot be read |
| `Transpile.GeneratedFileReadsBackAsJsonIff` | backend/plus/packer_editor/transpile.py:200-203 | by the rules of RFC 8259 the key name is the only user value that matters |
| `UserStrings.SafeTopIff` | backend/plus/packer_editor/transpile.py:127-347 | the generated tree's strings can be read exactly if the user's fields can: no fixed text is in the way |
| `UserStrings.GeneratedFileReadsBackInHcl2Iff` | backend/plus/packer_editor/transpile.py:16-27 | read by HCL2: if and only if the key name does not end in a line break and no other user value holds a backspace, form feed, surrogate or character above the BMP |
| `UserStrings.BackspaceBreaksFile` | backend/plus/packer_editor/transpile.py:175-180 | a backspace in the template description makes HCL2 refuse the file |
| `GeneratedFile.Generate` | backend/plus/packer_editor/transpile.py:315-350 | in whichever dialect the generated text can be read, the tree says what the model holds; an override is returned verbatim, and the side files are those of the model in either case |
| `GeneratedFile.GeneratedTextDescribes` | backend/plus/packer_editor/transpile.py:127-312 | the same of the document: looked up by block type and name, each attribute carries the model's field, the ten or eleven variables have their defaults and secrecy, and the provisioners have their kinds and strings in order |
| `GeneratedFile.KeyStrokesFetch` | backend/plus/packer_editor/installer.py:322-350 | the default key strokes of a profile hold the address under which its installer file is served |
| `SideFiles.BuildSideFiles` | backend/plus/packer_editor/transpile.py:290-317 | which files are stored and which content each has: a provisioner's over a free one, a later provisioner's over an earlier one's, and nothing else |
| `SideFiles.HeldOnce` | backend/plus/packer_editor/transpile.py:290-317 | this determines the collection |
| `SideFiles.AllOwnIff` | backend/plus/packer_editor/transpile.py:309-316 | every provisioner finds its own content under the name that the text gives it if and only if no two of them bring different contents under one name |
| `SideFiles.OwnContentIff` | backend/plus/packer_editor/transpile.py:309-316 | one provisioner does if and only if the last one of its name brings the same content |
| `SideFiles.KeyFileIff` | backend/plus/packer_editor/transpile.py:303-316 | the SSH key that the text refers to is stored if and only if the user or a provisioner brings a file of its name, and is the user's if and only if no provisioner brings a different one |
| `SideFiles.ScriptOverwritten` | backend/plus/packer_editor/transpile.py:309-316 | two scripts of one name: the first provisioner runs the second one's script |
| `Conf.ParseLines` | backend/plus/config_snapshots/_conf_safety.py:142-198 | the line loop, which trims keys and values and lowers keys, computes the fold that the theorems on parsing are about: sections, comments, limits, whitelist, warnings and the raised error |
| `Conf.StorePair` | backend/plus/config_snapshots/_conf_safety.py:179-198 | one trimmed key line: cut at 4096, refused, dropped or stored |
| `Conf.ParseConfText` | backend/plus/config_snapshots/_conf_safety.py:122-214 | the whole parser, with the name and hostname warnings |
| `ConfMeaning.ParseMeans` | backend/plus/config_snapshots/_conf_safety.py:122-214 | without any parser state: an upload is refused for the first forbidden value before the first section; otherwise its keys, description and warnings are read off the lines before the first section, in order |
| `ConfMeaning.SectionsIgnored` | backend/plus/config_snapshots/_conf_safety.py:148-160 | a section header, whichever it is, and all lines after it have no effect on the result, not even an error |
| `ConfMeaning.LastValueCounts` | backend/plus/config_snapshots/_conf_safety.py:179-198 | a key is stored if and only if some line before the sections gives it a value, and it has the value of the last such line |
| `Conf.RenderConf` | backend/plus/config_snapshots/_conf_render.py:19-48 | the printer's two loops compute the text that the theorems are about |
| `ConfRoundTrip.ReadRendered` | backend/plus/config_snapshots/_conf_render.py:37-48 | what parsing a printed configuration gives when its values may have outer spaces |
| `ConfRoundTrip.ParseOutput` | backend/plus/config_snapshots/_conf_safety.py:142-200 | what holds of the keys and comment lines of every accepted upload, and that it fails exactly on a forbidden character |
| `ConfRoundTrip.RoundTripIff` | backend/plus/config_snapshots/_conf_safety.py:142-200 | printing then parsing returns the same map and description without format warnings if and only if the configuration is well-formed |
| `ConfRoundTrip.FixedPointIff` | backend/plus/config_snapshots/_conf_safety.py:138-200 | re-parsing the rendering of an accepted upload changes nothing if and only if no stored value ends in a space and the description is settled |
| `ConfRoundTrip.FixedPoint` | backend/plus/config_snapshots/_conf_safety.py:138-200 | in terms of the upload: nothing was cut and the last comment line is not empty, for all section layouts and repeated keys |
| `License.StripOldHeader` | tools/inject_license_headers.py:98-134 | the index walks compute the stripped file that the theorems are about |
| `License.FindBlock` | tools/inject_license_headers.py:115-132 | walking back and forward from the sentinel finds the whole comment block and one blank line |
| `License.StripsTo` | tools/inject_license_headers.py:98-134 | by line numbers: the file loses what lies between its shebang line and the end of the comment lines that begin with the first sentinel line, and one blank line more |
| `License.HeaderInPlace` | tools/inject_license_headers.py:150-156 | a new header stands on top of the file or right below its shebang line, and the rest follows unchanged after a blank line |
| `License.RewriteFile` | tools/inject_license_headers.py:193-217 | the rewriting step, with the file left alone when nothing changes |
| `License.StripAfterInject` | tools/inject_license_headers.py:150-156 | stripping after injecting returns the body exactly, for all three comment styles |
| `License.RewriteIdempotentIff` | tools/inject_license_headers.py:203-217 | rewriting twice equals rewriting once if and only if the file is blank or its stripped body is not a lone shebang line without a line break |
| `License.SwallowedTwice` | tools/inject_license_headers.py:150-156 | a file that is a lone unterminated shebang line gets a second header |
| `License.CodeKeptIff` | tools/inject_license_headers.py:98-134 | stripping loses no line of code if and only if none stands before the line with the sentinel, or no such line is found near the top |
| `License.ImportLost` | tools/inject_license_headers.py:134 | an import on top of its header line is stripped with it |
| `Calendar.WeekLabelExact` | backend/plus/auto_snapshots/rotation.py:49-51 | two times have the same ISO week label if and only if they lie in the same week, across year ends (section 4.1.4 of ISO 8601:2004) |
| `Calendar.FourthOfJanuary` | backend/plus/auto_snapshots/rotation.py:49-51 | 4 January lies in week 1 of its year |
| `Calendar.NextWeek` | backend/plus/auto_snapshots/rotation.py:49-51 | seven days later the label has the next week number, or is week 1 of the next year |
| `Calendar.MonthLabelDays` | backend/plus/auto_snapshots/rotation.py:49-51 | a month label covers as many days as the month has, and the months of a year follow on one another from its first day to its last |
| `Calendar.MonthLabelExact` | backend/plus/auto_snapshots/rotation.py:49-51 | the same for months |
| `Calendar.BucketsOrdered` | backend/plus/auto_snapshots/rotation.py:49-51 | weeks and months never go back with the clock |
| `Retention.ComputeGfsTiers` | backend/plus/auto_snapshots/rotation.py:54-107 | the flag loop assigns weekly and monthly exactly if no active snapshot of the bucket has the tier |
| `Retention.TiersIff` | backend/plus/auto_snapshots/rotation.py:54-107 | every snapshot is daily; it is weekly or monthly if and only if GFS is on and no active snapshot of the same label has the tier |
| `Retention.DetermineKeepSet` | backend/plus/auto_snapshots/rotation.py:181-216 | the growing set; for distinct ids a snapshot is in it if and only if it is one of the newest keep_last or, for some tier it carries, fewer newer ones carry that tier than the tier's setting |
| `Retention.KeepIff` | backend/plus/auto_snapshots/rotation.py:196-216 | the same of the set that the retention theorems are about |
| `Retention.NewestKept` | backend/plus/auto_snapshots/rotation.py:196-216 | as all are daily, the newest max(keep_last, keep_daily) are kept |
| `Retention.KeepStable` | backend/plus/auto_snapshots/rotation.py:196-216 | the keep set of any list that still holds the kept snapshots is the same keep set |
| `Retention.RotationConverges` | backend/plus/auto_snapshots/handlers.py:674-715 | whichever deletes fail, a later rotation without new snapshots ends in the same active list as one without failures |
| `Retention.KeepBound` | backend/plus/auto_snapshots/rotation.py:196-216 | the newest keep_last are always kept, and at most max(keep_last, keep_daily) + keep_weekly + keep_monthly are |
| `RetentionRuns.InvReached` | backend/plus/auto_snapshots/rotation.py:72-146 | over all histories the weekly and the monthly active snapshots lie in strictly falling buckets |
| `RetentionRuns.TierUniqueness` | backend/plus/auto_snapshots/rotation.py:72-107 | in every reachable state two active weekly snapshots of one ISO week, or monthly ones of one month, are the same snapshot |
| `RetentionRuns.TierCoverage` | backend/plus/auto_snapshots/handlers.py:653-715 | after any history with GFS on, whatever failed or was deleted from outside, a bucket with fewer than n later ones is represented by exactly one active tagged snapshot if and only if one that was tagged in it has not vanished |
| `RetentionRuns.OwnBucketTaggedIff` | backend/plus/auto_snapshots/rotation.py:72-125 | a run leaves its own bucket tagged if and only if its two clock readings lie in one bucket or the earlier bucket was not taken |
| `RetentionRuns.SteadyCoverage` | backend/plus/auto_snapshots/handlers.py:653-715 | if no run straddles a bucket boundary, each of the most recent n weeks or months with a snapshot is represented by exactly one, unless a tagged one of it vanished |
| `RetentionRuns.CrowdedCoverage` | backend/plus/auto_snapshots/handlers.py:653-715 | with straddling runs too: so is each recent week or month in which two snapshots were created, so that only a lone one can be lost |
| `RetentionRuns.LoneCoverageIff` | backend/plus/auto_snapshots/handlers.py:653-715 | a recent week or month with a single snapshot is represented if and only if that snapshot has not vanished and its run did not straddle the bucket's start or found the earlier bucket untaken |
| `RetentionRuns.StraddledWeekIsLost` | backend/plus/auto_snapshots/rotation.py:72-125 | a concrete history in which a week that had a snapshot has no weekly one |
| `SnapshotJob.ActiveListed` | backend/plus/auto_snapshots/rotation.py:150-175 | the listing is exactly the job's active rows, newest first |
| `SnapshotJob.VmSnapshots.SyncExternalState` | backend/plus/auto_snapshots/external_resync.py:36-101 | exactly the active rows without a snapshot become deleted_externally; the count and the prefixed names without a row are right |
| `SnapshotJob.VmSnapshots.CreateSnapshot` | backend/plus/auto_snapshots/handlers.py:592-662 | one retry on a name collision; the row carries the name really created; locked and failed attempts change nothing; a row clash aborts after the hypervisor has created |
| `SnapshotJob.VmSnapshots.Rotate` | backend/plus/auto_snapshots/handlers.py:674-715 | exactly the dropped snapshots whose delete succeeded are gone and marked, and agreement with the hypervisor is kept |
| `SnapshotJob.StaysIff` | backend/plus/auto_snapshots/handlers.py:674-715 | an active snapshot stays if and only if it is kept, does not exist or its delete fails |
| `SnapshotJob.MarkedRemains` | backend/plus/auto_snapshots/rotation.py:219-240 | marking leaves a job exactly what retention says remains |
| `SnapshotJob.MarkedSparesOthers` | backend/plus/auto_snapshots/rotation.py:219-240 | the active rows of other jobs are untouched |
| `SnapshotJob.VmSnapshots.RunTarget` | backend/plus/auto_snapshots/handlers.py:466-480 | over a whole run: all active rows name existing snapshots, a new row has the created name, every snapshot deleted had an active row of this job outside its keep set, and for every job of the VM the run is a step of its history |
| `SnapshotHistory.TableFollowsEvents` | backend/plus/auto_snapshots/handlers.py:466-480 | over any sequence of runs of any jobs a job's active rows are what its events leave |
| `SnapshotHistory.RowsUnique` | backend/plus/auto_snapshots/rotation.py:72-107 | after any sequence of runs two active rows of a job tagged weekly in one ISO week, or monthly in one month, are the same row |
| `SnapshotHistory.RowsCover` | backend/plus/auto_snapshots/handlers.py:653-715 | after any sequence of runs, whatever vanished or failed, a recent week or month is represented by exactly one active tagged row of the job if and only if a snapshot tagged in it has not vanished |
| `SnapshotHistory.RowsCrowded` | backend/plus/auto_snapshots/handlers.py:653-715 | it always is if the job created two snapshots in it and none of its tagged ones vanished |
| `Ipam.InvKept` | backend/plus/ipam/service.py:87-295 | every statement keeps one row per pool and address and the shape of pending, confirmed, orphaned and manual rows |
| `Ipam.Allocations.ReserveSpecific` | backend/plus/ipam/service.py:130-177 | sweeps, then inserts a pending row unless the address is taken |
| `Ipam.Allocations.AddManualRow` | backend/plus/ipam/service.py:266-295 | inserts a confirmed row without sweeping first |
| `Ipam.Allocations.ClusterRefreshed` | backend/plus/ipam/cleanup.py:75-126 | the two lists built by the loop make exactly the reconciliation of the node's rows, and the count is the number of rows changed |
| `Ipam.RefreshInTwo` | backend/plus/ipam/cleanup.py:94-118 | the two bulk updates by id are one pass over the node's rows |
| `Ipam.Allocations.JobFinished` | backend/plus/ipam/deploy_hook.py:122-130 | success confirms and failure releases the job's pending rows |
| `IpamRuns.InvReached` | backend/plus/ipam/service.py:87-295 | the invariant in every reachable state |
| `IpamRuns.Exclusive` | backend/plus/ipam/service.py:130-177 | two successful reservations of one (pool, ip) have a deletion of the first one's row between them |
| `IpamRuns.ManualRemovedIff` | backend/plus/ipam/service.py:255-261 | a manual row is deleted by release_by_id on it and by nothing else, and nothing changes it |
| `IpamRuns.ManualStays` | backend/plus/ipam/service.py:255-261 | the same over whole runs |
| `IpamRuns.ConfirmedRemovedIff` | backend/plus/ipam/cleanup.py:51-70 | a confirmed row is deleted only by hand or with its VM |
| `IpamRuns.PendingRemovedIff` | backend/plus/ipam/service.py:87-102 | the five ways in which a pending row leaves the table |
| `IpamRuns.PendingConfirmedIff` | backend/plus/ipam/deploy_hook.py:122-130 | which statements confirm a pending row, and every field of the row afterwards |
| `IpamRuns.RefreshDecides` | backend/plus/ipam/cleanup.py:75-126 | any other row changes only by a refresh of its node: confirmed while its VM is visible, orphaned while it is not |
| `IpamRuns.ExpiryIsExact` | backend/plus/ipam/service.py:43-102 | a sweep spares a new reservation if and only if it comes at most 30 minutes after it |
| `IpamRuns.OrphanRemovedIff` | backend/plus/ipam/cleanup.py:139-164 | an orphaned row is deleted only by an orphan release that names it or names none, by hand or with its VM |
| `IpamRuns.PendingKeptIff` | backend/plus/ipam/service.py:87-102 | a pending row nobody addresses stays, unchanged, if and only if no sweep runs after its expiry |
| `IpamRuns.DeployConfirmedIff` | backend/plus/ipam/deploy_hook.py:122-130 | a successful deploy's address is confirmed if and only if no sweep ran more than 30 minutes after the reservation |
| `IpamRuns.LongDeployLosesAddress` | backend/plus/ipam/service.py:87-102 | a concrete run in which another deploy gets the address of a running one |
| `IpamRuns.LastRefreshWins` | backend/plus/ipam/cleanup.py:75-126 | two refreshes of a node equal the last one |
| `IpamRuns.VanishedReturns` | backend/plus/ipam/cleanup.py:75-126 | VMs that vanish and come back leave the table as it was |
| `IpamDeploy.PlaybookJobStarted` | backend/plus/ipam/deploy_hook.py:74-119 | which deploys are tracked, and that a conflict leaves only the sweep |
| `IpamDeploy.FailureUndoesReservation` | backend/plus/ipam/deploy_hook.py:122-130 | a failed job leaves the table as before its reservation |
| `IpamDeploy.SuccessConfirmsReservation` | backend/plus/ipam/deploy_hook.py:122-130 | a successful job confirms its row for its VM and node and changes nothing else |
| `IpamStack.ReserveStackIps` | backend/plus/ipam/stack_hook.py:46-109 | with no other writer in between: on a conflict only rows that had expired are gone, so all or nothing; otherwise each VM in a pool has its row unless a later sweep found it expired, the count is right and no other live row has changed |
| `IpamStack.ReservedFields` | backend/plus/ipam/stack_hook.py:46-109 | the pool, address, owner, deployment, node and expiry of each reserved row |
| `IpamStack.RolledBackOwnsNothing` | backend/plus/ipam/stack_hook.py:92-96 | and once rolled back the deployment owns no pending row until it reserves again |
| `IpamStack.NoteNamesOwnIff` | backend/plus/ipam/stack_hook.py:117-128 | a row's note names its own VM if and only if no later VM of the stack has the same address in another pool |
| `IpamStack.NoteOverwritten` | backend/plus/ipam/stack_hook.py:117-128 | two VMs with one address on two bridges: both rows name the second VM |
| `IpamStack.ConfirmedForOwnVmIff` | backend/plus/ipam/stack_hook.py:144-185 | from reservation to confirmation: a row is confirmed for its own VM if and only if no later VM of the stack has the same address in another pool |
| `IpamStack.ConfirmStackIps` | backend/plus/ipam/stack_hook.py:131-189 | the row loop; confirmed plus released equals the former pending count |
| `IpamStack.ConfirmationConserves` | backend/plus/ipam/stack_hook.py:144-185 | afterwards no row of the deployment is pending; each former one is confirmed for the VM its note names or gone, exactly if none of that name was deployed; others are unchanged |
| `IpamStack.ReleaseStackOnDestroy` | backend/plus/ipam/stack_hook.py:202-231 | exactly the confirmed and orphaned rows of the stack's VMs go, and the total is their number |
| `IpPools.PoolTotalHosts` | backend/plus/ipam/service.py:345-360 | the counting loop equals the closed form and the number of usable addresses (section 3.1 of RFC 4632, section 2.1 of RFC 3021) |
| `IpPools.UncountedIff` | backend/plus/ipam/service.py:397-408 | which addresses a pool accepts but does not count: the gateway, and network and broadcast up to prefix 30 |
| `IpPools.NetworkAligned` | backend/plus/ipam/service.py:345-360 | a network starts at a multiple of its size, holds the pool's address and halves with each bit of prefix |
| `IpPools.FindPoolForIp` | backend/plus/ipam/service.py:381-423 | the candidate list and early-return loops find the first pool of the highest rank: the bridge of this name on the asked node or on any if none is asked, then the VNet of this name on whatever node, then any pool that holds the address |
| `IpPools.PoolForIsBest` | backend/plus/ipam/service.py:381-423 | a pool is found exactly if one contains the address; bridge and node come before VNet, and that before any other |
| `IpamUsage.PoolUsage` | backend/plus/ipam/service.py:363-376 | used is the number of reserved addresses; free is exact if and only if the reserved ones are all usable or the usable ones all reserved; used <= total in the first case |
| `IpamUsage.FreeExactIff` | backend/plus/ipam/service.py:370-375 | max(0, total - used) against the number of usable addresses not reserved |
| `IpamUsage.RowsAreAddresses` | backend/plus/ipam/service.py:363-376 | one row per address, so counting rows counts addresses |
| `IpamUsage.ReservedIps` | backend/plus/ipam/service.py:107-125 | the reserved addresses after the sweep, none while IPAM is off |
| `IpamUsage.GatewayReservationMiscounts` | backend/plus/ipam/service.py:363-376 | with the gateway reserved a free address is not counted as free |
| `GitTrigger.OnePassAtATime` | backend/plus/git_sync/service.py:615-625 | at most one pass runs at a time, over all interleavings |
| `GitTrigger.StartedRuns` | backend/plus/git_sync/service.py:599-612 | every trigger answered started is followed by a pass of its own |
| `GitTrigger.QueuedIsServedIff` | backend/plus/git_sync/service.py:606-625 | in every reachable state: a trigger answered queued is followed by a pass in every continuation without a raise if and only if some task is still to pass or to look at the flag |
| `GitTrigger.QueuedIsServedDespiteRaisesIff` | backend/plus/git_sync/service.py:606-625 | with passes that may raise, if and only if some task waits for a pass or is about to look |
| `GitTrigger.QueuedInFirstPassIsServed` | backend/plus/git_sync/service.py:606-625 | in a run from the start: every trigger answered queued during a first pass is followed by a pass that begins after it, if no later pass raises |
| `GitTrigger.AtMostTwoPasses` | backend/plus/git_sync/service.py:615-625 | a task begins at most two passes |
| `GitTrigger.LeftOverFlagIsFromDrain` | backend/plus/git_sync/service.py:621-625 | a flag still up when all tasks have ended without raising was raised during a drain pass |
| `GitTrigger.DrainTriggerLost` | backend/plus/git_sync/service.py:621-625 | a run from the start in which the third trigger, answered queued in a drain pass, can be lost |
| `GitTrigger.DrainReached` | backend/plus/git_sync/service.py:615-625 | the drain pass of that run is reached |
| `GitTrigger.SomeTaskCanMove` | backend/plus/git_sync/service.py:615-625 | no deadlock: while a task has not ended, some step brings one closer to its end |
| `GitSync.Store.SyncItems` | backend/plus/git_sync/service.py:723-773 | the item loop computes the pass of the theorems; synced, conflicted and errors are the tallies by the state before the pass; failed exactly if errors and nothing synced |
| `GitSync.PassView` | backend/plus/git_sync/service.py:723-773 | each item is treated by what held of it before the pass, whatever the other items are |
| `GitSync.HistoryKept` | backend/plus/git_sync/service.py:800-823 | earlier conflict rows stay as they are; each new one is open, carries the commit of the pass and belongs to a listed local item without an open conflict |
| `GitSync.UnlistedUntouched` | backend/plus/git_sync/service.py:723-773 | items outside the repository are left alone |
| `GitSync.LocalItemsKept` | backend/plus/git_sync/service.py:735-743 | a target item without a source row is never changed and ends with exactly one open conflict if the repository has it |
| `GitSync.OthersReachHead` | backend/plus/git_sync/service.py:745-770 | every other item ends with its source row at the commit unless its copy failed, and with the repository's content if it was copied |
| `GitSync.TalliesAddUp` | backend/plus/git_sync/service.py:723-773 | synced, conflicted, current and failed add up to the number of items |
| `GitSync.SecondPassIdle` | backend/plus/git_sync/service.py:723-773 | a second pass at the same commit, after one without copy errors, changes nothing |
| `GitSync.FailedFirstCopyIff` | backend/plus/git_sync/service.py:745-770 | a first copy that fails is made up for by the next pass that can copy if and only if it left nothing behind |
| `GitSync.HalfCopyStaysLocal` | backend/plus/git_sync/service.py:735-743 | one that left something makes the item a local one: over every later run it keeps what was left and each pass that lists it ends with exactly one open conflict |
| `GitSync.ConflictHashIff` | backend/plus/git_sync/service.py:800-823 | the open conflict of a local item carries the commit of the pass if and only if none was open before or the open one carried it already |
| `GitSync.Store.ResolveConflict` | backend/plus/git_sync/service.py:514-542 | the conflict gets its resolution and no other row changes; resolved as git with the item found, the target gets its content and the source row the conflict's own hash unless the copy fails; otherwise both stay |
| `GitSync.LocalIsReopenedIff` | backend/plus/git_sync/service.py:514-542 | a conflict not resolved as git is open again after the next pass if and only if the repository has the item and it is still a local one; the local version stays |
| `GitSync.GitIsReopenedIff` | backend/plus/git_sync/service.py:545-594 | a conflict resolved as git is open again after the next pass if and only if the item was not at the clone's root or its copy left something half-done |
| `GitSync.ResolvedReachesHeadIff` | backend/plus/git_sync/service.py:545-594 | after a conflict is resolved as git, a pass at any commit leaves the item with that commit's content if and only if the commit is not the one recorded with the conflict or the copied content was the same; the source row names the commit in either case |
| `GitSync.StaleContentStays` | backend/plus/git_sync/service.py:545-594 | a run in which the target keeps the later content although its row names the earlier commit |
| `GitSync.OneOpenReached` | backend/plus/git_sync/service.py:800-823 | never two open conflicts for one item, over all runs |
| `GitSync.LocalItemSurvives` | backend/plus/git_sync/service.py:735-743 | a local item survives any number of passes and resolutions until it is uploaded or given up |
| `SecretMasking.SplitPayload` | backend/plus/approvals/secret_masking.py:80-108 | the loop masks exactly the sensitive non-empty fields and collects their values |
| `SecretMasking.MaskedIff` | backend/plus/approvals/secret_masking.py:20-108 | a value is masked if and only if it is not empty and its name contains a telling word in any case or the last metadata of that name declares it secret; any other value is shown as it is |
| `SecretMasking.SplitThenMerge` | backend/plus/approvals/secret_masking.py:80-136 | merging after splitting gives the payload back, for all payloads and field metadata |
| `SecretMasking.WithoutBlobIff` | backend/plus/approvals/secret_masking.py:111-136 | without its blob a payload is the submitted one if and only if every secret was itself the mask |
| `Approvals.SecretLifetime` | backend/plus/approvals/service.py:226-284 | in every interleaving of all writers' statements rejected, cancelled, expired and executed requests have no blob and pending ones no decision time |
| `Approvals.NoWayBack` | backend/plus/approvals/service.py:443-465 | no statement brings back a blob, makes a request pending again or changes what was submitted |
| `Approvals.OverChangesIff` | backend/plus/approvals/service.py:275-284 | a request that is over changes its status only by the two updates that go by id alone |
| `Approvals.OpenKeepsPayload` | backend/plus/approvals/rules_service.py:399-408 | a pending or suspended request keeps its payload unless a call clears its blob |
| `Approvals.PendingHoldsSubmission` | backend/plus/approvals/service.py:226-240 | a pending request holds exactly what was submitted, under every interleaving |
| `Approvals.SubmissionReachesHandler` | backend/plus/approvals/service.py:252-265 | the payload handed to the handler is the submitted one and its hash the stored one |
| `Approvals.GivenPayloadIff` | backend/plus/approvals/service.py:226-258 | over all runs between the approval and the reading of the row: the submitted payload is handed over if and only if the blob is still there or every secret was itself the mask |
| `Approvals.ClosedKeepsBlobIff` | backend/plus/approvals/service.py:267-284 | over all runs: a request that is no longer open keeps its blob if and only if no clearing, execution or cancellation by id addresses it |
| `Approvals.LateHandlerIff` | backend/plus/approvals/service.py:242-258 | a handler that reads an approved request after any statements of other calls is given the submitted payload if and only if none of them took the blob or every secret was itself the mask |
| `Approvals.ApprovalTakesEffectIff` | backend/plus/approvals/service.py:226-240 | the update of a call that saw the request pending changes it if and only if no statement in between meant the request |
| `ApprovalCalls.AtMostOneHandlerIff` | backend/plus/approvals/service.py:199-265 | over all interleavings of calls and other writers: the handler of a request is started at most once if and only if no call looks at it between the look and the update of another |
| `ApprovalCalls.HandlerTwice` | backend/plus/approvals/service.py:199-265 | two overlapping calls that start the handler twice |
| `ApprovalCalls.ExecutedAfterAllIff` | backend/plus/approvals/service.py:207-284 | a request that is rejected, cancelled, expired or suspended can still come out executed if and only if a call that saw it pending has not ended |
| `ApprovalCalls.CallsOkReached` | backend/plus/approvals/service.py:207-240 | in every reachable state a request is not pending once a call on it has sent its update, whether or not the update changed it |
| `ApprovalCalls.RejectedThenExecuted` | backend/plus/approvals/service.py:226-284 | a run in which a request is rejected and then executed on its payload without secrets |
| `Approvals.OpenKeepsBlobIff` | backend/plus/approvals/service.py:625-631 | over all runs: a request that is still open has kept its blob if and only if no call cleared it |
| `Approvals.SuspendedLosesSecrets` | backend/plus/approvals/service.py:267-271 | a request suspended while an approval runs whose handler fails stays suspended without its secrets |
| `Approvals.ResubmitKeepsPayload` | backend/plus/approvals/service.py:385-397 | resubmitting a request with its blob and no overrides submits the same payload, even with other field metadata |
| `Approvals.ResubmitAfterRunIff` | backend/plus/approvals/service.py:385-397 | from a submission through any run of statements, a suspension included: resubmitting submits the same payload if and only if the blob is still there or every secret was itself the mask |
| `Approvals.ResubmitRejectedIff` | backend/plus/approvals/service.py:385-397 | for a request that lost its blob this holds if and only if every secret was itself the mask |
| `Approvals.OverrideTakesEffectIff` | backend/plus/approvals/service.py:385-392 | an override takes effect if and only if its key is no old secret or has the old value |
| `Approvals.Requests.CreateApproval` | backend/plus/approvals/service.py:69-137 | what is stored merges back to the submission, with its hash, and shows no secret |
| `Approvals.Requests.ApproveApproval` | backend/plus/approvals/service.py:199-291 | which call is refused and why, without a change; any other hands the payload the pending request held to the handler, and the table is then given row by row, without overlap |
| `Approvals.Requests.ResubmitApproval` | backend/plus/approvals/service.py:366-438 | which requests can be resubmitted, and what the new one holds |
| `Approvals.Requests.Decide` | backend/plus/approvals/service.py:294-361 | rejecting works on pending requests, cancelling on pending and suspended ones |
| `Approvals.Requests.CancelForVm` | backend/plus/approvals/cleanup.py:270-316 | exactly the open requests about the VM are cancelled, by their ids, and none is open afterwards |
| `Approvals.Requests.CancelScope` | backend/plus/approvals/cleanup.py:40-264 | a deleted user, playbook, template or stack cancels exactly the open requests about it; the rows afterwards |
| `Approvals.Requests.SuspendForRule` | backend/plus/approvals/rules_service.py:382-408 | a changed rule suspends exactly the pending requests of its action; the rows afterwards |
| `Approvals.Requests.ExpireOverdue` | backend/plus/approvals/service.py:443-473 | afterwards no pending request is overdue, and the count is the number of requests changed |
| `Approvals.Requests.DisableWorkflow` | backend/plus/approvals/service.py:541-567 | afterwards no request is open |
| `Quota.CalculateUsage` | backend/plus/pools/service.py:92-129 | the accumulator loop: templates count for nothing, uncached members for one VM without resources |
| `Quota.MemberCounts` | backend/plus/pools/service.py:85-129 | what one member adds, wherever it stands: a template nothing, one without cached data a VM without resources, any other all of its own |
| `Quota.CheckQuota` | backend/plus/pools_plus.py:121-140 | the exceeded list names exactly the limits that would be passed |
| `Quota.CheckPoolQuota` | backend/plus/pools_plus.py:93-163 | the single check, with the limits it would pass |
| `Quota.ResourceTotals` | backend/plus/stacks/deploy_service.py:119-133 | the totals of a stack, entry by entry with its count, are the sum over one request for each VM |
| `Quota.EntryCounts` | backend/plus/stacks/deploy_service.py:119-133 | what one entry adds to the totals, wherever it stands |
| `Quota.CheckPoolQuotaBulk` | backend/plus/pools_plus.py:165-212 | the check on these totals, with the limits it would pass |
| `Quota.BulkIffSingly` | backend/plus/pools_plus.py:165-212 | the bulk check allows a non-empty request if and only if checking one by one never refuses, each admitted VM then counting as a member |
| `Quota.AnyOrder` | backend/plus/pools_plus.py:165-212 | in any order of the single checks |
| `Quota.EmptyBulkIff` | backend/plus/pools_plus.py:165-212 | for no VMs at all the bulk check still refuses a pool over its limits |
| `Quota.LateCacheAdmitsMore` | backend/plus/pools/service.py:114-118 | what passes with a complete cache passes while the cache lags behind |
| `Quota.LateCacheIff` | backend/plus/pools/service.py:114-118 | whatever part of the new VMs the cache knows: single checks never refuse if and only if each request fits on top of what is known of the ones before it |
| `Quota.UncachedIff` | backend/plus/pools/service.py:114-118 | while the cache knows none of the new VMs each request is checked as if the ones before had no resources |
| `Quota.UncachedOversubscribes` | backend/plus/pools/service.py:114-118 | two VMs that single checks let through and the bulk check refuses |

## Left out

- Transpile.GeneratedFileReadsBackIff: `${...}` and `%{...}` inside a string are kept as the text they are written with; evaluating them, refusing malformed ones and HCL2's Unicode normalisation of strings are not modelled.
- SideFiles.BuildSideFiles: the text of the installer's file (preseed, kickstart, cloud-init and their YAML) is a parameter; a path is a directory and a name.
- Conf.ParseConfText: `str.lower` is modelled for ASCII letters and the Kelvin sign, which is all that can turn a character into a letter of a known key.
- License.RewriteFile: works on the text as read; the translation of line endings on reading and writing, `--check` and the walk over the directories are not modelled.
- SnapshotJob.VmSnapshots.RunTarget: one VM; a failing hypervisor call has no effect on the hypervisor, timestamps of rows differ and ids are fresh. Owner checks, RAM flags, audit entries and the summary's status are not modelled.
- Configuration snapshots (the other job type) and their rotation, which keeps a prefix only.
- IpamStack.ReserveStackIps: as a method it runs without other writers between two VMs; OthersSpared and RolledBackOwnsNothing say what holds with them.
- IpamStack.ConfirmStackIps: reading and updating are one transaction, so one step; the swallowing of database errors is not modelled.
- IpamDeploy.PlaybookJobStarted: starts from the parsed fields of the deploy; reading them from the playbook's parameters is not modelled.
- `assert_pool_deletable` and the cascade from a deleted pool: a pool with rows cannot be deleted.
- The core pool service (`backend.features.ipam`) is not part of this model; pools are given.
- GitSync.Store.SyncItems: cloning, fetching, the subdirectory check and the log rows before and after the loop are not modelled; contents are opaque and ignored files count as content.
- Approvals.Requests.ApproveApproval: as a method it runs without other calls; ApprovalCalls has the calls that overlap. Rule snapshots, audit entries and schedules are not modelled.
- SecretMasking.SplitPayload: decryption inverts encryption by assumption, the hash is any function, JSON text of payloads is not modelled.
- Quota.CheckQuota: also stands for the check under the lock, which names the core limit `cpu` and raises; locking and moving members between pools are not modelled.
- Routers, schemas beyond the packer editor's accepted values, migrations, notifications and user interface.
