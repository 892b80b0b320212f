# styrolite: a verified model of the container launch

styrolite starts a container: it unshares namespaces, forks a supervised child, builds the
child's file tree, lets the supervisor configure the child's user namespace, trims ids and
capabilities and executes the workload. This project models the parts of it where order,
branching and set arithmetic decide the outcome, together with the kernel rules they rely on,
and proves what a launch guarantees.

- **Capability masks and names** (`CapabilityBits`, `CapabilityNames`): the 64-bit masks, their
  two-word form and the name lists, refined to sets. `CapabilityBits` works on real bit vectors.
- **Credentials** (`Credentials`, `Preexec`): the five capability sets, securebits and ids of a
  process, with the rules of capabilities(7), prctl(2), setuid(2), setgid(2), setgroups(2) and
  execve(2); the class `Preexec.Task` runs `preexec_prep` on them.
- **The file tree** (`Paths`, `MountTable`, `Hardening`, `MountCalls`, `PivotFs`, `StableNodes`,
  `TreeView`, `MountAcceptance`, `PlainTrees`, `ContainerView`, `HardenedTree`, `ContainerResults`,
  `MountNamespace`): the mounts of a namespace in the order they were made, lookup by the newest
  mount that covers a path, mount(2), mount_setattr(2) and pivot_root(2) on them; the class
  `MountNamespace.MountNs` runs `pivot_fs`, with masked and read-only paths as in the OCI runtime
  specification, config-linux, "Masked Paths" and "Readonly Paths". What the kernel makes of a
  file system type, source and data is a parameter that depends on who mounts it; mounts that a
  new user namespace inherits are locked, as in mount_namespaces(7).
- **The launch protocol** (`Namespaces`, `IdMappings`, `MapRules`, `Launch`, `LaunchSafety`,
  `LaunchResults`): supervisor, child, two semaphore eventfds, namespaces, map files and signals as
  one state machine over a plan. A run is any interleaving of steps, failures and signals, so the
  results hold for every schedule. The rules are those of eventfd(2), user_namespaces(7),
  pid_namespaces(7), unshare(2) and signal(7).
- **Requests** (`Requests`, `Execution`, `RequestResults`, `Refusals`, `LaunchConditions`,
  `Workload`): the plan of a request on a host, with the namespace list, the mode, the privileges
  of the supervisor, the map files that the container's tree really shows, the tree, the
  credentials, the score, the console and the program as it is looked for in that tree; whose files
  the supervisor writes to, which writes are accepted, exactly when a workload is launched, which
  requests never are, and what a workload can do then.

`dafny verify dfyconfig.toml` checks the project.

## Where the code and its descriptions differ

The model follows the code.

- The comment at src/wrap.rs:651-652 says "two-stage"; the branch it stands in is the skip branch.
- src/wrap.rs:588-602 takes it that after the child's pivot the id it picks names the child at
  /proc. It chooses pid 1 without asking for a mount namespace, and the tree it then looks at has
  the requested mounts, masks and read-only paths on it: `PidNamesChildIff` is the exact condition,
  `HostProcBound`, `ProcMasked` and `ProcSealed` are requests that break it, `UndisturbedOutcome`
  says what happens then.
- In skip mode the supervisor is inside the new user namespace when it writes the maps, where the
  kernel lets it map its own id alone: `SkipModeLists`.
- The maps are the requested ones exactly if every write reached the child's own file:
  `RequestResults.PreparedOnlyAfterRelease`. A write that lands in another file that takes it, such
  as a masked one, goes unnoticed.
- `parent_efd.write(2)` is matched by one read, so the counter keeps 1: `CounterBounds`.
- A capability in `drop` and `raise_ambient` but not in `raise` is refused:
  `DroppedAmbientRefused`; in a new user namespace this and unknown names are all that is refused:
  `AcceptedIff`.
- `setgroups_deny` is on by default, and `apply_gid_uid` only logs refusals, so requested
  supplementary groups of a workload in its own user namespace take effect only if the request
  turns the denial off: `IdsOfWorkload`.
- An empty mapping list opens the map file and writes nothing, because no bytes make no write(2):
  `AttemptIs`.
- A terminal that has to be bound over /dev/console is mounted after the user namespace was
  entered. If one was requested, that is refused except in skip mode with a mount namespace:
  `SettlesIff`. src/wrap.rs:1004-1006 expects EPERM for a user id that the namespace does not map;
  fchown(2) answers EINVAL, and the launch ends: `Requests.Ownable`.
- The comment at src/wrap.rs:1222-1225 says that mounts are not locked in skip mode. Those the new
  mount namespace inherits are, so the plain binds that bin/styrojail.rs:141-154 asks for fail for
  a directory with a mount below it: `SubmountNeverLaunches`.
- Skip mode needs the pid namespace that only a test comment asks for (src/wrap.rs:1241), and for
  the host's own root both id maps: `ForeignPidsNeverLaunch`, `UnmappedNeverLaunches`.
- A `MountSpec` documents mount data, but `pivot_fs` drops it: `MountDataIsLost`.
- A create-directory mutation is documented as inside the container; an absolute target is not:
  `MutationInsideIff`.
- `rootfs_readonly` seals the root's own mount; submounts keep their state: `SealRootEffect`,
  `AssembledShows`.

## Model

| member | source | states |
|---|---|---|
| `CapabilityBits.SetBits` | src/caps.rs:139-144 | setting a list is set union for any order and any duplicates, and touches no bit above the last known capability |
| `CapabilityBits.ClearBits` | src/caps.rs:146-151 | clearing a list is set difference for any order and any duplicates, and touches no bit above the last known capability |
| `CapabilityBits.ParseBits` | src/caps.rs:125-133 | a parsed mask lists the known capabilities in it, in number order and once each |
| `CapabilityBits.PackParsed` | src/caps.rs:125-144 | packing what was parsed gives the mask restricted to bits 0 to 40 |
| `CapabilityBits.ParsePacked` | src/caps.rs:125-144 | parsing what was packed sorts the list and removes duplicates, so an ordered list comes back unchanged |
| `CapabilityBits.ResultRoundTrip` | src/caps.rs:356-377 | splitting 64-bit masks into two words and joining them gives the masks back |
| `CapabilityBits.DataRoundTrip` | src/caps.rs:356-377 | joining two words and splitting them gives the words back |
| `CapabilityBits.WordPosition` | src/caps.rs:356-377 | capability n is in a mask exactly if bit n%32 of word n/32 is set |
| `CapabilityNames.FromStr` | src/caps.rs:157-169 | a name is read as the one capability whose spelling it reduces to, and as nothing if there is none |
| `CapabilityNames.AnyCaseRead` | src/caps.rs:157-169 | every capability is read back from its name, letter by letter in either case, with any white space around it, bare or behind an upper-case prefix |
| `CapabilityNames.UncutPrefixUnknown` | src/caps.rs:157-169 | a prefix in lower case or behind white space is not cut, and the name is then unknown |
| `CapabilityNames.NamesAsBits` | src/config.rs:189-202 | a list is read exactly if every entry is known or "ALL"; the result has the union of what the entries stand for, without duplicates; an error names an unknown entry |
| `Namespaces.FlagsDecode` | src/namespace.rs:112-123 | at the bit positions of unshare(2) the kernel finds exactly the listed namespaces in the folded flags, and no other bit is set |
| `Namespaces.FlagsDetermined` | src/unshare.rs:10-11 | two lists fold to the same flags exactly if they have the same elements |
| `Namespaces.TwoStagesCoverTheList` | src/wrap.rs:544-640 | the flags of the two unshare calls together are those of one call over the whole list |
| `IdMappings.MappingsRoundTrip` | src/wrap.rs:150-161 | the line format of uid_map reads every rendered list back |
| `IdMappings.RenderInjective` | src/wrap.rs:150-161 | different lists render differently |
| `Credentials.NextConsistent` | src/wrap.rs:1022-1089 | every credential call keeps effective and ambient inside permitted, and ambient inside inheritable |
| `Credentials.RegainableIff` | src/wrap.rs:1033-1069 | a capability can be permitted after some sequence of calls exactly if it is permitted, inheritable or bounding now (permitted alone under no_new_privs) |
| `Credentials.AbsentForever` | src/wrap.rs:1033-1069 | a capability in none of the five sets never enters one again |
| `Preexec.Task.SetKeepCaps` | src/caps.rs:422-432 | accepted exactly with CAP_SETPCAP and no lock bit; the securebits are then NO_SETUID_FIXUP alone, and no set or id changes |
| `Preexec.Task.DropBounding` | src/wrap.rs:1033-1043 | the drops that are raised nowhere leave the bounding set; refused exactly if one is due without CAP_SETPCAP, and then nothing is lost |
| `Preexec.Task.RaiseAmbient` | src/wrap.rs:1071-1087 | accepted exactly if all are permitted and inheritable and raising is not switched off |
| `Preexec.Task.ApplyCapabilities` | src/wrap.rs:1022-1089 | succeeds exactly if all names are known and the sets allow it; effective, permitted, inheritable, bounding and ambient sets afterwards; a failure takes capabilities away at most |
| `Preexec.Task.ApplyGidUid` | src/wrap.rs:920-964 | group, groups, user in that order, each skipped or silently refused on its own |
| `Preexec.Task.PreexecPrep` | src/wrap.rs:1101-1113 | succeeds exactly with CAP_SETPCAP, unlocked securebits and an allowed request; the final capability sets depend on the old ones and the request, never on the ids |
| `Preexec.DroppedForGood` | src/wrap.rs:1033-1069 | a dropped capability is gone from all five sets through every later sequence of calls exactly if it was not also raised |
| `Preexec.WorkloadCapabilities` | src/wrap.rs:1101-1113 | what a plain program runs with: the ambient set as an ordinary user; as root the kept set, and the bounding set unless no_new_privs is set; nothing of it in effect for a root that is not effective; with no_new_privs the real user id is the effective one |
| `Preexec.IdsReachedIff` | src/wrap.rs:920-964 | exactly when each requested user and group id is reached, as the real one and as real, effective and saved one, and when the groups are, with the securebit or without |
| `Preexec.IdsGranted` | src/wrap.rs:920-964 | what is not asked for stays, and with both capabilities every mapped id asked for is there as all three of its kind |
| `Preexec.OrderMatters` | src/wrap.rs:925-926 | without the securebit the order of the code reaches group and user; with the user first the group is never reached |
| `Preexec.FixupClearsAppliedSets` | src/wrap.rs:1102-1111 | capabilities first and ids after, without the securebit: leaving root empties the effective and ambient sets, and the permitted set unless capabilities are kept |
| `Preexec.DroppedAmbientRefused` | src/wrap.rs:1045-1087 | in drop and raise_ambient but not in raise: refused |
| `LaunchSafety.InvKept` | src/wrap.rs:520-679 | every step, failure and signal keeps the invariant of the protocol |
| `LaunchSafety.ReachableInv` | src/wrap.rs:520-679 | every reachable state has it |
| `MapRules.InsideIff` | src/wrap.rs:187-208 | a supervisor inside the new namespace can map its own id alone, and id 0 of the parent only with CAP_SETFCAP |
| `Requests.AttemptIs` | src/wrap.rs:150-161 | what the kernel reads of a rendered list is the list itself, if it accepts its ranges and its length; an empty list only opens the file |
| `Requests.MapFilePaths` | src/wrap.rs:188-204 | the paths whose files decide are those the supervisor formats |
| `Requests.PlanSound` | src/wrap.rs:544-555 | what any request comes down to; the namespaces the child ends in are the requested ones in both modes |
| `LaunchResults.PreparedOnlyAfterRelease` | src/wrap.rs:581-678 | whatever the plan, the child settles, prepares and executes after the release, with no write refused and the maps that reached it |
| `LaunchResults.ProcOfSupervisor` | src/wrap.rs:588-602 | while it writes, the supervisor sees the container's tree in two stages with a mount namespace, and the host's otherwise |
| `LaunchResults.DenyBeforeGroups` | src/wrap.rs:195-205 | after the group map "deny" is refused, and before it the group map is refused to a supervisor without privilege |
| `RequestResults.PreparedOnlyAfterRelease` | src/wrap.rs:581-678 | the same for a request: it is then in exactly the requested namespaces, and holds the requested maps, each written once, in order, exactly if every write reached the child's own file |
| `RequestResults.TreeHitsIff` | src/wrap.rs:434-500 | as far as no requested mount covers it, the path of a map file in the container's tree leads to the child's own open file exactly if no masked and no read-only path is at or above it |
| `RequestResults.HostPathEntry` | src/wrap.rs:452-472 | where a requested mount binds a path of the host over it, it leads to the host's file |
| `RequestResults.PidNamesChildIff` | src/wrap.rs:588-602 | an ordinary path of the supervisor leads to its own child's open map file exactly in skip mode; without a mount namespace, if there is no pid namespace; and otherwise if no masked or read-only path is at or above it |
| `RequestResults.HostProcBound` | src/wrap.rs:452-472 | with the host's /proc bound over the container's, it leads to the first process of the host |
| `RequestResults.ProcMasked` | src/wrap.rs:489-494 | with "/proc" masked there is nothing to open |
| `RequestResults.ProcSealed` | src/wrap.rs:495-500 | with "/proc" read-only there is nothing to write to |
| `RequestResults.ConfigurationIff` | src/wrap.rs:187-208 | where nothing but the child's files takes the text, prepare_userns succeeds exactly if every write reaches the child's file, a merely opened file can be, and the kernel takes both lists from this supervisor |
| `RequestResults.OrdinaryConfigurationIff` | src/wrap.rs:187-208 | the same on ordinary paths, in terms of the request alone |
| `RequestResults.UidListAcceptedIff` | src/wrap.rs:187-193 | which uid list the kernel takes from this supervisor, by its own credentials: its own id alone, or any with CAP_SETUID outside skip mode; id 0 of the host only with CAP_SETFCAP |
| `RequestResults.GidListAcceptedIff` | src/wrap.rs:195-205 | which gid list: its own group alone once setgroups is denied, or any with CAP_SETGID outside skip mode |
| `RequestResults.SkipModeLists` | src/wrap.rs:187-208 | in skip mode only the supervisor's own id can be mapped, and its own group only with setgroups denied |
| `LaunchConditions.LaunchesExactlyIf` | src/wrap.rs:520-772 | some run launches the workload exactly if the kernel makes the listed namespaces for this supervisor, the tree can be built where there is a mount namespace, no map write is refused, the score is written, a terminal can be bound and handed over if there is one, the credentials are accepted, there is a name, the working directory can be entered, a filter comes with no_new_privs, the profile is staged, and the program is found in that tree |
| `LaunchConditions.PlainLaunchesIff` | src/wrap.rs:520-772 | the same for a plain default request with both maps, on the fields of the request, the host and the root file system |
| `LaunchConditions.UnlockedFilterNeverLaunches` | src/wrap.rs:721-724 | a filter without no_new_privs is never launched |
| `LaunchConditions.NamelessNeverLaunches` | src/wrap.rs:684-689 | nor is a request without a program, or with a NUL in its name |
| `LaunchConditions.UnenterableNeverLaunches` | src/wrap.rs:713-715 | nor one whose working directory is missing or may not be entered |
| `LaunchConditions.UnstagedProfileNeverLaunches` | src/apparmor.rs:15-28 | nor one whose profile neither node takes, the older being asked only where the newer is missing |
| `LaunchConditions.UnsharesIff` | src/wrap.rs:544-639 | both calls of unshare are granted exactly if every listed kind is made and the supervisor has CAP_SYS_ADMIN, or asks for a user namespace alone, or for all at once with one |
| `LaunchConditions.SettlesIff` | src/wrap.rs:665-673 | the steps between the release and the preparation succeed exactly if the score is written and the terminal bound, and the rights and the id for it are there |
| `LaunchConditions.ExecutesIff` | src/wrap.rs:683-736 | execute gets to the program exactly under the conditions on name, directory, filter and profile |
| `LaunchConditions.FindsIff` | src/wrap.rs:738-772 | the program is found exactly if one of the places of its name, as a path or in PATH, has something to run and all before it are passed over |
| `Refusals.UnprivilegedNeverLaunches` | src/wrap.rs:555 | without CAP_SYS_ADMIN a request whose first unshare asks for anything but no user namespace, such as the default one, is never launched |
| `Refusals.ForeignPidsNeverLaunch` | src/wrap.rs:434-450 | in skip mode a user and a mount namespace without a pid namespace are never launched: procfs is refused |
| `Refusals.UnmappedNeverLaunches` | src/wrap.rs:362-391 | in skip mode the host's own root is never launched unless both own ids are mapped in the child: the staging area is refused |
| `Refusals.SubmountNeverLaunches` | bin/styrojail.rs:141-154 | in skip mode a plain bind of a host directory with a mount below it is never launched, whatever else is mounted |
| `Refusals.MissingProgramNeverLaunches` | src/wrap.rs:738-772 | a program that the child's tree does not hold, or holds without leave to execute, at any place it is looked for is never launched |
| `Refusals.RootfsProgramIff` | src/wrap.rs:738-772 | a program named by its path, away from what covers the root file system, is found exactly if the kernel runs the root file system's own file there |
| `Refusals.MaskedScoreNeverLaunches` | src/wrap.rs:665-668 | with "/proc" masked a request that sets the out-of-memory score is never launched |
| `Execution.SearchRunsIff` | src/wrap.rs:738-743 | a program runs exactly if one of the places it is looked for leads to one and all before it are passed over |
| `Execution.ConsoleShows` | src/wrap.rs:969-1002 | /dev/console is the terminal then, with its attributes, and whatever exists elsewhere stays in its place |
| `Execution.ConsoleBoundIff` | src/wrap.rs:979-1002 | the terminal is bound exactly if the link of its descriptor names a node of the kind of /dev/console, which is made a file where it is missing and can be made |
| `Refusals.HostProcNeverLaunches` | src/wrap.rs:452-602 | a default request with the host's /proc bound over the container's is never launched |
| `Refusals.HardenedProcNeverLaunches` | src/wrap.rs:489-602 | nor is one with "/proc" masked or read-only |
| `LaunchResults.PivotInOwnerNamespace` | src/wrap.rs:623-661 | the child is in the user namespace that owns its mount namespace whenever it is about to pivot |
| `LaunchResults.NoLaterOwnership` | src/wrap.rs:624-640 | in two-stage mode a pivot after the user unshare would be refused |
| `LaunchResults.CounterBounds` | src/wrap.rs:579-605 | the eventfd counters stay in {0,1,2} and {0,1}; the first keeps a residue of 1 |
| `LaunchResults.ForwardingIsSafe` | src/signal.rs:22-95 | no kill before the pid is stored; until the child is reaped every kill goes to the child and to no other process; the child forwards nothing; the workload starts with default dispositions |
| `LaunchResults.SignalForwarded` | src/signal.rs:22-34 | from the store of the pid to the end of the supervisor each trapped signal becomes exactly one kill of the child with that signal; it ends a child at default dispositions outside a new pid namespace and moves nothing else |
| `LaunchResults.SignalBeforeTheChild` | src/signal.rs:22-51 | before that a signal whose handler is installed is lost, and any other ends the supervisor |
| `LaunchResults.SignalToChild` | src/signal.rs:60-71 | a signal to the child does nothing until its disposition is reset, and then ends it unless it is the first process of a pid namespace |
| `LaunchResults.ExitCodeMatches` | src/wrap.rs:76-81 | the supervisor exits with the child's code, or 1 if it was killed |
| `LaunchResults.StuckIff` | src/wrap.rs:579-648 | a reachable state has no next step exactly if both are over, or the parent waits for a child that ended before signalling, or the child for a parent that ended before releasing |
| `LaunchResults.EveryRunIsShort` | src/wrap.rs:520-679 | the two processes take at most 33 steps in any run |
| `LaunchResults.UndisturbedOutcome` | src/wrap.rs:520-679 | a run without failures from outside ends the supervisor without a child if the first unshare is refused, strands it if the child cannot pivot or enter its user namespace, strands the child if a map write is refused, exits with 1 if the child fails later, and launches the workload and passes its code on otherwise |
| `LaunchResults.RunToTheEnd` | src/wrap.rs:520-679 | from every state the processes can be run to the end |
| `LaunchResults.LaunchPossibleIff` | src/wrap.rs:520-679 | some run launches the workload exactly if no call of the supervisor is refused and no step of the child fails for reasons of the plan |
| `Workload.AcceptedIff` | src/wrap.rs:1022-1089 | in a new user namespace the preparation is refused only for unknown names and for a capability dropped, raised as ambient and not raised |
| `Workload.PreparesIff` | src/wrap.rs:1101-1113 | with a user namespace the preparation depends on the request alone |
| `Workload.IdsOfWorkload` | src/wrap.rs:920-964 | which requested ids the workload gets, as real ones and as all three: mapped ones; supplementary groups only if the request turns setgroups_deny off |
| `Workload.CapabilitiesOfWorkload` | src/wrap.rs:1022-1113 | the sets such a workload has, and that the capabilities it can ever regain are exactly the kept ones |
| `Paths.JoinNamesTheSamePlace` | src/mount.rs:115-121 | the joined path has the components of both texts, so it names the place of the untrimmed concatenation, with a single separator at the seam |
| `MountTable.CopiesShow` | src/mount.rs:256-301 | a recursive bind shows at its target everything visible at its source, submounts included |
| `MountTable.BlockElsewhere` | src/mount.rs:256-301 | mounts below one path change nothing elsewhere |
| `MountTable.MarkedShows` | src/mount.rs:303-328 | recursive attributes cover exactly the paths at or below the target and move nothing |
| `MountTable.MarkedShallow` | src/mount.rs:203-217 | without recursion they cover exactly the paths on the one mount |
| `MountTable.InheritedLockedBelowIff` | src/mount.rs:256-301 | in a new user namespace a path has a locked mount below it exactly if any mount of the host sits on the mount visible there, strictly below it |
| `MountCalls.MountedKeeps` | src/mount.rs:219-331 | mounting a specification changes no mount seen outside its target |
| `MountCalls.MountedShows` | src/mount.rs:256-328 | a mount shows at and below its target what a recursive or plain bind or a new file system brings along, under the attributes asked for |
| `MountAcceptance.BindIff` | src/mount.rs:219-331 | a bind onto a path of an existing directory succeeds exactly if a node of the kind of its source is there, or is to be made and can be, and no locked mount is left behind; then the path shows the source |
| `MountAcceptance.NewMountIff` | src/mount.rs:219-331 | a new mount succeeds exactly if the kernel makes the file system and a directory is there, or is to be made and can be |
| `MountAcceptance.PropagationIff` | src/mount.rs:219-331 | a change of propagation succeeds exactly on a mountpoint |
| `MountAcceptance.CreateDirAllIff` | src/mount.rs:237-254 | a directory is made with its parents exactly if everything on the way is a directory or missing where one can be made |
| `MountAcceptance.RequestedMountsIff` | src/wrap.rs:452-472 | the requested mounts are made exactly if each is accepted, by its own fields, in the state the ones before it left |
| `MountAcceptance.RequestedDirIff` | src/wrap.rs:474-483 | a requested directory is made exactly if its way is free in the state the ones before it left |
| `MountCalls.MaskDirMounted` | src/mount.rs:139-153 | mounting the directory mask gives an empty directory, read-only, nosuid, nodev and noexec, exactly if the target is a directory |
| `MountCalls.MaskFileMounted` | src/mount.rs:154-169 | mounting the file mask binds the null device with the attributes it has, exactly if there is one |
| `MountCalls.ReadOnlyMounted` | src/mount.rs:186-199 | mounting the read-only specification is a recursive self-bind made read-only throughout, exactly if the target exists |
| `Hardening.EmptyDirEffect` | src/mount.rs:139-153 | the whole effect of masking a directory on every path |
| `Hardening.NullEffect` | src/mount.rs:154-169 | the whole effect of masking a file on every path |
| `Hardening.ReadOnlyEffect` | src/mount.rs:178-200 | the whole effect of a read-only path on every path, submounts included |
| `Hardening.MaskableIff` | src/mount.rs:131-172 | whether the next path can be masked is decided by the view before the loop and the paths masked so far |
| `Hardening.SealKeepsMasks` | src/wrap.rs:489-500 | after both loops masks are in force, below read-only ancestors too, unmasked paths are what they were, and exactly the paths at or below a listed one became read-only |
| `HardenedTree.MaskedByIs` | src/wrap.rs:489-494 | masking a list succeeds exactly if each path is maskable in turn, and then masks all of them and changes nothing else |
| `HardenedTree.SealedByIs` | src/wrap.rs:495-500 | making a list read-only succeeds exactly if no path leads through a file, and then changes no contents and covers exactly the listed trees |
| `HardenedTree.PivotedTreeIff` | src/wrap.rs:332-507 | exactly when an assembled tree can be hardened and pivoted to, and what every path then shows |
| `MountNamespace.MountNs.Mount` | src/mount.rs:219-331 | the stages of mount in order; the new state, and success exactly if no stage is refused |
| `MountNamespace.MountNs.MakeMountpoint` | src/mount.rs:237-254 | if asked for, a file is there if a file is bound and a directory otherwise; no mount changes and whatever existed keeps its kind; a refusal changes nothing |
| `MountNamespace.MountNs.Seal` | src/mount.rs:203-217 | succeeds exactly on a mountpoint; the paths on its own mount become read-only and nothing moves |
| `MountNamespace.MountNs.Pivot` | src/mount.rs:333-353 | every path shows what it showed below the target |
| `MountNamespace.MountNs.MaskPath` | src/mount.rs:131-172 | skip, refuse, empty directory or null device, on the components of root and path |
| `MountNamespace.MountNs.MakeReadonly` | src/mount.rs:178-200 | skip, refuse or recursive read-only self-bind, on the components of root and path |
| `MountNamespace.MountNs.MaskAll` | src/wrap.rs:489-494 | the masking loop over any list succeeds exactly if each path is maskable in turn, and then all are masked and nothing else changed |
| `MountNamespace.MountNs.ReadOnlyAll` | src/wrap.rs:495-500 | the read-only loop over any list succeeds exactly if no path leads through a file, and then changes no contents and makes exactly the listed trees read-only |
| `MountNamespace.MountNs.MountAll` | src/wrap.rs:452-472 | the mounts of the request in order, below the root |
| `MountNamespace.MountNs.Harden` | src/wrap.rs:485-504 | both loops and the pivot: exactly when they succeed, and what every path of the container shows |
| `MountNamespace.MountNs.PivotFs` | src/wrap.rs:332-507 | pivot_fs succeeds exactly if the tree can be assembled and the masked and read-only paths of the request can be applied to it, and then every path shows what the assembled tree, the masks and the read-only paths make of it |
| `PivotFs.TreeBoundCopies` | src/wrap.rs:342-426 | the bound root is a place-by-place copy of the root file system, of the host's own tree but for the staging area if that is the root |
| `PivotFs.SealRootEffect` | src/wrap.rs:428-432 | rootfs_readonly covers the paths on the root's own mount and no submount |
| `TreeView.RequestedMountSight` | src/wrap.rs:452-472 | the last mount that covers a path decides which place it shows and with which attributes |
| `TreeView.AssembledOutside` | src/wrap.rs:332-483 | assembling the tree moves no mount outside it |
| `TreeView.LockedBindRefused` | src/wrap.rs:452-472 | a plain bind of a host directory with a locked mount below it is refused, whatever else the request mounts |
| `PivotFs.AssembledShows` | src/wrap.rs:332-483 | away from /proc and the requested targets the assembled tree is the root file system, place by place, with exactly that read-only cover |
| `PivotFs.ProcOfContainer` | src/wrap.rs:434-450 | in the assembled tree /proc is a file system mounted for this container, nosuid, nodev and noexec, and shows its own places wherever no requested mount covers them |
| `PivotFs.StagingIsNeeded` | src/wrap.rs:362-408 | a root of "/" could not be pivoted to; the staging area can |
| `PivotFs.MountDataIsLost` | src/wrap.rs:454-466 | request mounts that differ in their data alone are mounted the same |
| `PivotFs.MutationInsideIff` | src/wrap.rs:911-918 | a requested directory lands below the root exactly if its target is not absolute (or the root is "/" itself) |
| `StableNodes.AssembledRoot` | src/wrap.rs:332-483 | whatever is mounted and made, there is a mounted directory to pivot to |
| `PlainTrees.PlainTreeIff` | src/wrap.rs:332-450 | without further mounts and directories a root other than "/" is assembled exactly if it has a directory for /proc and the kernel mounts procfs for the child |
| `PlainTrees.PlainHostTreeIff` | src/wrap.rs:362-450 | the host's own root is assembled exactly if the directory of the staging area can be made, directories can be made in its tmpfs, there is a directory for /proc then, and the kernel mounts procfs for the child |
| `ContainerResults.ContainerShowsRootfs` | src/wrap.rs:332-507 | away from /proc, the requested mounts and the masked paths everything the root file system holds exists in the container, in the same place with the same attributes, and read-only besides exactly if a read-only root covers it or it is at or below a read-only path |
| `ContainerResults.ContainerShowsMount` | src/wrap.rs:452-472 | at and below the target of the last mount that covers it, an unmasked path holds what the source of that mount holds, under the attributes asked for |
| `ContainerResults.ContainerShowsHostPath` | src/wrap.rs:452-472 | a path of the host bound recursively into the container is there with all it holds |
| `ContainerResults.ContainerShowsDirectory` | src/wrap.rs:474-483 | a requested directory with a relative target is there in the container unless it is masked |
| `ContainerResults.ContainerShowsProc` | src/wrap.rs:434-450 | apart from requested mounts and masks /proc is a new instance of procfs with all it holds, read-only exactly at and below a read-only path |

## Left out

- `Launch`: system calls that fail for reasons outside the request and the modelled state of the host are not computed; every process may fail at every step instead.
- `Launch`: an interrupted eventfd read is taken to be restarted; dispositions are those signal(7) gives an installed handler.
- `Launch`: pid reuse after the child is reaped.
- `Launch`: the time, host name and resource-limit steps, which only log their failures; limits of the request that starve the launch itself, by resource limits or the control group.
- `Requests.PlanOf`: the files and mounts of the host are those that exist while the launch goes on; which kinds of namespaces the kernel makes, what it mounts, which other files can be opened or take a text, a score or a profile, which directories can be entered and what a file is when it is executed are given by the host.
- `Requests.PlanOf`: texts with NUL characters other than the name of the program.
- `MapRules`: Linux 5.12 and later; an AppArmor or other security module that restricts what a user namespace may do once it exists.
- `execute`: argument vectors and the environment, and what the system call filter and the AppArmor profile say; that they are accepted, the working directory, the search for the program and a filter without no_new_privs are modelled.
- `AttachRequest::wrap`, `first_child_pid_of`, `fork_and_wait`, `setns` through a process descriptor: a single process joins existing namespaces; it would repeat parts of the protocol in a simpler form.
- `prepare_cgroup`, `attach_cgroup`, `reap_children`, `seccomp`, `runner`, the command-line programs: file writes and single calls, or builders.
- `Credentials`: a process whose own ids are not mapped in its user namespace, further user namespaces made by the workload, file-system ids.
- `CapabilityNames`: the order of the hash set is an arbitrary one, not a particular one.
- `MountTable`: symbolic links (what procfs has below "self" is that of the process that looks), "." and "..", mount propagation between namespaces and unbindable mounts, limits of file systems and of path lengths, and what files contain beyond being a directory, a file or absent.
- `MountCalls.CreateDirAll`: owners and permission bits of files; a file system in which a process may create nothing is one the host marks so.
- `MountCalls.Mounted`: nosuid, nodev and noexec, always requested together, are one attribute, which a mount of the host has if it has all three; MS_SILENT has no effect.
- `MountCalls.PivotCall`: pivot_root(2) also refuses when the current root is the initial ramfs or no mountpoint, as in a chroot(2).
- `PlainTrees.PlainTreeIff`: every mount of procfs is an instance of its own, as since Linux 5.8; before, and for other types that have a single instance, mounting it twice on the same mountpoint is refused.
- `MountNamespace.MountNs.Mount`: after a failure the state is only known to be a possible one; `pivot_fs` ends there.
- `MountNamespace.MountNs.Pivot`: the mounts of the old root, which are detached.
- `Paths.Components`: paths are taken as absolute texts, but for the working directory and the program; other relative paths and the empty path, which the kernel refuses, are not distinguished from the root, nor a file from its name with a separator at the end.
