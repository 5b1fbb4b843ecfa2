# Verified model of cardinal-wings

A Dafny model of the parts of cardinal-wings that hold state, parse bytes, resolve paths or do
arithmetic, with proofs of what they promise. `dafny verify dfyconfig.toml` checks all of it.

Code that updates fields is modelled by a class whose methods are proved to refine a specification
function; the laws are then proved about runs of that function, for every sequence of operations.
Code that interleaves is modelled as a step system with a program counter for each thread; its laws
hold for every schedule and any number of threads. What the outside world answers (mounts, files, the
socket, clocks) is a parameter, so every pattern of failures is covered.

| files | what they model |
|---|---|
| Basics, Strings, Paths, Filesystem | an option type, text and path arithmetic, `Clean` as a stack machine, and the kernel's walk over a filesystem with symlinks and a link budget |
| Jail, JailAnswers, JailEffects, JailWrites | the file manager's and the SFTP server's path resolvers, what they answer to which request, and what an accepted write or mkdir does |
| Containment | which links below a directory keep walks inside it, whatever else comes and goes there |
| Archive, ArchiveSafety, ArchiveRoot, ArchiveOutside, ArchiveResult | extraction of a tar archive with deferred symlinks and byte and entry caps, onto whatever links are there, and what a success means |
| Quoting, MountTest | mountinfo unescaping and shell quoting, and the mount test over the text of mountinfo |
| MountSession, MountDecisions, MountLinks | the mount transaction behind a request: data image, overlay, volumes, and the way back; what it decides, in terms of configuration and answers; and where mounts and roots are when a container has left links |
| Leases, LeaseLaws, LeaseMounts, LeaseRuns, LeaseHeld, LeaseFair | shared mount leases and file-manager requests over two mutexes, interleaved |
| LeaseCode | `acquire` and `release` as code, and that an uninterrupted thread of the step system does the same |
| WsFrames, WsConn, WsClose | the websocket codec, message reassembly, and the ends of a connection |
| WsWire, WsFair, WsGoodbye | the wire under concurrent writers and closers, and how it relates to one caller's connection |
| Schedules | endless runs that can only go down: they settle |
| RateLimit, RateLaws, RatePruning | token buckets, and maps of buckets that are pruned |
| Terminal, TerminalLaws, TerminalChunks, TerminalReaders | a terminal session: line reassembly, replay ring, lossy subscribers, and what their readers take |
| Tasks, TaskLaws, TaskOutcomes | the life of asynchronous tasks, and what becomes of them |

The main results:

- A root that `acquire` handed out, or that a request is served from, is mounted in every interleaving;
  no umount fails; when all are done the mount table is what it was, and every mount was unmounted once
  (`LeaseRuns`). While the root is held, the disk image and every volume but tmpfs stay mounted as well
  (`LeaseHeld`). No endless schedule changes the state forever, and every fair one brings all threads to
  their end (`LeaseFair`).
- A path accepted by either resolver leads, through any symlinks, to the real root or below; no request
  that leads inside is refused (`Jail`); and an accepted write or mkdir, which makes the missing
  directories on its way, changes nothing outside the real root (`JailEffects`). Without links both
  resolvers answer what a process locked into the root would find (`JailAnswers`).
- Where no old link leads out, extraction changes nothing outside its destination and leaves no link that
  leads out (`ArchiveSafety`). Where old links climb before they go down, this is exactly when no archive
  can change anything outside (`ArchiveOutside`). A destination is lost to exactly one kind of archive,
  wherever old links lead (`ArchiveRoot`). A success into a link-free destination restores every directory,
  file and link of the archive that does not climb, and no other link (`ArchiveResult`).
- Opening and closing a session restores the mount table, whatever the mount test answers, and so does a
  setup that fails at any step (`MountSession`). The mount test tells what is mounted for all paths exactly
  when mountinfo is readable in a sense given on mount points and roots (`MountTest`). A setup succeeds,
  and mounts a volume, exactly when the configuration and the answers have all it takes; so a volume that
  is to be read-only is mounted read-only or not at all (`MountDecisions`).
- Any sequence of messages of at most 4 MiB, fragmented and interleaved with control frames, is read
  back exactly, with one pong for each ping; and nothing else is ever returned as a message (`WsConn`).
  A close frame is answered once, with its own payload, and over any calls on a connection one close frame
  goes out exactly when either side said goodbye (`WsClose`).
  The wire is a row of whole frames with at most one cut at the end and at most one close frame (`WsWire`),
  and every fair schedule ends with all writes begun once and in order (`WsFair`), the goodbye said and the
  socket closed once if asked for (`WsGoodbye`).
- Pruned buckets, of addresses and of keys, decide like buckets kept forever in all runs exactly when
  `maxAge` refills a bucket; and exactly then every client is kept to its rate in every window of every
  run (`RatePruning`).
- Terminal text is neither lost, added nor reordered, and a subscriber gets the ring and then a
  subsequence of the later chunks (`TerminalLaws`). Its reader takes them in that order, and unsubscribing
  ends them for good without anybody else noticing (`TerminalReaders`).
- In every run of the task manager, a successful cancel is final exactly when it finds the task running
  (`TaskLaws`). Status, text and time of a task follow from the operation that ended it (`TaskOutcomes`).

## Where the code and its comments part

The model follows the code.

- `internal/tasks/tasks.go:208-210` says that canceling a queued task makes it canceled; `run` sets it
  to running again (line 171), so it finishes after all and its callback is called twice
  (`TaskLaws.CanceledTaskSucceeds` from a fresh manager, `TaskLaws.CancelWhileQueued` after any run).
  `TaskLaws.CancelIsFinal` gives the exact condition for every run.
- `internal/server/archive.go:62-67` says that extraction never leaves its destination. A restore without
  `clean=1` extracts on top of what is there (`internal/server/backups.go:145-150`), and entries follow old
  links: any accepted name that leads out is written to by some archive of one file
  (`ArchiveOutside.LedOutIsWritten`, with `ArchiveOutside.OldLinkIsFollowed` as an example).
  `ArchiveOutside.ContainedExactly` gives the exact condition on the old links, for links that climb before
  they go down; for others what leads nowhere now may lead out once a directory is made
  (`ArchiveOutside.LateClimbEscapes`).
- The destination itself can be lost as well: a symlink entry named `./` can take the place of an empty one
  (`ArchiveSafety.RootCanBeTaken`). `ArchiveRoot.RootSurvives` gives the exact condition, whatever the old
  links.
- `internal/server/filemanager.go:69-92` splits mountinfo lines at every Unicode space, while the kernel
  escapes blank, tab, newline and backslash only, and undoes three of these. So a mount point with another
  space or a newline is never seen (`MountTest.UntidyIsUnseen`, `MountTest.CarriageReturnUnseen`), and a
  root with another space hides any mount point (`MountTest.NoBreakSpaceHides`). `MountTest.MountTestIsTrue`
  says exactly when the test is right for all paths. Where it is not, a volume is mounted once more on top
  of itself (`MountTest.UntidyIsMountedAgain`).
- `internal/server/filemanager.go:267-276` refuses a volume target that is not inside the overlay by name,
  and `internal/server/filemanager.go:207-218` takes a root below it by name. `mount` and `stat` follow the
  links a container has left there (`MountLinks.PlaceIsElsewhere`). `MountLinks.PlacesLandInside` and
  `MountLinks.ServesInsideExactly` say exactly when mounts and requests stay inside.
- `internal/server/terminal.go:112-114` says that subscribers always receive whole lines. A held fragment
  is sent as it is when it waits too long (`TerminalChunks.FragmentGoesOut`), or when a marker comes after
  it; a run keeps whole lines exactly when it never does so (`TerminalChunks.WholeLinesExactly`). A full queue loses chunks (`TerminalChunks.UnreadLoses`), exactly
  when more is offered than fits (`TerminalChunks.LossesExactly`). A held fragment can even read as the
  end marker that no one announced (`TerminalChunks.EndForged`, `TerminalChunks.MarkersExactly`).
- `internal/auth/auth.go:195-203` drops a bucket after `maxAge` whatever it still owes. Where `maxAge` is
  too short to earn a burst, a client is admitted two bursts in less time than one takes to earn
  (`RatePruning.TwoBursts`, `RatePruning.WindowBound`).

## Model

| member | source | states |
|---|---|---|
| `Paths.SquashBelow` | internal/server/filemanager.go:379-384 | Clean of a path without `..` only appends names to its base |
| `Paths.SquashUp` | internal/server/filemanager.go:379-384 | a name followed by `..` may be left out of a path, wherever it stands, and Clean gives the same |
| `Paths.RelEscapes` | internal/server/filemanager.go:341-346 | the containment test by Rel refuses a target exactly when the base is not a prefix of it |
| `Paths.RelLeads` | internal/server/filemanager.go:341-346 | what Rel gives, followed from the base, leads to the target |
| `Filesystem.FollowBudget` | internal/server/filemanager.go:385-394 | a walk that succeeds within a link budget ends at the same place with any larger one |
| `Filesystem.FollowThrough` | internal/server/filemanager.go:395-419 | a walk of a joined path first finds a directory along the first part and goes on from there |
| `Jail.ResolveFileManager` | internal/server/filemanager.go:378-419 | the climbing loop computes the specified resolution for every filesystem and request |
| `Jail.ResolveSftp` | internal/server/sftp.go:282-318 | the same for the SFTP resolver, so both give the same verdict on every request |
| `Jail.CleanersAgree` | internal/server/sftp.go:282-290 | the two resolvers clean every request to the same path |
| `Jail.RequestStaysBelowRoot` | internal/server/filemanager.go:379-384 | whatever the request, the joined path is the root and clean names, so the first containment test never fires |
| `Jail.ClimbStops` | internal/server/filemanager.go:395-411 | the climb ends on a visible prefix, and the next longer prefix is not visible |
| `Jail.AcceptedStaysInside` | internal/server/filemanager.go:378-419 | for any symlinks, following an accepted path ends at or below the real root; with missing allowed, the real parent and the missing suffix do too |
| `Jail.MissingLandsBelow` | internal/server/filemanager.go:395-419 | a missing path that can be created is one free name directly in its nearest existing parent |
| `Jail.InsideIsAccepted` | internal/server/filemanager.go:378-419 | no false refusal: what the kernel can follow to a place inside the root is accepted |
| `Jail.MissingInsideIsAccepted` | internal/server/filemanager.go:378-419 | with missing allowed, a path that can be created below the real root is accepted, exactly unless its last name is a dangling link |
| `JailAnswers.RequestLeadsToClean` | internal/server/filemanager.go:379-384 | in a tree without links a walk of the request itself, `..` and all, ends where its cleaned path says |
| `JailAnswers.UpIsUndone` | internal/server/filemanager.go:379-384 | for every name c and all texts a and b, both cleaners take `a/c/../b` for `a/b` |
| `JailAnswers.TopIsTop` | internal/server/filemanager.go:379-384 | at the top `..` stays at the top |
| `JailAnswers.FoundIsAllowed` | internal/server/filemanager.go:378-419 | without links: what a process locked into the root finds under a request, both resolvers allow, at that very place below the root |
| `JailAnswers.FreeIsAllowed` | internal/server/filemanager.go:378-419 | what it finds free is allowed at that place where missing paths are, and reported missing where not |
| `JailAnswers.OutsideIsForbidden` | internal/server/filemanager.go:411-418 | for any symlinks, a request that leads outside the real root is refused as forbidden, by both resolvers |
| `JailAnswers.NotFoundIsMissing` | internal/server/filemanager.go:403-410 | for any symlinks, a request that cannot be followed is reported missing, by both resolvers |
| `JailEffects.MkdirStaysInside` | internal/server/filemanager.go:681-704 | for any symlinks, making an accepted directory, with all that is missing above it, changes nothing outside the real root |
| `JailEffects.WriteStaysInside` | internal/server/filemanager.go:645-679 | the same for writing an accepted file, whether it is new or there already |
| `JailWrites.WriteReadsBack` | internal/server/filemanager.go:645-679 | for any symlinks, a write that succeeds is found under its path afterwards, whole, and all else it did was to make directories |
| `JailWrites.MkdirMakes` | internal/server/filemanager.go:681-704 | for any symlinks, after a mkdir that succeeds a directory is found under its path |
| `JailWrites.MkdirExactly` | internal/server/filemanager.go:681-704 | without links, a mkdir succeeds if and only if nothing but directories is on the way down |
| `JailWrites.WriteExactly` | internal/server/filemanager.go:645-679 | without links, a write succeeds if and only if nothing but directories is above its place and no directory in it |
| `Archive.EntryAccepted` | internal/server/archive.go:22-34 | a name is accepted if and only if, with backslashes turned and one leading `./` dropped, it is a canonical relative path, or it is `./` |
| `Archive.TargetBelow` | internal/server/archive.go:94-99 | an accepted name joins to a place below the destination, to the destination itself only as `./`, and the later Rel check never fires |
| `Archive.AcceptedPartsClimbFree` | internal/server/archive.go:22-34 | an accepted name has no `..` part even as written, before backslashes are turned |
| `Archive.Host.ExtractOne` | internal/server/archive.go:79-151 | one turn of the entry loop changes filesystem, counters, kept links and success as specified, on every error path |
| `Archive.Host.PlaceAll` | internal/server/archive.go:156-164 | the link loop removes what is in the place, makes directories and links as specified; a failure to remove is ignored, any other one ends it |
| `Archive.Host.ExtractTarGz` | internal/server/archive.go:68-165 | the whole extraction equals its specification, for any stream and filesystem |
| `Containment.FollowHeld` | internal/server/archive.go:100-118 | while the links below a directory are held in, a walk that starts there and does not climb back out ends there, whatever directories and files come and go |
| `ArchiveSafety.ExtractionStaysInside` | internal/server/archive.go:68-165 | whatever the archive, onto a destination whose old links are held in: nothing outside changes, all links stay held in, and no `..`-free path from the destination leads out, even through links made by way of links |
| `ArchiveOutside.LedOutIsWritten` | internal/server/archive.go:100-118 | wherever a plain name below the destination leads out, to a directory, a file or a free name, some archive of one file changes the outside |
| `ArchiveOutside.OldLinkIsFollowed` | internal/server/archive.go:105-118 | onto a destination with an old link to `/etc`, an entry below that link is written to `/etc` |
| `ArchiveOutside.ContainedExactly` | internal/server/archive.go:68-165 | where links climb before they go down and have plain names: no archive changes anything outside, if and only if no plain name leads out beforehand, if and only if every old link is held in |
| `ArchiveOutside.LateClimbEscapes` | internal/server/archive.go:68-165 | a link that climbs after going down: no name leads out as it is, and still an archive of a directory and a file writes outside |
| `ArchiveRoot.StaysEmptyExactly` | internal/server/archive.go:79-151 | the entry loop succeeds and leaves the destination empty if and only if it was empty, the entries are few enough, and all are links, specials or `./` |
| `ArchiveRoot.FullRootSurvives` | internal/server/archive.go:68-165 | a destination that holds something is still a real directory after every archive, wherever old links lead |
| `ArchiveRoot.RootSurvives` | internal/server/archive.go:68-165 | wherever old links lead, the destination is a directory afterwards, exactly unless it was empty, the archive is whole and not too long and holds nothing but links, specials and `./`, and its first link that passes the filters is named `./` |
| `ArchiveSafety.RootCanBeTaken` | internal/server/archive.go:152-164 | an archive of one link `./` takes the place of an empty destination |
| `ArchiveSafety.RegularLands` | internal/server/archive.go:109-139 | a regular entry is written whole where its name says, after its parents were made |
| `ArchiveSafety.LinkLands` | internal/server/archive.go:152-164 | a link whose path runs through no other link is placed there with its target, and nothing else changes but new directories |
| `ArchiveSafety.WantedIsKept` | internal/server/archive.go:130-149 | a symlink is recorded if and only if its target is nonempty, does not start with `/` and has no `..` part; for an entry `./` also only if the first name of its target is that of the destination |
| `ArchiveResult.EntryExactly` | internal/server/archive.go:79-151 | without links, an entry succeeds if and only if there are not too many, its name is accepted, nothing is in its way, its body does not break off and the caps are kept |
| `ArchiveResult.SuccessIsWhole` | internal/server/archive.go:68-165 | for any symlinks, a success means that the archive was read to its end, with all names accepted, no body broken off and both caps kept by the archive itself |
| `ArchiveResult.AllRestored` | internal/server/archive.go:68-165 | a successful extraction into a link-free root, of an archive whose links do not lie on the way of one another, leaves each symlink whose target is nonempty, relative and without `..` at its place and no other link, each directory, and each file with the body of its last entry, but for what a link replaces |
| `ArchiveResult.BudgetHolds` | internal/server/archive.go:80-139 | bytes written never exceed the cap by more than one, and a pass that succeeds keeps both caps |
| `ArchiveResult.BytesAreCounted` | internal/server/archive.go:109-139 | the total is exactly what the entries put into files, so at most one byte over the cap is on disk, however the extraction ends |
| `Quoting.UnescapeIsOnePass` | internal/server/filemanager.go:88-92 | the three replacements, one after another, equal a decoder that reads once from left to right, on every input |
| `Quoting.UnescapeInverts` | internal/server/filemanager.go:88-92 | the kernel's escaping of a path is undone if and only if the path has no newline |
| `MountTest.IsMounted` | internal/server/filemanager.go:69-86 | the loop over the text of mountinfo finds the cleaned target if and only if on some line with six fields the fifth one unescapes to it |
| `MountTest.TestReads` | internal/server/filemanager.go:69-92 | over what the kernel writes, the test sees exactly the paths that the lines show: the first piece of the mount point, or the second of a root that a space breaks |
| `MountTest.UntidyIsUnseen` | internal/server/filemanager.go:69-92 | a target with a space other than blank and tab, or with a newline, is never seen, in any text |
| `MountTest.TidyCharacters` | internal/server/filemanager.go:77-84 | a path is tidy if and only if it has none of the 23 Unicode spaces other than blank and tab |
| `MountTest.MountTestIsTrue` | internal/server/filemanager.go:69-92 | the test tells for all paths what is mounted, if and only if every mount point is tidy and for each root that breaks other lines make up |
| `MountTest.TidyIsReadable` | internal/server/filemanager.go:69-92 | where mount points hold no space but blanks and tabs, and roots none that the kernel leaves as it is, mountinfo is readable |
| `MountTest.CarriageReturnUnseen` | internal/server/filemanager.go:77-84 | a mount point with a carriage return is mounted and not seen |
| `MountTest.NoBreakSpaceHides` | internal/server/filemanager.go:77-84 | a no-break space in what is mounted hides an ordinary mount point |
| `MountTest.ReadableIsTruthful` | internal/server/filemanager.go:69-92 | where mountinfo is readable, all answers that a setup gets about its places are true |
| `MountTest.UntidyIsMountedAgain` | internal/server/filemanager.go:267-339 | a volume whose place is not tidy is mounted again each time, on top of itself |
| `Quoting.QuoteReadsBack` | internal/server/filemanager.go:348-350 | a quoted value, whatever it holds, is read back by the shell's quoting rules as exactly one word, the value |
| `MountSession.VolumeInside` | internal/server/filemanager.go:267-276 | a volume is only ever mounted on a path strictly below the overlay by name, where the mount test saw nothing |
| `MountSession.SetupFresh` | internal/server/filemanager.go:118-219 | where the mount test tells the truth about its places, whatever fails: a setup mounts only new points, none twice, below its container by name; on success the overlay is mounted |
| `MountSession.SetupCompletes` | internal/server/filemanager.go:118-339 | where the mount test tells the truth about its places, a setup that succeeds leaves nothing out: overlay, disk image and every volume but tmpfs are mounted |
| `MountDecisions.VolumePlace` | internal/server/filemanager.go:267-276 | an absolute target is cleaned and put below the overlay, a relative one is joined to it as it stands |
| `MountDecisions.VolumeExactly` | internal/server/filemanager.go:267-339 | when a volume is mounted, passed over or fails the setup, each if and only if its configuration, its place and the answers for it say so |
| `MountDecisions.MountedWasUsable` | internal/server/filemanager.go:267-339 | whatever the mount test answers and however the setup ends, each volume that it mounted had mkdir, stat, mount and, where it is read-only, the remount succeed |
| `MountDecisions.ReadOnlyOrNothing` | internal/server/filemanager.go:327-335 | a read-only bind or named volume that is not seen at its turn and whose remount fails makes the setup fail, and no mount of it is left |
| `MountDecisions.ReadOnlyStaysAway` | internal/server/filemanager.go:327-335 | with a truthful mount test, such a volume that was not mounted before is not mounted afterwards |
| `MountDecisions.UsableSucceeds` | internal/server/filemanager.go:267-339 | volumes that have all they take never fail a setup, whatever is mounted and seen |
| `MountDecisions.SetupExactly` | internal/server/filemanager.go:118-219 | a setup succeeds if and only if id, state, image, overlay, volumes and a root are all in order, and mounts image, overlay and volumes in that order |
| `MountSession.UnseenIsMountedAgain` | internal/server/filemanager.go:267-339 | a volume that the test does not see is mounted once more, on top of itself |
| `MountLinks.PlacesLandInside` | internal/server/filemanager.go:267-325 | every place below a directory that can be made is really there once made, if and only if no name below it leads to a directory outside |
| `MountLinks.VolumeLandsInside` | internal/server/filemanager.go:267-325 | where no name leads to a directory outside, a volume lands below the overlay in fact |
| `MountLinks.HeldReachesNothing` | internal/server/filemanager.go:267-325 | where the links below the overlay are held in, no name leads to a directory outside |
| `MountLinks.PlaceIsElsewhere` | internal/server/filemanager.go:277-325 | with a link to `/etc` in its place, a volume is mounted on `/etc` |
| `MountLinks.RealRoot` | internal/server/filemanager.go:207-218 | the real root of a session is below the overlay, exactly unless the names of the root lead to a directory outside |
| `MountLinks.RootByName` | internal/server/filemanager.go:207-218 | a root that is no link, nor below one, is where its name says |
| `MountLinks.ServesInsideExactly` | internal/server/filemanager.go:207-218 | every accepted request ends below the overlay, if and only if the names of the root do not lead out of it |
| `MountSession.UmountNewest` | internal/server/filemanager.go:233-250 | each umount of a session succeeds and takes the newest mount of all, last in, first out, also where a point is mounted twice |
| `MountSession.CleanupRestores` | internal/server/filemanager.go:233-250 | taking a session's mounts down gives back the table from before it, exactly |
| `MountSession.OpenCloseRestores` | internal/server/filemanager.go:118-261 | opening and closing restores the table, whatever the mount test answers, and so does a setup that fails at any step |
| `MountSession.RemountUndone` | internal/server/filemanager.go:327-335 | a volume whose read-only remount fails is taken back, and the table is as before it, whatever was mounted there |
| `MountSession.FmSession.MountConfiguredVolumes` | internal/server/filemanager.go:267-339 | the loop mounts exactly what the specification says and records it in order, whatever fails |
| `MountSession.FmSession.UmountVolumes` | internal/server/filemanager.go:233-240 | the volume loop is the first part of unmounting everything newest first |
| `MountSession.FmSession.CleanupMounts` | internal/server/filemanager.go:233-250 | all recorded mounts are unmounted newest first, and the session is empty |
| `MountSession.FmSession.Close` | internal/server/filemanager.go:252-261 | mounts go, and the lock is given back once however often Close is called |
| `MountSession.MountOverlaySession` | internal/server/filemanager.go:118-219 | a session with exactly the mounts of the specification, or nothing and the old table |
| `MountSession.BeginFmSession` | internal/server/filemanager.go:99-108 | the lock is held on success and free on failure |
| `MountSession.Request` | internal/server/filemanager.go:485-521 | a request leaves table and lock as it found them |
| `LeaseCode.SftpLeases.Acquire` | internal/server/sftp.go:619-652 | a known container gets one more holder; else a mount with one holder, or nothing changes |
| `LeaseCode.SftpLeases.Release` | internal/server/sftp.go:654-674 | one holder less; the last one removes the lease and unmounts it |
| `LeaseCode.AcquireReleaseRestores` | internal/server/sftp.go:619-674 | release undoes acquire, whatever was mounted: leases and mount table are as before |
| `LeaseCode.AcquireAlone` | internal/server/sftp.go:619-652 | a thread of the step system that is not interrupted does what acquire does, and gives both locks back |
| `LeaseCode.ReleaseAlone` | internal/server/sftp.go:654-674 | the same for release, however many umounts it takes |
| `LeaseLaws.StepLocks` | internal/server/sftp.go:619-674 | every step keeps both mutexes held by exactly the threads inside them |
| `LeaseLaws.StepRefs` | internal/server/sftp.go:619-674 | every step keeps refs equal to the number of holders of the lease |
| `LeaseMounts.AddLease` | internal/server/sftp.go:639-650 | registering a new mount keeps every other lease mounted and accounted for |
| `LeaseMounts.UmountHitsOwn` | internal/server/filemanager.go:233-250 | whatever other sessions have mounted meanwhile, the next umount of a session finds its own newest mount with nothing on top |
| `LeaseMounts.UmountKeeps` | internal/server/filemanager.go:233-250 | one umount of a closing session leaves all other leases mounted |
| `LeaseRuns.RunKeeps` | internal/server/sftp.go:619-674 | the invariants of locks, references and mounts hold after every schedule |
| `LeaseRuns.HandedOutIsMounted` | internal/server/sftp.go:619-674 | in every interleaving a root that is handed out or served is mounted, refs counts the holders, and there is a lease if and only if somebody holds it |
| `LeaseRuns.LastReleaseCloses` | internal/server/sftp.go:654-674 | release closes the session if and only if it drops the last reference |
| `LeaseRuns.UmountsSucceed` | internal/server/filemanager.go:233-250 | no umount ever fails, and each removes one mount of that very session, for the first time |
| `LeaseRuns.AllComesDown` | internal/server/sftp.go:654-674 | once all threads are done: no lease, the mount table of the start, every mount unmounted exactly once |
| `LeaseRuns.InnerNeverWaits` | internal/server/sftp.go:630-637 | in every interleaving the holder of the inner mutex is not waiting for the outer one |
| `LeaseRuns.SomeoneSteps` | internal/server/sftp.go:619-674 | no deadlock: unless all are done some thread can step, whatever its setup meets |
| `LeaseRuns.CanFinish` | internal/server/sftp.go:619-674 | from every reachable state all threads can be run to their end |
| `LeaseHeld.LeaseStaysComplete` | internal/server/sftp.go:639-652 | from its mount on, in every interleaving, a lease that is still the same has overlay, disk image and every volume but tmpfs mounted |
| `LeaseHeld.HolderKeepsLease` | internal/server/sftp.go:619-674 | as long as a thread holds its root, the lease stays the one it got, whatever the others do |
| `LeaseHeld.ServedIsComplete` | internal/server/filemanager.go:485-521 | while a request is served, its overlay, disk image and volumes stay mounted |
| `LeaseFair.ChangesEnd` | internal/server/sftp.go:619-674 | in every endless schedule, fair or not, only finitely many steps change anything |
| `LeaseFair.FairEnds` | internal/server/sftp.go:619-674 | every fair schedule of any leases and requests brings all of them to their end |
| `WsFrames.XorTwice` | internal/ws/ws.go:240-244 | masking twice gives the byte back |
| `WsFrames.MaskBits` | internal/ws/ws.go:240-244 | masking turns over just the bits of a byte that are set in the mask byte at i mod 4 |
| `WsFrames.FirstIsHighest` | internal/ws/ws.go:212-228 | in a length of any width the first byte is worth most |
| `WsFrames.Unmask` | internal/ws/ws.go:240-244 | the in-place loop xors byte i with mask byte i mod 4, for any length |
| `WsFrames.Reader.ReadFrame` | internal/ws/ws.go:192-246 | frame, error and what is left unread are as specified, on every input |
| `WsFrames.ParseEncode` | internal/ws/ws.go:192-246 | an acceptable frame, with any mask and in each of the three length forms, parses back and leaves the rest of the stream |
| `WsFrames.EncodeParse` | internal/ws/ws.go:192-246 | everything that is accepted is such an encoding of the frame returned |
| `WsFrames.HeadJudged` | internal/ws/ws.go:192-246 | for any frame head with anything behind it: which fault is named where there are several, what is left unread, and that without fault the frame is taken once it is all there |
| `WsFrames.EveryInput` | internal/ws/ws.go:192-234 | every input has a whole head, shows a fault in its first two bytes, or is cut inside the head, which is a short read |
| `WsFrames.Writer.WriteFrame` | internal/ws/ws.go:248-270 | the header array and the payload go out as one frame, cut short only where the socket fails |
| `WsFrames.ClientReads` | internal/ws/ws.go:248-270 | a strict client, which insists on the shortest length form, recovers opcode and payload |
| `WsConn.Reassembles` | internal/ws/ws.go:91-141 | a message of at most 4 MiB, however fragmented, masked and interleaved, is returned whole, with one pong for each ping, in order |
| `WsConn.ReadsAllMessages` | internal/ws/ws.go:91-141 | successive calls return exactly the messages sent, in order, and answer exactly their pings |
| `WsConn.ReturnedWasSent` | internal/ws/ws.go:91-141 | whatever is returned was sent as a message in frames, is at most 4 MiB long, and its pings were answered |
| `WsConn.Conn.Handle` | internal/ws/ws.go:99-138 | one turn of the loop, for every opcode and state, errors included |
| `WsConn.Conn.ReadText` | internal/ws/ws.go:91-141 | the loop returns the specified outcome and leaves the specified connection, on every input |
| `WsConn.Conn.WriteControl` | internal/ws/ws.go:154-164 | a payload over 125 bytes is refused and nothing is sent |
| `WsConn.Conn.Close` | internal/ws/ws.go:169-181 | the first call sends at most one close frame and closes the socket, later calls do nothing |
| `WsClose.AnswersClose` | internal/ws/ws.go:99-109 | behind pings, pongs and an unfinished message, a close frame ends the stream; it is answered with its own payload, behind the pongs due, exactly unless a close frame went out or is on its way |
| `WsClose.PongFails` | internal/ws/ws.go:110-114 | a pong that the socket does not take ends the reading |
| `WsClose.RefusesOutOfPlace` | internal/ws/ws.go:117-132 | a new data frame inside a message, a continuation outside one, an unknown opcode and a message over 4 MiB each end the reading with an error of their own, and nothing but the pongs due went out |
| `WsClose.BadFrameEnds` | internal/ws/ws.go:95-98 | bytes that are no frame end the reading with the error of the frame, behind the pongs due |
| `WsClose.OneGoodbye` | internal/ws/ws.go:91-181 | over any calls of ReadText, WriteText and Close, the socket is given whole frames: the texts written before Close in order, pongs, and one close frame exactly if closing was set meanwhile; after Close nothing |
| `WsClose.NewConnection` | internal/ws/ws.go:91-181 | on a new connection at most one close frame goes out, and exactly one once Close was called or a close frame was read |
| `WsWire.StepMutex` | internal/ws/ws.go:143-164 | one thread at a time is between locking and unlocking writeMu |
| `WsWire.StepOneClose` | internal/ws/ws.go:99-181 | closing is set exactly while one close frame is out or on its way |
| `WsWire.StepOnce` | internal/ws/ws.go:169-181 | one thread at a time is inside closeOnce, and the socket is closed once |
| `WsWire.WireIsFrames` | internal/ws/ws.go:143-181 | in every interleaving the wire is whole frames in lock order and at most one cut frame, with at most one close frame and one teardown |
| `WsWire.ClientSeesFrames` | internal/ws/ws.go:143-181 | a strict client reads exactly those frames from the wire |
| `WsWire.EveryWriteOnce` | internal/ws/ws.go:143-164 | each goroutine's texts and pongs are begun in its own order, and once it is done each exactly once |
| `WsWire.SomeoneSteps` | internal/ws/ws.go:143-181 | no deadlock between writeMu and closeOnce |
| `WsFair.ChangesEnd` | internal/ws/ws.go:143-181 | in every endless schedule, fair or not, only finitely many steps change anything |
| `WsFair.FairEnds` | internal/ws/ws.go:143-181 | every fair schedule of any writers, replies and closers brings all of them to their end, with each goroutine's texts and pongs begun once and in order |
| `WsGoodbye.JobAlone` | internal/ws/ws.go:143-181 | a goroutine of the step system that is not interrupted does with output, closing and closeOnce just what one caller's connection does for its write, pong, reply or Close |
| `WsGoodbye.GoodbyeIsSaid` | internal/ws/ws.go:99-181 | in every interleaving a close frame is begun, and the socket closed, only if some goroutine asks for it, and once all are done each happened exactly once if asked for |
| `WsGoodbye.FairGoodbye` | internal/ws/ws.go:99-181 | every fair schedule ends with the goodbye said once and the socket closed once, if asked for |
| `RateLimit.Bucket.TakeLocked` | internal/auth/auth.go:205-217 | refill up to the burst, then take one token if there is one |
| `RateLimit.Limiter.PruneLocked` | internal/auth/auth.go:186-203 | the loop drops exactly the buckets last used before the cutoff |
| `RateLimit.Limiter.RateLimit` | internal/auth/auth.go:111-141 | verdict and bucket map of one request of an address, as specified |
| `RateLimit.Limiter.RateLimitKey` | internal/auth/auth.go:143-184 | verdict and bucket map of one request of a key, with the ceiling |
| `RateLaws.TokensStayInRange` | internal/auth/auth.go:205-217 | in every run tokens stay between 0 and the burst |
| `RateLaws.KeyMapStaysSmall` | internal/auth/auth.go:143-184 | the key map never holds more than twice maxClients |
| `RateLaws.BucketWindowBound` | internal/auth/auth.go:205-217 | from any request on, one bucket admits at most burst + tps * d in a time d, whatever the configuration |
| `RateLaws.SteadyClientAdmitted` | internal/auth/auth.go:111-184 | with any limits, a client that leaves the time to earn a token between its requests is never limited by any of the limiters, whatever others do; only the ceiling for keys can turn it away |
| `RateLaws.AddressRunAgrees` | internal/auth/auth.go:111-141 | with maxAge * tps >= burst the pruned address limiter decides every run like one that keeps all buckets |
| `RateLaws.PrunedRunAgrees` | internal/auth/auth.go:111-184 | with maxAge * tps >= burst the limiters of addresses and of keys decide every request that no ceiling refuses like one that keeps all buckets |
| `RatePruning.PruningInvisible` | internal/auth/auth.go:111-184 | for addresses and for keys, pruning is invisible in every run if and only if maxAge * tps >= burst |
| `RatePruning.AddressesAllDecided` | internal/auth/auth.go:111-141 | the address limiter decides every request itself: no ceiling refuses any |
| `RatePruning.ForgetsExactly` | internal/auth/auth.go:111-203 | a request touches no bucket but its own, except that a newcomer to a full map has exactly those forgotten that were last used more than maxAge ago |
| `RatePruning.TurnsAwayExactly` | internal/auth/auth.go:143-184 | a key is turned away if and only if it has no bucket and twice maxClients buckets of others stay |
| `RatePruning.NewcomerAdmits` | internal/auth/auth.go:111-184 | a client without a bucket gets a whole burst at once |
| `RatePruning.ShortAgeShows` | internal/auth/auth.go:186-203 | with a shorter maxAge some run is decided differently, for addresses and for keys |
| `RatePruning.TwoBursts` | internal/auth/auth.go:186-203 | with a shorter maxAge some run admits a client more than its rate allows in a window |
| `RatePruning.WindowBound` | internal/auth/auth.go:111-217 | each client is kept to burst + tps * d in every window d of every run if and only if maxAge * tps >= burst |
| `Terminal.TerminalSession.BroadcastLine` | internal/server/terminal.go:115-145 | markers go out intact after the held text, else whole lines go out and the rest is held |
| `Terminal.TerminalSession.EmitLocked` | internal/server/terminal.go:148-161 | a chunk is counted, kept in the ring and offered to each subscriber |
| `Terminal.TerminalSession.FlushHeld` | internal/server/terminal.go:165-173 | the held text goes out, unless the session is closed or nothing is held |
| `Terminal.TerminalSession.NewSubscriber` | internal/server/terminal.go:176-199 | a new channel holds the ring, closed at once on a closed session |
| `Terminal.TerminalSession.CloseSession` | internal/server/terminal.go:201-224 | once: the fragment is dropped, the timer stopped and every subscriber closed |
| `Terminal.Channel.TrySend` | internal/server/terminal.go:155-160 | what fits is queued, the rest is lost, and nobody sends to a closed channel |
| `TerminalLaws.AlwaysSafe` | internal/server/terminal.go:115-224 | in every run no channel is sent to after close nor closed twice, open channels are the subscribed ones, held text has no newline and has a flush coming |
| `TerminalLaws.TextConserved` | internal/server/terminal.go:115-173 | emitted text, held text and what closing drops make up the input, in order |
| `TerminalLaws.ChunksAreProper` | internal/server/terminal.go:115-173 | every chunk ends in a newline, is the marker being broadcast, or is the whole of the held fragment, which has no newline |
| `TerminalLaws.SessionText` | internal/server/terminal.go:115-173 | for a session from its opening: conservation of the text, the shape of the chunks, and the ring is the newest 200 of them, counted by generated |
| `TerminalLaws.SubscriberGets` | internal/server/terminal.go:176-199 | a subscriber gets the ring and then a subsequence of the later chunks, all of them while its queue never fills |
| `TerminalLaws.LateSubscriberGets` | internal/server/terminal.go:176-190 | who subscribes to a closed session gets the whole ring and then the end, and nothing more |
| `TerminalReaders.BroadcastExactly` | internal/server/terminal.go:115-145 | what one broadcast to an open session sends, holds and arms: a marker goes out at once behind the held text, of any other text with the held one the whole lines go out together and the rest is held |
| `TerminalReaders.SubscriberReads` | internal/server/terminal.go:176-199 | what a reader took, followed by what waits for it, is the ring and then a subsequence of the later chunks, in order |
| `TerminalReaders.ReaderDrains` | internal/server/terminal.go:176-199 | a reader that goes on receiving gets all that waits, also from a closed channel, and changes nothing else |
| `TerminalReaders.UnsubscribeEnds` | internal/server/terminal.go:191-198 | in every continuation an unsubscribed channel is closed, once, and gets nothing more, its reader still takes what waited, and every other channel, the ring and the held text are as if it had stayed |
| `TerminalReaders.TimerCounts` | internal/server/terminal.go:115-224 | every flush was started by the timer, which goes off at most once each time held text sets it, and never on a closed session |
| `TerminalReaders.MisuseShows` | internal/server/terminal.go:155-160 | a send to a closed channel or a second close always shows, whatever comes after |
| `TerminalChunks.WholeLinesExactly` | internal/server/terminal.go:112-173 | every chunk of a run is a marker or ends in a newline, if and only if no held fragment, other than one that reads as a marker, is ever pushed out by the timer or by a marker |
| `TerminalChunks.FragmentGoesOut` | internal/server/terminal.go:163-173 | any text without a newline goes out as it is when the timer fires |
| `TerminalChunks.LossesExactly` | internal/server/terminal.go:155-160 | a channel becomes lossy if and only if some operation offers more than its queue has room for, and it gets what it was offered exactly when not |
| `TerminalChunks.SubscriberLoses` | internal/server/terminal.go:148-199 | a subscriber of any run misses a chunk that was offered if and only if its queue was full |
| `TerminalChunks.UnreadLoses` | internal/server/terminal.go:155-160 | a subscriber that reads nothing loses a chunk at the 513th line |
| `TerminalChunks.MarkersExactly` | internal/server/terminal.go:112-173 | the markers that go out are the markers broadcast, if and only if no held text that reads as a marker is pushed out and no lines put together from pieces read as one |
| `TerminalChunks.EndForged` | internal/server/terminal.go:112-173 | two ordinary pieces of text and the timer send the end marker that nobody broadcast |
| `Tasks.TaskManager.SubmitJob` | internal/tasks/tasks.go:149-160 | a fresh task object, listed, with the next number |
| `Tasks.TaskManager.RunTask` | internal/tasks/tasks.go:162-180 | a listed task runs, whatever its status was; else the job is not called |
| `Tasks.TaskManager.FinishTask` | internal/tasks/tasks.go:182-206 | the outcome is recorded and reported, unless the task was canceled |
| `Tasks.TaskManager.CancelTask` | internal/tasks/tasks.go:211-232 | true exactly for a live task, which becomes canceled, with its context |
| `Tasks.TaskManager.RetryTask` | internal/tasks/tasks.go:237-253 | exactly finished tasks are submitted again under a new number |
| `Tasks.TaskManager.PruneTasks` | internal/tasks/tasks.go:280-293 | exactly the tasks finished before the cutoff leave the list |
| `TaskLaws.Lifecycle` | internal/tasks/tasks.go:149-232 | in every run without a cancel before the task's run step: status, times, callback count and cancels agree throughout its life |
| `TaskLaws.TerminalIsForever` | internal/tasks/tasks.go:162-232 | succeeded, failed and canceled are absorbing, with exactly one callback |
| `TaskLaws.UnfinishedIsListed` | internal/tasks/tasks.go:149-293 | in every run a task without a finishing time is listed: pruning never removes it |
| `TaskLaws.CancelBeatsFinish` | internal/tasks/tasks.go:162-232 | after any run and before any continuation: a task canceled while running stays canceled, with one callback, and leaves cancels once its job reports |
| `TaskLaws.CancelIsFinal` | internal/tasks/tasks.go:162-232 | in every run, a successful cancel holds in every continuation if and only if it finds the task running |
| `TaskLaws.CancelWhileQueued` | internal/tasks/tasks.go:162-232 | after any run, a task canceled while queued runs and succeeds after all, with two callbacks |
| `TaskLaws.CanceledTaskSucceeds` | internal/tasks/tasks.go:149-232 | submit, cancel, run, finish on a fresh manager: the task succeeds, with two callbacks |
| `TaskLaws.RetryStartsAfresh` | internal/tasks/tasks.go:149-253 | after any run, retry leaves every task alone and queues a new one, which keeps kind and job and lives an orderly life of its own in every continuation |
| `TaskOutcomes.OutcomeFromOps` | internal/tasks/tasks.go:162-232 | in every run without an early cancel of it, a task succeeded, failed or is canceled if and only if the operation that ended it was a report of an output, a report of an error or a cancel, and shows that output or error and that time |
| `TaskOutcomes.ProgressIsKept` | internal/tasks/tasks.go:118-148 | a task shows exactly the lines its job reported while it ran, in order |
| `TaskOutcomes.SubmitKeeps` | internal/tasks/tasks.go:149-160 | a submitted task is queued and listed under the next number and keeps kind and job in every continuation |
| `TaskOutcomes.RunsIfListed` | internal/tasks/tasks.go:162-180 | the run step calls the job if and only if the task is listed then, with a context that is not canceled; it does so once, and touches no other task |
| `TaskOutcomes.CancelsAreRunning` | internal/tasks/tasks.go:162-232 | in every run, early cancels included, cancels holds exactly the tasks inside their job, and no context is canceled before its job |
| `TaskOutcomes.EndedIsRetryable` | internal/tasks/tasks.go:237-253 | in every run, exactly the listed tasks that succeeded, failed or are canceled can be tried again |
| `TaskOutcomes.PruneByAge` | internal/tasks/tasks.go:280-293 | pruning takes off the list exactly the tasks that finished longer ago than the time to live, and changes nothing else |

## Left out

- HTTP handlers, JSON, routing, CORS, SSE, webhooks, panel callbacks, backups, audit logs and configuration tables: plumbing with no invariant of its own.
- gzip, the tar and zip formats, SSH, bcrypt, HMAC and the websocket upgrade handshake: a tar archive is a list of entries that may break off, a connection is a stream of bytes.
- `mount` and `umount` themselves: a mount either happens or fails as a parameter says; an umount succeeds when nothing sits on top. Mounts made or removed by anyone else while a session runs are not modelled.
- Two names for one container as lease keys: the leases model takes one key for each container, as callers that pass ids do.
- Symlinks in mount points of the mount table: points are compared as canonical paths, as `isMounted` does; where they really are is the subject of `MountLinks`, for one filesystem at a time.
- Changes of the filesystem between the check of a path and its use; operations on the last link itself (remove, rename, readlink, lstat).
- Permissions, ownership, hard limits on name length, and disks that run full; write errors of extraction other than those of the path.
- `Jail.AcceptedStaysInside`: says nothing of a path that cannot be followed at all, because nothing is reached through it.
- `JailAnswers.FoundIsAllowed`: and the other answers in terms of a process locked into the root take a tree without links: behind a link, Clean and the kernel read `..` differently. With links, `Jail` and `JailEffects` say where an accepted path leads.
- `ArchiveSafety.ExtractionStaysInside`: takes a destination that is a real directory and whose old links are held in; `ArchiveOutside` says what happens otherwise.
- `ArchiveOutside.ContainedExactly`: takes links whose targets climb before they go down; for others held links still suffice, and names that lead out still refute, but what lies between depends on what an archive makes of the destination.
- `ArchiveResult.AllRestored`: takes links that do not lie on the way of one another, which can be read off the archive; a link placed through another one ends up elsewhere in the destination.
- `JailEffects.MkdirStaysInside`: takes a filesystem in which everything but the top is in a directory. Of the file manager's changes only mkdir and write are modelled: move and remove act on the last name itself.
- The store of SFTP users and passwords, and the SFTP commands behind the resolver.
- A round trip of backup and restore: the names that `tar -C root .` gives to directories end in a slash, which the extractor refuses.
- Paths that are no valid UTF-8: characters stand for code points. The fields of a mountinfo line before its root, and those after its mount point, are any text that starts as the kernel writes it.
- `LeaseRuns.HandedOutIsMounted`: and all other laws of leases take a mount test that tells the truth; `MountTest.MountTestIsTrue` and `MountTest.ReadableIsTruthful` say when it does.
- Floating-point rounding of the token count, and configuration values that are zero or negative (replaced by positive defaults in the code).
- The loopback exemption and the choice of the client's address in `RateLimit`; several middlewares in a row.
- The memory the reader of a channel shares with the session: a receive is one operation.
- The terminal's stdin (`writeInput`), resizing, and the manager's map of sessions.
- Persistence of tasks and their numbers across a restart; `Get` and `List`; goroutines of jobs that end without calling finish.
- The order in which callbacks of different tasks run once the mutex is given back.
- Data frames after a close frame are allowed by the code and so by `WsWire`; overlong length forms are accepted by the code and so by `WsFrames.ParseEncode`.
- The buffer of `bufio.Writer`: header and payload reach the socket in order, and after a failed write nothing more does.
- The socket's read side failing before its last byte: the input is the bytes that do arrive, and then it ends.
- Deadlines, and log lines that `FollowLogs` skips after a reconnect.
