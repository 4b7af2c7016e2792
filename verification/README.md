# RemoteAppHandler: verified model

A Dafny model of the agent that supervises processes on one machine and of the web client
that commands it over a framed TCP protocol.

- `Supervision.dfy`, `SupervisionRuns.dfy`, `Supervisor.dfy`: the process supervisor. A state
  machine over one process table and any number of managers, in which every access to shared
  state is a step and all parties interleave; theorems over all its runs; and the class
  `ProcessManagerService`, whose methods let all others act wherever the code touches a
  process and are proved to take only legal steps. Managers are numbered as they are made,
  so that any apps and former registrations share one world with the file system. A system
  is called benign when scans are complete, kills, adoptions and launches of a present
  executable succeed, and nobody else acts during a call.
- `Framing.dfy`, `Listener.dfy`: length-prefixed messages ("Data Notations" in RFC 1700 gives
  the byte order) and the agent's loop on one connection.
- `Channel.dfy`, `ChannelRuns.dfy`, `RemoteAgent.dfy`: many callers sharing one connection
  that is dropped and replaced on failure, down to single bytes in flight; theorems over all
  runs; and the class `RemoteAgentService` with its semaphore. A network is called calm when
  connections, waits, writes and reads do not fail, the agent does not hang up, and no other
  caller acts. `SampleCodec.dfy` shows that
  what they ask of the codec can be had. `AgentLoop.dfy` has the agent's loop as a party of
  the same machine.
- `Paths.dfy`, `PathLaws.dfy`, `Names.dfy`, `InstanceRegistry.dfy`: path resolution and containment, instance
  names, the manager cache, and why instances of one app never meet. `SampleApp.dfy` has an
  app and a run that meet the conditions.
- `FileTree.dfy`, `InstanceFolders.dfy`: copying, creating, deleting and listing folders.
- `AppRegistry.dfy`, `Coordinator.dfy`: the persisted registry of apps and the cache of
  runtime scopes over it.
- `Locks.dfy`: the lock pattern of every command and callback, and deadlock freedom.

`dafny verify dfyconfig.toml` checks all of it.

## How the parts are connected

A machine has a relation `Enabled`, a function `Apply` and runs that are `Legal`. The class
beside it carries the history of its steps as ghost state, and its `Valid` says that the
history is a legal run that ends in the present state. So what is proved of all legal runs
holds of the objects after any sequence of calls. `Others` stands for everyone else: it takes
arbitrary legal steps that are not the caller's own. A lock is the permission to take certain
steps, and its critical section is the body of one method.

## Where code and comments disagree

The model follows the code.

- ProcessManagerService.cs:267 says that a Stop during the cool-down is noticed. A Stop that
  finds the process dead answers NotRunning without setting the flag, and the restart goes
  ahead (`StopDuringCooldownIsLost`; `StopSuppressesExactly` says when).
- An adoption that throws half-way (ProcessManagerService.cs:303-317) has already reset the
  flag and replaced the handle by a disposed one. It counts among the steps that end a Stop.
- AppRegistryService.cs:142 says that a failed load starts empty. Entries before a null one
  stay loaded (`LoadStops`; `FailedLoadIsEmptyExactly` says when the comment is right).
- InstanceManagerService.cs:200 promises a path within the root. A candidate spelled as the
  root with a final separator passes too (`ContainedExactly`).
- InstanceManagerService.cs:70 says that a running instance is never deleted. A process that
  a manager of a former registration restarted is not seen (`StaleManagerLosesFolder`;
  `RunningKeepExecutableExactly` says when none is hit), on a file system that lets a running
  executable be deleted.
- MultiAppManagerService.cs:16 calls the cache thread-safe. Its lock is released between the
  sections of one command, and a scope can go stale (`StaleScope`; `CoherenceExactly` says
  when).
- ProcessManagerRegistry.cs:106 copies the dictionary without its comparer. For valid
  numbered names this makes no difference (`GetAll`).

## Model

| member | source | states |
|---|---|---|
| SupervisionRuns.LaunchedIsTracked | src/HandelApp.Agent/Services/ProcessManagerService.cs:114-136 | in every state of every run, a live process that a manager launched is the one it tracks, so at most one is alive |
| SupervisionRuns.LaunchesNeverOverlap | src/HandelApp.Agent/Services/ProcessManagerService.cs:241-277 | of two successful launches of a manager, by callers or racing callbacks, the first process is dead when the second starts |
| SupervisionRuns.FlagHistory | src/HandelApp.Agent/Services/ProcessManagerService.cs:26 | `_intentionalStop` is up exactly when the last step that touched it was a Stop that had decided to stop |
| SupervisionRuns.StopSafety | src/HandelApp.Agent/Services/ProcessManagerService.cs:153-206 | after Stop answers Ok no exit callback reaches StartInternal unless a Start, an adoption (complete or broken off) or a failing Stop came in between |
| SupervisionRuns.RestartExactly | src/HandelApp.Agent/Services/ProcessManagerService.cs:265-271 | a callback that wakes restarts the process exactly when no Stop's mark stands and the tracked process is gone |
| SupervisionRuns.StopSuppressesExactly | src/HandelApp.Agent/Services/ProcessManagerService.cs:161-169 | a callback asleep while Stop answers restarts the process next exactly when the process is gone and Stop failed, or answered NotRunning with the flag down; Ok always suppresses it |
| SupervisionRuns.StopDuringCooldownIsLost | src/HandelApp.Agent/Services/ProcessManagerService.cs:161-169 | a concrete run: crash, Stop during the cool-down answers NotRunning, and the callback launches all the same |
| SupervisionRuns.RestartAccounting | src/HandelApp.Agent/Services/ProcessManagerService.cs:241-277 | launch attempts are at most Start calls plus delivered exit events, and those events at most successful launches plus adoptions, in any run |
| SupervisionRuns.InstancesDoNotInterfere | src/HandelApp.Agent/Services/ProcessManagerService.cs:285-374 | managers of different executables never adopt or select each other's processes, nor change each other's state, nor end what the other launched; an adopted process of one dies in a step of the other only as a descendant of a process of the other's executable |
| SupervisionRuns.DeathsByManager | src/HandelApp.Agent/Services/ProcessManagerService.cs:335-374 | a manager kills only process trees of duplicates of its executable, and in Stop the tree of the tracked process |
| SupervisionRuns.ExecutableOutlivesProcess | src/HandelApp.Agent/Services/InstanceManagerService.cs:98-105 | in any run, while every deletion that reaches it has asked its manager, the executable of each live process a manager launched is in the file system, and every folder around it is a directory |
| SupervisionRuns.DeletionExactly | src/HandelApp.Agent/Services/InstanceManagerService.cs:98-105 | a deletion costs no live launched process its executable if no manager, of this registration or a former one, has a live process of its own below the folder; a complete deletion only then |
| SupervisionRuns.RunningKeepExecutableExactly | src/HandelApp.Agent/Services/InstanceManagerService.cs:79-113 | over any run, no live launched process ever loses its executable if every deletion finds nobody running below its folder, and only if, when no deletion breaks off |
| SupervisionRuns.StaleManagerLosesFolder | src/HandelApp.Agent/Services/InstanceManagerService.cs:98-105 | a concrete run: the callback of a former registration restarts its process, and a deletion that asks only the new manager of the instance removes the folder under it |
| Supervision.DescendsExactly | src/HandelApp.Agent/Services/ProcessManagerService.cs:355 | the process tree of a process is everything from which the chain of parents leads to it |
| SupervisionRuns.ExitIsDelivered | src/HandelApp.Agent/Services/ProcessManagerService.cs:241-255 | a process launched or adopted is watched until its exit event is delivered, which is possible whenever it is dead and the lock is free |
| SupervisionRuns.CrashIsAnswered | src/HandelApp.Agent/Services/ProcessManagerService.cs:241-276 | the exit event of a tracked process puts a callback to sleep exactly when the flag is down, and that callback wakes to launch again |
| Supervision.InvStep | src/HandelApp.Agent/Services/ProcessManagerService.cs:12-17 | every step by anyone keeps: launched and live implies tracked, launches only with the flag down and nothing running, distinct managers launch distinct processes |
| Supervisor.ProcessManagerService.AttachExistingUnderLock | src/HandelApp.Agent/Services/ProcessManagerService.cs:285-325 | takes only adoption steps; on a benign system, if nothing live is tracked afterwards then no live process runs the executable |
| Supervisor.ProcessManagerService.KillDuplicatesUnderLock | src/HandelApp.Agent/Services/ProcessManagerService.cs:335-374 | takes only eviction steps and keeps the tracked handle; on a benign system every live copy of the executable left is the tracked one, which survives if no copy descends from another one, only trees of other copies were ended, and those whole |
| Supervisor.ProcessManagerService.Start | src/HandelApp.Agent/Services/ProcessManagerService.cs:114-136 | is one legal call of the state machine whose last step gives the reply; on a benign system the live copies of the executable afterwards are exactly the reported pid, an error means the executable is missing, if no copy descends from another one AlreadyRunning is the answer exactly when there was a copy, only process trees of other copies than the reported one were ended, and those whole |
| Supervisor.ProcessManagerService.Stop | src/HandelApp.Agent/Services/ProcessManagerService.cs:153-206 | is one legal call; Ok leaves the flag up, Error leaves it down; on a benign system it does not fail and no live copy of the executable is left, if no copy descends from another one Ok is the answer exactly when there was a copy, only process trees of copies were ended, and every killed copy is gone with its whole tree, but for the tracked one if it closed by itself |
| Supervisor.ProcessManagerService.GetStatus | src/HandelApp.Agent/Services/ProcessManagerService.cs:216-233 | is one legal call; on a benign system the live copies of the executable are exactly the reported pid, one of those before the call, if no copy descends from another one it reports running exactly when there was a copy, only process trees of other copies were ended, and those whole |
| Supervisor.ProcessManagerService.StartInternal | src/HandelApp.Agent/Services/ProcessManagerService.cs:404-444 | takes exactly one launching step, success or failure, and reports it; a success adds exactly the new pid to the live copies; on a benign system it succeeds exactly when the executable is there |
| Supervisor.ProcessManagerService.ForceKill | src/HandelApp.Agent/Services/ProcessManagerService.cs:176-183 | on a benign system everything in the process tree of the tracked process is dead afterwards |
| Supervisor.ProcessManagerService.Evict | src/HandelApp.Agent/Services/ProcessManagerService.cs:350-360 | on a benign system everything in the process tree of the evicted copy is dead afterwards |
| Supervisor.ProcessManagerService.ExitSeenUnderLock | src/HandelApp.Agent/Services/ProcessManagerService.cs:241-255 | the first lock section of the callback: goes to sleep exactly when the flag is down |
| Supervisor.ProcessManagerService.WakeUnderLock | src/HandelApp.Agent/Services/ProcessManagerService.cs:265-276 | the second lock section: never launches with the flag up; on a benign system launches exactly when the flag is down and the process is gone |
| Supervisor.OthersSurvive | src/HandelApp.Agent/Services/ProcessManagerService.cs:335-374 | if no copy of the executable descends from another one, evicting a duplicate with its process tree never hits the tracked process |
| Supervisor.OperatingSystem.Others | src/HandelApp.Agent/Services/ProcessManagerService.cs:12-17 | interference: any legal steps of other parties leave this manager's record alone and only add or end processes |
| Framing.HeaderAccepted | src/HandelApp.Shared/Protocol/ProtocolSerializer.cs:78-86 | the length check accepts exactly the four-byte headers that are big-endian encodings of 1..65536, among all 2^32 |
| Framing.HeaderOrder | src/HandelApp.Shared/Protocol/ProtocolSerializer.cs:52-54 | headers compare byte by byte, most significant first, as their lengths do |
| Framing.HeaderRoundTrip | src/HandelApp.Shared/Protocol/ProtocolSerializer.cs:52-54 | a length written as a header is read back, for every 32-bit length |
| Framing.HeaderInjective | src/HandelApp.Shared/Protocol/ProtocolSerializer.cs:82 | different headers are read as different numbers |
| Framing.FrameRoundTrip | src/HandelApp.Shared/Protocol/ProtocolSerializer.cs:49-93 | a written message followed by anything is read back exactly when its body has 1..65536 bytes; otherwise the read reports that length |
| Framing.TruncatedFrame | src/HandelApp.Shared/Protocol/ProtocolSerializer.cs:107-118 | no proper prefix of a frame is read as a message |
| Framing.StreamRoundTrip | src/HandelApp.Shared/Protocol/ProtocolSerializer.cs:49-93 | reading a stream of in-range messages yields exactly them and then end of stream |
| Framing.CutStream | src/HandelApp.Shared/Protocol/ProtocolSerializer.cs:75-93 | cutting such a stream anywhere yields exactly the messages that lie wholly before the cut, and no error |
| Framing.ByteStream.ReadExact | src/HandelApp.Shared/Protocol/ProtocolSerializer.cs:107-118 | fills the buffer with the next bytes for every chunking of the stream, false exactly when too few are left; ends |
| Framing.ByteStream.ReadMessage | src/HandelApp.Shared/Protocol/ProtocolSerializer.cs:75-93 | one read has the outcome, and leaves the rest, that the format prescribes |
| Framing.ByteStream.ReadAll | src/HandelApp.Agent/Services/TcpCommandListener.cs:99-102 | repeated reads yield the bodies of the stream up to its end or first bad length |
| Framing.ByteSink.WriteMessage | src/HandelApp.Shared/Protocol/ProtocolSerializer.cs:49-59 | writes header and body; a failing stream has received a proper prefix of the frame |
| Listener.CommandsOfStream | src/HandelApp.Agent/Services/TcpCommandListener.cs:99-102 | a client's command stream cut anywhere is read as exactly its whole commands |
| Listener.HandleClient | src/HandelApp.Agent/Services/TcpCommandListener.cs:75-176 | dispatches the commands of the stream in order, all of them unless stopped or broken, and writes the responses in the same order with the commands' correlation ids; a failed write leaves a proper prefix of the last frame, or nothing of a response too large to serialise; with a steady peer that is the only way to break off |
| Listener.Session | src/HandelApp.Agent/Services/TcpCommandListener.cs:75-176 | end to end on an undisturbed connection: every command is served and the i-th response read back carries the i-th correlation id |
| AgentLoop.Connection.HandleClient | src/HandelApp.Agent/Services/TcpCommandListener.cs:75-176 | while all others take any steps, the loop takes only its own legal steps of the protocol: whole rounds, each a command and the response to it written out, at most one round that breaks off, and its end; on a calm network it ends early only when no command has arrived or a response is too large |
| AgentLoop.Connection.ServeNext | src/HandelApp.Agent/Services/TcpCommandListener.cs:99-147 | one round: the command read is the one handled, and the response carries its correlation id |
| SampleCodec.SampleIsFaithful | src/HandelApp.Shared/Protocol/ProtocolSerializer.cs:49-93 | there is a codec that reads back every command and response it writes, which is all the protocol theorems ask of JSON |
| SampleCodec.FirstCallCompletes | src/HandelApp.Web/Services/RemoteAgentService.cs:115-146 | with it, a whole run from the first connection to a returned response |
| Channel.InvStep | src/HandelApp.Web/Services/RemoteAgentService.cs:26-146 | every step of callers, connectors, the agent and the network keeps the protocol invariant |
| Channel.TakeIsWhole | src/HandelApp.Shared/Protocol/ProtocolSerializer.cs:75-93 | the agent reads a request off a connection only when its whole frame is there, and it is the pending call's command |
| Channel.ReceiveIsWhole | src/HandelApp.Web/Services/RemoteAgentService.cs:130-133 | the response the holder of the semaphore reads is the whole answer to its own call |
| Channel.BookkeepingNeverBlocks | src/HandelApp.Agent/Services/TcpCommandListener.cs:99-102 | the bookkeeping of the model never forbids the agent to read a complete command |
| ChannelRuns.ResponseMatchesRequest | src/HandelApp.Web/Services/RemoteAgentService.cs:115-146 | over every interleaving, a response that SendCommandAsync returns is the one the agent made while handling that very command, with the same correlation id |
| ChannelRuns.AtMostOnce | src/HandelApp.Web/Services/RemoteAgentService.cs:115-146 | each call is dispatched at most once, exactly once if it returned normally, never if its frame was cut short |
| ChannelRuns.QuietWhenFree | src/HandelApp.Web/Services/RemoteAgentService.cs:31-46 | whenever the semaphore is free and the client counts as connected, its stream has no unread response and no half-written request |
| ChannelRuns.HandledAsSent | src/HandelApp.Agent/Services/TcpCommandListener.cs:99-147 | the agent only handles commands that some call sent, unchanged, and has logged them |
| ChannelRuns.OversizedNeverPasses | src/HandelApp.Shared/Protocol/ProtocolSerializer.cs:49-86 | the writer does not enforce the size limit: in any run a command beyond it is never dispatched and a call whose response is beyond it never returns |
| ChannelRuns.CallCanComplete | src/HandelApp.Web/Services/RemoteAgentService.cs:115-146 | whatever ran before, once the client is connected and the agent waits, any call within the size limit can be carried to its end, and leaves both ready for the next |
| RemoteAgent.RemoteAgentService.SendCommand | src/HandelApp.Web/Services/RemoteAgentService.cs:115-146 | a returned response is the agent's answer to this call, dispatched once; a failed call was dispatched at most once, not at all if its frame was cut short, and has marked the connection lost if it was ever granted one; on a calm network with the semaphore free the request goes out whole, over a new connection if need be, and the response comes back if the whole answer has arrived when it is read |
| RemoteAgent.RemoteAgentService.EnsureConnected | src/HandelApp.Web/Services/RemoteAgentService.cs:66-99 | takes only legal steps of the protocol, leaves the caller's own call untouched, and succeeds only with the client connected; on a calm network it always does, with an agent that has not hung up |
| RemoteAgent.RemoteAgentService.Reconnect | src/HandelApp.Web/Services/RemoteAgentService.cs:71-98 | inside the semaphore: releases it, is connected exactly on success, and then on a stream with nothing unread or half written; on a calm network it succeeds |
| RemoteAgent.RemoteAgentService.Exchange | src/HandelApp.Web/Services/RemoteAgentService.cs:130-140 | with the semaphore held throughout, either the call returns a response or it has failed and the connection is marked lost |
| RemoteAgent.RelyStep | src/HandelApp.Web/Services/RemoteAgentService.cs:31-46 | while a caller holds the semaphore nobody else changes stream, connected flag or semaphore |
| Paths.ContainedExactly | src/HandelApp.Agent/Services/InstanceManagerService.cs:208-221 | the string test holds exactly when the root's components are a proper prefix of the candidate's, or equal them and the candidate is spelled with a final separator |
| Paths.ContainedTransitive | src/HandelApp.Agent/Services/InstanceManagerService.cs:208-221 | containment is transitive |
| PathLaws.ParentParts | src/HandelApp.Agent/Services/InstanceManagerService.cs:210-213 | ".." goes up one component but never above the drive, and what follows it goes on from there |
| PathLaws.ThroughParent | src/HandelApp.Agent/Services/InstanceManagerService.cs:210-213 | so a path through ".." resolves as the same path from the folder above |
| PathLaws.HereParts | src/HandelApp.Agent/Services/InstanceManagerService.cs:210-213 | "." stays |
| PathLaws.NamesParts | src/HandelApp.Agent/Services/InstanceManagerService.cs:210-213 | names go down |
| PathLaws.CombineParts | src/HandelApp.Agent/Services/ProcessManagerRegistry.cs:66-73 | combining with a relative path goes on from where the folder is |
| PathLaws.RootedStands | src/HandelApp.Agent/Services/ProcessManagerRegistry.cs:66-73 | a path with a drive or from the root stands for itself wherever it is combined |
| PathLaws.FullPathTwice | src/HandelApp.Agent/Services/InstanceManagerService.cs:210-213 | a full path resolves to itself |
| PathLaws.RelativeToCurrent | src/HandelApp.Agent/Services/InstanceManagerService.cs:210-213 | a relative path resolves as if appended to the current directory |
| PathLaws.RootOfDrive | src/HandelApp.Agent/Services/InstanceManagerService.cs:210-213 | a path from the root resolves as if it had the current drive |
| PathLaws.DriveRelative | src/HandelApp.Agent/Services/InstanceManagerService.cs:210-213 | a drive without a separator means the current directory if it is the current drive in any letter case, else its root |
| PathLaws.LeadingOut | src/HandelApp.Agent/Services/InstanceManagerService.cs:208-221 | a path through the folder above is not contained unless it comes back |
| PathLaws.BackDownExactly | src/HandelApp.Agent/Services/InstanceManagerService.cs:208-221 | a path up once and then down by names is contained exactly when its first name is the folder's own and it goes further |
| Paths.FoldExactly | src/HandelApp.Agent/Services/InstanceManagerService.cs:213 | two characters count as the same exactly when they are equal or one ASCII letter in both cases |
| Paths.FullPathDetermines | src/HandelApp.Agent/Services/ProcessManagerService.cs:299-301 | full paths equal up to letter case have equal components up to letter case |
| Paths.SlashedPrefix | src/HandelApp.Agent/Services/InstanceManagerService.cs:210-213 | on separator-terminated strings the prefix test is the prefix relation of components |
| Paths.PartsOfInert | src/HandelApp.Agent/Services/ProcessManagerRegistry.cs:66 | a name that ends in a number changes only the last component of the resolved path |
| Paths.ChildParts | src/HandelApp.Agent/Services/InstanceManagerService.cs:42-43 | a simple instance name below an absolute root is one more component |
| Names.NameRoundTrip | src/HandelApp.Web/Controllers/HandelAppController.cs:215-219 | parsing prefix-N gives N for every prefix and every 32-bit N, and 0 beyond |
| Names.NumberParses | src/HandelApp.Web/Controllers/HandelAppController.cs:218 | white space, a sign or none, digits and white space are parsed as the signed number, if it has 32 bits |
| Names.NoNumber | src/HandelApp.Web/Controllers/HandelAppController.cs:215-219 | a name whose last part has no digit, or anything but digits, a sign and white space, counts as 0, and so does Default |
| Names.BuiltName | src/HandelApp.Agent/Services/InstanceManagerService.cs:42 | what follows prefix and hyphen in a built name is the number in its only form without leading zero |
| Names.PickedIsLeast | src/HandelApp.Web/Controllers/HandelAppController.cs:61-73 | the number picked is the least above all listed ones, and 1 for an empty or failed listing |
| Names.MatchesExactly | src/HandelApp.Agent/Services/InstanceManagerService.cs:161-162 | a folder is listed exactly when its name is, up to case, the prefix, a hyphen and anything |
| Names.ValidNameExactly | src/HandelApp.Agent/Services/ProcessManagerRegistry.cs:117-122 | among ASCII names the valid ones are exactly prefix, hyphen and digits, and perhaps a line feed |
| Names.NameRoundTripFolded | src/HandelApp.Web/Controllers/HandelAppController.cs:215-219 | the same for names that differ from prefix-N in letter case |
| Names.PickedIsFresh | src/HandelApp.Web/Controllers/HandelAppController.cs:61-73 | the number picked names no listed instance under any prefix, and is positive exactly when no listed name ends in 2147483647 |
| Names.ValidTail | src/HandelApp.Agent/Services/ProcessManagerRegistry.cs:117-122 | what follows the prefix of a valid name has no path syntax and no letter case |
| Names.ValidNamesFold | src/HandelApp.Agent/Services/ProcessManagerRegistry.cs:30 | valid names that agree up to letter case are equal |
| Names.BuiltNameIsValid | src/HandelApp.Agent/Services/InstanceManagerService.cs:42 | every name the agent builds from a number passes validation |
| Names.ValueOfDecimal | src/HandelApp.Web/Controllers/HandelAppController.cs:218 | the decimal form of a number has that number as its value |
| InstanceRegistry.LeadingOutRefused | src/HandelApp.Agent/Services/ProcessManagerRegistry.cs:73-77 | an executable name that goes up and down by other names than the folder's own is refused |
| InstanceRegistry.AcceptedComesBack | src/HandelApp.Agent/Services/ProcessManagerRegistry.cs:73-77 | an accepted executable name that begins with "..\" has come back into the folder, whatever follows |
| InstanceRegistry.RootedExecutable | src/HandelApp.Agent/Services/ProcessManagerRegistry.cs:73-77 | a rooted executable name is its own path, and accepted only inside the folder |
| SampleApp.EscapeRefused | src/HandelApp.Agent/Services/ProcessManagerRegistry.cs:73-77 | a concrete executable beside the Default folder, named with "..", is refused |
| InstanceRegistry.DistinctExecutables | src/HandelApp.Agent/Services/ProcessManagerRegistry.cs:46-97 | with the Default folder apart from the numbered ones, accepted names that differ beyond letter case stand for different executables |
| InstanceRegistry.DefaultApartExactly | src/HandelApp.Agent/Services/ProcessManagerRegistry.cs:59-77 | for a root that is not a bare drive and a prefix without separator, the Default folder lies apart exactly when it is neither the root or around it nor at or below the place of a numbered folder |
| InstanceRegistry.OrdinaryNamesAccepted | src/HandelApp.Agent/Services/ProcessManagerRegistry.cs:46-77 | the containment checks let every well-formed numbered name of such an app through, and its executable is the root plus two components |
| InstanceRegistry.DefaultSharesExactly | src/HandelApp.Agent/Services/ProcessManagerRegistry.cs:59-71 | in an app with ordinary paths, Default and a numbered instance share their executable exactly when the Default folder is that instance's folder |
| InstanceRegistry.DistinctExactly | src/HandelApp.Agent/Services/ProcessManagerRegistry.cs:46-97 | in such an app accepted names that differ beyond letter case all have different executables exactly when the Default folder is not the folder of a numbered instance |
| InstanceRegistry.InstancesNeverInterfere | src/HandelApp.Agent/Services/ProcessManagerRegistry.cs:46-97 | in any run, with managers of any other apps and former registrations in it, no operation on one instance of an app adopts or selects a process of another instance of that app, ends one that it launched, or changes its manager; for two numbered instances of any app, and for Default if its folder lies apart or the app has ordinary paths and does not share a folder |
| InstanceRegistry.NumberedFoldersApart | src/HandelApp.Agent/Services/ProcessManagerRegistry.cs:66 | numbered folders of distinct names are distinct and at the same depth, whatever the prefix and root |
| InstanceRegistry.NumberedExeUnderRoot | src/HandelApp.Agent/Services/ProcessManagerRegistry.cs:66-77 | every accepted numbered executable lies under the instances root |
| InstanceRegistry.ManagersAreMade | src/HandelApp.Agent/Services/ProcessManagerRegistry.cs:89-95 | in any run a manager keeps for ever the executable, and the place of it, that GetOrCreate gave it for an accepted name |
| SampleApp.SampleIsApart | src/HandelApp.Agent/Services/ProcessManagerRegistry.cs:59-71 | the Default folder of that app lies apart from its numbered ones |
| SampleApp.SampleRunWorks | src/HandelApp.Agent/Services/ProcessManagerRegistry.cs:46-97 | an app with ordinary paths and a run with managers of two of its instances, to which the theorem applies |
| InstanceRegistry.FolderOutlivesProcess | src/HandelApp.Agent/Services/InstanceManagerService.cs:79-113 | in any run in which, since the manager of an instance was made, its folder was deleted only by DeleteInstance commands that asked that manager, the folder of every live process the manager launched is a directory of the file system and holds the executable; for Default, if no numbered folder holds its executable |
| InstanceRegistry.ApartIsOutside | src/HandelApp.Agent/Services/ProcessManagerRegistry.cs:59-71 | a Default folder that lies apart meets that condition |
| InstanceRegistry.AllOwnGrows | src/HandelApp.Agent/Services/InstanceManagerService.cs:98-105 | a step that deletes nothing of the scope without asking keeps such a history |
| InstanceRegistry.AllOwnGains | src/HandelApp.Agent/Services/ProcessManagerRegistry.cs:89-95 | a new manager joins such a history whatever was deleted before it was made |
| InstanceRegistry.ProcessManagerRegistry.GetOrCreate | src/HandelApp.Agent/Services/ProcessManagerRegistry.cs:46-97 | answers exactly for accepted names, never for an executable that leads out of the instance folder, with the one cached manager of that name and its executable; a new one is a new manager in the history, and nothing else changes; a history of own deletions stays one |
| InstanceRegistry.ProcessManagerRegistry.SameAcceptance | src/HandelApp.Agent/Services/ProcessManagerRegistry.cs:56-57 | a cached manager is the right one for every spelling that validation lets through |
| InstanceRegistry.ProcessManagerRegistry.GetAll | src/HandelApp.Agent/Services/ProcessManagerRegistry.cs:104-107 | although the copy loses the case-insensitive comparer, every valid numbered name finds exactly its manager in it |
| FileTree.CopyDirectory | src/HandelApp.Agent/Services/InstanceManagerService.cs:234-241 | always ends; only adds nodes at, above or below the destination; on success from disjoint paths with nothing at the destination the tree there equals the source; succeeds when nothing stands in the way; never succeeds into its own subtree |
| FileTree.CopyFiles | src/HandelApp.Agent/Services/InstanceManagerService.cs:237-238 | copies exactly the files of the directory |
| FileTree.CopySubdirectories | src/HandelApp.Agent/Services/InstanceManagerService.cs:239-240 | copies every subdirectory with all below it |
| FileTree.AllCopied | src/HandelApp.Agent/Services/InstanceManagerService.cs:234-241 | once all children are copied the destination holds exactly the source tree and nothing else changed |
| FileTree.FileCopied | src/HandelApp.Agent/Services/InstanceManagerService.cs:238 | copying one more file extends the part already copied by exactly that file |
| FileTree.DirectoryCopied | src/HandelApp.Agent/Services/InstanceManagerService.cs:240 | copying one more subdirectory extends the part already copied by exactly that tree |
| FileTree.WayDown | src/HandelApp.Agent/Services/InstanceManagerService.cs:239-240 | the first step towards a directory below is always among the subdirectories visited, which is why copying into oneself cannot end well |
| InstanceFolders.InstanceManagerService.CreateInstance | src/HandelApp.Agent/Services/InstanceManagerService.cs:37-66 | Ok means exactly the Default tree at the new folder of the file system and nothing else changed, recorded in the history of the state machine; AlreadyRunning exactly when the folder exists; every refusal leaves the file system as it was; succeeds whenever it can; with simple paths no number is refused but a bad one |
| InstanceFolders.InstanceManagerService.DeleteInstance | src/HandelApp.Agent/Services/InstanceManagerService.cs:79-113 | Ok means the folder and all in it is gone from the file system, nothing else, and no tracked process was alive, recorded with the manager that was asked; it leaves a history of own deletions, and costs no live process its executable exactly when nobody at all ran below the folder; refuses Default, outside and running instances without touching anything; with simple paths no number is outside |
| InstanceFolders.InstanceManagerService.EveryNumberAllowed | src/HandelApp.Agent/Services/InstanceManagerService.cs:42-46 | with simple paths the containment check lets every number through, and the target is the instances root and the name |
| InstanceFolders.InstanceManagerService.ListedExactly | src/HandelApp.Agent/Services/InstanceManagerService.cs:158-164 | a name is listed exactly when it is a folder below the root whose name is the prefix, a hyphen and anything, up to case |
| InstanceFolders.InstanceManagerService.DeletionIsOwn | src/HandelApp.Agent/Services/InstanceManagerService.cs:98-105 | for each instance in the cache of the scope, such a deletion is of another instance's folder or has asked that instance's manager |
| InstanceFolders.InstanceManagerService.LiveFoldersStand | src/HandelApp.Agent/Services/InstanceManagerService.cs:79-113 | in a history of own deletions, which the commands of the scope keep, the folder of every live process of the scope is a directory of the file system |
| FileTree.DeleteTree | src/HandelApp.Agent/Services/InstanceManagerService.cs:103 | removes the folder and all below it and nothing else; an exception leaves the folder itself |
| InstanceFolders.InstanceManagerService.ListNames | src/HandelApp.Agent/Services/InstanceManagerService.cs:124-193 | lists the Default instance first exactly if its folder exists, and then each folder below the root that matches the prefix, once |
| InstanceFolders.InstanceManagerService.CreateNext | src/HandelApp.Web/Controllers/HandelAppController.cs:59-85 | listing, picking and creating without interference never meets an existing folder, for prefixes without separator and roots that are no bare drive |
| InstanceFolders.InstanceManagerService.PickedIsFree | src/HandelApp.Web/Controllers/HandelAppController.cs:61-73 | the folder of the number picked from a complete listing does not exist, for the same prefixes and roots |
| AppRegistry.FileIsAlwaysComplete | src/HandelApp.Agent/Services/AppRegistryService.cs:146-165 | over any history of changes, failed saves, deaths at any point of a save and restarts, the file is a complete record of a past map, which a restart restores: the current one, or the one before after a death, if no save failed since |
| AppRegistry.InvStep | src/HandelApp.Agent/Services/AppRegistryService.cs:83-121 | each change, however its save ends, and each restart keeps that |
| AppRegistry.LoadSnapshot | src/HandelApp.Agent/Services/AppRegistryService.cs:128-144 | loading a saved list, in any order, restores exactly the case-insensitive map it was made from |
| AppRegistry.LoadCollects | src/HandelApp.Agent/Services/AppRegistryService.cs:136-137 | loading stores every definition under its own identifier and nothing else |
| AppRegistry.LoadStops | src/HandelApp.Agent/Services/AppRegistryService.cs:131-143 | a null entry ends the load, but what was loaded before it stays |
| AppRegistry.FailedLoadIsEmptyExactly | src/HandelApp.Agent/Services/AppRegistryService.cs:128-144 | a load that throws starts with an empty registry exactly when the file is no list or its first entry is null |
| AppRegistry.LastOneWins | src/HandelApp.Agent/Services/AppRegistryService.cs:136-137 | of several definitions with one identifier the last in the file is loaded |
| AppRegistry.ValidatedExactly | src/HandelApp.Agent/Services/AppRegistryService.cs:173-197 | a definition is valid exactly when its identifier is and no required field is blank |
| AppRegistry.AppRegistryService.FoundExactly | src/HandelApp.Agent/Services/AppRegistryService.cs:67-72 | an app is found, and so a duplicate refused, exactly when one is registered whose identifier is equal up to case |
| AppRegistry.SlugExactly | src/HandelApp.Agent/Services/AppRegistryService.cs:178-183 | an identifier is 1 to 63 lower-case letters, digits and hyphens, the first not a hyphen, and perhaps a line feed |
| AppRegistry.SlugsAreKeys | src/HandelApp.Agent/Services/AppRegistryService.cs:178-183 | identifiers that pass validation have no letter case and no path syntax |
| AppRegistry.AppRegistryService.Save | src/HandelApp.Agent/Services/AppRegistryService.cs:152-165 | leaves in the real file either the new complete list or what was there before; on a reliable disk the new list |
| AppRegistry.AppRegistryService.Register | src/HandelApp.Agent/Services/AppRegistryService.cs:83-99 | refuses exactly invalid and duplicate definitions without change; otherwise the map gains the definition in one step of a history, and on a reliable disk the file records it |
| AppRegistry.AppRegistryService.Unregister | src/HandelApp.Agent/Services/AppRegistryService.cs:109-121 | reports exactly unknown identifiers; otherwise the map loses the definition in one step of a history, and on a reliable disk the file records it |
| Coordinator.MultiAppManagerService.RegisterApp | src/HandelApp.Agent/Services/MultiAppManagerService.cs:43-51 | keeps the scope cache coherent; a registered app is served by the scope of its own definition |
| Coordinator.DefaultServed | src/HandelApp.Agent/Services/MultiAppManagerService.cs:269-278 | the Default instance of an app runs the executable in the definition's Default folder |
| Coordinator.NumberServed | src/HandelApp.Agent/Services/MultiAppManagerService.cs:269-278 | instance n of an app runs the executable in the folder prefix-n below the definition's instances root |
| Coordinator.MultiAppManagerService.FindManager | src/HandelApp.Agent/Services/MultiAppManagerService.cs:146-185 | a call for an instance goes to a manager exactly when the app is registered and the name accepted: the one of the executable in that folder of the registered definition |
| Coordinator.MultiAppManagerService.UnregisterApp | src/HandelApp.Agent/Services/MultiAppManagerService.cs:63-81 | refused exactly while a cached manager of the app tracks a live process; otherwise definition and scope go together and the cache stays coherent |
| Coordinator.MultiAppManagerService.GetScope | src/HandelApp.Agent/Services/MultiAppManagerService.cs:216-232 | answers exactly for registered apps, with a scope built from the current definition |
| Coordinator.MultiAppManagerService.EnsureScope | src/HandelApp.Agent/Services/MultiAppManagerService.cs:241-261 | for any definition, current or not: the cached scope if there is one, else a new empty one, and nothing else changes; the cache stays coherent exactly when the scope existed or the definition gives the options of the registered one |
| Coordinator.MultiAppManagerService.GetDefaultManagers | src/HandelApp.Agent/Services/MultiAppManagerService.cs:194-208 | serves exactly the registered apps that have a Default folder whose executable GetOrCreate accepts, each with the manager of the executable in that folder, and keeps the cache coherent |
| Coordinator.EnsureKeepsCoherence | src/HandelApp.Agent/Services/MultiAppManagerService.cs:241-261 | when commands interleave, a late EnsureScope keeps the cache coherent exactly when the scope exists already or its definition is still the registered one |
| Coordinator.CoherenceExactly | src/HandelApp.Agent/Services/MultiAppManagerService.cs:43-81 | over every interleaving of the sections of commands, the cache stays coherent but for scopes about to be dropped exactly when every EnsureScope of the run is harmless, and then it is coherent whenever no UnregisterApp stands between its removal and the drop |
| Coordinator.SectionExactly | src/HandelApp.Agent/Services/MultiAppManagerService.cs:63-81 | one section keeps that exactly when it is harmless |
| Coordinator.StaleScope | src/HandelApp.Agent/Services/MultiAppManagerService.cs:65-78 | an instance command that read its definition before UnregisterApp and builds its scope after it makes a later registration serve the old paths |
| Locks.MutualExclusion | src/HandelApp.Agent/Services/MultiAppManagerService.cs:65-78 | in every interleaving a lock held by a writer is held by nobody else |
| Locks.NoDeadlock | src/HandelApp.Agent/Services/MultiAppManagerService.cs:65-78 | any threads running any commands and exit callbacks in any interleaving: while one is unfinished, one can move, even where new readers queue behind waiting writers |
| Locks.NoCycle | src/HandelApp.Agent/Services/ProcessManagerRegistry.cs:54-107 | the wait-for graph, in which new readers also wait for waiting writers, never has a cycle |
| Locks.ProgramOrdered | src/HandelApp.Agent/Services/MultiAppManagerService.cs:43-261 | every command, wherever it is refused or fails, acquires locks in one strict order and releases all of them |
| Locks.BlockerIsHigher | src/HandelApp.Agent/Services/ProcessManagerService.cs:32-43 | who waits for a thread that waits itself waits lower down: for a lower lock, or to read what the other waits to write |

## Left out

- Real sockets, timers, cancellation tokens and sleeps: nondeterministic failures and delays stand for them.
- JSON and UTF-8: a pair of inverse functions, which the protocol theorems take as `Faithful`.
- Internals of the .NET `Process` class: exit events arrive at most once per subscription and on a thread of their own, `HasExited` is exact, and pids are not reused.
- Symbolic links, UNC paths, forward slashes, trailing dots and wildcard characters in prefixes: paths are drives and components.
- Letter case beyond ASCII: `Fold` is the ordinal upper-case mapping of the ASCII letters only.
- Disposal and shutdown, `TryAttachExisting` (which nothing calls), `DefaultInstanceStartupService`, `AgentConnectionMonitor`, controllers other than instance creation, accounts, the IP allowlist and logging: thin callers or no state.
- InstanceFolders.InstanceManagerService.ListNames: the order of the listing and the status of each instance are not modelled; statuses come from GetStatus, one manager at a time, and names are known up to letter case because the file tree is.
- InstanceFolders.InstanceManagerService.CreateInstance: no other command touches the folders during the call.
- InstanceFolders.InstanceManagerService.DeleteInstance: check and deletion are one atomic step, as whole commands are; a Start between the two is not modelled.
- InstanceFolders.InstanceManagerService.CreateNext: promises a free folder only for prefixes without separator, since the search pattern otherwise lists another folder, and for roots that are no bare drive, where listing and creating resolve differently.
- InstanceFolders.InstanceManagerService.PickedIsFree: promises it for the same prefixes and roots.
- Coordinator.MultiAppManagerService.EnsureScope: the instance manager of a scope, made from the same options along with its registry, is not kept in the map.
- Coordinator.MultiAppManagerService.RegisterApp: whole commands are atomic; `StaleScope` shows what finer interleavings can do.
- Locks.NoDeadlock: every entry into a critical section is a first entry, and the order in which waiting writers are let in is left open.
- Supervisor.ProcessManagerService.Start: the statement about live copies holds for a benign system; on any other system the reply and the steps are still exact, but outside launches may add copies at any moment.
