# Smart speaker verification

A Dafny model of the smart speaker: the device program that plays music, the relay server between
devices and apps, and the app's pause button.  `dafny verify dfyconfig.toml` checks the whole project.

| file | what it models |
|---|---|
| `MusicLink.dfy` | the heap-allocated doubly linked playlist and the two searches on it |
| `Playback.dfy` | the playback controller as a transition system: flags, shared record, semaphore, child process with its forked copies, slave player fed by a command log |
| `Controller.dfy` | the same controller as a class with mutable fields over the heap list; every method is tied to its transition and a whole session to a run |
| `Reachable.dfy`, `Halting.dfy` | what holds in every state the controller can reach from start-up, and exactly when it halts |
| `Refinement.dfy`, `RefinementRuns.dfy` | the transition system against a plain player: stopped, playing track `i`, paused on track `i`; step by step, and exactly which runs keep step |
| `Semaphore.dfy` | the semaphore at the granularity of single operations, with processes that die anywhere and `SEM_UNDO` |
| `Button.dfy`, `Controls.dfy` | the one-button gesture recogniser; the app's pause button and the device's button driving the player |
| `Registry.dfy`, `RegistryRuns.dfy`, `RegistryRouting.dfy`, `RegistryServer.dfy` | the server's list of online devices, all its timed runs, whom a message reaches, and the event loop over it |
| `EndToEnd.dfy` | the device's report through the relay to the app, and the app's pause button back to the device's player |
| `Wire.dfy`, `WireServer.dfy` | the length-prefixed framing under any fragmentation; the server's read loops and what fragmentation does to them |
| `Resample.dfy`, `Volume.dfy`, `Catalogue.dfy`, `CArith.dfy` | the linear resampler and capture loop; volume quantisation; the server's five-track answer and what the device makes of it; C division |

## How the model reads the code

Code that changes state step by step is a class or a method with a loop.  Such a method is proved
equal to a function of the old state, and the lemmas are about that function.

One parent command of the device program is one step; the grandchild it starts publishes its record
within that step, and SIGUSR1 is delivered between commands.  `Semaphore.dfy` drops that atomicity for
everything that concerns the semaphore.  A `char` stands for a byte.  Network replies, directory
listings, clocks and detector verdicts are parameters.

Defects are modelled as they are, and the exact condition under which each shows is proved:

- The list-exhausted exit of `NextPlay` (player.c:387-394) returns without `SemV`.  The field
  `releases` says whether the exit releases the semaphore; it is false for the source.  After the
  exit without release nothing is ever played again, on any lists (`ExitStalls`, `StallIsForever`,
  `LeakBlocksEveryTake`), no other step keeps the semaphore (`KeepsSemaphoreIff`), and `ExhaustedRun`
  is a run from start-up that gets there.
- `strncpy` of the singer writes no terminator (player.c:228, 405, 444), so the tail of a longer
  recorded singer stays (`OverlayIsCopyIff`).  That is harmless until the singer is read back: when a
  track is repeated in circle mode, and when a list is exhausted.  `ShorterSingerRun` is a run from
  start-up that ends up loading a file that is no track of the list.
- A run plays what a plain player plays, at every point, exactly when none of its steps is one of
  these (`RunPlaysIff`), and also keeps the shared record right exactly when none leaks the semaphore
  or records a singer over a longer one (`RunRefinesIff`).  With singers of one length the source as
  written is right in exactly the runs that never press next on the last track in sequence
  (`UniformRunRefinesIff`).  None of this touches the flags or the child's copies: in every reachable
  state a press of either button starts, pauses or resumes, or hangs for a stated reason
  (`ShortPressActs`, `PauseButtonToggles`), and a track that ends is followed by the successor of the
  parent's current one (`TrackEndFollowsParent`).
- `ServerReadData` (server.cpp:214-244) loops inside the read callback and tests `r <= 0` before
  `r == buffer_len`.  It returns exactly when a whole frame of at least one byte is buffered
  (`ReturnsIff`); a frame cut by the network and an empty frame hang the server (`CutFrameHangs`,
  `EmptyFrameHangs`), and it reads one frame for each arrival of data (`ServedIff`).

Two places have no defined behaviour in the source and are modelled by what they are evidently for:
`TraverseList` goes on using an erased list iterator (2.server/player.cpp:145-150), modelled as
erase-and-continue; `ResampleLinear` with one output sample divides by zero after storing it
(alsa.c:73-76), modelled as returning there.

Other results that come out differently from what one would expect of the code:

- Volume-up works from every level exactly on controls with at least ten raw steps (`UpWorksIffTenSteps`).
- A long press is one of at least 301 ms, or of more than 300 ms when the microsecond field wraps (`LongPressExact`).
- Resampling a rising negative signal can end with a step down: the sum is truncated toward zero and
  the last sample is not rounded (`RisingStaysRisingIff`).
- A request for a singer whose directory is missing or holds no music crashes the device (`RequestAnswered`).
- A disconnect clears every reference to the connection exactly when it is stored at most once
  (`DisconnectClearsIff`), which holds in every run where a connection keeps one role and one device id.

## Model

| member | source | states |
|---|---|---|
| MusicLink.MusicList.InitMusicLink | 1.hardware/Player/musiclink/link.c:14-28 | the list becomes one nameless node |
| MusicLink.MusicList.InsertMusic | 1.hardware/Player/musiclink/link.c:29-59 | the heap stays a well-linked list of live nodes and its names are the old ones with the name inserted |
| MusicLink.MusicList.LinkMusicList | 1.hardware/Player/musiclink/link.c:60-85 | all names of a reply are inserted in order |
| MusicLink.MusicList.ClearMusicList | 1.hardware/Player/musiclink/link.c:87-99 | every node is freed exactly once, in order, none is read after being freed, and the list is empty |
| MusicLink.MusicList.FindNextMusic | 1.hardware/Player/player/player.c:158-174 | the name after the first one containing the current title, the end, or a null dereference |
| MusicLink.MusicList.FindPrevMusic | 1.hardware/Player/player/player.c:176-196 | the name before the first one containing the current title, the head, or a null dereference |
| MusicLink.MusicList.UploadMusic | 1.hardware/Player/net/net.c:367-383 | what is uploaded is the list, name for name |
| MusicLink.MusicList.Reload | 1.hardware/Player/net/net.c:164-180 | clearing, loading a reply and uploading uploads exactly what was loaded |
| MusicLink.LoadedUnchangedIff | 1.hardware/Player/musiclink/link.c:29-85 | a loaded list equals the reply if and only if the reply does not start with an empty name followed by another |
| MusicLink.LoadedIs | 1.hardware/Player/musiclink/link.c:29-85 | what any reply becomes in a cleared list: the empty names at its front are dropped, the last name never |
| MusicLink.ContainsIff | 1.hardware/Player/player/player.c:158-196 | the search tests for a substring anywhere in the name |
| MusicLink.SearchesFromFirst | 1.hardware/Player/player/player.c:158-196 | on any list both searches go to the neighbour of the first name containing the title, report the end at the last or first name, and follow a null pointer exactly when no name contains it |
| MusicLink.SplitJoins | 1.hardware/Player/player/player.c:224-229 | splitting a name at its first slash and joining it again is the identity, and a name contains its own title |
| MusicLink.WalksForwardIff | 1.hardware/Player/player/player.c:158-174 | on different names, searching by title walks the whole list in order if and only if no title occurs in an earlier entry |
| MusicLink.PrevAfterNext | 1.hardware/Player/player/player.c:158-196 | on unambiguous lists previous undoes next |
| Controller.Controller.SetTrack | 1.hardware/Player/player/player.c:224-230 | the split loop leaves the title and the unterminated copy of the singer in the record |
| Controller.Controller.PlayName | 1.hardware/Player/player/player.c:222-251 | the grandchild publishes its track and becomes the player on that file |
| Controller.Controller.Grandchild | 1.hardware/Player/player/player.c:204-256 | the grandchild's critical section: publish, end of list, or blocked on the semaphore |
| Controller.Controller.PlayerExited | 1.hardware/Player/player/player.c:198-265 | the child's wait returns and it exits or starts the next grandchild |
| Controller.Controller.WriteFifo | 1.hardware/Player/player/player.c:325-335 | a command reaches the running player, or the writer blocks |
| Controller.Controller.StartPlay | 1.hardware/Player/player/player.c:305-323 | equals the start transition, the child getting copies of list and device mode |
| Controller.Controller.StopPlay | 1.hardware/Player/player/player.c:337-351 | equals the stop transition: signal the recorded child, reset flags, quit, reap |
| Controller.Controller.SuspendPlay | 1.hardware/Player/player/player.c:353-362 | equals the suspend transition |
| Controller.Controller.ContinuePlay | 1.hardware/Player/player/player.c:364-373 | equals the continue transition |
| Controller.Controller.NextPlay | 1.hardware/Player/player/player.c:375-419 | equals the next transition, including the exit that keeps the semaphore |
| Controller.Controller.PrevPlay | 1.hardware/Player/player/player.c:421-458 | equals the previous transition |
| Controller.Controller.UpdateMusic | 1.hardware/Player/player/player.c:274-289 | equals the handler for the end of a list |
| Controller.Controller.TrackEnded | 1.hardware/Player/player/player.c:257-262 | equals the transition for a track that plays to its end |
| Controller.Controller.GetMusicName | 1.hardware/Player/net/net.c:164-224 | the list is replaced by the reply to a request for the singer |
| Controller.Controller.ChangeOfflineMode | 1.hardware/Player/player/player.c:541-591 | equals the switch to offline mode |
| Controller.Controller.ChangeOnlineMode | 1.hardware/Player/player/player.c:593-602 | equals the switch to online mode |
| Controller.Controller.CirclePlay | 1.hardware/Player/player/player.c:487-492 | only the play mode in the record changes |
| Controller.Controller.SequencePlay | 1.hardware/Player/player/player.c:493-498 | only the play mode in the record changes |
| Controller.Controller.Request | 1.hardware/Player/player/player.c:636-651 | stop, load the singer's list, start |
| Controller.Controller.Do | 1.hardware/Player/player/player.c:305-602 | every command is one step of the transition system, and once the run has halted nothing more happens |
| Controller.Controller.Handle | 1.hardware/Player/device/device.c:160-176 | in every state that keeps the invariant a short press starts, pauses or resumes the player, or hangs exactly when it must |
| Controller.Controller.Serve | 1.hardware/Player/select/select.c:68-107 | any series of commands on the heap list and the mutable fields is the run of the transition system |
| Controller.Session | 1.hardware/Player/main.c:57-93 | a device built on any list and driven by any commands is in a reachable state with the invariant, and on good lists plays what the plain player plays unless a step misplays |
| Playback.OverlayIsCopyIff | 1.hardware/Player/player/player.c:228 | the recorded singer is the new one if and only if it is not shorter than the old one |
| Playback.PausedIsParity | 1.hardware/Player/player/player.c:353-373 | the player is paused exactly after an odd number of pause commands since it last loaded a file |
| Reachable.EveryReachableState | 1.hardware/Player/player/player.c:291-458 | in every state reachable from start-up, whatever the lists and replies, up to a crash of the parent or a grandchild: suspended implies started, the suspend flag is the parity of the pause commands since the last load, and until the run halts a player runs exactly when playback is started and the semaphore was not kept, paused exactly when suspended |
| Reachable.StepInv | 1.hardware/Player/player/player.c:158-602 | the invariant behind it is kept by every command, reply and track end, with no condition on lists or singers |
| Reachable.TrackEndFollowsParent | 1.hardware/Player/player/player.c:198-289 | in every reachable state, misplayed or not, the child's forked list and device mode equal the parent's, and the end of an unpaused track plays the successor of the parent's recorded track, or at the end of the list the first of a new list by the recorded singer; where the search or the name is no good the grandchild crashes |
| Reachable.StepCopies | 1.hardware/Player/player/player.c:198-323 | every command, reply and track end keeps the child's copies equal to the parent's |
| Halting.HaltsIff | 1.hardware/Player/player/player.c:198-602 | in every reachable state exactly which commands, replies and track ends halt the run: by the kept semaphore, an empty list, a name without a slash or a search that fails |
| Halting.KeptSemaphore | 1.hardware/Player/player/player.c:137-155 | in every reachable state with the semaphore kept: stop, suspend, next, previous, requests and real mode changes hang, start, continue and track ends change nothing, and the play mode can still be set |
| Halting.SkipsFollow | 1.hardware/Player/player/player.c:375-458 | in every reachable state with a free semaphore next and previous load and record the neighbour by the search, the first track before the first, the recorded track in circle mode, and after the last request a list by the recorded singer |
| Refinement.RepeatPlaysIff | 1.hardware/Player/player/player.c:381-386 | repeating a track in circle mode loads the current track if and only if the recorded singer is not longer than the track's |
| Refinement.TrackEndPlaysSuccessor | 1.hardware/Player/player/player.c:198-256 | in step with the plain player, whatever singers were recorded, the child's own copies lead to the plain player's next track and keep in step |
| Refinement.StepPlaysIff | 1.hardware/Player/player/player.c:158-602 | every command and signal keeps flags, playlist, child copies, recorded title and player in step with the plain player if and only if it is not one of the misplaying steps: the exhausted exit without release, or reading back a singer that is shorter than the recorded one |
| Refinement.StepRefinesIff | 1.hardware/Player/player/player.c:158-602 | and it also keeps the recorded singer right if and only if it neither is that exit nor records a shorter singer |
| RefinementRuns.RunPlaysIff | 1.hardware/Player/player/player.c:158-602 | a run plays what the plain player plays at every point if and only if no step of the plain run misplays, a condition on the plain run and the length of the recorded singer alone |
| RefinementRuns.BootedRunPlaysIff | 1.hardware/Player/main.c:57-93 | the same for every run from start-up with a good list, for the source as written and repaired |
| RefinementRuns.RunRefinesIff | 1.hardware/Player/player/player.c:158-602 | a run keeps the whole record right throughout if and only if none of its steps breaks it |
| RefinementRuns.UniformRunRefinesIff | 1.hardware/Player/player/player.c:375-419 | with singers of one length a run refines the plain player if and only if the exit releases the semaphore or next is never pressed on the last track in sequence |
| RefinementRuns.BootRefines | 1.hardware/Player/main.c:57-93 | start-up with a good list is the stopped plain player |
| RefinementRuns.PlayedFile | 1.hardware/Player/player/player.h:13-14 | the file that plays is the current track under the server's address online and under the disk's path offline |
| RefinementRuns.SingersAskedFor | 1.hardware/Player/player/player.c:541-602 | whose music is asked for at start-up and on a change of mode, which stops playback; without a disk the list stays |
| RefinementRuns.ShorterSingerRun | 1.hardware/Player/player/player.c:224-230 | a run from start-up, with the semaphore released, that ends up loading a file that is no track of the list |
| RefinementRuns.ExhaustedRun | 1.hardware/Player/player/player.c:387-394 | a run from start-up as the source is written that keeps the semaphore and leaves no player |
| RefinementRuns.StallIsForever | 1.hardware/Player/player/player.c:387-394 | in every reachable state with the semaphore kept, after whatever lists and misplays, nothing is loaded or played again, whatever commands follow |
| RefinementRuns.KeepsSemaphoreIff | 1.hardware/Player/player/player.c:375-458 | on any lists, a step comes back to the main loop with the semaphore kept if and only if it is the exhausted exit of next |
| RefinementRuns.ExitStalls | 1.hardware/Player/player/player.c:387-394 | on any lists, that exit leaves no player, and a parent that hangs or believes it plays |
| Catalogue.GetMusicName | 2.server/player.cpp:22-81 | a missing directory is answered with null, any other with its first five music files under the singer's name |
| Catalogue.MusicOfOne | 2.server/player.cpp:43-57 | an entry counts exactly if it is a regular file with .mp3 in its name |
| Catalogue.MusicEntryByEntry | 2.server/player.cpp:43-57 | the entries are taken one by one and in order |
| Catalogue.OfferedAreFirstFive | 2.server/player.cpp:59-77 | all of them are offered up to five, and of more the first five |
| Catalogue.NamesAnswered | 1.hardware/Player/musiclink/link.c:60-85 | a missing directory leaves the device without a track |
| Catalogue.OfferedIsUniform | 2.server/player.cpp:22-81 | at most five tracks, all by the singer asked for, so the length condition on singers holds within a list |
| Catalogue.RequestAnswered | 1.hardware/Player/player/player.c:636-651 | in every reachable state of an online device a request plays the first track offered, and crashes the parent if and only if nothing is offered or the semaphore was kept |
| Semaphore.StepKeepsInv | 1.hardware/Player/player/player.c:118-154 | value plus number of holders stays one over every operation, fork and death of a process |
| Semaphore.WhoPublishes | 1.hardware/Player/player/player.c:198-458 | next and previous, and a grandchild with a track to play, read the record and then write it; the end of a list only reads it; the rest leave it alone |
| Semaphore.SetGoing | 1.hardware/Player/player/player.c:198-458 | that is what a command or fork sets going |
| Semaphore.DeathFrees | 1.hardware/Player/player/player.c:118-154 | a process that dies inside its critical section frees the semaphore |
| Semaphore.MutualExclusion | 1.hardware/Player/player/player.c:206-231 | no two processes are ever inside their critical sections |
| Semaphore.BoundaryHoldsIff | 1.hardware/Player/player/player.c:378-408 | between commands the parent holds the semaphore if and only if an exhausted next has kept it |
| Semaphore.LeakBlocksEveryTake | 1.hardware/Player/player/player.c:387-394 | after such a leak no process ever takes the semaphore while the parent lives |
| Button.Button.ReadButton | 1.hardware/Player/device/device.c:178-238 | one key event as a transition of state, press time, alarm and emitted gestures |
| Button.Button.Handle | 1.hardware/Player/device/device.c:160-176 | the alarm emits a short press and returns to idle |
| Button.LongPressExact | 1.hardware/Player/device/device.c:220 | the millisecond comparison in terms of the real duration |
| Button.AlarmArmedIffWaiting | 1.hardware/Player/device/device.c:178-238 | over every event sequence the alarm is armed exactly while a first release waits |
| Button.EveryPressCountedOnce | 1.hardware/Player/device/device.c:160-238 | presses equal short plus long plus twice double plus the pending one |
| Button.RecognisesClassification | 1.hardware/Player/device/device.c:160-238 | the gestures emitted for any stream in which presses and releases alternate, with any synchronisation and repeat events between and a last press still held or not, are the classification of its presses by duration and gap |
| Controls.App.HandleInfo | 3.app/player.cpp:103-138 | a report changes the two flags as its status says and the window as its other fields say |
| Controls.FlagsTell | 3.app/player.cpp:103-123 | over anything heard: the start flag tells whether start or stop came last, the suspend flag whether suspend or start did |
| Controls.CommandObeyed | 1.hardware/Player/net/net.c:385-415 | exactly eight command names concern the player, and what each does to a device that plays: start, stop, pause, resume, set the mode, the next or previous track, the repeated track or the next list, the last two exactly when the singer can be read back and the semaphore is released |
| Controls.GestureMeans | 1.hardware/Player/device/device.c:160-213 | the command the device picks for a gesture: a short press toggles, a double one goes a track on and a long one a track back |
| Controls.PauseButtonToggles | 3.app/player.cpp:103-166 | in every reachable state and whatever was heard before: after the device's present status the pause button starts a stopped player and toggles a started one, flag and player together, never without effect, and exactly when it hangs |
| Controls.SameAsShortPress | 3.app/player.cpp:156-166 | after the present status the app's button does to the device just what the device's own button does |
| Controls.ShortPressActs | 1.hardware/Player/device/device.c:160-176 | in every reachable state a short press starts, pauses or resumes and is never a no-op; it hangs exactly when there is no track to start or no player reads the fifo |
| Controls.GesturesPlayIff | 1.hardware/Player/device/device.c:160-238 | a series of gestures, each with its own reply, plays at every point what it means to the plain player if and only if no step of the plain run misplays |
| Controls.ClicksDrivePlayer | 1.hardware/Player/device/device.c:160-238 | a stream of button events drives the device as the classification of its presses drives the plain player, exactly when no step of the plain run misplays |
| EndToEnd.PauseReachesPlayer | 3.app/player.cpp:103-166 | for a device in any reachable state, a server after any history and an app with any flags: the device's report is passed on to its bound app alone, the app's pause button then makes the server send one message, to the connection of the report, and the device starts, pauses or resumes on it |
| EndToEnd.CommandReachesPlayer | 2.server/server.cpp:163-178 | any command of the bound app, after any history: one message to its device, which does what the command is for, and whose answer comes back to the app |
| EndToEnd.ReportShows | 3.app/player.cpp:103-138 | the app's window shows the device's track, mode, volume and id |
| EndToEnd.ReportKeepsLink | 2.server/player.cpp:83-119 | after a report device and app are linked through the connection the report came over |
| Registry.Player.DevUpdateList | 2.server/player.cpp:83-119 | the first node of the device is refreshed and the report forwarded to its app, or a new node is appended |
| Registry.Player.AppUpdateList | 2.server/player.cpp:121-137 | the first node of the device is bound to the app and stamped |
| Registry.Player.TraverseList | 2.server/player.cpp:139-159 | a sweep keeps the nodes reported within six seconds and clears older app bindings, reading only timestamps that were written |
| Registry.Player.UploadMusic | 2.server/player.cpp:161-184 | a list is passed to the app bound to the first node of the connection |
| Registry.Player.TransAppCmd | 2.server/player.cpp:186-211 | a command is passed to the device of the first node bound to the connection, or answered offline |
| Registry.Player.TransDevReply | 2.server/player.cpp:214-239 | a reply is passed to the app of the first node of the connection, or answered offline |
| Registry.Player.AppOrDevOffline | 2.server/player.cpp:241-258 | the first node that holds the connection is unbound or erased |
| Registry.Player.AppOffline | 2.server/player.cpp:260-273 | the first node bound to the connection is unbound |
| Registry.Player.CaptureCurMusicList | 2.server/player.cpp:275-288 | the request is passed to the device of every node bound to the connection |
| Registry.Player.ReadCb | 2.server/server.cpp:136-203 | each message changes the list and is passed on as its command says |
| RegistryRuns.StepIsPerDevice | 2.server/player.cpp:83-159 | every event keeps the registry well formed and acts on each device's node alone |
| RegistryRuns.EofStep | 2.server/player.cpp:241-258 | a disconnect handled at the first match is right for every device |
| RegistryRuns.Run | 2.server/server.cpp:136-212 | in every run in which connections keep their roles every stored connection belongs to its node's device |
| RegistryRuns.Runs | 2.server/player.cpp:83-288 | in every run of any messages over any connections device ids are unique, and an app timestamp has been written wherever an app is bound |
| RegistryRuns.StepTidy | 2.server/player.cpp:83-288 | every event keeps that, and no node gets younger but by a report of its device or survives a sweep more than six seconds old |
| RegistryServer.Serve | 2.server/server.cpp:136-212 | the server on any series of messages, timer ticks and closed connections holds the run of their events, and has sent on each message by the list of that moment |
| RegistryServer.ArrivalActs | 2.server/server.cpp:73-212 | after any arrivals, what one more does to the list and to whom it is passed on, by the names of the messages and six seconds for the timer |
| RegistryServer.ReportKeepsOrder | 2.server/player.cpp:83-119 | a report leaves the devices in their order and puts a new one last |
| RegistryRuns.PresentIff | 2.server/player.cpp:83-159 | a device is registered if and only if some report of it was followed by no close of its connection and no sweep more than six seconds later |
| RegistryRuns.PresentHasReport | 2.server/player.cpp:83-119 | the stored time, connection, track, volume and mode are those of its last report |
| RegistryRuns.PunctualNeverDropped | 2.server/player.cpp:139-159 | a device reporting at most six seconds apart, over however many connections, is never dropped by a sweep and its node is as young as its last report |
| RegistryRuns.SilentIsDropped | 2.server/server.cpp:73-91 | in every run a silent device is gone after the first sweep more than six seconds after its last report |
| RegistryRuns.NodeHasRecentReport | 2.server/player.cpp:83-159 | in every run each node bears the time of a report of its device that is within six seconds of every sweep since |
| RegistryRuns.BoundIff | 2.server/player.cpp:121-159 | an app is bound to a device if and only if, going by the events alone, one of its binds found the device kept registered by reports and nothing since has undone it |
| RegistryRuns.BoundIffHeld | 2.server/player.cpp:121-159 | the same without the rule of one live connection, in terms of registration |
| RegistryRuns.BoundHasBind | 2.server/player.cpp:121-137 | the stored app id and time are those of the bound app's last report |
| RegistryRouting.CommandRoute | 2.server/player.cpp:186-211 | a command goes to the device its app is bound to and to nobody else |
| RegistryRouting.ReplyRoute | 2.server/player.cpp:214-239 | a reply goes to the app bound to the device and to nobody else |
| RegistryRouting.CommandAndReplyMeet | 2.server/server.cpp:136-203 | after any history each of the ten commands and the list request of the bound app, by name, reaches exactly its device, and each of the ten replies, the upload and the report of that device come back to exactly that app |
| RegistryRouting.Dispatched | 2.server/server.cpp:136-203 | which loop over the list each message is handed to, by its name, and that no other message is passed on |
| RegistryRouting.AnswerRelayed | 2.server/player.cpp:161-239 | a device's reply goes to the bound app if it comes over the stored connection and is answered offline otherwise |
| RegistryRouting.MessageStaysInside | 2.server/server.cpp:136-203 | whatever message arrives, the registry stays well formed and nothing is sent to a connection of another device id |
| RegistryRouting.CommandRelayedIff | 2.server/player.cpp:186-211 | a command is answered offline if and only if the events show no lasting binding |
| RegistryRouting.PunctualAppStaysBound | 2.server/player.cpp:139-159 | an app reporting at most six seconds apart stays bound while its device is registered |
| RegistryRouting.PunctualPairStaysBound | 2.server/player.cpp:139-159 | device and app both reporting at most six seconds apart stay bound, going by the events alone |
| RegistryRouting.SilentAppIsUnbound | 2.server/player.cpp:150-156 | an app silent for more than six seconds before a sweep is unbound |
| RegistryRouting.SweepKeepsOrder | 2.server/player.cpp:139-159 | a sweep leaves exactly the recently reported nodes, in their original order |
| RegistryRouting.DisconnectClearsIff | 2.server/player.cpp:241-258 | no node refers to the closed connection if and only if it was stored at most once |
| RegistryRouting.DisconnectClears | 2.server/server.cpp:204-212 | after any run a disconnect leaves no reference to the connection |
| RegistryRouting.DisconnectCanMiss | 2.server/player.cpp:241-258 | a concrete list in which an app bound to two devices stays behind |
| Wire.SendMusicInfo | 1.hardware/Player/net/net.c:33-52 | an online device sends the frame of the message and an offline one nothing |
| Wire.FrameHead | 1.hardware/Player/net/net.c:33-52 | a frame of up to 1020 bytes is the length in four bytes, lowest first, and the payload |
| Wire.ReadFully | 1.hardware/Player/net/net.c:134-160 | an accumulating read loop of the device takes exactly the wanted bytes however they are cut |
| Wire.RecSocketData | 1.hardware/Player/net/net.c:134-160 | one whole frame is consumed and no byte of the next, and the buffer is the payload followed by zeros |
| Wire.ReceiveAll | 1.hardware/Player/net/net.c:134-160 | any number of messages arrive in order under any fragmentation |
| Wire.RoundTrip | 1.hardware/Player/net/net.c:33-52 | decoding the stream of any message sequence gives the sequence and the bytes after it |
| Wire.FrameOfDecode | 2.server/server.cpp:249-263 | encoding a decoded frame gives the bytes it came from |
| Wire.FramesInjective | 2.server/server.cpp:249-263 | different message sequences give different streams |
| Wire.PrefixFree | 1.hardware/Player/net/net.c:33-52 | no proper prefix of a frame is a frame |
| WireServer.ServerReadData | 2.server/server.cpp:214-244 | the two loops in place: the call returns if and only if a whole frame of at least one byte is buffered, and then the buffer is the payload followed by zeros and no byte of the next frame is taken |
| WireServer.ReadLoop | 2.server/server.cpp:218-226 | one loop returns if and only if a positive number of bytes is wanted and buffered |
| WireServer.ReturnsIff | 2.server/server.cpp:214-244 | turn by turn: the loops leave if and only if a whole non-empty frame is buffered, with what the framing says, and otherwise their state is the same for ever |
| WireServer.CutFrameHangs | 2.server/server.cpp:218-241 | every proper prefix of a frame hangs the server |
| WireServer.EmptyFrameHangs | 2.server/server.cpp:231-241 | a frame of length zero, a whole frame to the device, hangs the server |
| WireServer.ServedIff | 2.server/server.cpp:136-140 | under every cutting of a stream the server keeps serving if and only if after the k-th arrival at least k whole frames have come, and it has then handled exactly the first k in order |
| Resample.ResampleLinear | 1.hardware/Asr/alsa.c:67-89 | the output array holds the resampled input and nothing past its length changes |
| Resample.IndexInBounds | 1.hardware/Asr/alsa.c:80-87 | every position lies in the input, and only the last output sits on the last input |
| Resample.IndexMonotone | 1.hardware/Asr/alsa.c:80-81 | positions never go backwards |
| Resample.ExactIsOnLine | 1.hardware/Asr/alsa.c:76-87 | the value before rounding is that of the straight line through the inputs at the exact real position |
| Resample.SampleAccuracy | 1.hardware/Asr/alsa.c:78-88 | error within (-1/2, 3/2), value between its neighbours or one above, 16 bits for 16-bit inputs, last output exact |
| Resample.ResampledOnTheLine | 1.hardware/Asr/alsa.c:67-89 | the whole output lies on the straight line through the inputs, at evenly spaced positions, with that accuracy |
| Resample.FallingStaysFalling | 1.hardware/Asr/alsa.c:76-88 | a non-increasing input gives a non-increasing output |
| Resample.RisingStaysRisingButLast | 1.hardware/Asr/alsa.c:76-88 | a non-decreasing input gives non-decreasing outputs up to the last |
| Resample.RisingStaysRisingIff | 1.hardware/Asr/alsa.c:84-87 | and including the last exactly when the last input is not negative or lies far enough above the value before it |
| Resample.ConstantMinusOneDips | 1.hardware/Asr/alsa.c:84-87 | a constant input whose resampled form is not constant |
| Resample.CaptureLoop | 1.hardware/Asr/main.c:106-178 | failed reads are skipped, what the detector is handed for each chunk are the 16 kHz frames on the line through its samples, and the detector is the other one exactly after an odd number of detections |
| Resample.ChunksReadByRead | 1.hardware/Asr/main.c:106-122 | the chunks are exactly the reads that did not fail, in order |
| Resample.DetectionsCount | 1.hardware/Asr/main.c:134-178 | the detections counted are the chunks with a detection |
| Resample.ChunkTotals | 1.hardware/Asr/main.c:123-133 | over any chunks the frames produced never exceed the exact ratio and fall short by less than one per chunk |
| Volume.Mixer.SetVolume | 1.hardware/Player/device/device.c:63-69 | the raw value for a percentage, inside the control's range |
| Volume.Mixer.GetVolume | 1.hardware/Player/device/device.c:127-136 | the percentage point nearest to the level, between 0 and 100 |
| Volume.PercentIsNearest | 1.hardware/Player/device/device.c:127-136 | there is exactly one nearest point, and it is the one computed |
| Volume.Mixer.UpVolume | 1.hardware/Player/player/player.c:460-472 | one press of volume-up |
| Volume.Mixer.DownVolume | 1.hardware/Player/player/player.c:473-485 | one press of volume-down |
| Volume.ReadBack | 1.hardware/Player/device/device.c:68-136 | read-back never exceeds the set percentage, the exact condition for equality, within one for 66 steps and exact for 198 |
| Volume.StepFacts | 1.hardware/Player/player/player.c:460-485 | a press stays in range, changes nothing from 90 percent up or from 10 percent down, and moves strictly before that |
| Volume.AnyPressesStayInRange | 1.hardware/Player/player/player.c:460-485 | any sequence of presses stays in range |
| Volume.UpReachesTop | 1.hardware/Player/player/player.c:460-472 | held volume-up first reaches at least 90 percent at a press n, at most as many as raw steps are left, and from then on stays |
| Volume.DownReachesBottom | 1.hardware/Player/player/player.c:473-485 | held volume-down first reaches at most 10 percent at a press n and from then on stays |
| Volume.UpWorksIffTenSteps | 1.hardware/Player/player/player.c:460-472 | volume-up reaches the top from every level if and only if the control has at least ten raw steps |
| Volume.UpThenDown | 1.hardware/Player/player/player.c:460-485 | on fine controls up adds exactly ten points and down takes them back, but not below ten |
| Volume.DownTakesTen | 1.hardware/Player/player/player.c:473-485 | on fine controls down takes exactly ten points off above ten |

## Left out

- Registry.Player.TraverseList: the use of an erased iterator has no meaning to model; the loop is modelled as erase-and-continue.
- Resample.ResampleLinear: floating-point rounding of the positions and sums; positions are exact rationals.
- Wire.RecSocketData: end of stream and receive errors inside the read loops, where the source spins, and frames over 1020 bytes, which overrun its buffers.
- Wire.ReadFully: requires the wanted bytes to arrive at some time; the device's loop waits until they do.
- WireServer.ServerReadData: lengths whose bytes overrun the caller's buffer; other connections, which a hung callback blocks as well.
- Semaphore.MutualExclusion: the unlocked accesses to the record in `StopPlay`, `CirclePlay` and `SequencePlay` are not critical sections.
- RegistryRuns.PresentIff: a device that reconnects before its old connection is seen closed; `DevUpdateList` keeps the stale connection then.
- Playback.Step: nothing is modelled after the parent has crashed or hangs, such as its child playing on.
- Controller.Controller.Grandchild: a grandchild that crashes alone halts the model, where the source's parent lives on and its child goes on forking.
- Interrupted `semop`, real preemption by signals inside a command, failing `fork`, `malloc` and `popen`.
- Names of 127 bytes and more, which overrun the list's buffers, and replies that name no music.
- The child's SIGUSR1 handler opens a log file with an invalid mode string; the child ends either way.
- Starting up offline, where the list holds one nameless node and the first start finds no track.
- JSON parsing and printing, the database and login, the voice keyword table, text to speech, the chat model, ALSA, sherpa-onnx and Qt.
- Registry.Player.ReadCb: login, registration, binding and the answer to a music-list request, which do not touch the registry, and the debug print that reads the first node before an upload is passed on.
- The app's other buttons, each of which sends one fixed command name, and the result field of the device's answers.
- Commands that only change the volume end at the mixer and do not reach the playback state.
