# miqudm, verified

miqudm is a Wayland display manager. A root daemon starts a greeter under its own PAM session, listens on a Unix
socket, authenticates the user whom the greeter names, takes the greeter down, runs the user's session to its end,
and starts the next greeter. This project models that daemon with everything it owns (processes, PAM handles,
configuration, caches), the two ends of its socket protocol, and the scanner that finds sessions, and proves what
the design relies on.

## How the model is built

* `Trace.dfy` has the calls the daemon makes to PAM, the kernel, logind and its clients as events, the books that a
  trace implies (live handles with their stages, unreaped children, counters), and two laws: `PamAllowed` for any
  program that uses PAM, `Allowed` for this daemon. A trace is `PamSafe` or `Safe` when every event was allowed at
  the moment it happened.
* `World.dfy` is the environment. Forks, PAM calls, polls, `waitpid` and logind answer arbitrarily within what the
  operating system guarantees, a client may be gone when its response is written, any call may be accompanied by a
  signal that clears `m_running`, and every call is appended to the trace. Pids come back after a child has been reaped.
* `PamAuth.dfy`, `SessionLauncher.dfy` and `Daemon.dfy` are the classes of the same names, method by method, with
  their fields. Each method says what it appends to the trace and what it leaves in the books. `PamPool.dfy` lets an
  arbitrary client use any number of `PamAuth` objects in any way.
* `Turns.dfy` says what a run may consist of: a record of what the daemon has in hand (`Stand`: the recorded greeter and
  its PAM handle, the caches, the settings and their file), one predicate for each of its activities that relates the
  calls of the trace to this record before and after, and the chain of turns of the main loop (`Turn`, `Chain`,
  `Lived`). `Daemon.Run` is proved to be such a chain. `Rounds.dfy` has what follows for the trace of every chain.
* `Runs.dfy` says what `Safe` and `PamSafe` mean in terms of positions in the trace alone, without the books:
  who was authenticated before which fork, which signals reach which processes, what every `pam_end` leaves behind.
* `Config.dfy`, `Json.dfy`, `Ipc.dfy`, `Framing.dfy` and `Sessions.dfy` are the configuration file, the JSON text, the
  message codec, the read loops of both ends, and the session scanner with the lookup at login. Their loops are
  methods proved against functions; the functions are related to declarative meanings (last assignment wins, first
  non-empty value wins, first come first served) and to their inverses.
* `Program.dfy` is `main` and the path of a session from the daemon's list over the socket and back to the launch.

## What is assumed of the environment

* `waitpid` with `WNOHANG` fails only with ECHILD.
* The blocking `waitpid` after SIGKILL is not interrupted; the blocking wait for a session is interrupted only
  finitely often.
* A failed `pam_start` yields no handle.
* The kernel does not give a new child the pid of an unreaped one.
* A signal ends the daemon after finitely many poll rounds (any number of them).
* A client that connects sends a line or closes its end; the daemon's `read` blocks on one that does neither.
* What the daemon finds on the machine (accounts, session directories, whether the configuration can be written) changes
  arbitrarily, but only while the main loop polls.
* The file system calls of the scanner do not throw (`is_regular_file` may, on a directory that changes meanwhile).
* PAM handles are named by the number of the successful `pam_start` that made them, so a handle is never confused
  with an earlier one at the same address.
* jsoncpp is a parameter, `Json.Library`: an arbitrary reader, and arbitrary conversions of floating-point numbers.
  Safety and release hold for every such library. What is said of particular texts holds for every library that
  `Conforms`: it reads the texts of RFC 8259 whose numbers do not overflow a double, up to a nesting of 1000, beyond
  which it throws. It also takes leading zeros and unescaped control characters, and ignores what follows the first
  value. Nothing is assumed of any other text. In particular jsoncpp also reads comments, some trailing commas and lone
  surrogates, and a number that overflows is rejected by some versions and infinite in others; such a text is one on
  which the decoder throws if the reader says so or finds a value of the wrong kind, like any other
  (`Ipc.ThrowsExactly`). Numbers are rounded to the nearest double.

## What turned out not to hold

Each with the input and the exact condition.

* A request that makes the decoder throw ends the daemon by an uncaught exception: it gets no response, and the greeter
  and its PAM handle are left behind. An empty array does, and so does `[1.5]` (`Ipc.EmptyArrayThrows`,
  `Ipc.FractionThrows`, `Turns.EmptyArrayEndsDaemon`). Of the texts of RFC 8259 exactly those do that are nested
  too deep or have a value of the wrong kind, of all texts exactly those on which the reader throws or finds such a
  value (`Ipc.ThrowsExactly`, with `WrongKind` on the value tree).
* A client that is gone when its response is written ends the daemon by SIGPIPE, which the program neither ignores nor
  handles. Besides the greeter the handle of a login under way is left behind, with its credentials and session if it
  has any.
* A run ends otherwise than by returning exactly if one of these two happens, and only then leaves anything;
  `Program.RunDisplayManager` says both, and what is left.
* A greeter is not always there: when the fork of a greeter fails, it is not tried again until a session has ended
  (`Program.GreeterMissing` for a run in which it happens, `Rounds.NeverTriedAgain` for every run in which it does). At
  every loop head a greeter is recorded exactly if the last fork of one that was tried worked
  (`Runs.GreeterPresence`).
* A session whose name is another session's id can be launched in its place (`Sessions.MistakenScan` for two
  `.desktop` files with that property, `Sessions.MistakenExample` for one pair); picking an entry launches its command
  exactly under `NotMistaken` (`Sessions.PickedCommandRuns`, `Program.PickedSessionIsLaunched`).
* `SessionLauncher::terminate` after `is_running` has reaped the session signals a pid that is no child any more
  (`Launcher.SessionLauncher.TerminateTooLate`, and `Launcher.LateTraceIsPossible` for a system that answers so);
  `terminate` is safe exactly when the recorded pid is an unreaped child or there is none
  (`Launcher.SessionLauncher.Terminate`, `Launcher.SessionLauncher.TerminateAfterLook`). The daemon never gets there,
  since it records no session pid whenever its own loop asks.
* Saving and loading a configuration loses exactly the texts that are not trimmed or contain a newline
  (`Configuration.RoundTripExactly`, `Configuration.RememberedUserReloads`; `Configuration.TrailingBlankIsLost` for one).
* An account id comes through the socket as it was sent exactly if 32 bits hold it; of a greater one that 64 bits hold
  the upper bits are dropped without an error, and any other makes the decoder throw (`Ipc.IdExactly`).
* The daemon's read loop dispatches the true first line of the stream exactly if no NUL stands in it
  (`Framing.FramingExact`; `Framing.NulHidesTheLine` for one that is lost).

## Model

| member | source | states |
|---|---|---|
| Program.RunDisplayManager | src/daemon/main.cpp:48-57 | every run, with every JSON library and whatever forks, PAM, polls and signals do, is safe, and is exactly the first greeter, a chain of turns of the main loop (each a loop head, a poll, what it brings, and the check for a dead greeter), and the winding up. Whenever a poll returns, the greeter that is recorded is asked about or reaped before the next loop head. It dies exactly of a line on which the decoder throws, or of a client that is gone when its response is written; that is then the last event, and what is left is exactly the greeter of the last loop head, its handle, and in the second case the handle of a login under way. Otherwise every forked child has been reaped and nothing of any PAM handle is left. Every request is answered but one on which it dies of SIGPIPE. With a command the greeter comes first, and is there at every loop head before its first failed fork |
| Framing.WireConveys | src/common/ipc.cpp:41-143 | whoever reads the stream hears exactly the message that was sent, however it is cut and whatever follows |
| Program.PickedSessionIsFound | src/greeter/greeter_app.cpp:459-465 | of whatever conveys the request for the picked entry, the daemon reads exactly that request, and its lookup finds the picked entry's command if and only if no earlier entry is mistaken for it |
| Program.ServeLogin | src/daemon/daemon.cpp:337-569 | a login request, however it arrives: granted, and its response taken, it forks or tries the requested session for the user who logged in, with exactly the environment that PAM returned just before, and no other; otherwise none |
| Program.PickedSessionIsLaunched | src/greeter/ipc_client.cpp:95-131 | the client asks for the list, the user picks an entry, the client asks to log in with it, and the daemon serves what it reads: when the login is granted and the response taken, a session process is forked or tried, for the user who logged in and with PAM's environment, and every such process runs the picked entry's command if and only if no earlier entry is mistaken for it; otherwise none is. A client that is sent the response learns whether the login was granted |
| Program.GrantLaunches | src/daemon/daemon.cpp:504-568 | what follows a granted login launches the requested session of the requested user on the configured terminal, with exactly the environment that PAM returned just before, and no other |
| Program.TriedAtStart | src/daemon/daemon.cpp:282-290 | a run that starts with a greeter has one at every loop head before the first failed fork of one |
| Program.LeftIsGreeters | src/daemon/daemon.cpp:282-326 | what is left of a daemon that was ended: as child exactly its recorded greeter, and at most one handle of the last greeter that was set up and one on which a user tries to log in |
| Program.UnansweredIsOwed | src/daemon/daemon.cpp:360-409 | the books know exactly whether a request waits for its response |
| Program.GreeterMissing | src/daemon/daemon.cpp:179-183 | a possible, safe run whose greeter fork fails and whose later loop heads have no greeter |
| Runs.PendingIsBooked | src/daemon/pam_auth.cpp:74-202 | children, handles, sessions and credentials are in the books exactly if the trace began and did not finish them |
| Runs.StartedOnce | src/daemon/pam_auth.cpp:74-97 | two successful starts never give the same handle |
| Runs.CallIsOnPending | src/daemon/pam_auth.cpp:99-187 | every call is on a handle that has been started and not ended; sessions are closed and credentials deleted only when there are some |
| Runs.NothingAfterEnd | src/daemon/pam_auth.cpp:189-202 | after `pam_end` the handle is never used or ended again |
| Runs.EndLeavesNothing | src/daemon/pam_auth.cpp:189-202 | before `pam_end` every opened session has been closed and all established credentials deleted |
| Runs.EveryHandleEnds | src/daemon/pam_auth.cpp:189-202 | if no handle is live at the end, every successful start is followed by exactly one `pam_end` |
| Runs.FewAtATime | src/daemon/daemon.cpp:282-331 | at every moment of a run at most one child is unreaped and at most two handles are live |
| Runs.SignalsHitChildren | src/daemon/daemon.cpp:247-269 | every signal the daemon sends goes to a child forked and not reaped since, even when pids are reused |
| Runs.LaunchSafety | src/daemon/daemon.cpp:431-546 | a user's process is forked only after that very user's start, authentication, account check, credentials and session succeeded in this order on one handle, with no close, deletion or end since; everything of every other handle is over and every earlier child reaped |
| Runs.StagesHappened | src/daemon/daemon.cpp:436-494 | the stage in the books is backed by successful calls at increasing positions |
| Runs.GreeterStartsClean | src/daemon/daemon.cpp:541-568 | a greeter's PAM setup begins only when no process, handle, session or credentials are left of anything before |
| Runs.LoopHeadConserves | src/daemon/daemon.cpp:290-325 | at every loop head the unreaped children are exactly the recorded greeter, and there is at most one live handle, that of the last greeter that was set up |
| Runs.OneHandleAtFork | src/daemon/daemon.cpp:179-183 | at every fork at most one handle is live |
| Runs.GreeterPresence | src/daemon/daemon.cpp:282-326 | at every loop head a greeter is recorded exactly if the last fork of a greeter that was tried worked |
| Runs.PresentUntilFailure | src/daemon/daemon.cpp:282-326 | once a greeter has been tried, every loop head before the first failure has one |
| Runs.FateIsTold | src/daemon/daemon.cpp:353-409 | the books know exactly whether the daemon was ended, and by what |
| Runs.OneAtATime | src/daemon/daemon.cpp:341-357 | a response is given only while a request waits for one, and no request is taken and no loop head reached while one waits |
| Runs.RequestIsAnswered | src/daemon/daemon.cpp:360-409 | every request that can be read is answered before the next request and the next loop head |
| Runs.ResponseHasRequest | src/daemon/daemon.cpp:360-409 | before every response, and between any two, there is a request that can be read |
| Runs.ResponseTells | src/daemon/daemon.cpp:434-502 | a response grants a login if and only if, when it is given, some user's five stages have succeeded in order on one handle and nothing was undone since |
| Runs.LoggedInIsBooked | src/daemon/daemon.cpp:434-494 | five stages that succeeded in order and were not undone are what the books call a complete login |
| Runs.StageKept | src/daemon/pam_auth.cpp:99-187 | a handle keeps its stage, session and credentials until they are closed, deleted or ended |
| Runs.RepliesAreCounted | src/daemon/daemon.cpp:360-409 | the counter of responses counts the response events |
| Runs.OnlyResponse | src/daemon/daemon.cpp:360-409 | counting one response more means that nothing before or after the shown response is one |
| DisplayManager.Daemon.constructor | src/daemon/daemon.hpp:37-46 | a new daemon owns nothing and is at rest |
| DisplayManager.Daemon.Init | src/daemon/daemon.cpp:85-107 | configuration loaded over the defaults, caches filled with what the machine has, failure only if the socket does not come up |
| DisplayManager.Daemon.GreeterUser | src/daemon/daemon.cpp:123-144 | the configured account if it exists, else the first fallback that exists, else the configured name or "sddm" |
| DisplayManager.Daemon.StartGreeter | src/daemon/daemon.cpp:112-245 | nothing if a greeter is recorded or there is no command; otherwise the old handle is released, PAM is set up for the account that is found and one fork is tried, and the daemon is at rest either way |
| DisplayManager.Daemon.TryGreeter | src/daemon/daemon.cpp:121-243 | the release of the old handle, the setup and the one fork, all for the same account; what is recorded is what the trace says |
| DisplayManager.Daemon.DropGreeterPam | src/daemon/daemon.cpp:142 | what the last greeter left of PAM is released before the next one is set up |
| DisplayManager.Daemon.SetUpGreeterPam | src/daemon/daemon.cpp:141-156 | the exact PAM calls of a greeter, with a live handle exactly if one start succeeded and flags that say how the calls went |
| DisplayManager.Daemon.StartGreeterPam | src/daemon/daemon.cpp:142-155 | a fresh handle that was started for the greeter, or two failed starts |
| DisplayManager.Daemon.OpenGreeterSession | src/daemon/daemon.cpp:147-152 | variables, credentials and session are asked for on the new handle whatever the earlier answers were, and it stays the only live handle |
| DisplayManager.Daemon.SetSessionVariables | src/daemon/daemon.cpp:477-480 | exactly the four logind variables are put, and nothing else changes |
| DisplayManager.Daemon.Destroy | src/daemon/daemon.cpp:142 | replacing or dropping the object releases what it owned |
| DisplayManager.Daemon.ForkGreeter | src/daemon/daemon.cpp:179-183 | one fork with no other child around; a failure is not retried |
| DisplayManager.Daemon.StopGreeter | src/daemon/daemon.cpp:247-280 | the greeter process is terminated, given at most 20 polls, killed only then, and reaped; its session is closed, credentials deleted and handle ended; neither is recorded any more |
| DisplayManager.Daemon.StopGreeterProcess | src/daemon/daemon.cpp:248-269 | the process part of it |
| DisplayManager.Daemon.EndPam | src/daemon/daemon.cpp:271-276 | the session closed, the credentials deleted and the handle ended, each only if there is one |
| DisplayManager.Daemon.OpenUserSession | src/daemon/daemon.cpp:434-494 | the attempt is for the user and with the password of the request, stops at the first stage that fails and makes no later call; success exactly if all five succeeded; the greeter's handle and process are untouched |
| DisplayManager.Daemon.StartLogin | src/daemon/daemon.cpp:434-444 | a new handle beside the greeter's, or none after both services failed |
| DisplayManager.Daemon.UseStarted | src/daemon/daemon.cpp:446-494 | the stages after the start touch only that handle; how far they got determines the whole trace |
| DisplayManager.Daemon.SetDesktopVariables | src/daemon/daemon.cpp:481-484 | the two desktop variables exactly if the request names a desktop |
| DisplayManager.Daemon.CheckUser | src/daemon/daemon.cpp:446-474 | authentication with the given password, account check and credentials in this order up to the first failure |
| DisplayManager.Daemon.CheckAuthenticated | src/daemon/daemon.cpp:456-474 | the account check and, only after it, the credentials |
| DisplayManager.Daemon.RefuseLogin | src/daemon/daemon.cpp:436-444 | one failure response, then the attempt's handle is released; if the client is gone, nothing more happens |
| DisplayManager.Daemon.DropAttempt | src/daemon/daemon.cpp:434-493 | the handle of a failed attempt is released, and the daemon is at rest and attended again |
| DisplayManager.Daemon.AcceptLogin | src/daemon/daemon.cpp:496-568 | the success response comes before anything is torn down; what follows ends at rest and attended; if the client is gone, nothing follows |
| DisplayManager.Daemon.TryLogin | src/daemon/daemon.cpp:434-494 | the attempt adds at most its own handle to the books, and the greeter's stay as they were |
| DisplayManager.Daemon.HandleLogin | src/daemon/daemon.cpp:431-569 | one response, success if and only if granted; a refused login leaves greeter, handle, children and configuration as they were; a granted one is answered before the greeter is stopped, runs the requested session of the requested user to its end, releases the handle and restarts the greeter; if the client is gone, the daemon dies with the greeter and the attempt's handle as they are then |
| DisplayManager.Daemon.GrantLogin | src/daemon/daemon.cpp:504-568 | what follows a granted login, in order, ending at rest whatever fails |
| DisplayManager.Daemon.RunSession | src/daemon/daemon.cpp:539-562 | the session is forked with exactly the environment that PAM has just returned for the user's handle, waited for and reaped, or its fork fails; the handle is released in both cases and no pid stays recorded |
| DisplayManager.Daemon.RunSessionAndReturn | src/daemon/daemon.cpp:539-568 | the user's handle is released, and a new greeter is tried while the daemon runs and has a command, and not when it has been told to stop |
| DisplayManager.Daemon.RememberUser | src/daemon/daemon.cpp:533-537 | if the configuration asks for it, and only then, `last_user` changes and nothing else, and the file becomes the rendering of the settings if it can be written |
| DisplayManager.Daemon.Respond | src/daemon/daemon.cpp:496-502 | one line that stands for the message, or the end by SIGPIPE |
| DisplayManager.Daemon.RespondAtRest | src/daemon/daemon.cpp:360-409 | an answer that grants nothing leaves the daemon at rest |
| DisplayManager.Daemon.HandlePowerAction | src/daemon/daemon.cpp:411-429 | logind is asked exactly for the four known actions; the answer is a success exactly if it was asked and agreed |
| DisplayManager.Daemon.Trigger | src/daemon/daemon.cpp:412-421 | each known action is the call of the same name, and an unknown one is none |
| DisplayManager.Daemon.AnswerQuery | src/daemon/daemon.cpp:360-409 | one response for every other kind of request; of all that the daemon has in hand only the list that was asked for changes |
| DisplayManager.Daemon.ChooseAnswer | src/daemon/daemon.cpp:361-408 | a list is what the machine has now, and no such answer grants a login |
| DisplayManager.Daemon.Rescan | src/daemon/daemon.cpp:371-383 | the cache that is asked for becomes what the machine has now, and the other one stays |
| DisplayManager.Daemon.ProcessMessage | src/daemon/daemon.cpp:360-409 | every request gets exactly one response, or the daemon dies of it; a login succeeds exactly if granted, and then the requested session of the requested user is run and the greeter replaced; everything but a granted login leaves the greeter and the configuration alone |
| DisplayManager.Daemon.HandleClientConnection | src/daemon/daemon.cpp:337-358 | the calls from the first line that arrives to the last one that it brings about, for every way of cutting the stream, and what the daemon has in hand then: exactly one response for a line that can be read unless its client is gone, none without a line, and none for a line on which the decoder throws; a client that is gone and such a line are what ends the daemon |
| DisplayManager.Daemon.ServeLine | src/daemon/daemon.cpp:348-355 | the same for a line that has been read |
| DisplayManager.Daemon.HearLine | src/daemon/daemon.cpp:348-353 | a request line is taken only while none waits; then one waits unless the decoder throws |
| Turns.EmptyArrayEndsDaemon | src/daemon/daemon.cpp:353 | an input that ends the daemon, however its bytes arrive, with every conforming library |
| DisplayManager.Daemon.CheckGreeter | src/daemon/daemon.cpp:315-325 | a recorded greeter is asked about; a dead one is reaped, its handle released and a new one started; a living or missing one is left alone |
| DisplayManager.Daemon.ReplaceGreeter | src/daemon/daemon.cpp:321-323 | the release of what the dead greeter left, and one fork of the next, if there is a command |
| DisplayManager.Daemon.LookAtSocket | src/daemon/daemon.cpp:290-304 | at rest and attended at every loop head, with no request waiting; the poll and its outcome are on the trace |
| DisplayManager.Daemon.Accept | src/daemon/daemon.cpp:307-309 | a connection, or none, is on the trace with what its reads will deliver |
| DisplayManager.Daemon.ServeClient | src/daemon/daemon.cpp:307-312 | a connection is accepted and served exactly once |
| DisplayManager.Daemon.ServePoll | src/daemon/daemon.cpp:306-325 | the exact calls of a round: a client only if the poll found one, and then, unless that client ended the daemon, the check for a greeter that died |
| DisplayManager.Daemon.Round | src/daemon/daemon.cpp:290-326 | one turn of the loop is a loop head, a poll and what it brings: nothing after an interrupted or failed poll, and otherwise at least the check; a failed poll ends the loop |
| DisplayManager.Daemon.FirstGreeter | src/daemon/daemon.cpp:282-286 | the run begins with the setup and one fork of a greeter exactly if there is a command |
| DisplayManager.Daemon.Loop | src/daemon/daemon.cpp:290-326 | the trace of the loop is a chain of turns, each from what the one before it left; it ends exactly when a signal has stopped the daemon, a poll failed, or a client ended it |
| DisplayManager.Daemon.WindUp | src/daemon/daemon.cpp:328-330 | the greeter is stopped and its handle released; no child and no handle is left |
| DisplayManager.Daemon.Run | src/daemon/daemon.cpp:282-331 | the whole trace: the first greeter, the chain of turns, and the winding up unless a client ended the daemon; it returns only when a signal has stopped it or a poll failed, with no child, no live handle and all four fields cleared; it is ended otherwise by an exception of the decoder or by SIGPIPE, and then leaves what it had at the loop head and the handle of a login under way |
| Rounds.LifeLooksAfterGreeter | src/daemon/daemon.cpp:315-325 | in every run, whenever a poll returns, the recorded greeter is asked about or reaped before the next loop head, unless the client of that poll ended the daemon |
| Rounds.TurnIsProper | src/daemon/daemon.cpp:290-326 | a turn has its loop head and its poll at the front and nowhere else, and unless it ends the daemon it asks about the recorded greeter or reaps it |
| Rounds.ReapedIsReplaced | src/daemon/daemon.cpp:315-325 | a recorded greeter that is reaped is followed by another one that is forked or tried before the next loop head |
| Rounds.GreeterStays | src/daemon/daemon.cpp:112-115 | until another one is tried, the recorded greeter stays recorded and is not reaped |
| Rounds.NeverTriedAgain | src/daemon/daemon.cpp:179-183 | as long as no client comes, a greeter that could not be forked is not tried again, and every loop head is without one |
| Turns.ChainEnds | src/daemon/daemon.cpp:353-409 | a run that is not told to stop ends with a line on which the decoder throws, or with a response that nobody waits for, right after the poll that found the client |
| Turns.GrantedIsFiveStages | src/daemon/daemon.cpp:434-502 | granted exactly if the trace holds all five successful stages on one handle |
| Turns.PasswordIsTheRequests | src/daemon/daemon.cpp:434-446 | whatever comes of an attempt, PAM is given the user name and the password of the request and no others |
| Turns.SessionIsDescribed | src/daemon/daemon.cpp:476-486 | when a user's session is opened, exactly the entries that make it a Wayland session of class "user" on seat0 and the configured terminal, and the desktop of the request if it has one, are in its environment |
| Turns.GreeterIsDescribed | src/daemon/daemon.cpp:147-152 | the same for a greeter, of class "greeter" and without a desktop |
| Turns.RefusedIsBalanced | src/daemon/daemon.cpp:434-494 | a refused attempt ends its handle once and last, deletes credentials if and only if they were set, and opened no session |
| Turns.RefusalTells | src/daemon/daemon.cpp:436-492 | a refusal says at which stage the attempt failed |
| Turns.ChosenUserHasTheName | src/daemon/daemon.cpp:507-518 | the launched user has the authenticated name: the first cached account of that name, or else one made up with /home and /bin/bash |
| Pam.PamAuth.constructor | src/daemon/pam_auth.cpp:38 | a new object owns nothing |
| Pam.PamAuth.FromMove | src/daemon/pam_auth.cpp:44-55 | the handle and both flags change hands; the source owns nothing |
| Pam.PamAuth.MoveFrom | src/daemon/pam_auth.cpp:57-72 | the receiver's own handle is ended first; self-assignment changes nothing |
| Pam.PamAuth.Start | src/daemon/pam_auth.cpp:74-97 | what was owned is ended; the service is tried and then "login"; a handle exactly on success, and it is new |
| Pam.PamAuth.TryServices | src/daemon/pam_auth.cpp:84-94 | at most two starts, the second one only after a failure, and at most one handle |
| Pam.PamAuth.Authenticate | src/daemon/pam_auth.cpp:99-133 | no call without a handle; success exactly if both calls succeed |
| Pam.PamAuth.CheckAccount | src/daemon/pam_auth.cpp:135-143 | no call without a handle, one call with one |
| Pam.PamAuth.EstablishCredentials | src/daemon/pam_auth.cpp:145-154 | the flag says what the trace says |
| Pam.PamAuth.DeleteCredentials | src/daemon/pam_auth.cpp:156-165 | called only if the flag is up; the flag is down afterwards even if the call fails |
| Pam.PamAuth.OpenSession | src/daemon/pam_auth.cpp:167-176 | the flag says what the trace says |
| Pam.PamAuth.CloseSession | src/daemon/pam_auth.cpp:178-187 | called only if the flag is up; the flag is down afterwards even if the call fails |
| Pam.PamAuth.End | src/daemon/pam_auth.cpp:189-202 | closes, deletes and ends, each only if due; a second end does nothing |
| Pam.EndingInOrder | src/daemon/pam_auth.cpp:189-202 | the session is closed before the credentials are deleted, and the handle ended last |
| Pam.PamAuth.GetEnvironmentList | src/daemon/pam_auth.cpp:204-216 | exactly the entries that PAM returns for the handle, none without a handle, and nothing changes |
| Pam.PamAuth.SetEnv | src/daemon/pam_auth.cpp:218-223 | one `name=value` entry, and nothing else changes |
| PamPool.UseAnyhow | src/daemon/pam_auth.cpp:38-202 | any client, with any number of objects and any sequence of calls, moves and destructions, uses PAM correctly and leaves no live handle when all objects are gone |
| PamPool.Apply | src/daemon/pam_auth.cpp:38-223 | every single use keeps live handles and non-null owners in bijection with matching flags |
| PamPool.Call | src/daemon/pam_auth.cpp:74-223 | a call on one object leaves all objects in order |
| PamPool.Construct | src/daemon/pam_auth.cpp:38 | a new object joins the pool without a handle |
| PamPool.MoveConstruct | src/daemon/pam_auth.cpp:44-55 | a new object takes over the handle of another |
| PamPool.Destroy | src/daemon/pam_auth.cpp:40-42 | the object leaves the pool with its handle ended |
| PamPool.MoveOne | src/daemon/pam_auth.cpp:57-72 | move assignment, to itself too, keeps the bijection |
| PamPool.EndOne | src/daemon/pam_auth.cpp:189-202 | exactly that object's handle is ended and the bijection kept |
| PamPool.OneTouched | src/daemon/pam_auth.cpp:40-97 | a change of one owner's own handle cannot disturb the others |
| PamPool.MoveAssigned | src/daemon/pam_auth.cpp:57-72 | the owner who gives is left with nothing, and no handle has two owners |
| PamPool.Moved | src/daemon/pam_auth.cpp:44-55 | ownership moves without being lost or doubled |
| Trace.StopTells | src/daemon/daemon.cpp:248-269 | SIGTERM to the group and the process first; SIGKILL exactly if every poll found it there, and after all of them; at the end it is waited for |
| Launcher.SessionLauncher.IsRunning | src/daemon/session.cpp:126-132 | an ended session is reaped but stays recorded |
| Launcher.SessionLauncher.Launch | src/daemon/session.cpp:18-32 | a running session is kept; otherwise one fork is tried, and the pid recorded is the new child's |
| Launcher.SessionLauncher.WaitForExit | src/daemon/session.cpp:134-154 | returns the exit code of exactly the recorded child, which is reaped however often the wait is interrupted; no pid stays recorded |
| Launcher.SessionLauncher.Terminate | src/daemon/session.cpp:156-179 | SIGTERM, at most 21 looks, SIGKILL only if it is still there, and reaped; the signals are safe exactly if the recorded pid is an unreaped child |
| Launcher.SessionLauncher.TerminateAfterLook | src/daemon/session.cpp:126-179 | a look that finds the session ended makes the following termination unsafe, and only that does |
| Launcher.SessionLauncher.TerminateTooLate | src/daemon/session.cpp:18-179 | launch, a look that finds the session ended, and termination: the signals go to a pid that is no child |
| Launcher.LateTraceIsPossible | src/daemon/session.cpp:126-179 | a system may answer in just that way |
| Launcher.SessionEnvironment | src/daemon/session.cpp:57-95 | the last PAM entry that sets a name wins over earlier ones and over the base; other names are as in the base |
| Launcher.BaseVariables | src/daemon/session.cpp:57-85 | the calls in turn give exactly the fifteen variables of the base |
| Launcher.OverriddenStep | src/daemon/session.cpp:88-95 | one more entry overrides exactly its own name |
| Framing.ReadRequest | src/daemon/daemon.cpp:337-358 | the loop yields exactly the first line of what was received, or nothing if there is none |
| Framing.Socket.Read | src/daemon/daemon.cpp:342-343 | a read delivers at least one byte and leaves room for the terminating NUL, until the stream ends |
| Framing.ReadReply | src/greeter/ipc_client.cpp:50-74 | the first line, or a non-empty text that was cut off, or nothing |
| Framing.ReplyExactly | src/greeter/ipc_client.cpp:50-74 | of a stream without NUL the client takes the first line, or all of it if the line is not ended |
| Framing.FirstLineSurvives | src/daemon/daemon.cpp:341-357 | for every cutting of the stream into reads, if no NUL precedes the newline, the line received is the line sent |
| Framing.FramingExact | src/daemon/daemon.cpp:341-357 | the loop refines "first line of the stream" exactly if there is no line or no NUL in it |
| Framing.NulHidesTheLine | src/daemon/daemon.cpp:345-346 | a line with a NUL that is lost |
| Framing.Delivered | src/greeter/ipc_client.cpp:50-72 | a serialised message arrives and decodes to itself at either end |
| Framing.SendRequest | src/greeter/ipc_client.cpp:16-75 | the request goes out whole or the exchange fails; the reply is what the first line decodes to |
| Framing.LoginRequest | src/greeter/ipc_client.cpp:106-131 | whoever reads what is sent, however it is cut, hears a login with exactly these credentials and this session; the caller learns the daemon's verdict and message, or that there is no daemon |
| Framing.SessionsRequest | src/greeter/ipc_client.cpp:95-104 | whoever reads what is sent hears a request for the sessions; the caller's list becomes the daemon's on success and stays otherwise |
| Framing.AnswerArrives | src/greeter/ipc_client.cpp:50-72 | what the client is answered is the message that the daemon wrote, however it is cut |
| Ipc.TypeReadsBack | src/common/ipc.cpp:17-39 | type names read back as the types |
| Ipc.TypesExactly | src/common/ipc.cpp:17-39 | the seven names of the types; every other text is the unknown type |
| Ipc.Serialize | src/common/ipc.cpp:41-90 | the member-by-member construction writes the text of the message and one newline |
| Ipc.Deserialize | src/common/ipc.cpp:92-143 | the field-by-field reading decodes what the reader found; a rejected text becomes a blank message of unknown type with the reader's errors; it throws exactly if the reader throws or found a value of the wrong kind |
| Ipc.NothingSaid | src/common/ipc.cpp:105-140 | an object without members, and null, is a message with nothing but defaults |
| Ipc.NoUserSaid | src/common/ipc.cpp:114-126 | the same for an account |
| Ipc.NoSessionSaid | src/common/ipc.cpp:128-140 | the same for a session |
| Ipc.IdExactly | src/common/ipc.cpp:121-122 | an id comes through exactly if 32 bits hold it; it throws exactly if 64 bits without sign do not |
| Ipc.LoginFields | src/common/ipc.cpp:41-51 | the members of a login request, by name and in the order in which they are written |
| Ipc.ThrowsExactly | src/common/ipc.cpp:92-143 | the decoder throws exactly if the reader does or finds a value of the wrong kind; for a text of RFC 8259 without overflow exactly if it is nested too deep or its root, a member, or an element of the two lists has a value of the wrong kind |
| Ipc.RootThrows | src/common/ipc.cpp:105-140 | for the value tree |
| Ipc.UserThrows | src/common/ipc.cpp:117-123 | for an account: neither object nor null, a text that is an array or object, or an id that is no number or out of range |
| Ipc.SessionThrows | src/common/ipc.cpp:131-137 | for a session: neither object nor null, a text that is an array or object, or a truth value that is a text, array or object |
| Ipc.EmptyArrayThrows | src/common/ipc.cpp:105 | an input on which it throws, with every conforming library |
| Ipc.FractionThrows | src/common/ipc.cpp:105 | another one, with a number that is no integer |
| Ipc.ReadUsers | src/common/ipc.cpp:114-126 | the loop decodes the array element by element, in order |
| Ipc.ReadSessions | src/common/ipc.cpp:128-140 | the loop decodes the array element by element, in order |
| Ipc.UserReadsBack | src/common/ipc.cpp:55-64 | every account reads back as itself |
| Ipc.SessionReadsBack | src/common/ipc.cpp:71-80 | every session reads back as itself |
| Ipc.UsersReadBack | src/common/ipc.cpp:53-67 | every list of accounts reads back as itself |
| Ipc.SessionsReadBack | src/common/ipc.cpp:69-83 | every list of sessions reads back as itself |
| Ipc.RootReadsBack | src/common/ipc.cpp:41-143 | omitted members come back as their defaults, all others as themselves |
| Ipc.RoundTrip | src/common/ipc.cpp:41-143 | decoding the text of a message gives the message, for every message and every conforming library |
| Ipc.RootSound | src/common/ipc.cpp:41-83 | a message has no numbers but 64-bit integers, its members in order, and is at most four deep |
| Ipc.EncodedIsOneLine | src/common/ipc.cpp:85-89 | the text has no newline and no NUL |
| Json.ParseReadsBack | src/common/ipc.cpp:85-99 | parsing a written value gives the value |
| Json.LibraryReadsBack | src/common/ipc.cpp:85-99 | every conforming library finds the value that was written |
| Json.SomeLibraryConforms | src/common/ipc.cpp:95-99 | there is such a library |
| Json.DecimalReadsBack | src/common/ipc.cpp:95-99 | a number with a fraction is read as such, as far as it goes |
| Json.DecimalValue | src/common/ipc.cpp:121-122 | with the value that it shows |
| Json.ScientificValue | src/common/ipc.cpp:121-122 | an exponent moves the decimal point up or down by as many places |
| Json.StringReadsBack | src/common/ipc.cpp:85-99 | every string survives escaping, whatever follows it |
| Json.ShortEscapes | src/common/ipc.cpp:95-99 | the two-character escapes of RFC 8259, section 7, and no others |
| Json.BlanksBefore | src/common/ipc.cpp:95-99 | blanks before a value are skipped |
| Json.ValueReadsBack | src/common/ipc.cpp:85-99 | every value with ordered members and 64-bit integers is read back from the front of any text |
| Json.WritePrintable | src/common/ipc.cpp:85-89 | written text consists of printable ASCII |
| Json.GetPut | src/common/ipc.cpp:43-51 | setting a member changes that member and no other |
| Json.PutSorted | src/common/ipc.cpp:43-51 | members stay in key order without duplicates |
| Text.TrimSpec | src/common/config.cpp:11-16 | only blanks are cut off, and none is left at either end |
| Text.TrimExactly | src/common/config.cpp:11-16 | the trimmed text is the one and only text without blanks at its ends that differs from the whole by blanks around it |
| Text.TrimIdentity | src/common/config.cpp:11-16 | trimming leaves exactly the trimmed texts alone |
| Text.LinesOfJoin | src/common/config.cpp:65 | reading lines undoes writing them |
| Text.LinesExactly | src/common/config.cpp:65 | the lines have no newlines, and with theirs they are the text again; a final line may lack its own |
| Text.StoiOfIntToString | src/common/config.cpp:87 | `stoi` reads back every 32-bit integer that `<<` prints, negative ones too |
| Text.StoiExactly | src/common/config.cpp:87 | `stoi` yields exactly the integer that the text starts with after white space, with its sign and all its digits, if 32 bits hold it |
| Configuration.Config.Load | src/common/config.cpp:51-98 | each of the ten keys, by its name, gets its last accepted assignment in its own section of the text and keeps its value without one; an unreadable file changes nothing |
| Configuration.Config.LoadLine | src/common/config.cpp:66-94 | one line acts on its own section and field only |
| Configuration.Config.Assign | src/common/config.cpp:80-94 | the two chains of comparisons set the one field that section and key name, and leave every other field alone |
| Configuration.Config.Save | src/common/config.cpp:100-126 | the file becomes the rendering of the settings, or stays as it was |
| Configuration.Config.WriteGeneral | src/common/config.cpp:111-118 | appends the lines of the first section |
| Configuration.Config.WriteAutologin | src/common/config.cpp:120-123 | appends the lines of the second section |
| Configuration.ReadItemsMeans | src/common/config.cpp:62-95 | the line loop refines that meaning, which speaks of the lines alone, for all ten fields; other sections have no effect |
| Configuration.HeaderExactly | src/common/config.cpp:69-72 | a line is a header exactly if it is a name in brackets with blanks around it |
| Configuration.AssignmentExactly | src/common/config.cpp:66-78 | a line is an assignment exactly if it is no comment and no header, and name and value are what is left and right of its first '=' without the blanks around them |
| Configuration.SectionIsGroup | src/common/config.cpp:63-80 | the section in force is that of the last header, if there is one |
| Configuration.BoolExactly | src/common/config.cpp:18-24 | "true", "1", "yes", "on" mean true and "false", "0", "no", "off" false, whatever the case of the letters, and every other text the default |
| Configuration.FieldMeans | src/common/config.cpp:80-94 | one field takes the last accepted assignment to its own key, whatever the others do |
| Configuration.RoundTrip | src/common/config.cpp:65-123 | from any prior state, loading what was saved gives exactly what was saved |
| Configuration.NormalForm | src/common/config.cpp:51-126 | whatever is loaded over the defaults can be stored, so load, save, load equals load |
| Configuration.RoundTripExactly | src/common/config.cpp:65-123 | nothing is lost exactly if every text is trimmed and without newline |
| Configuration.RememberedUserReloads | src/daemon/daemon.cpp:534-537 | saved and reloaded, remembering a user changes `last_user` and nothing else, exactly for user names the file can hold |
| Configuration.TrailingBlankIsLost | src/daemon/daemon.cpp:534-537 | a user name that does not come back |
| Sessions.ParseDesktopFile | src/common/session_scanner.hpp:70-126 | field by field: command and comment are the first values that are not empty inside `[Desktop Entry]` groups, the name is the first that is not empty or else the id, the desktop names are the last ones or else the name; of a file that cannot be opened only id and path are known |
| Sessions.PlainFile | src/common/session_scanner.hpp:70-126 | a plain file is parsed as written |
| Sessions.DesktopName | src/common/session_scanner.hpp:55-73 | a file `id.desktop` has the id `id` |
| Sessions.DesktopNames | src/common/session_scanner.hpp:55-73 | a name has this extension exactly if it ends in ".desktop" after something else |
| Sessions.NameIsCut | src/common/session_scanner.hpp:73 | a file name is cut before its last dot, unless there is none behind its first character |
| Sessions.ReadItemsMeans | src/common/session_scanner.hpp:79-116 | the line loop refines that meaning, which speaks of the lines alone, for every sequence of lines with any number of groups |
| Sessions.GroupExactly | src/common/session_scanner.hpp:90-99 | what is a header, and which one opens an entry group |
| Sessions.EntryExactly | src/common/session_scanner.hpp:88-106 | a line is an entry exactly if, without blanks around it, it is no comment and no header and reads `key=value`; neither is trimmed on its own |
| Sessions.InEntryExactly | src/common/session_scanner.hpp:90-101 | a line counts exactly if the last header before it is `[Desktop Entry]` |
| Sessions.ReadLine | src/common/session_scanner.hpp:82-115 | one line, as the specification of the loop has it |
| Sessions.InEntryIsLastGroup | src/common/session_scanner.hpp:91-99 | a line counts exactly if the last header before it was `[Desktop Entry]` |
| Sessions.SessionList.ScanDirectory | src/common/session_scanner.hpp:46-68 | the list is extended greedily by what the directory offers |
| Sessions.SessionList.FindClash | src/common/session_scanner.hpp:60-62 | found exactly if a kept session shares the id or the name |
| Sessions.ScanAll | src/common/session_scanner.hpp:23-43 | the result of two directory passes and the fallback |
| Sessions.GreedyDistinct | src/common/session_scanner.hpp:57-66 | ids are pairwise distinct, and so are names |
| Sessions.GreedyConcat | src/common/session_scanner.hpp:27-28 | two passes equal one pass over the concatenation |
| Sessions.GreedyIdempotent | src/common/session_scanner.hpp:57-66 | deduplicating the result again changes nothing |
| Sessions.GreedyIsTheSelection | src/common/session_scanner.hpp:57-66 | the result is the order-preserving selection in which a usable candidate is left out exactly if an earlier selected one clashes with it |
| Sessions.SelectionExists | src/common/session_scanner.hpp:57-66 | such a selection exists for every list of candidates |
| Sessions.ScannedWellFormed | src/common/session_scanner.hpp:23-67 | a scan is never empty, all its sessions have a name and a command, and ids and names are pairwise distinct |
| Sessions.ScannedIsTheSelection | src/common/session_scanner.hpp:23-43 | a scan is that selection among the candidates of the first directory and then those of the second, or the one fallback session |
| Sessions.CandidatesInOrder | src/common/session_scanner.hpp:51-67 | the candidates come from the files one after the other |
| Sessions.OneCandidate | src/common/session_scanner.hpp:53-57 | only a regular file whose name ends in ".desktop" after something else is a candidate |
| Sessions.ChosenExactly | src/daemon/daemon.cpp:520-531 | a request means the first session that has its desktop name as id or name, or runs its command, and without one a session made up of the two, with their defaults |
| Sessions.PickedCommandRuns | src/daemon/daemon.cpp:520-531 | picking an entry always finds a match, and runs its command exactly if no earlier entry is mistaken for it |
| Sessions.PickedEntryIsChosen | src/daemon/daemon.cpp:520-531 | the entry itself is found exactly if no earlier one has its id as name or shares its command |
| Sessions.ScannedCommandsRun | src/daemon/daemon.cpp:520-531 | if no name equals another's id, every entry of a scan launches its own command |
| Sessions.MistakenScan | src/daemon/daemon.cpp:520-531 | for any two plain `.desktop` files of which the first has the second's id as its name, picking the second launches the first |
| Sessions.MistakenExample | src/daemon/daemon.cpp:520-531 | a directory in which it happens |

## Left out

- jsoncpp itself: `Json.dfy` has its value tree, its compact writer and a reader for the texts of RFC 8259; what the
  library makes of other texts, the wording of its errors, and the texts and ids it makes of floating-point numbers
  are parameters.
- Text that is not valid UTF-8, and the difference between bytes and code points in file names and configuration.
- Short writes and the closing of sockets; the daemon ignores what `write` returns. A broken pipe is modelled.
- Creating, binding and removing the socket, its permissions, and directories; only whether the socket comes up.
- `find_config_file` and custom paths; a readable file is a parameter.
- `get_users`, `ping` and `power_action` of the client: they differ from `get_sessions` in one field.
- The account database and avatars (`UserScanner`): any list of users is allowed. For a user absent from the cache
  the made-up record is modelled, and nothing is claimed of its uid.
- The child's side of both forks except the environment of the session: privileges, working directory, `execl`.
- `LogindManager`: a power action succeeds or fails arbitrarily.
- The PAM conversation callback and wiping of passwords.
- Time: poll timeouts, sleeps, and the seconds a process is given are counted in polls only.
- A signal before `run` sets `m_running`, which the program itself forgets.
- The greeter's user interface; only what it passes to `login` matters.
