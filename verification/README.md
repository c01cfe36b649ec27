# Verification of the Anaconda installer's run-time machinery and small text languages

This project models the parts of Anaconda that decide in which order things happen, and the parts that read and
write small texts, and proves properties of them for all inputs, all runs and all interleavings.

* `TaskTree`, `RunOrder`, `TaskWalks`, `TaskRuns`, `RunTallies`, `InstallationTasks`, `TreeBuilding`, `TaskSummary`,
  `Installation`: tasks and task queues as objects that are wired to each other by signals. The methods of the objects
  are proved against the tree as a value: what a run emits (`Trace`), where it stops (`Halt`), and what every item's
  state and numbers are afterwards. The properties of runs are then proved about trees of any shape and depth.
* `Threading`, `ThreadErrors`, `ThreadErrorRuns`, `ThreadScripts`: the registry of threads and the errors of failed
  threads, as a class and as a protocol of interleaved steps.
* `ThreadWaits`, `PayloadRestart`, `PayloadRestartRuns`, `PayloadListeners`: which threads wait for which, restarting
  the payload thread, and telling listeners about its states.
* `Lifecycle`: the controller that fires `init_done` once.
* `Shlex`, `ShellWords`, `Whitespace`, `TextFiles`, `SimpleConfig`, `ConfigLines`, `ConfigFile`: quoting, comments, and
  the editor of KEY=VALUE files.
* `Users`: name and group list checks, and the regular expressions that close them, as languages.
* `DriverDisk`, `DriverDiskRuns`: the files of driver disk requests, and the processes that finish requests through
  them: a protocol over lines, and one over files that refines it.
* `KernelArgs`, `ImageNames`, `Locales`, `Devices`: boot arguments, disk image names, locale matching, device matching.

`Prelude` and `Text` hold what the others share. Strings are sequences of Unicode characters; numbers are unbounded,
as in Python.

## How to read the results

Some promises do not hold of the program in every case. Each is stated with the exact condition under which it does,
and with an example:

* A queue that holds a nested queue but no task never sets its counters, so the start of the nested queue raises. A run
  stops at the first task that raises or the first such nested queue, and completes if there is neither
  (`TaskRuns.FirstToStop`, `TaskRuns.CompletesExactly`, `TaskRuns.EmptyQueueStops`). What the queues hear is stated of
  all runs of all trees; only the results about runs that complete ask that there is neither. The queue at which a run
  stops is running, but only its parent was told that it started: the queue numbers of the queues above are one less
  than the queues started below them (`InstallationTasks.RanCounts`).
* Unquoting undoes quoting only for strings in which no backslash comes last or before a backslash or a double quote
  (`Shlex.UnquoteQuote`, in both directions; `Shlex.TrailingBackslash`, `Shlex.BackslashUnclosed`), and a printed row is
  read back only if, besides, the value shows no # where its quotes are closed (`SimpleConfig.RowRoundTrip`, in both
  directions; `ConfigFile.QuoteBeforeHash` is a value that fails).
* A file that is read, edited, printed and read again holds what it should exactly if no new key is put right behind a
  last line that is no key line and has no newline (`ConfigFile.EditRoundTrip`, `ConfigFile.CommentGlues`).
* The configuration editor promises to keep every line that is not KEY=VALUE. Exactly the lines whose key has no
  character with an ASCII decomposition are neither read as a key nor kept, unless an empty key was set
  (`ConfigFile.LineLostIff`, `ConfigFile.LineCanBeLost`).
* An error of a thread is lost exactly if a later thread of the same name fails while it waits
  (`ThreadErrorRuns.ErrorFate`, `ThreadErrorRuns.ReuseLosesErrors`). A caller that saw an error gets KeyError instead
  exactly if another took it in between (`ThreadErrorRuns.KeyErrorMeansTaken`).
* A caller of restart_thread raises exactly if another caller registered a restart thread between its check and its
  add, and that one is still there (`PayloadRestart.RaisedIff`, `PayloadRestart.CallerCanRaise`).
* A listener is called once: at once, if the run is in its state or past it in the order of the states, skipped states
  included, and not in ERROR; or later, if its state is set and none ahead of it raises; and a listener for ERROR only
  in ERROR (`PayloadListeners.ListenerFiresOnce`, `PayloadListeners.CalledInLaterRun`).

Protocols are sequences of steps. A step is what the program does under one lock, or what touches nothing shared. A run
is any sequence of steps that can happen, so a result about runs holds for every interleaving of any number of threads.

Assumptions: the splitting of `shlex.split` in POSIX mode is written out as a state machine; parsing of locales, udev
answers, the file system's answers about paths, and the callables of tasks are parameters; the requests on a driver
disk are listed before any of their processes runs. The ASCII decomposition of a character is a parameter too, `fold`,
of which only `IsFold` is assumed: it leaves ASCII characters as they are and gives nothing but ASCII. The named
threads are started as fatal, which is the default: no error is recorded under their names, so a wait for one cannot
end early by suppressing an AttributeError (`ThreadErrorRuns.FatalNames`). What the target of a thread does between two
waits is one step, which ends; the waits of targets are those of `ThreadWaits.MayWait`, taken from all targets that
wait. Listeners raise or do not raise, always alike.

## Model

| member | source | states |
|---|---|---|
| InstallationTasks.Signal.Connect | pyanaconda/core/signal.py:43-51 | a slot is connected once, a function to the functions and a method to the methods |
| InstallationTasks.Signal.Disconnect | pyanaconda/core/signal.py:53-59 | a slot that is not connected is ignored; no other slot goes |
| InstallationTasks.Signal.Emit | pyanaconda/core/signal.py:33-41 | emitting in a wired tree re-emits in every queue above, to the top, advances the numbers of each queue passed, and is cut short exactly where a counter is not set; it is only ever called when those connected find the item started and running, and, once completed, a task still running and a queue done |
| InstallationTasks.Signal.Advance | pyanaconda/installation_tasks.py:128-134 | the two counting callbacks, one step of a cascade |
| InstallationTasks.Item.constructor | pyanaconda/installation_tasks.py:109-126 | a new item has no parent, was not started, and a queue counts on its own two signals |
| InstallationTasks.Item.SetParent | pyanaconda/installation_tasks.py:254-280 | setting a parent disconnects from the previous one and connects each signal to the right signal of the new one; for tasks lines 434-446 |
| InstallationTasks.MovedIs | pyanaconda/installation_tasks.py:254-280 | a signal of an item that is moved is relayed to the new queue and no longer to the old one, and nothing else that is connected to it changes |
| InstallationTasks.Item.Insert | pyanaconda/installation_tasks.py:342-345 | the item becomes a child at the clamped index, the others keep their order |
| InstallationTasks.Item.Append | pyanaconda/installation_tasks.py:326-329 | the item becomes the last child |
| InstallationTasks.Clamp | pyanaconda/installation_tasks.py:343-345 | where list.insert puts an item in a list of n: at an index in the list, n + index for a negative one, and at the nearer end otherwise |
| InstallationTasks.Item.TaskStartedCallback | pyanaconda/installation_tasks.py:132-134 | advances the task number, and raises if it was never set |
| InstallationTasks.Item.QueueStartedCallback | pyanaconda/installation_tasks.py:128-130 | advances the queue number, and raises if it was never set |
| InstallationTasks.Item.TaskCount | pyanaconda/installation_tasks.py:168-184 | counts the tasks anywhere below the queue |
| InstallationTasks.Item.QueueCount | pyanaconda/installation_tasks.py:150-166 | counts the queues anywhere below the queue, without itself |
| InstallationTasks.Item.Summary | pyanaconda/installation_tasks.py:220-242 | the recursive text of the objects is the summary of the tree they form |
| InstallationTasks.Item.RunTask | pyanaconda/installation_tasks.py:448-464 | calls the callable once if there is one, and raises if and only if it fails and the error handler decides to raise; a failure that it decides to continue after completes the task |
| InstallationTasks.Item.Start | pyanaconda/installation_tasks.py:282-322 | a run emits exactly the trace of the subtree, stops where the tree says, leaves every item above and below in the state that follows from that, and leaves the numbers of every running queue equal to the tasks and queues below it that were started, by their own fields, save a queue at which it stops; a second start does nothing |
| InstallationTasks.RanCounts | pyanaconda/installation_tasks.py:128-134 | that the numbers count the started tasks and queues, whenever an item has completed and when a run was cut short |
| InstallationTasks.Item.StartTask | pyanaconda/installation_tasks.py:466-503 | the same for a task |
| InstallationTasks.Item.StartQueue | pyanaconda/installation_tasks.py:282-322 | the same for a queue, which may be stopped by its parent's unset counter |
| InstallationTasks.Item.CompleteQueue | pyanaconda/installation_tasks.py:313-322 | a queue whose items are done is marked done, loses its numbers, and then tells the queues above |
| TreeBuilding.InsertTree | pyanaconda/installation_tasks.py:326-345 | inserting a tree into any queue of another, nested or not, keeps the wiring: the result is wired as the grown tree, and the objects are those of both |
| TreeBuilding.AppendTree | pyanaconda/installation_tasks.py:326-329 | the same for appending |
| TreeBuilding.SlideSub | pyanaconda/installation_tasks.py:342-345 | in the grown tree every node of the receiving tree is there as it was, moved by one if it is at or after the place of insertion, and only the receiving queue has one more item |
| TreeBuilding.InsertedSub | pyanaconda/installation_tasks.py:342-345 | at the place of insertion stands the inserted tree |
| TreeBuilding.Build | pyanaconda/installation_tasks.py:326-329 | any tree can be built by appending, and is then wired and untouched |
| TreeBuilding.BuildAndStart | pyanaconda/installation_tasks.py:282-329 | building any tree and starting it: it completes exactly if the tree says so, emits the trace of the tree, and leaves everything done or, if stopped, the stopping item and what is around it running, what is before it done and what is after it untouched |
| TaskRuns.CompletesIff | pyanaconda/installation_tasks.py:282-322 | a run completes if and only if every queue that holds a queue has a task below it and no task raises |
| TaskRuns.CompletesExactly | pyanaconda/installation_tasks.py:448-464 | told by what the tasks do: a run completes if and only if no task fails with the decision to raise, and every queue that holds a queue, at any depth, holds a task |
| TaskRuns.StartedCompletes | pyanaconda/installation_tasks.py:448-464 | in every run of every tree, a task that starts is heard complete if and only if it does not fail with the decision to raise; so it is after a failure that is continued |
| TaskRuns.NextTaskStarts | pyanaconda/installation_tasks.py:304-311 | in every run of a tree whose queues can count, a task starts if and only if the one before it completed |
| TaskRuns.TaskPathsComplete | pyanaconda/installation_tasks.py:168-184 | the list of tasks in run order has each task of the tree once, depth first and left to right, as many as are counted |
| TaskRuns.QueuePathsComplete | pyanaconda/installation_tasks.py:150-166 | the two lists of queues, before and after what they contain, have each queue of the tree once, as many as are counted |
| TaskRuns.EmptyQueueStops | pyanaconda/installation_tasks.py:128-130 | a queue that holds an empty queue and no task stops at it, although no task raises |
| TaskRuns.Hears | pyanaconda/installation_tasks.py:254-280 | every queue around an item, in any tree, hears exactly the tasks and queues of the item that the run reached, once each and in order |
| TaskWalks.CascadeClimbs | pyanaconda/installation_tasks.py:254-280 | an emission climbs: it is heard at the item, then at each queue around it, from the inside out |
| TaskWalks.EveryQueueWalks | pyanaconda/installation_tasks.py:254-280 | all signals together, in one order: for every tree, every queue in it and every run, complete or cut short, the queue hears the walk through what is below it, starts before what they contain and ends after it, as far as the run reached |
| TaskRuns.EveryQueueHears | pyanaconda/installation_tasks.py:254-280 | for every tree, every queue in it and every run, complete or cut short, the queue hears exactly the items below it that the run reached, once each and in order |
| TaskRuns.CallsReached | pyanaconda/installation_tasks.py:448-464 | run_task is called exactly for the tasks that the run reached, once each and in order |
| TaskRuns.FirstToStop | pyanaconda/installation_tasks.py:304-322 | a run stops at the first item in run order that is a task that raises or a queue in a queue without tasks, and completes if there is none |
| TaskRuns.CompleteRun | pyanaconda/installation_tasks.py:282-322 | a complete run runs every task exactly once in run order; the top queue hears each task start and complete in the same order, each nested queue start before and complete after what it contains |
| TaskRuns.CompleteRunCounts | pyanaconda/installation_tasks.py:282-322 | so its four signals fire task_count, task_count, queue_count and queue_count times, and every callable that is set is called once, in run order |
| TaskRuns.CallsCallables | pyanaconda/installation_tasks.py:448-464 | in any run, of the tasks that are run exactly those with a callable have it called, in the same order |
| TaskRuns.StoppedRun | pyanaconda/installation_tasks.py:304-322 | whenever a run is cut short at a task, in any tree, that task failed with the decision to raise, the tasks that completed are exactly those before it in run order, and the top queue heard exactly these complete |
| TaskSummary.TopSummaryRows | pyanaconda/installation_tasks.py:222-242 | a top-level summary is four lines and one more for each nested task or queue, indented by its depth |
| TaskSummary.TopSummaryLines | pyanaconda/installation_tasks.py:222-242 | the text of these lines: title, number of queues, number of tasks, heading, and for each item below the queue, depth first, its kind and name behind as many spaces as it is deep |
| TaskSummary.EveryNode | pyanaconda/installation_tasks.py:236-238 | every item below the queue has such a line, and nothing else has |
| TaskSummary.RowsDetermine | pyanaconda/installation_tasks.py:236-238 | equal indented lines come from trees of the same shape, kinds and names |
| TaskSummary.SummaryDetermines | pyanaconda/installation_tasks.py:222-242 | two top-level queues with equal summaries have the same shape, kinds and names, if names have no line breaks |
| Installation.ItemCounter.Next | pyanaconda/core/util.py:910-934 | one step of the generator, which is exhausted once it has raised or ended |
| Installation.DrainCounter | pyanaconda/core/util.py:910-934 | the generator gives 1/n to n/n and then ends for good; for a negative number it raises and then ends for good |
| Installation.LogIff | pyanaconda/installation.py:385-397 | no counter runs out exactly if each was made for at least what is heard |
| Installation.LogOfRun | pyanaconda/installation.py:385-400 | in no run, complete or stopped, of any tree does a counter run out, and the lines of each signal are numbered from 1 |
| Installation.LogOfSuccess | pyanaconda/installation.py:385-400 | a successful run logs the start of each nested queue and the start and the completion of each task, in run order, each with the counters 1/n to n/n |
| Installation.CountersSuffice | pyanaconda/installation.py:383-397 | the top queue never hears more than its counters were made for, in complete and in stopped runs of any tree |
| Installation.StepsAreTasks | pyanaconda/installation.py:57-63 | in every run, what the two queues of the installation hear complete is together what the top queue hears; the other queue is wired at lines 232-235 |
| Installation.ProgressOfSuccess | pyanaconda/installation.py:366-405 | a successful run sends init with the number of tasks, exactly that many steps, and complete at the end |
| Installation.ProgressIs | pyanaconda/installation.py:366-405 | exactly the messages of every run, in order: the number of steps; for the first queue and then for the second a status for each queue in it that starts and a step for each task in it that completes, as far as the run gets; and complete if it does |
| Installation.ProgressOfFailure | pyanaconda/installation.py:366-405 | a run that is cut short sends one step for each task that completed, and never complete |
| Installation.StepsOfFailure | pyanaconda/installation.py:366-405 | when it is cut short at a task, these are as many as there are tasks before that one |
| Installation.RunInstallation | pyanaconda/installation.py:366-405 | building the queue of both parts, counting, starting it, logging and reporting: the outcome, the log and the messages of the objects are those of the tree |
| Threading.ThreadManager.Add | pyanaconda/threading.py:51-65 | a thread is registered under a free name and started; a taken name raises KeyError, and changes and starts nothing |
| Threading.ThreadManager.Remove | pyanaconda/threading.py:67-73 | exactly the name goes; an unknown name raises KeyError |
| Threading.ThreadManager.RaiseIfError | pyanaconda/threading.py:155-166 | a recorded error is taken out and raised, other errors stay |
| Threading.ThreadManager.Get | pyanaconda/threading.py:82-95 | None without a thread even if an error is recorded; with one, its error comes first |
| Threading.ThreadManager.SetError | pyanaconda/threading.py:140-147 | a later error of the same name replaces an earlier one |
| ThreadErrors.StepKeepsInv | pyanaconda/threading.py:257-282 | every step keeps: threads are registered from start to removal, errors belong to threads that left their target, each error waits or was taken, each taker got it raised or suppressed it |
| ThreadScripts.ThreadIff | pyanaconda/threading.py:51-65 | in every interleaving the threads are exactly those that were added under a free name |
| ThreadScripts.Script | pyanaconda/threading.py:257-282 | in every interleaving a thread's phase and failure are what its own steps say: it runs until its target returns or raises, records its error before it leaves, and has ended exactly once it removed itself |
| ThreadScripts.WaitFinds | pyanaconda/threading.py:82-119 | in every interleaving, split at the lookup: a wait is about the thread that was registered under its name then, whenever it returns normally it returned that thread, and none exactly if none was registered |
| ThreadScripts.RaiseIfErrorFinds | pyanaconda/threading.py:155-166 | in every interleaving raise_if_error joins no thread |
| ThreadScripts.CallerGoesOn | pyanaconda/threading.py:97-119 | in every interleaving a caller is only ever held up by a thread that it joins and that has not ended |
| ThreadErrorRuns.ErrorFate | pyanaconda/threading.py:140-166 | in every interleaving, a failure that is not fatal is recorded before the thread leaves the registry; from then on it waits, or was taken, or was overwritten by a failure of the same name while it waited, and only one of these; nothing else is recorded |
| ThreadErrorRuns.ErrorsConserved | pyanaconda/threading.py:36-40 | so in runs that keep names unique until delivery, every recorded error waits or was taken, and never both |
| ThreadErrorRuns.ErrorTakenOnce | pyanaconda/threading.py:155-166 | in every interleaving no error is taken by two callers |
| ThreadErrorRuns.WaitReturns | pyanaconda/threading.py:97-119 | in every interleaving a wait that found a thread and returns normally has itself suppressed an AttributeError of the name, or the thread has ended and its error was taken elsewhere or overwritten; which thread it finds is `ThreadScripts.WaitFinds` |
| ThreadErrorRuns.WaitDelivers | pyanaconda/threading.py:36-40 | so in runs that keep names unique until delivery, such a wait leaves no error of the thread behind |
| ThreadErrorRuns.KeyErrorIff | pyanaconda/threading.py:155-166 | a caller that saw an error gets KeyError from taking it if and only if, between its check and its taking, another caller took an error of the name and none was recorded after that |
| ThreadErrorRuns.KeyErrorMeansTaken | pyanaconda/threading.py:155-166 | the same of every interleaving: whenever a caller takes an error, the run splits at its check, where it saw one |
| ThreadErrorRuns.FatalNames | pyanaconda/threading.py:257-266 | no error is recorded under a name that only fatal threads have, and a wait for it that found a thread returns normally only once it has ended |
| ThreadErrorRuns.ReuseLosesErrors | pyanaconda/threading.py:140-147 | there is a run in which an error is lost: a second thread of the name fails before the first error is taken |
| PayloadRestart.StepKeepsInv | pyanaconda/payload/manager.py:116-157 | every step keeps: threads find themselves registered, only the one restart thread waits or starts, and while it is about to add the payload thread none is registered |
| PayloadRestart.AtMostOnePayloadThread | pyanaconda/payload/manager.py:148-157 | in every interleaving of callers, restart threads, payload threads and other threads, at most one payload thread is registered or in its target, and adding it never raises; that one is started is `PayloadRestartRuns.PayloadStarted` |
| PayloadRestartRuns.PayloadStarted | pyanaconda/payload/manager.py:148-157 | in every interleaving, adding the payload thread registers and starts it, the restart thread is about to leave, and every payload thread before it has ended |
| PayloadRestartRuns.PayloadThreadIff | pyanaconda/payload/manager.py:148-157 | in every interleaving the payload threads are exactly those that a restart thread added |
| PayloadRestartRuns.ThreadIff | pyanaconda/payload/manager.py:116-157 | in every interleaving the threads, of any name, are exactly those that were added under a free name |
| PayloadRestartRuns.Script | pyanaconda/payload/manager.py:116-157 | in every interleaving a thread's phase is what its own steps say; a restart thread waits, then adds, then leaves |
| PayloadRestartRuns.RestartOutcome | pyanaconda/payload/manager.py:148-157 | in every interleaving a restart thread leaves if and only if it started a payload thread or its wait raised |
| PayloadRestartRuns.WaitFinds | pyanaconda/payload/manager.py:148-190 | in every interleaving a wait for a registered name waits for that very thread until it has ended, and one for a free name goes on at once |
| PayloadRestartRuns.ReturnedIff | pyanaconda/payload/manager.py:132-141 | in every interleaving a caller has returned if and only if its check found a restart thread or it registered one itself |
| ThreadWaits.RankFalls | pyanaconda/payload/manager.py:148-190 | the targets that wait do so for threads of lower rank: payload for storage, network and subscription, restart for payload, and the others listed |
| PayloadRestart.NoCircle | pyanaconda/payload/manager.py:148-190 | in every interleaving no threads wait for each other in a circle, and at most four waits follow one another |
| PayloadRestart.WaitingEnds | pyanaconda/payload/manager.py:148-190 | in every interleaving a thread that has not ended can go on, or the threads it waits for, one after another, lead to one that can |
| PayloadRestart.CallerRaisesIff | pyanaconda/payload/manager.py:132-141 | in every interleaving, a caller that adds a restart thread found none at its check, and raises if and only if after that another caller registered one that has not removed itself yet |
| PayloadRestart.RaisedIff | pyanaconda/payload/manager.py:132-141 | in every interleaving, a caller has raised if and only if the run holds its check that found none, then another caller's registration of one that stayed, then its own add |
| PayloadRestart.CallerCanRaise | pyanaconda/payload/manager.py:132-141 | there is such a run, of two callers |
| PayloadListeners.PayloadManager.AddListener | pyanaconda/payload/manager.py:93-114 | the listener is added last for its state, and called at once exactly if the run is in its state, or past it in the order of the states without being in ERROR; a listener for ERROR exactly in ERROR; the result says whether it raised |
| PayloadListeners.PayloadManager.SetState | pyanaconda/payload/manager.py:159-169 | the state is set, and its listeners are called once each in order of registration, up to the first that raises |
| PayloadListeners.PayloadManager.RunThread | pyanaconda/payload/manager.py:171-250 | a payload run enters its states in order, for every combination of answers it gets, with any registrations in between, until its last state or one that is left by an exception, a listener's or another |
| PayloadListeners.LivedIsOps | pyanaconda/payload/manager.py:171-250 | every such run is an interleaving of its states with the registrations, up to and with the first state that is left by an exception, and all of its states exactly if there is none |
| PayloadListeners.RunStates | pyanaconda/payload/manager.py:171-248 | for every combination of answers, the states of a run start with STARTED, rise, and end with FINISHED or ERROR |
| PayloadListeners.ListenerFiresOnce | pyanaconda/payload/manager.py:93-114 | for every interleaving with a run, as far as it got, a listener is called exactly once if the run is in its state or past it in the order of the states, skipped states included, and not in ERROR, or if its state is set later while none ahead of it raises, and never otherwise; one for ERROR only in ERROR |
| PayloadListeners.SeenIsAtOnce | pyanaconda/payload/manager.py:93-114 | a listener for a state that the run went through is called at once, unless the run is in ERROR |
| PayloadListeners.CalledInLaterRun | pyanaconda/payload/manager.py:159-169 | a listener stays: in every later run, as far as it gets, it is called once more if its state is set and none ahead of it raises, and not otherwise |
| PayloadListeners.CalledUntil | pyanaconda/payload/manager.py:167-169 | the listeners of a state are called up to and with the first that raises |
| Lifecycle.Controller.ModuleInitStart | pyanaconda/lifecycle.py:93-105 | a start is accepted unless all modules were added or the module is already initializing |
| Lifecycle.Controller.AllModulesAdded | pyanaconda/lifecycle.py:107-133 | fires at once if nothing is initializing and it has not fired |
| Lifecycle.Controller.ModuleInitDone | pyanaconda/lifecycle.py:135-163 | fires if the last module is done and all were added; late or unknown modules change nothing |
| Lifecycle.NextKeepsInv | pyanaconda/lifecycle.py:93-167 | every step keeps: triggered if and only if all were added and no module is initializing; emissions done and owed are one if triggered and none otherwise |
| Lifecycle.ControlOfHistory | pyanaconda/lifecycle.py:93-163 | the controller's fields say exactly what the history of calls says: whether it fired, whether all modules were added, which modules are under way, and how many starts were accepted |
| Lifecycle.EmittedWhenReady | pyanaconda/lifecycle.py:107-167 | in every interleaving init_done is emitted at most once, and never before all modules were added and every accepted start was reported done |
| Lifecycle.EmittedIffReady | pyanaconda/lifecycle.py:107-167 | once every call has returned, it was emitted exactly if all modules were added and are done |
| Shlex.QuoteValue | pyanaconda/simpleconfig.py:33-42 | the loop that looks for an unsafe character quotes exactly the strings that have one, or all of them |
| Shlex.SafeIffInList | pyanaconda/simpleconfig.py:26-26 | the safe characters are the letters, the digits and the ten marks listed |
| ShellWords.UnquoteWords | pyanaconda/simpleconfig.py:29-30 | the text of any words, each put together of plain characters, escaped characters and single- and double-quoted texts, is unquoted as the values of their pieces, with one blank between the words whatever whitespace is around them |
| ShellWords.UnquoteSingle | pyanaconda/simpleconfig.py:29-30 | a single-quoted text is unquoted as what is between the quotes |
| ShellWords.UnquoteOpen | pyanaconda/simpleconfig.py:29-30 | a text that breaks off inside quotes or after a backslash cannot be unquoted, with the error that tells which |
| Shlex.UnquoteQuote | pyanaconda/simpleconfig.py:29-42 | unquote(quote(s, always)) == s for both values of always, if and only if no backslash in s is last or before a backslash or a double quote |
| Shlex.TrailingBackslash | pyanaconda/simpleconfig.py:29-42 | a value that ends in a backslash never comes back |
| Shlex.BackslashUnclosed | pyanaconda/simpleconfig.py:29-42 | there is one that cannot be unquoted at all |
| SimpleConfig.FindCommentIndex | pyanaconda/simpleconfig.py:45-66 | the index is the first # outside quotes, and there is none before it |
| SimpleConfig.FindCommentIsFirst | pyanaconda/simpleconfig.py:45-66 | the recursive search agrees with that definition |
| ConfigLines.CommentIsFirstOpenHash | pyanaconda/simpleconfig.py:45-66 | of any text cut into stretches in quotes of either kind and stretches without quotes, the comment begins at the first # of the latter, and no # after an open quote begins one |
| SimpleConfig.RowRoundTrip | pyanaconda/simpleconfig.py:149-184 | a printed row is read back as its key, value and comment if and only if the value is plain, has no # where the double quotes around it are closed, and leaves them open to the end if a comment follows |
| SimpleConfig.PrintedIsFree | pyanaconda/simpleconfig.py:33-66 | whether a printed value shows a comment or closes its quotes can be told from the value alone |
| SimpleConfig.SpacedLineRead | pyanaconda/simpleconfig.py:149-176 | a line is read as its upper-case key, its value and its comment, whatever whitespace stands around each of them; the value is unquoted if asked for, and raises if it cannot be; `ConfigLines.LineOfWords` says what that gives |
| ConfigLines.LineOfWords | pyanaconda/simpleconfig.py:149-176 | whatever way a value is quoted, its line is read as the upper-case key, the words of the value with one blank between them, and the comment |
| ConfigLines.SingleQuotedLine | pyanaconda/simpleconfig.py:149-176 | a value in single quotes is read as what is between them, #, double quotes and backslashes included |
| ConfigLines.KeyLineIff | pyanaconda/simpleconfig.py:149-176 | a line that can be read is a key line if and only if, its comment aside, it has an equals sign with more than whitespace before the first one |
| ConfigLines.ReadIsLast | pyanaconda/simpleconfig.py:109-121 | of several lines of a key the last one counts, keys without a line are left alone, and known keys keep their places |
| SimpleConfig.NoDoubleQuotes | pyanaconda/simpleconfig.py:33-66 | values without double quotes never show a comment, whatever # and single quotes they hold |
| SimpleConfig.ParsedComment | pyanaconda/simpleconfig.py:163-169 | the comment of a line starts with # and has no whitespace at its end |
| SimpleConfig.UpperTwice | pyanaconda/simpleconfig.py:171-176 | a key that was upper-cased is not changed by upper-casing it again, whatever the decompositions are |
| ConfigLines.UpperOfAscii | pyanaconda/core/string.py:61-71 | in an ASCII text exactly the lower-case letters change, to those 32 places before them |
| ConfigLines.UpperByPieces | pyanaconda/core/string.py:44-71 | any text is upper-cased piece by piece, and a character as what it decomposes to |
| SimpleConfig.RowsRoundTrip | pyanaconda/simpleconfig.py:186-207 | printed rows are read as the same keys and values and printed as the same rows; other lines stay verbatim and in place, key lines keep their comments |
| ConfigFile.SimpleConfigFile.Read | pyanaconda/simpleconfig.py:109-121 | reads line by line; a line that cannot be unquoted raises, with the lines up to and including it kept and only the keys before it noted |
| ConfigFile.SimpleConfigFile.Set | pyanaconda/simpleconfig.py:137-139 | the pairs are set one after another under upper-case keys |
| ConfigFile.SimpleConfigFile.Unset | pyanaconda/simpleconfig.py:141-144 | the keys go, unknown ones are ignored |
| ConfigFile.SimpleConfigFile.Str | pyanaconda/simpleconfig.py:186-207 | the two loops print exactly the text of the lines and the new keys, and raise exactly if a line cannot be unquoted |
| ConfigFile.SetAllLast | pyanaconda/simpleconfig.py:137-139 | after set a key has the last value given to it in any case of letters, and other keys are as before |
| ConfigFile.UnsetAllGone | pyanaconda/simpleconfig.py:141-144 | after unset exactly the named keys are gone |
| ConfigFile.GetAfterSet | pyanaconda/simpleconfig.py:137-147 | after set, get gives the last value set for the key in any case of letters, and what it gave before for all others |
| ConfigFile.GetAfterUnset | pyanaconda/simpleconfig.py:141-147 | after unset, get gives an empty string for the keys unset, and what it gave before for all others |
| ConfigFile.EditRoundTrip | pyanaconda/simpleconfig.py:109-207 | reading a file, any edits, printing, and reading again gives the edited keys and values, printing again gives the same text, other lines and comments survive in order, and new keys follow: all this if and only if no new key follows a last line that is no key line and has no newline |
| ConfigFile.CommentGlues | pyanaconda/simpleconfig.py:186-207 | there is such a file: a comment without a newline, given a key |
| ConfigFile.QuoteBeforeHash | pyanaconda/simpleconfig.py:33-66 | a value with a double quote before a # is not read back, under any good key |
| ConfigFile.LineLostIff | pyanaconda/simpleconfig.py:171-198 | a line that can be read is neither noted as a key nor kept when printing if and only if it has a key of which no character has an ASCII decomposition, and no empty key was set |
| ConfigFile.LineCanBeLost | pyanaconda/simpleconfig.py:171-176 | there is such a line for every character without an ASCII decomposition |
| Users.NameLanguage | pyanaconda/core/regexes.py:42-46 | the regular expression of names matches exactly the strings of 1 to 32 characters of the intended shape |
| Users.NameRegexImplied | pyanaconda/core/users.py:123-168 | for nonempty names the closing regular expression never changes the answer |
| Users.NameAccepted | pyanaconda/core/users.py:123-168 | the names accepted are exactly those that follow the rules; the empty name is rejected by the regular expression alone |
| Users.ProblemIsReal | pyanaconda/core/users.py:136-166 | every message tells the truth about the name; the one about a character names the first that is not portable |
| Users.ProblemIff | pyanaconda/core/users.py:136-166 | for nonempty names, exactly when each message is given |
| Users.PortableIff | pyanaconda/core/regexes.py:42-42 | the portable characters are the letters, the digits, dot, underscore and hyphen |
| Users.GroupListLanguage | pyanaconda/core/regexes.py:42-51 | the regular expression of group lists matches exactly the blank strings and those whose comma-separated parts are all names with whitespace around them |
| Users.GroupListAccepted | pyanaconda/core/users.py:88-110 | a nonempty list is accepted if and only if each comma-separated part, stripped, is a valid name; the closing regular expression never changes the answer |
| Users.FirstProblem | pyanaconda/core/users.py:88-110 | the message for a list is that of its first part that is not a valid name |
| DriverDisk.ReadIsAppended | dracut/driver_updates.py:247-261 | what is read from the file is what was given to append_line, if and only if it holds no newline and no carriage return |
| DriverDiskRuns.MoveKeepsInv | dracut/driver_updates.py:531-545 | every step keeps: only requests marked are finished, a process has read its own and a prefix of what is finished, and one that returned without raising the flag had read one in which something was missing |
| DriverDiskRuns.StepRefines | dracut/driver_updates.py:531-545 | each step over the files is the same step over the lines they hold, for requests with any characters |
| DriverDiskRuns.DoneOnlyWhenFinished | dracut/driver_updates.py:535-545 | in every interleaving the flag is raised only when every line to do was marked by a process for it |
| DriverDiskRuns.DoneWhenAllReturned | dracut/driver_updates.py:540-545 | once a process has returned for every line to do, the flag is up, whichever other processes are under way |
| DriverDiskRuns.DoneOnlyWhenMarked | dracut/driver_updates.py:535-545 | for requests without line breaks: the flag is raised only when every request to do was marked by a process for it |
| DriverDiskRuns.DoneWhenRequestsReturned | dracut/driver_updates.py:540-545 | for requests without line breaks: once a process has returned for every request to do, the flag is up |
| KernelArgs.KernelArguments.ReadWords | pyanaconda/core/kernel.py:108-134 | the loop over the words is the fold of the words into what is stored |
| KernelArgs.KernelArguments.ReadFiles | pyanaconda/core/kernel.py:63-86 | reading several files is reading all their words, one after another |
| KernelArgs.AddConcat | pyanaconda/core/kernel.py:108-134 | feeding word lists one after another equals feeding their concatenation |
| KernelArgs.ParseIff | pyanaconda/core/kernel.py:108-122 | a word is read as an argument if and only if it is spelled so: the prefix inst. if it is prefixed, a key without an equals sign, and the value behind the first equals sign if it has one |
| KernelArgs.KindIs | pyanaconda/core/constants.py:270-271 | which arguments are joined, and which are collected |
| KernelArgs.StoredAsExpected | pyanaconda/core/kernel.py:108-134 | for every key: appended keys hold the join of the nonempty values, or the last value if all are empty; listed keys hold the nonempty values and are absent without any; other keys hold the last value |
| KernelArgs.PrefixedIfGiven | pyanaconda/core/kernel.py:109-122 | a key counts as prefixed exactly if some word gave it with the prefix |
| KernelArgs.KeysInOrder | pyanaconda/core/kernel.py:108-134 | the arguments are in the order in which they first got something to store, without repetition |
| KernelArgs.RawRoundTrip | pyanaconda/core/kernel.py:172-183 | the raw items, spelled as words again, are read as the same arguments with the same prefixes |
| ImageNames.SpecIsSplit | pyanaconda/argument_parsing.py:284-285 | a specification is a path and a name around its last colon, or a path alone |
| ImageNames.RootShape | pyanaconda/argument_parsing.py:304-305 | the name taken from a path is what stands before its extension, and all of it exactly if it has none: nothing but dots stands before its last dot, or it has no dot |
| ImageNames.BaseNameShape | pyanaconda/argument_parsing.py:304-305 | the base name is what follows the last slash, or all of the path |
| ImageNames.UniqueName | pyanaconda/argument_parsing.py:307-309 | the name is free, is the first free one, is found within one more try than there are names seen, and if it is not the name itself, is that name, an underscore and a decimal number |
| ImageNames.Pigeonhole | pyanaconda/argument_parsing.py:307-309 | no more numbered names can be taken than there are names |
| ImageNames.NamePathPairs | pyanaconda/argument_parsing.py:284-312 | the names are pairwise distinct, the paths are pairwise distinct, each is what its own specification resolves to after those before it, and the generator ends early exactly with the first specification that does not |
| Locales.OverHundred | pyanaconda/localization.py:144-147 | a score over 100 means the same language, and nothing else |
| Locales.ScoreRefinesRank | pyanaconda/localization.py:155-189 | among codes of the same language the weighted sum orders by territory, then script and variant together, then encoding |
| Locales.FindBestLocaleMatch | pyanaconda/localization.py:111-152 | None exactly when the locale is not valid or no eligible code shares its language; otherwise the first eligible code that is maximal in that order |
| Devices.DeviceMatches | pyanaconda/core/storage.py:171-214 | the loops find the devices of all sub-specifications, each where it comes first |
| Devices.FoundIff | pyanaconda/core/storage.py:171-214 | found are exactly the devices that a sub-specification stands for, by the glob or by resolving it, and that are disks in disks-only mode |
| Devices.OneSpec | pyanaconda/core/storage.py:171-214 | for a specification without \|: the devices of the glob, in their order, and then the resolved one if it is not among them |
| Devices.NoDuplicates | pyanaconda/core/storage.py:171-214 | no device is found twice |
| Devices.LeftToRight | pyanaconda/core/storage.py:171-214 | the result for a\|b is the result for a followed by what b adds, for all a and b |
| Devices.DisksOnly | pyanaconda/core/storage.py:171-214 | the disks-only result is exactly the disks of the plain result, in the same order |

## Left out

Task trees:

- Task and TaskQueue are one class `Item` with a flag, as classes are not extended here; DBusTask is a task like others.
- InstallationTasks.Signal.Emit: connected functions are not called, as they are not objects here; the journal records
  every emission, and so what each function saw.
- Installation.RunInstallation: what the functions connected by run_installation log and report is computed from the
  journal, one emission after another, instead of by calling them; their counters are proved not to run out.
- No item is moved from one tree to another. The re-parenting branch is modelled in `SetParent`, but no result is stated
  about a tree from which an item was taken away.
- Taking items out of a queue (`__delitem__`, `pop`, `clear`) and replacing them: setting no parent reads signals of
  no object and raises.
- A nested item started on its own before its queue: runs start at the top.
- The `progress` ratio divides the total by the current number, so no bound follows from it.
- Functions connected to signals that raise.
- Time stamps, logging, status messages and translation.

Threads and the payload:

- `wait_all` is a sequence of waits for the names registered at its start; it, `any_errors`, `wait_for_error_threads`
  and the prefix numbering of thread names have no members of their own.
- The registry lock that `get` holds while it takes an error is not modelled in `ThreadErrors`: it only takes
  interleavings away. Callbacks of threads have no effect on the registry.
- Listeners that add listeners or restart the payload from inside a callback: the event lock is not reentrant.
- The error text of the payload manager, and what setting up a payload does: its outcomes are the `Answers`.

Configuration files:

- The Unicode tables behind `upper_ascii`: what a character decomposes to is the parameter `fold`. `EditRoundTrip` asks
  for keys that are printed as they are, once they are decomposed and in upper case.
- Printing without any quoting, and reading without unquoting: the round trip is stated for flags that do both.
- Temporary files, permissions and renaming when writing.

Other parts:

- Users: digits outside ASCII count as digits in `isdigit`; such names are rejected in any case, with another message.
  Reserved names come from the root directory's listing and are not modelled.
- Driver disks: everything but the protocol of the files; whether the flag's file exists is whether it has content.
- Kernel arguments: the repair of quotes and of spaces before splitting, and the globbing of file names.
- Device matching with a device tree.
- Netmask conversion, display setup, memory checks, geolocation, VNC, rescue and kickstart: plumbing, or small case
  tables that tests settle.
