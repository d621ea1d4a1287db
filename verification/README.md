# A verified model of MINIX message passing, scheduling, booting and command lookup

The project models four parts of MINIX 3.1.6 with its lottery and deadline schedulers, and
proves what they promise.  `dafny verify dfyconfig.toml` checks all of it.

**Message passing.**  `IpcState` and `IpcSteps` describe the kernel's rendezvous protocol as
a state machine: SEND, RECEIVE, SENDREC, NOTIFY, SENDNB, SENDA, kernel signals, delivery
and the death of a process, over the process table, the caller queues and the privilege
structures.  Two histories are kept beside the state, of messages accepted and of async
entries delivered; no operation reads them.  `IpcInv` states the invariants, the modules
from `IpcKeeps` to `IpcAsync` show that every operation keeps them, and `IpcRuns` draws the
conclusions for every run: no cycle of waiting processes, no missed rendezvous, exactly
once delivery, caller queues that hold exactly the blocked senders in order of arrival,
SENDREC all or nothing and answered by its partner, signals never stranded.  `IpcAnswers`,
`IpcTrapAnswers` and `IpcSenda` say what every call answers and what it leaves behind, in terms
of the state before it and the history of messages only: when a SEND is accepted, whose message
a RECEIVE takes, what a notification carries and what becomes of each entry of a SENDA table.
`IpcCarried` follows kernel signals over runs until they are delivered.  `IpcNotices` says which
processes can miss a notification.  `WaitGraph` holds the argument about cycles: a
graph of waits has no cycle if and only if it can be ranked.

**Scheduling.**  `SchedSpec` describes the sixteen run queues, the flags and the three
policies of `pick_proc` on values; `SchedInv` and `SchedRuns` prove that over any run a
process is queued exactly when it is runnable, that under the default policy nobody in a
better queue is ready when a process is picked or while one runs that can be preempted, and
exactly which steps keep that for the others; `SchedOrder` proves at which end of which queue a
process joins and whose turn comes before whose; `SchedPolicies` proves the odds of the lottery, the choice of EDF and where the
policies agree.

**The kernel as it runs.**  `Scheduler.RunQueues` and `Kernel.Kernel` are the imperative
forms: heads, tails and links threaded through the process table, flags set and cleared in
place, one method per kernel function, with the loops of the source.  Each method is
proved to take the state exactly where `SchedSpec` and `IpcSteps` say, and every kernel entry
keeps what the theorems about runs need: exact queues, marks on the current process only,
priority under the default policy, and a current process that nobody releases behind its
back.  `Links` has the facts about linked lists and `KernelState` relates the tables to
the state they stand for.

**Booting.**  `Loader` is the loop of `exec_image` with `get_segment` and `raw_clear`, in
32-bit arithmetic (`BootArith`); `Image` is the image builder and its inverse; `BootLayout`
puts the two together: the loader finds the programs that were packed and brings their text
and data to where their segments start and its own addresses point.  `TrackBuffer`, `CdReader` and `RawFs` are the three
caches in front of the disk, and `BootDisk` loads an image from a file behind two of them.

**Command lookup.**  `PathSearch` is the search of PATH, what PATH says about a name, and the
meaning of a cached entry,
`PathStrings` the character walks over PATH, `CommandTable` the hash chains, and `Shell` the
lookup with its invalidation.

## What turned out to be different

- A process can block on itself: neither SEND nor RECEIVE refuses the caller's own endpoint,
  and `deadlock` reports nothing.  `IpcSendRec.SysCallAcyclic` states that a trap leaves the
  waits free of cycles if and only if it does not do that, and `IpcSendRec.SelfServedIff` when
  a RECEIVE from oneself finds something instead; `IpcRuns.SelfReceiveAfterBoot` gives the
  case.
- After that the walk of `deadlock` need not end.  `IpcRuns.EndlessAfterBoot` reaches a call
  that does not return in two steps from boot; `IpcDeadlock.WalkEndsWithLoops` states when the
  walk ends, and `IpcRuns.WalkAfterSelfBlock` that after a process has blocked on itself it
  ends if and only if the chain does not lead there.
- A process that receives from ANY can be left waiting although a notification is pending: if
  another process shares its privilege structure, is notified and is not ready
  (`IpcNotices.NotifyMisses`, an if and only if).  From boot this can happen if and only if a
  shared structure allows RECEIVE (`IpcNotices.NoticesTakenIff`, with the run in
  `IpcNotices.NoticeMissed`).  The structure that user processes share allows SENDREC only
  (src/servers/rs/const.h:72), so that it does not happen as the system is configured.
- Clearing an endpoint strands a kernel signal if and only if the dying process uses the
  privilege structure of SYSTEM and signals are pending (`IpcSignals.ClearEndpointSignals`);
  `IpcNotices.SignalStranded` gives the run.  No other process can use that structure, since
  `get_priv` refuses a static one in use (src/kernel/system.c:262-264), so it takes PM to ask
  for the exit of SYSTEM itself, which `do_exit` does not refuse.
- Strict priority does not hold against VM, which starts in queue 2 and cannot be preempted
  (src/kernel/table.c:76, src/servers/rs/const.h:64), so that a process woken in a better
  queue, such as TTY, has to wait (`SchedRuns.VmIsNotPreempted`).  `SchedRuns.StepStrictIff`
  and `SchedRuns.StrictPriority` state exactly which steps and runs keep strict priority:
  `SchedRuns.WakeStrictIff` for waking a process, `SchedRuns.ReleaseStrictIff` for releasing
  the current one, `SchedRuns.RebalanceStrictIff` for balancing.  What holds of any processes
  is `SchedRuns.PriorityServed`: every better queue is empty while a process runs that can be
  preempted, and when any process is picked.
- Releasing the current process while a better one is ready would break even that
  (`SchedRuns.ReleaseBreaksStrict`).  No kernel entry does so: the methods of `Kernel.Kernel`
  are proved never to release it.
- The stack of a program is not held to the memory limit: a program of nothing but stack is
  loaded however large its stack (`Loader.ImageLoader.StackPassesLimit`).  A loaded program
  ends within the limit if and only if data, bss and stack fit in the whole clicks left behind
  its text (`Loader.EndFacts`, and as part of `Loader.ImageLoader.LoadProcess`).
- A program whose `a_total` is too small is overlapped by the next one (`Loader.OverlapWhen`
  says exactly when, `Loader.ImageLoader.OverlapLoaded` gives a program that is loaded).
- Sizes that overflow are not noticed: text and data of more than 2^31 bytes together are not
  read at all, and are refused or, if the program would start late enough, taken for a bss of
  almost 4 gigabytes (`Loader.ImageLoader.OversizeFate`).
- `r_vir2abs` reports a hole as 0 if and only if an indirect zone is missing or the block is
  the first of its zone (`RawFs.HoleIsZero`); `RawFs.HoleTakenForBlock` gives a hole that is
  taken for block 1 of the disk.
- The one-sector cache for CDs is wrong if and only if the last read of the CD failed after a
  good one and left something else in the buffer (`CdReader.TrustedIff`).  Then some sector
  comes out wrong (`CdReader.WrongSector`), and `CdReader.StaleRead` reads one.
- A shell function defined over a table entry that a `cd` has marked inherits the mark
  (`Shell.Lookup.Define`).  The next lookup then takes its definition for an index into PATH.
  It returns the function if and only if no builtin comes first and that happens to be the
  index of an entry it gets to (`PathSearch.AstrayIff`), and otherwise forgets it; what it
  enters instead may be wrong for good (`Shell.Lookup.FindCommand` says when).
  `Shell.FunctionLost` runs the sequence on any PATH, and `Shell.FunctionLostOnce` on one
  where no definition is found again.

## Model

| member | source | states |
|---|---|---|
| WaitGraph.AcyclicIffNoCycle | src/kernel/proc.c:509-571 | a graph of waits has no cyclic path if and only if its slots can be ranked so that every wait goes down |
| WaitGraph.BlockingClosesCycle | src/kernel/proc.c:544-566 | letting c wait for d keeps the graph acyclic if and only if the chain from d does not lead to c |
| IpcDeadlock.DeadlockExactForSend | src/kernel/proc.c:617-620 | where mini_send calls it, deadlock reports exactly the chains that lead back to the caller: its two-process exception never applies |
| IpcDeadlock.DeadlockExactForReceive | src/kernel/proc.c:763-766 | the same where mini_receive calls it |
| IpcDeadlock.BlockingIsSafe | src/kernel/proc.c:509-571 | blocking c on d keeps the waits acyclic if and only if c is not d and no chain leads back |
| IpcDeadlock.WalkEndsWithLoops | src/kernel/proc.c:527-568 | when nothing but processes that wait for themselves lies on a cycle, it does if and only if the chain leads to none of them |
| IpcKeeps.HandOverKeeps | src/kernel/proc.c:605-611 | handing a message to a waiting receiver keeps queues, rendezvous, order of arrival and the place of every message |
| IpcKeeps.BlockSenderKeeps | src/kernel/proc.c:622-636 | so does blocking the sender at the end of the destination's queue |
| IpcKeeps.TakeQueuedKeeps | src/kernel/proc.c:721-745 | so does taking a queued sender's message and releasing it |
| IpcKeeps.BlockReceiverKeeps | src/kernel/proc.c:759-770 | so does blocking a receiver that found nothing |
| IpcKeeps.CopyOutKeeps | src/kernel/arch/i386/memory.c:614-653 | so does copying a message out to its process |
| IpcKeeps.MiniNotifyKeeps | src/kernel/proc.c:781-829 | mini_notify keeps the invariants, whether it delivers or leaves a pending bit |
| IpcKeeps.CauseSigKeeps | src/kernel/system.c:342-373 | cause_sig keeps them |
| IpcCalls.TryAsyncKeeps | src/kernel/proc.c:1033-1061 | try_async keeps them, and changes nothing but async bookkeeping when it delivers nothing |
| IpcCalls.MiniReceiveKeeps | src/kernel/proc.c:644-776 | mini_receive keeps them, also as the second half of SENDREC |
| IpcCalls.MiniSendaKeeps | src/kernel/proc.c:854-1027 | mini_senda keeps them |
| IpcCalls.SysCallKeeps | src/kernel/proc.c:289-503 | every trap keeps them, as far as it comes back (IpcDeadlock.WalkEndsWithLoops says when the walk of deadlock does) |
| IpcDeath.ClearEndpointKeeps | src/kernel/system.c:460-546 | clearing an endpoint keeps them |
| IpcDeath.NobodyWaitsForDead | src/kernel/system.c:460-546 | afterwards nobody sends to or receives from the dead process, it is on no live queue, its bits and table are gone, and its waiters were released with ESRCDIED or EDSTDIED |
| IpcDeath.DeathSparesOthers | src/kernel/system.c:460-546 | nobody else is touched: neither processes that did not wait for it, nor other bits and tables, nor messages that are neither from nor to it |
| IpcHistory.MiniReceiveEvolves | src/kernel/proc.c:644-776 | a RECEIVE that returns with a message returns one that answers it, and leaves bystanders alone |
| IpcHistory.SendIsLogged | src/kernel/proc.c:576-639 | a successful mini_send accepts exactly one message, a failed one changes nothing |
| IpcTraps.SysCallEvolves | src/kernel/proc.c:289-503 | a trap moves accepted messages only forward and touches other processes only by answering what they wait for |
| IpcTraps.SendRecOutcome | src/kernel/proc.c:474-488 | SENDREC that returns OK has its reply or waits for its partner |
| IpcTraps.SendRecTrapEvolves | src/kernel/proc.c:474-488 | what completes a SENDREC comes from the partner and is neither a notification nor marked AMF_NOREPLY |
| IpcSendRec.SendRecAllOrNothing | src/kernel/proc.c:474-488 | once the send half of SENDREC succeeds the receive half cannot fail |
| IpcSendRec.SelfServedIff | src/kernel/proc.c:696-757 | a RECEIVE from oneself finds something if and only if the own bit is the lowest of its chunk or an undone entry to oneself is in the own table |
| IpcSendRec.AcyclicReturns | src/kernel/proc.c:527-568 | while no processes wait in a circle every call comes back from deadlock |
| IpcSendRec.SysCallAcyclic | src/kernel/proc.c:289-571 | a trap leaves the waits free of cycles if and only if it is not a blocking call on the caller itself |
| IpcAnswers.SendAnswers | src/kernel/proc.c:576-639 | a SEND is answered EDSTDIED, ENOTREADY, ELOCKED or OK, each if and only if: the destination is dead; does not wait for the caller and the call must not block; does not and the chain of waits leads back; or the buffer is readable and it waits or may be waited for; the message is then with the destination, released, or with the caller, last on its queue, and on an error nothing has changed |
| IpcAnswers.NotifyAnswers | src/kernel/proc.c:72-84 | a destination that waits for the source and for no reply gets the notification, with exactly its pending signals from SYSTEM, its pending interrupts from HARDWARE and nothing from others, and only that set is emptied; for any other exactly the bit of the source is set |
| IpcAnswers.BitPicked | src/kernel/proc.c:699-713 | a RECEIVE takes a bit if and only if one of an acceptable source is pending and lowest of its chunk, and then the lowest such |
| IpcAnswers.SenderPicked | src/kernel/proc.c:721-747 | it takes a sender if and only if an acceptable one is blocked sending to the caller, and then the one whose message was accepted first |
| IpcAnswers.ScanFindsFirst | src/kernel/proc.c:1091-1161 | the scan of a table finds an entry if and only if an undone one for the caller, not held back by an awaited reply, has no malformed one before it, and then the first such |
| IpcAnswers.AllTables | src/kernel/proc.c:1033-1061 | try_async delivers that entry out of the first table that has one, and nothing if and only if none has |
| IpcAnswers.TableLeft | src/kernel/proc.c:1091-1166 | a table in which nothing is found is retired if and only if an entry is malformed or all are empty or done, and counts as postponed if and only if an entry of it is for the caller |
| IpcAnswers.FlagLeft | src/kernel/proc.c:1033-1061 | after a search of all tables that finds nothing MF_ASYNMSG stays if and only if one of them holds an entry for the caller |
| IpcAnswers.ReceiveTakes | src/kernel/proc.c:696-757 | a RECEIVE has a message at once if and only if a bit, a sender or an entry is there: the notification first, then the oldest message, whose sender is released and a delayed stop of it reported, then the entry |
| IpcAnswers.ReceiveAnswers | src/kernel/proc.c:644-776 | a RECEIVE is answered EFAULT, ESRCDIED, ENOTREADY, ELOCKED or OK, each if and only if: the buffer is unmapped; the source is dead; nothing is there and the call must not block; nothing is and the chain of waits leads back; otherwise the caller has what is there, or is blocked on the source |
| IpcAnswers.OldestFirst | src/kernel/proc.c:721-747 | in terms of the history alone: a direct message that a RECEIVE returns was accepted before every other one still waiting for the caller from those sources, and no notification could be taken |
| IpcTrapAnswers.CheckAnswers | src/kernel/proc.c:366-455 | which calls sys_call lets through, and which error each other one gets |
| IpcTrapAnswers.SendRecAnswers | src/kernel/proc.c:471-488 | SENDREC is answered as its send is, its reply half adds no error, and its caller then awaits the reply or has it, with the message on record |
| IpcTrapAnswers.ReceiveTrapAnswers | src/kernel/proc.c:484-488 | RECEIVE awaits no reply, and is answered as mini_receive says |
| IpcTrapAnswers.FirstComeFirstServed | src/kernel/proc.c:721-747 | over any run, a direct message that RECEIVE from ANY returns was accepted before every other still waiting for the caller, and no notification was pending |
| IpcSenda.SendaAnswers | src/kernel/proc.c:901-1027 | SENDA is answered EINVAL if and only if an entry is malformed; each entry before the first such is refused for the reason that applies, delivered if it is the first its destination waits for, and left with its destination flagged otherwise; the table stays active if and only if all was scanned and something is left |
| IpcSenda.SendaRefused | src/kernel/proc.c:865-898 | what SENDA answers without a scan, and that the old table is dropped |
| IpcSignals.SysCallSignals | src/kernel/proc.c:289-503 | a trap never leaves pending kernel signals without the bit of SYSTEM |
| IpcSignals.CauseSigSignals | src/kernel/system.c:318-373 | nor do send_sig and cause_sig |
| IpcSignals.ClearEndpointSignals | src/kernel/system.c:513-520 | clear_endpoint does if and only if the dying process uses SYSTEM's structure and signals are pending |
| IpcCarried.SendSigReaches | src/kernel/system.c:318-337 | a signal given to send_sig is pending afterwards in the structure of the process, or the argument of a notification of SYSTEM delivered to it |
| IpcCarried.CauseSigReaches | src/kernel/system.c:342-373 | a signal given to cause_sig is pending for the process, and when it is the first, PM has been given the announcement or has it pending |
| IpcCarried.SysCallLossless | src/kernel/proc.c:289-503 | a trap loses no pending signal: each is still pending or was delivered in a notification of SYSTEM, and no message in delivery is overwritten |
| IpcCarried.SignalsAccountedFor | src/kernel/proc.c:79-82 | over any run a signal pending in a structure is still pending, or SYSTEM has delivered a notification that carries it |
| IpcCarried.PendingUntilTaken | src/kernel/system/do_getksig.c:29-39 | over any run a signal of a process stays with it until do_getksig takes it |
| IpcCarried.TakenIsAnnouncedAgain | src/kernel/system/do_getksig.c:29-39 | do_getksig takes all of them, so that the next signal is announced to PM again |
| IpcCarried.SignalReachesManager | src/kernel/system.c:342-373 | both together for every run that starts with cause_sig |
| IpcNotices.NotifyMisses | src/kernel/proc.c:781-829 | a notification leaves a receiver from ANY with a bit pending if and only if its destination is not ready and shares the structure of that receiver |
| IpcNotices.NoticesTaken | src/kernel/proc.c:699-713 | over any run nobody waits for ANY with a notification pending, if no shared structure allows RECEIVE |
| IpcNotices.NoticeMissed | src/kernel/proc.c:816-828 | if one does, a run of two steps from boot leaves somebody waiting so |
| IpcNotices.NoticesTakenIff | src/kernel/priv.h:106 | from boot it never happens if and only if no structure that allows RECEIVE is shared |
| IpcNotices.UsersMissNothing | src/servers/rs/const.h:72 | there is a kernel whose user processes share a structure, and it is safe exactly when they may not RECEIVE |
| IpcNotices.SignalStranded | src/kernel/system.c:513-520 | a signal and then the exit of SYSTEM leave a signal at PM without its bit |
| IpcAsync.ScanMeaning | src/kernel/proc.c:1091-1165 | the scan of a table finds the first entry it may deliver, and reports a table as finished exactly when every entry is empty or done |
| IpcAsync.MiniSendaAsync | src/kernel/proc.c:901-1027 | after SENDA every undone entry of an active table is announced at its destination |
| IpcAsync.SysCallAsync | src/kernel/proc.c:289-503 | every trap keeps the announcements, and delivers entries at most once and in order |
| IpcRuns.BootInv | src/kernel/main.c:72-110 | the invariants hold when nothing has happened yet |
| IpcRuns.BootPossible | src/kernel/main.c:48-110 | there is such a start, with processes that can trap and user processes that share a structure |
| IpcRuns.StepKeepsInv | src/kernel/proc.c:289-503 | a step, be it a trap, a notification, a signal, a delivery or a death, keeps all invariants together if and only if it is neither a process blocking on itself nor the death of one with the structure of SYSTEM while signals are pending |
| IpcRuns.StepAcyclic | src/kernel/proc.c:509-571 | a step keeps the waits acyclic if and only if it is not a process blocking on itself |
| IpcRuns.NoDeadlockEver | src/kernel/proc.c:509-571 | in every reachable state no processes wait for each other in a circle |
| IpcRuns.NoMissedRendezvous | src/kernel/proc.c:605-637 | in every reachable state no receiver waits for a sender that is blocked sending to it, and a receiver from ANY has an empty queue and, with a structure of its own, no pending notification |
| IpcRuns.CallerQueuesExact | src/kernel/proc.c:632-636 | the queue of a live process holds exactly the processes blocked sending to it, each once, in order of arrival, and no process is on two queues |
| IpcRuns.RunAdvances | src/kernel/proc.c:91-127 | over any run messages only move forward, the dead stay dead and the configuration stays |
| IpcRuns.ExactlyOnce | src/kernel/proc.c:91-127 | over any run an accepted message is held in exactly one place until it is copied out or withdrawn by a death, unchanged and with its sender's endpoint |
| IpcRuns.AsyncAtMostOnceInOrder | src/kernel/proc.c:854-1166 | over any run table entries are delivered at most once and in order, and MF_ASYNMSG stays set while an active table holds an undone entry |
| IpcRuns.SignalsNeverStranded | src/kernel/system.c:318-337 | over any run pending kernel signals are announced |
| IpcRuns.NobodyBlocksOnDead | src/kernel/system.c:460-546 | once an endpoint is cleared no run makes anybody wait for it |
| IpcRuns.ReplyComesFromPartner | src/kernel/proc.c:474-488 | from a SENDREC to the first state in which its caller no longer receives: it waits for its partner, and then has a reply of the partner, or is dead itself, or its partner is dead and it is told so |
| IpcRuns.SendRecTrap | src/kernel/proc.c:471-488 | SENDREC as a trap fails before anything was sent or not at all |
| IpcRuns.SelfBlockIsNotRefused | src/kernel/proc.c:527-568 | a blocking call on oneself is let through and leaves the caller waiting for itself |
| IpcRuns.SelfReceiveAfterBoot | src/kernel/proc.c:763-769 | it can happen right after boot: RECEIVE from one's own endpoint |
| IpcRuns.EndlessAfterBoot | src/kernel/proc.c:527-568 | from then on a SEND to that process does not come back |
| IpcRuns.WalkAfterSelfBlock | src/kernel/proc.c:527-568 | after a self-block the walk for another caller ends if and only if its chain does not lead there |
| SchedInv.EnqueueKeeps | src/kernel/proc.c:1203-1261 | enqueue, with the preemption it may cause, keeps the queues exact |
| SchedInv.RtsSetKeeps | src/kernel/proc.h:166-172 | RTS_SET keeps the queues exact |
| SchedInv.RtsUnsetKeeps | src/kernel/proc.h:175-185 | RTS_UNSET keeps the queues exact |
| SchedInv.PutBackKeeps | src/kernel/proc.c:182-189 | putting back a preempted process or one without quantum keeps them |
| SchedInv.TickKeeps | src/kernel/clock.c:258-298 | so does a clock tick |
| SchedInv.BalanceKeeps | src/kernel/proc.c:1551-1564 | so does balancing |
| SchedRuns.StepKeepsInv | src/kernel/proc.c:1203-1361 | every scheduler step keeps the queues exact and marks only the current process as preempted or out of quantum |
| SchedRuns.RunnableExactlyWhenQueued | src/kernel/proc.c:1203-1361 | over any run a process is on a queue, once, the one of its priority, if and only if it is runnable |
| SchedRuns.StrictPriority | src/kernel/proc.c:1246-1254 | over any run of the default policy, strict priority holds in every state if and only if every step is one that keeps it |
| SchedRuns.StepStrictIff | src/kernel/proc.c:1203-1361 | a step of the default policy keeps strict priority if and only if it meets a condition on the state before it |
| SchedRuns.PriorityServed | src/kernel/proc.c:1246-1254 | for any processes: over any run that leaves the current process its queue, every queue better than that of a running preemptible process is empty, and better than that of any process just picked |
| SchedRuns.WakeStrictIff | src/kernel/proc.c:1246-1254 | waking another process keeps strict priority if and only if nobody runs, the current process can be preempted, or the other gets no better queue |
| SchedRuns.VmIsNotPreempted | src/kernel/proc.c:1252-1254 | VM goes on running when TTY is woken in a better queue |
| SchedRuns.RebalanceStrictIff | src/kernel/proc.c:1536-1572 | balancing the whole table keeps strict priority if and only if nobody runs, somebody preempts the current process on the way, or its new queue is as good as any |
| SchedRuns.RebalancePreemptible | src/kernel/proc.c:1551-1564 | it always does for a current process that can be preempted and has no deadline |
| SchedRuns.ReleaseStrictIff | src/kernel/proc.h:175-185 | releasing the current process keeps strict priority if and only if no ready process is in a better queue than the one it gets |
| SchedRuns.ReleaseBreaksStrict | src/kernel/proc.h:175-185 | a state in which a preemptible process is released past a better one |
| SchedOrder.EnqueueJoins | src/kernel/proc.c:1227-1240 | with time left a process joins the front of its queue, without it the end of the next lower one with a new quantum, with a deadline queue 7; nobody else but the current process can be taken off a queue |
| SchedOrder.EnqueueOrder | src/kernel/proc.c:1232-1240 | who was in that queue comes after a process with time left and before one without |
| SchedOrder.PreemptedGoesFirst | src/kernel/proc.c:182-186 | a preempted process goes back to the head of the queue it ran from |
| SchedOrder.OutOfQuantumGoesLast | src/kernel/proc.c:187-189 | one whose quantum is used up goes to the end of the queue it joins |
| SchedOrder.StepOrder | src/kernel/proc.c:1203-1361 | under any policy a step changes the order of two waiting processes only by moving one of them to another place by do_nice, do_chdeadline or balancing |
| SchedOrder.QuantumTurn | src/kernel/proc.c:1366-1428 | round robin, over any run: a process whose quantum is used up, and that waits, is not picked again before everybody who was ready in the queue it joined has been picked or has left that queue |
| SchedOrder.NiceOvertakes | src/kernel/system/do_nice.c:43-45 | why it has to wait: do_nice on a process in its own queue puts it before the others there if and only if it has time left |
| SchedOrder.NiceInForce | src/kernel/system/do_nice.c:43-45 | the new limit is in force and the process is blocked if and only if it was |
| SchedOrder.DeadlineInForce | src/kernel/system/do_chdeadline.c:30-43 | the new deadline is in force, and a ready process with one is in queue 7 |
| SchedOrder.QuantumLasts | src/kernel/clock.c:258-298 | a process that starts with n ticks and pays for itself is stopped by the n-th clock tick and by none before |
| SchedOrder.TickExact | src/kernel/clock.c:256-298 | a tick is charged to the current process and to whoever pays for it and to nobody else, and the current process is stopped if and only if it runs, can be preempted and has no time left |
| SchedOrder.SwitchBills | src/kernel/proc.c:1424-1425 | who is picked pays from now on if it is billable |
| SchedOrder.PriorityRecovers | src/kernel/proc.c:1551-1564 | a process that lost priority gets it back one queue per round of balancing, up to its best and no further |
| SchedPolicies.LotsHold | src/kernel/proc.c:1451-1463 | tickets belong to ready processes, each once, 16 - q for one of queue q |
| SchedPolicies.LotteryOdds | src/kernel/proc.c:1465-1489 | of all draws a ready process of queue q wins exactly 16 - q |
| SchedPolicies.LotteryPicksReady | src/kernel/proc.c:1437-1491 | the lottery picks a ready process, and none exactly when there is none |
| SchedPolicies.EdfPicksEarliest | src/kernel/proc.c:1503-1528 | in queue 7 EDF picks the first process with the least positive deadline, or the head if none has one |
| SchedPolicies.PoliciesAgree | src/kernel/proc.c:1402-1530 | all policies are work-conserving, agree whenever one of queues 0 to 5 is not empty, and EDF uses the default policy's queue |
| Scheduler.RunQueues.constructor | src/kernel/main.c:44-60 | a table in which nobody is runnable has empty queues that are exact, and serves priority under the default policy |
| Scheduler.RunQueues.Dequeue | src/kernel/proc.c:1309-1361 | the walk and the unlinking take the process out of its list and keep heads, tails and links right |
| Scheduler.RunQueues.Enqueue | src/kernel/proc.c:1203-1261 | the linked lists end up as the specification says, with the current process preempted when it must be; SchedOrder.EnqueueJoins says which end of which queue that is |
| Scheduler.RunQueues.EnqueueHead | src/kernel/proc.c:1272-1304 | the process is put in front of its list |
| Scheduler.RunQueues.Sched | src/kernel/proc.c:1366-1397 | the new quantum, priority, queue and end to insert at |
| Scheduler.RunQueues.RtsSet | src/kernel/proc.h:166-172 | flags set, and off the queue if it was runnable |
| Scheduler.RunQueues.RtsUnset | src/kernel/proc.h:175-185 | flags cleared, and on a queue if it is runnable now |
| Scheduler.RunQueues.FirstHead | src/kernel/proc.c:1416-1428 | the head of the first queue that is not empty |
| Scheduler.RunQueues.CountTickets | src/kernel/proc.c:1451-1463 | the loop over the lists counts the tickets of all ready processes |
| Scheduler.RunQueues.DrawWinner | src/kernel/proc.c:1471-1488 | paying off the draw along the lists ends at its winner |
| Scheduler.RunQueues.EarliestDeadline | src/kernel/proc.c:1508-1519 | the scan of queue 7 |
| Scheduler.RunQueues.PickProc | src/kernel/proc.c:1402-1530 | pick_proc on linked lists picks what the specification picks, for each policy |
| Scheduler.RunQueues.PickNew | src/kernel/proc.c:181-201 | the current process is put back and the next one, or IDLE, becomes current; under the default policy nobody in a better queue is ready |
| Scheduler.RunQueues.Block | src/kernel/proc.h:166-172 | RTS_SET by the kernel keeps exact queues, marks and priority |
| Scheduler.RunQueues.Unblock | src/kernel/proc.h:175-185 | so does RTS_UNSET of any process, for a preemptible current one if no better one is ready |
| Scheduler.RunQueues.SetScheduler | src/kernel/proc.c:1651-1672 | any policy may be chosen at any time; priority is claimed from the next pick of the default one on |
| Scheduler.RunQueues.Tick | src/kernel/clock.c:221-301 | quantum accounting and RTS_NO_QUANTUM, with p_ticks_left as a signed char; SchedOrder.TickExact says who is charged and when the process is stopped |
| Scheduler.RunQueues.BalanceQueues | src/kernel/proc.c:1536-1572 | the whole process table is balanced, priority goes on being served exactly when balancing keeps it, and the next period is at least 100 ticks and what was added |
| Kernel.Kernel.constructor | src/kernel/main.c:44-110 | a booted kernel satisfies all invariants |
| Kernel.Kernel.Deadlock | src/kernel/proc.c:509-571 | for every graph on which the walk ends at all, it returns a group size if and only if the specification finds a deadlock; the size is where the chain first comes back |
| Kernel.Kernel.QueueMess | src/kernel/proc.c:91-127 | the message and its source are stored at the destination |
| Kernel.Kernel.MiniSend | src/kernel/proc.c:576-639 | mini_send on the tables and linked queues takes the state where its specification does, with every error case; IpcAnswers.SendAnswers says which answer and which state that is |
| Kernel.Kernel.AppendCaller | src/kernel/proc.c:632-636 | the walk to the end of the caller queue appends and leaves the other queues alone |
| Kernel.Kernel.FindNotification | src/kernel/proc.c:699-713 | the scan of the pending bits looks at the lowest bit of each chunk |
| Kernel.Kernel.FindCaller | src/kernel/proc.c:729-747 | the walk over the caller queue finds the sender the specification picks, which by IpcAnswers.SenderPicked is the acceptable one whose message was accepted first |
| Kernel.Kernel.TakeCaller | src/kernel/proc.c:739-745 | the sender's message is taken, a delayed signal reported, the sender released and unlinked |
| Kernel.Kernel.MiniReceive | src/kernel/proc.c:644-776 | mini_receive refines its specification; IpcAnswers.ReceiveAnswers says what that answers and takes |
| Kernel.Kernel.MiniNotify | src/kernel/proc.c:781-829 | so does mini_notify; IpcAnswers.NotifyAnswers says what is delivered or left pending |
| Kernel.Kernel.ScanEntries | src/kernel/proc.c:1091-1161 | the loop of try_one over a table |
| Kernel.Kernel.TryOne | src/kernel/proc.c:1066-1166 | so does try_one |
| Kernel.Kernel.TryAsync | src/kernel/proc.c:1033-1061 | so does try_async |
| Kernel.Kernel.MiniSenda | src/kernel/proc.c:854-1027 | so does mini_senda; IpcSenda.SendaAnswers says what becomes of each entry |
| Kernel.Kernel.SendSig | src/kernel/system.c:318-337 | the signal is noted and SYSTEM's notification sent |
| Kernel.Kernel.CauseSig | src/kernel/system.c:342-373 | the process is stopped and PM told, unless the signal or another one is already pending |
| Kernel.Kernel.SigDelayDone | src/kernel/system.c:378-389 | MF_SIG_DELAY is cleared and SIGNDELAY caused |
| Kernel.Kernel.Check | src/kernel/proc.c:366-455 | the checks of sys_call in their order; IpcTrapAnswers.CheckAnswers says which calls pass |
| Kernel.Kernel.SysCall | src/kernel/proc.c:289-503 | a trap of the current process goes where the specification says whenever it comes back, which it always does from a kernel without deadlock, and then leaves one in which all invariants hold if and only if it does not block on itself |
| Kernel.Kernel.ClearEndpoint | src/kernel/system.c:460-546 | the loop over the process table, the unlinking and the flags amount to the death of the process; all invariants hold afterwards exactly when no signal is stranded |
| Kernel.Kernel.Suspend | src/kernel/arch/i386/memory.c:582-609 | a process whose message cannot be copied out waits for VM, which is told once |
| Kernel.Kernel.SchedCheck | src/kernel/proc.c:161-284 | what gets the processor is runnable and has received its message, so that it may trap; under the default policy every better queue is empty if it was picked, or goes on and can be preempted; the CPU idles only when nobody is runnable |
| Kernel.Kernel.ClockTick | src/kernel/clock.c:221-301 | a tick keeps all invariants |
| Kernel.Kernel.BalanceQueues | src/kernel/proc.c:1536-1572 | so does balancing, and the next period is at least 100 ticks |
| BootArith.AlignIsRoundUp | src/boot/bootimage.c:127 | the align macro rounds up everything above minus one click, and is 2^32 too high below |
| Loader.RawClear | src/boot/bootimage.c:105-124 | doubling clears exactly the bytes asked for |
| Loader.SectorsOfProc | src/boot/bootimage.c:241-252 | loading a program reads as many sectors as proc_size passes over, up to sizes at which that overflows |
| Loader.ImageLoader.ReadUnits | src/boot/bootimage.c:362-376 | succeeds exactly when the sectors can be read and the last unit starts a click before the limit, and copies the image byte for byte |
| Loader.ImageLoader.GetSegment | src/boot/bootimage.c:356-384 | a segment takes its size rounded up to a click, the excess comes back as a negative size, and nothing at or above the limit changes |
| Loader.ImageLoader.ClearBss | src/boot/bootimage.c:569-579 | bss is clear up to the rounded end of data and bss, if that is within the limit; past 2^32 the check is fooled |
| Loader.ImageLoader.AddStack | src/boot/bootimage.c:581-587 | the end is that of data, bss and stack rounded up once, modulo 2^32 |
| Loader.ImageLoader.LoadProcess | src/boot/bootimage.c:515-590 | a program is loaded exactly when it can be, runs wild exactly when the end of its bss wraps around to below the limit, advances the image by proc_size, is placed as computed, ends within the limit exactly when data, bss and stack fit, and no byte at or above the limit changes |
| Loader.ImageLoader.NextProgram | src/boot/bootimage.c:475-486 | programs that are not selected are skipped; it fails exactly at a sector without a header |
| Loader.ImageLoader.ExecImage | src/boot/bootimage.c:461-604 | the headers read are those of the image one after the other, whatever is selected, and the programs selected lie one behind the other; it stops early only for a seventeenth program, a missing header, a program that cannot be loaded or one that passes 2^32; no byte outside the two memory blocks changes; and in the end every program is in memory, text, data and bss, if the blocks are apart and no program is overlapped by the next |
| Loader.SpansApart | src/boot/bootimage.c:569-604 | loading a program touches none of those before it |
| Loader.ImageLoader.ClickAligned | src/boot/bootimage.c:496-500 | every program starts and ends on a click boundary |
| Loader.OverlapWhen | src/boot/bootimage.c:581-590 | the next program starts inside this one exactly when a_total leaves out a whole click |
| Loader.EndFacts | src/boot/bootimage.c:581-590 | a program ends on a click boundary, and within the limit if and only if data, bss and stack fit in the whole clicks left |
| Loader.ImageLoader.StackPassesLimit | src/boot/bootimage.c:581-587 | for every limit a program with a stack past it is loaded |
| Loader.ImageLoader.OverlapLoaded | src/boot/bootimage.c:581-590 | a program that the next one overlaps is loaded |
| Loader.ImageLoader.OversizeFate | src/boot/bootimage.c:552-579 | common text and data past 2^31 bytes are not read; the program is refused unless it starts at least the missing bytes above 0 |
| Image.MakeImage | src/boot/installboot.c:195-266 | succeeds exactly for complete executables and writes header sector, text and data, padded |
| Image.StripIs | src/boot/installboot.c:226-229 | a stripped header has a_syms 0 and the symbol table flag off, and is otherwise the same bit for bit |
| Image.CopyExec | src/boot/installboot.c:174-193 | bytes are copied and padded to a sector, or the file ends too early |
| Image.ExtractExec | src/boot/installboot.c:268-282 | the bytes come back out of whole sectors |
| Image.ExtractImage | src/boot/installboot.c:284-334 | extraction yields the files in the image and ends with a remaining length of exactly 0 |
| Image.RoundTrip | src/boot/installboot.c:195-334 | extracting what was made gives each program's stripped header, text and data, byte for byte |
| BootLayout.PackedSize | src/boot/bootimage.c:241-252 | a file takes in the image what the loader passes over |
| BootLayout.HeadersOfImage | src/boot/bootimage.c:461-486 | a chain of headers that leads to the end of an image is that of the programs in it |
| BootLayout.ImageIsLaid | src/boot/installboot.c:195-266 | the image built from a list of files holds their programs one behind the other |
| BootLayout.LoadedIsStored | src/boot/bootimage.c:535-579 | a program in memory has its text and data where its segments start, and zeros right behind its data to the end of bss |
| BootLayout.AddressesPoint | src/boot/bootimage.c:526-550 | the cs, ds and data of a loaded program lead, past its unmapped page if it has one, to the text and data of its file |
| BootLayout.BootPacked | src/boot/bootimage.c:448-604 | run over a built image, the loader loads exactly the selected programs in their order, with the text and data that were packed |
| TrackBuffer.Reader.GetSector | src/boot/bootimage.c:276-326 | a call fails if and only if the sector cannot be located, or is not buffered and cannot be read with those behind it in its track; otherwise it returns the sector of the disk or a zero hole |
| BootDisk.FileVir2Sec | src/boot/bootimage.c:256-268 | a sector of a file is where the walk without caches says |
| BootDisk.Fetch | src/boot/bootimage.c:276-326 | without read errors get_sector returns the sector on the disk, whatever was read before |
| BootDisk.BootFile | src/boot/bootimage.c:448-604 | an image in a file, found through the zone walk and read sector by sector, is loaded as BootLayout.BootPacked says |
| CdReader.Cd.ReadSectors | src/boot/boot.c:128-160 | each CD sector that is not in the buffer is read once, it succeeds exactly when those reads do, and copies exactly the sectors asked for if the buffer was right or the first of them was not in it |
| CdReader.TrustedIff | src/boot/boot.c:141-151 | over the reads made so far, the buffer is right if and only if the last one succeeded, or none before it did, or it left the last good sector in the buffer |
| CdReader.WrongSector | src/boot/boot.c:141-152 | when it is wrong there is a sector that comes out wrong |
| CdReader.StaleRead | src/boot/boot.c:128-160 | read A, fail on B, read A again: success with the bytes that the failed read left |
| RawFs.FileSystem.RVir2Abs | src/boot/rawfs.c:220-287 | equals the walk without caches for every block within double indirect reach |
| RawFs.ZoneOfIs | src/boot/rawfs.c:241-283 | the zone of a block is the one at its place in the direct zones, then those the indirect zone lists, then those of each indirect zone that the double indirect one lists |
| RawFs.FileSystem.IndirectZone | src/boot/rawfs.c:248-272 | the indirect zone on the way to a block, through the cache, and the place in it |
| RawFs.HoleIsZero | src/boot/rawfs.c:242-246 | a hole is reported as 0 exactly when an indirect zone is missing or the block is the first of its zone |
| RawFs.HoleTakenForBlock | src/boot/rawfs.c:242-246 | with two blocks in a zone, block 1 of a hole is said to be block 1 of the disk |
| RawFs.DataIsNotHole | src/boot/rawfs.c:284-286 | a block of an existing zone is never reported as a hole |
| RawFs.FileSystem.Stat | src/boot/rawfs.c:107-177 | another file starts with both cache addresses at 0 |
| PathStrings.Padvance | src/commands/ash/exec.c:184-215 | the pointer walk yields the next entry of PATH, its option and where the rest starts |
| PathStrings.CompareWalk | src/commands/ash/exec.c:496-517 | the entries before firstchange are the same in both PATHs, and bltin is the first %builtin |
| PathStrings.BuiltinFromIs | src/commands/ash/exec.c:511-515 | with one option per entry the character scan finds the first %builtin entry |
| PathSearch.AgainIsSearch | src/commands/ash/exec.c:378-384 | not looking again at absolute entries makes no difference |
| PathSearch.ResolveSays | src/commands/ash/exec.c:342-420 | a search finds entry k if and only if that is the first without an option whose directory holds a regular file of that name and no builtin of that name comes first, and the builtin if and only if there is one and PATH has no %builtin or no file comes before the first |
| PathSearch.SplitIs | src/commands/ash/exec.c:184-215 | the entries of PATH are what stands between its colons |
| PathSearch.EntryParts | src/commands/ash/exec.c:194-209 | an entry is its directory and what follows the first percent sign |
| PathSearch.FoundIsCached | src/commands/ash/exec.c:413-419 | what a search found may be cached |
| PathSearch.MarkedIsCached | src/commands/ash/exec.c:465-478 | after a cd a marked entry is still right about what it vouches for |
| PathSearch.SurvivorIsCached | src/commands/ash/exec.c:518-523 | entries that survive a change of PATH are right about the new one |
| PathSearch.FunctionForgotten | src/commands/ash/exec.c:356-420 | the search for a function under a mark ends with it if and only if its definition, as a number, is the index of an entry that makes an absolute name and nothing before it stops the search |
| PathSearch.AstrayIff | src/commands/ash/exec.c:334-384 | the lookup of a function under a mark returns it if and only if, besides, no builtin comes first |
| CommandTable.Table.Lookup | src/commands/ash/exec.c:605-636 | the walk along the chain finds the entry and remembers its link |
| CommandTable.Table.Enter | src/commands/ash/exec.c:624-634 | one entry is added or overwritten, all others stay |
| CommandTable.Table.DeleteLast | src/commands/ash/exec.c:642-652 | the entry of the last lookup is removed, all others stay |
| CommandTable.Table.MarkAll | src/commands/ash/exec.c:465-478 | exactly the entries that depend on the directory are marked |
| CommandTable.Table.ClearFromEntry | src/commands/ash/exec.c:532-555 | exactly the stale entries are removed |
| Shell.Lookup.SearchPath | src/commands/ash/exec.c:356-420 | the loop over PATH |
| Shell.Lookup.FindCommand | src/commands/ash/exec.c:315-438 | finds what PATH says about a name, in the sense of PathSearch.ResolveSays, unless it has a slash or is a function, and keeps the table right; a function under a mark is looked up as its number says, and the table is right afterwards exactly when that is what PATH says, a function, or nothing |
| Shell.Lookup.ChangeDirectory | src/commands/ash/exec.c:465-478 | after a cd the table is still right |
| Shell.Lookup.ChangePath | src/commands/ash/exec.c:488-524 | after a change of PATH the table is right about the new one |
| Shell.Lookup.Define | src/commands/ash/exec.c:661-674 | the table stays right if and only if the entry was not marked |
| Shell.FunctionLost | src/commands/ash/exec.c:315-438 | a command is found, the directory changed, a function of that name defined, and the next lookup returns the function if and only if its number is the index of the right entry |
| Shell.FunctionLostOnce | src/commands/ash/exec.c:315-438 | with a relative PATH the function is lost whatever its definition |

## Left out

- Copying between address spaces, page tables, interrupt locking and profiling: the outcome
  of a copy is a parameter (mapped, readable, faulting).
- System call tracing (MF_SC_TRACE, MF_SC_DEFER, MF_SC_ACTIVE), load averages, and the timer
  queue library.
- Creating processes and granting privileges: the configuration of a run is fixed, so a slot
  is not reused after its process died.
- RTS_LOCK_SETFLAGS, which can make a process runnable without queueing it.
- A faulting copy of an async table in the middle of a scan: tables are readable.
- Async sends are not claimed to wake a receiver whose SENDREC is still blocked in its send
  half, and a receive from one specific source is not claimed to take every notification.
- IpcRuns.NoDeadlockEver: runs in which a process blocks on itself are excluded, since the
  kernel lets such a cycle arise; IpcRuns.StepAcyclic says exactly when.
- IpcRuns.NoMissedRendezvous: the half about notifications is for processes with a privilege
  structure of their own; IpcNotices.NoticesTakenIff says exactly when it holds for all.
- IpcAsync.SysCallAsync: a table is in its owner's memory; it is taken not to be rewritten
  while it is active.
- IpcRuns.AsyncAtMostOnceInOrder: the same; an owner that clears AMF_DONE in an active table
  gets the entry delivered again.
- Kernel.Kernel.MiniSenda: copy faults in the middle of a table are not modelled.
- SchedRuns.PriorityServed: runs in which the current process itself is released, given
  another queue or balanced with a deadline are covered only when no better process is ready.
- SchedOrder.QuantumTurn: the process is taken to stay in the queue it joined until it is
  picked; SchedOrder.NiceOvertakes and SchedOrder.EnqueueJoins say where it comes to stand when
  it is moved or blocks and wakes again.
- SchedOrder.TickExact: for counts of ticks from -126 on, so that no signed char wraps around.
- SchedOrder.NiceInForce: the scaling of nice values to queues is not modelled.
- Scheduler.RunQueues.Tick: virtual and profile timers of the same handler are left out.
- Scheduler.RunQueues.Unblock: while priority is served, a preemptible current process is
  released only when no better one is ready.
- Kernel.Kernel.SchedCheck: idling returns to the caller instead of waiting for an interrupt.
- Loader.ImageLoader.ExecImage: sizes in a header are not negative, memory ends 128 kilobytes
  below 2^32, and the run is not followed past a program that ends above 2^32; the table of
  headers kept for the kernel, the patching of sizes, the check of the processor and the
  reading of the click size are not modelled.
- BootLayout.BootPacked: files whose text and data overflow the arithmetic of proc_size are
  excluded.
- BootDisk.BootFile: the disk has no read errors, a block is made of whole sectors, and the
  sectors behind the image in its last block hold no header.
- CdReader.Cd.ReadSectors: the sectors of the CD do not change; whether a read fails may.
- Image.MakeImage: header lengths outside 32 to 48 and negative sizes, which the source does
  not check; names are taken as they are after basename.
- Image.ExtractImage: a header length above 48 is treated as an error.
- TrackBuffer.Reader.GetSector: sector numbers near 2^32 are excluded.
- RawFs.FileSystem.RVir2Abs: reading blocks and decoding V1 and V2 inodes are parameters.
- Shell.Lookup.FindCommand: %func directories, more than one option per PATH entry, error
  messages and permissions are not modelled; PATH is the one of the shell.
- The generated parts of ash, the boot monitor's user interface and device handling, file
  systems other than the zone walk, and all servers and drivers.
