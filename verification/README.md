# SimPype core in Dafny

SimPype is a discrete-event simulator of queueing networks built on SimPy. In a
simulation, *messages* are stamped out by *generators* and flow along a
*pipeline* graph of *resources*. Each resource is fed by a *pipe* that holds one
or more *queues* and decides, through a pluggable discipline, which message is
served next. This project models the state-transition logic around SimPy's
scheduler. Each function below is one synchronous step of the Python code:

- **the piecewise time table** (`Random`);
- **the pipeline graph** (`add_pipe`, `merge_pipe`);
- **message routing and subscriptions** (`next`, `visited`, `copy`, `done`,
  `drop`, `subscribe`, `unsubscribe`);
- **queues, pipes and resources** (FIFO push/pop, the `active` and `available`
  flags, `full()`, the table of tasks, `free()`, `send`, routing after service);
- **the generator's emission schedule**;
- **the topology builder** of `Simulation`;
- **the example dispatch disciplines**: strict priority, priority with
  preemption and restart-less resume, round robin, and weighted fair queueing
  over token buckets.

How the Python is rendered:

- Every SimPy event becomes a boolean "triggered" flag.
- Every process step becomes a function call.
- Simulated time is a `real`, with an explicit `+inf` (`Base.Time`).
- Random draws are parameters.
- Python exceptions and failing `assert`s become `Err` results of
  `Base.Result`. `Base.Error` names each failure: `KeyError`, a failing
  `assert`, SimPy's double trigger, `NameError`, and so on.
- Objects are values. A message is identified by its contents, and a resource
  by its id.

There is one module per source file:

| module | file | source |
|---|---|---|
| `Base` | base.dfy | shared vocabulary |
| `RandomSteps` | random_steps.dfy | `simpype/random.py` |
| `Pipelines` | pipeline.dfy | `simpype/pipeline.py` |
| `Messages` | message.dfy | `simpype/message.py` |
| `Queues` | queue.dfy | `simpype/queue.py`, `simpype/model/queue.py` |
| `Pipes` | pipe.dfy | `simpype/pipe.py`, `simpype/model/pipe.py` |
| `Resources` | resource.dfy | `simpype/resource.py` |
| `Generators` | generator.dfy | `simpype/model/generator.py` |
| `Simulations` | simulation.dfy | `simpype/simulation.py` |
| `StrictPriority` | p_priority.dfy | `examples/model/p_priority.py` |
| `Preemption` | p_preemption.dfy | `examples/model/p_preemption.py` |
| `PreemptiveService` | r_preemption.dfy | `examples/model/r_preemption.py` |
| `RoundRobins` | p_roundrobin.dfy | `examples/model/p_roundrobin.py` |
| `WeightedFair` | p_wfq.dfy | `examples/model/p_wfq.py` |

Where the documented design and the code disagree, the model follows the code:

- **Preemption, where the victim's message goes.** It is pushed at the tail of
  the 'preempted' queue, not at its front.
- **Preemption, when it happens.** It is triggered by any admitted message
  while the express queue is non-empty, not only by an express message.
- **Interrupted service.** It still routes the message (`send` or `done`) once
  its task is deleted. The message is not left to the discipline.
- **Merging.** `merge_pipe` orders each list by argument order, so merging
  `{A→B}` and `{A→C}` in the two orders gives `[B, C]` and `[C, B]`. Only the
  set of elements agrees.
- **The token bucket's lazy refill.** It rounds up (`math.ceil`) before
  capping.
- **Generator templates.** They are rebound on every `add_pipeline` and
  `merge_pipeline`, not once before the run.

## Model

| member | source | states |
|---|---|---|
| Base.Ceil | examples/model/p_wfq.py:19 | `math.ceil`: the least whole number not below its argument |
| RandomSteps.WithZero | simpype/random.py:108-109 | the table gains breakpoint 0, with a skip producer when it had none; every user entry is kept and nothing else is added |
| RandomSteps.Sort | simpype/random.py:111 | `sorted` returns a permutation of the table |
| RandomSteps.SortAscending | simpype/random.py:111 | with distinct breakpoints the sorted table is strictly increasing |
| RandomSteps.SortAscendingIdentity | simpype/random.py:111 | sorting a table already in order leaves it unchanged |
| RandomSteps.Table | simpype/random.py:108-111 | the completed table always has at least two windows and ends with the skip sentinel at +inf |
| RandomSteps.TableClosed | simpype/random.py:108-111 | every window before the sentinel is finite, the breakpoints strictly increase, and the table starts at the least breakpoint |
| RandomSteps.BuildFromWindows | simpype/random.py:114-151 | step k covers `[t_k, t_{k+1})`; a value window carries its own producer; a skip window before a value window yields the constant `(t_{k+1} - t_k) + b`; a skip window before the sentinel yields the skip producer up to +inf |
| RandomSteps.StepsFollowWindows | simpype/random.py:114-151 | steps that follow the windows are contiguous (each `tto` is the next `tfrom`), end at +inf and start at the first breakpoint |
| RandomSteps.Build | simpype/random.py:98-151 | the constructed step list is contiguous, never empty, ends at +inf, has one step per window, starts at the least breakpoint (at 0 when no breakpoint is negative), and the shared `wait` holds the last deferred value |
| RandomSteps.ZeroFirst | simpype/random.py:108-111 | with no negative breakpoint the first step starts at 0 |
| RandomSteps.LastDeferredIsLast | simpype/random.py:131-133 | the shared closure variable ends as the value of the last skip-then-value step, and is unset exactly when there is none |
| RandomSteps.Discard | simpype/random.py:161-162 | exactly the leading expired steps (`tto <= now`) are dropped, the rest is a suffix that still ends at +inf and stays contiguous, and its head has not expired |
| RandomSteps.DiscardMonotonic | simpype/random.py:161-162 | dropped steps never come back: reading at `now1` and then at a later `now2` leaves what reading at `now2` alone leaves |
| RandomSteps.Value | simpype/random.py:161-163 | the value read at `now` is the producer of the step with `tfrom <= now < tto`, each absorbed window reading its own closure value |
| RandomSteps.ValueAsWritten | simpype/random.py:131-137 | as written, every absorbed window returns the one shared `wait`; other steps return their own producer |
| RandomSteps.SingleDeferredAgrees | simpype/random.py:131-137 | with at most one skip-then-value step, the code as written reads the intended value |
| RandomSteps.SingleDeferredReading | simpype/random.py:131-137 | on the process alone: a single deferred step owns the shared `wait` |
| RandomSteps.TwoGapReading | simpype/random.py:131-137 | for any table skip, value, skip, value, reading inside the first gap should give the first gap's wait but gives the last one's |
| RandomSteps.SharedClosureCounterexample | simpype/random.py:131-137 | table {0: skip, 10: 1.0, 20: skip, 30: 2.0} read at 5 should give 11.0 and gives 12.0 |
| RandomSteps.ThreeValuesEarly | simpype/random.py:125-130 | three value windows from 0: any reading before the second breakpoint returns the first producer |
| RandomSteps.DocExampleReadings | simpype/random.py:19-62 | the docstring's first table (3.0 from t=0, a uniform sample from t=10, an exponential one from t=20) reads 3.0 at t=5, the uniform sample at t=15 and the exponential one at t=25 |
| RandomSteps.SetItem | simpype/random.py:184-188 | a `Random` is stored as given, a raw table is first built into a contiguous process ending at +inf, and other keys are untouched |
| Pipelines.NewPipeline | simpype/pipeline.py:34-41 | a new pipeline has no edges and neither first nor last resource |
| Pipelines.AddPipe | simpype/pipeline.py:43-76 | fails exactly when the source is a pipeline with no `last`; otherwise the destination's entry is appended to the source's exit list, every list keeps its old contents as a prefix, `first` is set only if unset, and `last` becomes the destination's exit |
| Pipelines.AddPipeTwice | simpype/pipeline.py:62-65 | the same resource edge added twice is stored twice |
| Pipelines.AddPipes | simpype/pipeline.py:73-76 | after a chain of `add_pipe` calls, a set `first` is unchanged and `last` is the final destination's exit |
| Pipelines.FirstSetOnce | simpype/pipeline.py:73-74 | starting unset, `first` ends as the entry of the first source that has one |
| Pipelines.Fresh | simpype/pipeline.py:90 | the appended elements are exactly those not yet present, each once |
| Pipelines.FreshOrder | simpype/pipeline.py:90 | the appended elements keep the order in which they first occur |
| Pipelines.MergeList | simpype/pipeline.py:88-90 | a merged list keeps the old list as its prefix and appends exactly the new elements not already in it, each once |
| Pipelines.Merge | simpype/pipeline.py:86-90 | every key of the merged pipeline becomes a key, keys absent from it keep their lists, and the id, first and last are kept |
| Pipelines.MergeKeepsPrefix | simpype/pipeline.py:90 | for every key, the list before a merge is a prefix of the list after it |
| Pipelines.MergeIdempotent | simpype/pipeline.py:90 | merging the same pipeline twice is merging it once |
| Pipelines.MergeElems | simpype/pipeline.py:90 | after a merge a key holds the union of its old and merged elements |
| Pipelines.MergeOrderElems | simpype/pipeline.py:90 | merging two pipelines in either order gives every key the same set of elements |
| Pipelines.MergeOrderExample | simpype/pipeline.py:90 | merging {A→B} and {A→C} into an empty pipeline gives [B, C] in one order and [C, B] in the other |
| Messages.HopsOf | simpype/message.py:315 | the dictionary built from an adjacency list fails on an entry from an empty pipeline's `first`; otherwise it holds each listed resource once, keyed by its id, in order of first listing |
| Messages.DeriveNext | simpype/message.py:312-317 | `next` is the current resource's adjacency in the message's pipeline, or empty when the resource has none |
| Messages.SetNext | simpype/message.py:263-271 | assigning a resource gives the one hop to it, a pipeline the one hop to its `first` (failing when unset), and a dictionary is stored unchanged; nothing else changes |
| Messages.SetResource | simpype/message.py:299-305 | assigning a resource appends exactly it to `visited` and leaves `next` derived from the pipeline |
| Messages.SetPipeline | simpype/message.py:283-288 | assigning a pipeline stores it and leaves `next` derived from it |
| Messages.NewMessage | simpype/message.py:235-252 | a new message is alive at its generator, has visited only it, and has an empty private pipeline and so no hops |
| Messages.Unsubscribe | simpype/message.py:414-423 | fails on an unknown id or an already disabled subscription; otherwise disables exactly that subscription |
| Messages.Subscribe | simpype/message.py:377-399 | an existing subscription under the id is disabled first (failing if already disabled); afterwards exactly one live entry is under the id and the others are unchanged |
| Messages.Done | simpype/message.py:351-357 | the message dies, loses its hops and has every subscription disabled; it fails exactly when one was already disabled |
| Messages.DoneTwice | simpype/message.py:351-357 | finalising twice succeeds exactly for a message without subscriptions |
| Messages.Settle | simpype/message.py:319-325 | once a subscription's event or `disable` has fired, whatever entry is under its id is deleted and every other entry is kept |
| Messages.UnsubscribeThenSettle | simpype/message.py:319-325 | an unsubscribed entry makes `done()` and a new subscription under its id fail until its wait settles; afterwards both succeed and only that entry is gone |
| Messages.SubscribeRoundTrip | simpype/message.py:319-325 | subscribing under a fresh id, unsubscribing and settling gives back the message unchanged |
| Messages.Drop | simpype/message.py:359-375 | without an event the message is finalised and its location notified at once; with one, a `_drop` subscription is armed under the id |
| Messages.Copy | simpype/message.py:327-349 | the copy keeps id, generator, number, creation time, history, liveness, position, pipeline and properties; its `next` is re-derived from the pipeline and every subscription is re-armed |
| Messages.CopyNext | simpype/message.py:342-343 | a copy keeps the hops exactly when they agree with the pipeline, so a hand-set `next` is lost |
| Messages.CopyOfCopy | simpype/message.py:327-349 | copying a copy changes nothing further |
| Queues.NewQueue | simpype/queue.py:156-159 | a new queue is empty, unbounded and active |
| Queues.Disable | simpype/queue.py:183-185 | `disable` clears `active` and nothing else |
| Queues.RemoveFirst | simpype/queue.py:173-174 | the first occurrence of the message leaves the buffer, and nothing else does |
| Queues.QueueMessageDropped | simpype/queue.py:170-175 | fails unless the message is located at this queue; a buffered message is removed, and otherwise the queue is unchanged |
| Queues.FifoPush | simpype/model/queue.py:11-16 | below capacity the message is appended and returned; at capacity the buffer is unchanged, the message is finalised with cause 'full' and `None` is returned; the buffer stays within capacity |
| Queues.FifoPop | simpype/model/queue.py:20-23 | a non-empty buffer loses and returns its head; an empty one returns `None` and is unchanged |
| Queues.Drain | simpype/model/queue.py:20-21 | popping `n` times returns the first `n` buffered messages in order |
| Queues.PushAllAppends | simpype/model/queue.py:11-13 | admitted messages join the buffer in the order they were pushed |
| Queues.Fifo | simpype/model/queue.py:11-23 | first in, first out: draining an initially empty queue returns exactly the admitted messages in push order |
| Queues.UnboundedAdmitsAll | simpype/model/queue.py:11-13 | with the default infinite capacity every pushed message is admitted |
| Queues.PushAllWithinCapacity | simpype/model/queue.py:11-16 | a buffer within its capacity stays within it whatever is pushed |
| Pipes.NewPipe | simpype/pipe.py:153-161 | a new pipe has no queues and `available` untriggered |
| Pipes.AddQueue | simpype/pipe.py:188-203 | a fresh queue is registered under the id, replacing an existing one in place or appended otherwise; other queues are unchanged |
| Pipes.PipeWithFresh | simpype/pipe.py:201-203 | a constructor adding distinct ids gets exactly one fresh queue per id, in order |
| Pipes.ActiveLoadZero | simpype/pipe.py:212 | the active load is zero exactly when every active queue is empty |
| Pipes.DisableRemovesLoad | simpype/pipe.py:212 | a disabled queue's messages no longer count towards `full()` |
| Pipes.Full | simpype/pipe.py:205-216 | `full()` triggers `available` and answers true exactly when it was untriggered and an active queue holds a message; it never clears the flag |
| Pipes.EnterPipe | simpype/pipe.py:16-17 | the enqueue wrapper locates the message at the pipe and makes its resource the pipe's, recording the visit |
| Pipes.QueuePush | simpype/queue.py:10-18 | fails for an unregistered queue; otherwise the message is located at the queue, the discipline's result is returned, only that queue changes, and `full()` is consulted exactly when an active queue admitted it |
| Pipes.QueuePop | simpype/queue.py:20-26 | the pop wrapper returns what the discipline's pop returns, and only that queue changes |
| Pipes.EnableQueue | simpype/queue.py:177-181 | `enable` sets `active` and always consults `full()` |
| Pipes.DisableQueue | simpype/queue.py:183-185 | `disable` on a registered queue clears its flag and changes nothing else |
| Pipes.DefaultPipe | simpype/model/pipe.py:5-7 | the default pipe owns exactly one queue, 'default' |
| Pipes.DefaultEnqueue | simpype/model/pipe.py:13-15 | the default `enqueue` enters the pipe, pushes onto 'default' and consults `full()` |
| Pipes.DefaultDequeue | simpype/model/pipe.py:9-11 | the default `dequeue` pops 'default' and returns its head, or `None` when it is empty |
| Pipes.DefaultPipeDelivers | simpype/model/pipe.py:9-15 | a message enqueued into a new default pipe is admitted, marks the pipe available, and is the next one dequeued |
| Pipes.Wake | simpype/pipe.py:172-175 | after waking, the free flag is cleared exactly when the next service fills the last slot; a consistent state stays consistent |
| Pipes.Finish | simpype/pipe.py:183-185 | after a service ends, the flag is set again when a slot is free; a consistent state stays consistent |
| Pipes.RunStaysWithinCapacity | simpype/pipe.py:171-185 | over any run of wake-ups and service ends, the number in service never exceeds the capacity |
| Resources.KeyOf | simpype/resource.py:138 | the corrected task key, the message's id and number as a pair; the string key as written is the one in `Resources.TaskIdCollision` |
| Resources.KeyOfInjective | simpype/resource.py:138 | two task keys are equal exactly when the message ids and numbers are |
| Resources.TaskIdCollision | simpype/resource.py:138 | the string id as written merges message 'gen1' #2 and 'gen' #12 into one task, while pair keys keep two |
| Resources.Upsert | simpype/resource.py:218-221 | storing a task replaces the one under its key in place, or appends it; keys stay distinct and other tasks are unchanged |
| Resources.AddTask | simpype/resource.py:218-221 | `add_task` stores the message's task, started now and not interrupted, under its key; only that entry changes |
| Resources.AddTaskAppends | simpype/resource.py:218-221 | a message without a task gets its task appended at the end |
| Resources.Remove | simpype/resource.py:225 | removing a key drops exactly whichever task is stored under it |
| Resources.DelTask | simpype/resource.py:223-225 | `del_task` fails when the key is absent; otherwise it removes exactly that task |
| Resources.RemoveAppended | simpype/resource.py:223-225 | deleting a task just appended restores the table |
| Resources.Interrupt | simpype/resource.py:146-148 | an interrupt records the current time, never before its task started |
| Resources.InterruptTask | simpype/resource.py:146-148 | only the entry under the key is interrupted |
| Resources.NewResource | simpype/resource.py:181-190 | a new resource has no tasks, `available` triggered and the default pipe |
| Resources.Free | simpype/resource.py:210-216 | a triggered flag is cleared exactly when one more task would reach the capacity; an untriggered one is triggered exactly when there is room |
| Resources.FreeIsTheCountingRule | simpype/resource.py:210-216 | `free()` is the pipe's wake-up rule when the flag is set and its end-of-service rule when clear, so it keeps the state consistent |
| Resources.ResourceMessageDropped | simpype/resource.py:203-208 | fails unless the message is at this resource with a task; exactly that task is interrupted |
| Resources.Send | simpype/resource.py:235-239 | one delivery per hop in hop order; the last hop gets the message itself and every other a copy; no hops, no deliveries |
| Resources.AfterService | simpype/resource.py:56-59 | after service a message with hops is sent on, and otherwise finalised |
| Resources.ServiceTasks | simpype/resource.py:44-52 | for a message without a task, the bookkeeping of a service, interrupted or not, always succeeds and leaves the resource's tasks as they were |
| Resources.ServiceTasksRestore | simpype/resource.py:45-52 | for a message without a task, adding, possibly interrupting, and deleting its task restores the table |
| Resources.Serve | simpype/resource.py:40-59 | a served message is located at the resource and routed after service whether or not it was interrupted; for a message without a task the resource's tasks are restored |
| Generators.NewGenerator | simpype/model/generator.py:9-17 | a new generator is a default resource whose template is never alive, with nothing sent and no limit |
| Generators.Refresh | simpype/message.py:104-111 | a timed property takes the new draw; a static one keeps its value |
| Generators.RefreshAll | simpype/model/generator.py:24-25 | every property is refreshed and no property is added or lost |
| Generators.GenMessage | simpype/model/generator.py:20-29 | the generated copy is numbered by the counter, stamped now, alive, has refreshed properties, and has a live 'lifetime' drop subscription on a timeout of its lifetime when it has one |
| Generators.Emit | simpype/model/generator.py:35-36 | one message per hop of the template, each numbered by the counter, stamped now and alive |
| Generators.Chain | simpype/model/generator.py:31-38 | consecutive messages are numbered consecutively and lie one arrival draw apart, never beyond `to_send`; the schedule stops only at the limit, an infinite draw, or the end of the supplied draws |
| Generators.Emissions | simpype/model/generator.py:31-38 | nothing is emitted when `to_send` is 0 or the initial delay infinite; otherwise message 0 leaves after the initial delay and messages are numbered 0, 1, 2, … up to `to_send` |
| Generators.EmissionsExactly | simpype/model/generator.py:32 | with finite draws enough for them, exactly `to_send` messages are emitted |
| Generators.DefaultsEmitOnce | simpype/model/generator.py:16-17 | the default initial delay 0 and arrival +inf emit one message, number 0, at the start |
| Simulations.NewSimulation | simpype/simulation.py:291-296 | the empty registries are consistent |
| Simulations.AddGenerator | simpype/simulation.py:317-335 | fails when the id is in either registry; otherwise the generator is entered in both and nothing else changes |
| Simulations.AddResource | simpype/simulation.py:358-378 | fails when the id is registered; otherwise only that resource is added |
| Simulations.UpdateMessages | simpype/simulation.py:311-315 | exactly the generators that are keys of the new pipeline have their template moved onto it; the others are untouched |
| Simulations.Links | simpype/simulation.py:351-352 | a chain of n nodes gives its n - 1 consecutive pairs |
| Simulations.Register | simpype/simulation.py:354-355 | a new pipeline is appended to the registry after the templates are rebound |
| Simulations.AddPipeline | simpype/simulation.py:337-356 | fails for fewer than two nodes; otherwise a pipeline numbered after the registered ones is built by one `add_pipe` per consecutive pair and registered, earlier pipelines untouched |
| Simulations.AddPipesKeepsId | simpype/simulation.py:349-353 | chaining never renames the pipeline being built |
| Simulations.MergeAll | simpype/simulation.py:394-395 | merging a list of pipelines collects all their keys and keeps the id, first and last |
| Simulations.MergePipeline | simpype/simulation.py:380-398 | fails for fewer than two pipelines; otherwise they are merged in argument order into a fresh pipeline numbered after the registered ones |
| Simulations.MergedPipeline | simpype/simulation.py:391-397 | a merged pipeline's keys are exactly its parts' keys, and it has neither first nor last resource |
| StrictPriority.FirstBusy | examples/model/p_priority.py:13-18 | the first class, in service order, whose queue holds a message |
| StrictPriority.StrictPop | examples/model/p_priority.py:12-19 | the first non-empty class is popped; with all empty the last class is popped, yielding `None` |
| StrictPriority.StrictPopServesFirstBusy | examples/model/p_priority.py:12-19 | the head of the first non-empty class is returned, only that queue changes, and nothing is returned exactly when all classes are empty |
| StrictPriority.PriorityPipe | examples/model/p_priority.py:7-9 | the pipe has exactly the queues express, fast and slow |
| StrictPriority.Route | examples/model/p_priority.py:23-30 | 'first' goes express, 'business' fast, everything else slow |
| StrictPriority.Admit | examples/model/p_priority.py:21-31 | the message joins the tail of its class while that queue has room, and is otherwise dropped with the pipe unchanged; the other classes are untouched |
| StrictPriority.Enqueue | simpype/pipe.py:13-23 | under the enqueue wrapper the message first enters the pipe (failing as its resource setter fails), then `Admit` runs, then `full()`, so an active queue holding a message leaves the pipe available |
| StrictPriority.Dequeue | examples/model/p_priority.py:11-19 | express before fast before slow: the head of the first non-empty class, or `None` |
| StrictPriority.ExpressFirst | examples/model/p_priority.py:13-14 | a waiting express message is always served before any other |
| StrictPriority.FirstClassOvertakes | examples/model/p_priority.py:12-31 | a 'first' message entering an empty pipe is the next one out, and the pipe is available |
| Preemption.PreemptionPipe | examples/model/p_preemption.py:7-10 | the pipe has exactly the queues preempted, express, fast and slow |
| Preemption.PreemptedSecond | examples/model/p_preemption.py:14-21 | express is served first, then preempted work, before fast and slow |
| Preemption.WithPriority | examples/model/p_preemption.py:25-26 | a missing priority becomes 2, and a present one is kept |
| Preemption.Route | examples/model/p_preemption.py:28-35 | priority 0 goes express, 1 fast, and anything else slow |
| Preemption.Victim | examples/model/p_preemption.py:38-40 | the victim is the first running non-express task with the largest priority value, or none when there is no such task |
| Preemption.Resume | examples/model/p_preemption.py:42 | the owed wait drops by the service received between the start and the interruption; no other property changes |
| Preemption.PreemptVictim | examples/model/p_preemption.py:37-43 | fails when a running task has no priority; no victim, nothing changes; otherwise only the victim is interrupted now, and its wait is reduced by the service it received |
| Preemption.PreemptVictimQueues | examples/model/p_preemption.py:41-43 | preemption touches no queue but 'preempted', and the victim's message joins its tail when it has room |
| Preemption.Admit | examples/model/p_preemption.py:24-44 | the message, priority 2 if it has none, is pushed onto its class; preemption happens exactly when it was admitted and express work waits |
| Preemption.Enqueue | simpype/pipe.py:13-23 | under the enqueue wrapper the message first enters the pipe, then `Admit` runs, then `full()`, so an active queue holding a message leaves the pipe available |
| Preemption.Dequeue | examples/model/p_preemption.py:12-21 | express, then preempted, then fast, then slow: the head of the first non-empty of them, or `None` |
| PreemptiveService.ServiceWait | examples/model/r_preemption.py:11-13 | a message without a `wait` draws one once; the service lasts the owed `wait` |
| PreemptiveService.PreemptedWait | examples/model/p_preemption.py:42 | after any number of preemptions the owed wait is the first wait less all the service received |
| PreemptiveService.ResidualWait | examples/model/r_preemption.py:11-13 | later services never draw again, so a preempted message is served for exactly its remaining wait |
| PreemptiveService.DefaultResume | examples/model/r_preemption.py:7-13 | with the default table a fresh message is served for 1, and after 0.25 of service is preempted, for 0.75 more |
| RoundRobins.RoundRobinPipe | examples/model/p_roundrobin.py:5-9 | four empty queues numbered 0 to 3, the pointer at 3 |
| RoundRobins.Advance | examples/model/p_roundrobin.py:14-17 | the pointer moves between 1 and n steps, to the first non-empty queue strictly after it, cyclically, or all the way round |
| RoundRobins.Serve | examples/model/p_roundrobin.py:14-18 | the queue the pointer reaches is popped and no other changes; nothing is returned, and nothing changes, exactly when every queue is empty |
| RoundRobins.AllEmptyWhenNoneFound | examples/model/p_roundrobin.py:14-18 | the pointer lands on an empty queue exactly when all queues are empty |
| RoundRobins.Dequeue | examples/model/p_roundrobin.py:11-18 | the rotation loop stops at the first non-empty queue after the pointer and pops it, as `Serve` describes |
| RoundRobins.CloserToWaiting | examples/model/p_roundrobin.py:14-18 | a dequeue that skips a waiting queue brings the pointer closer to it |
| RoundRobins.NoStarvation | examples/model/p_roundrobin.py:14-18 | a queue holding a message is served within n dequeues |
| RoundRobins.InTurn | examples/model/p_roundrobin.py:15-18 | with every queue non-empty, the queues are served strictly in cyclic order |
| RoundRobins.WithPriority | examples/model/p_roundrobin.py:22-23 | a missing priority becomes 0, and a present one is kept |
| RoundRobins.RouteIndex | examples/model/p_roundrobin.py:25-34 | priorities 1, 2 and 3 select their own queue, and anything else queue 0 |
| RoundRobins.EnqueueAsWritten | examples/model/p_roundrobin.py:20-36 | as written, `enqueue` never returns: the message enters the pipe, the push happens, and then it raises on the unbound name before `full()` |
| RoundRobins.Admit | examples/model/p_roundrobin.py:20-34 | the one push onto the selected queue is the result, and the pointer is kept |
| RoundRobins.Enqueue | simpype/pipe.py:13-23 | under the enqueue wrapper the message first enters the pipe, then `Admit` runs, then `full()`, so an active queue holding a message leaves the pipe available |
| RoundRobins.EnqueueAdmits | examples/model/p_roundrobin.py:20-34 | on a new pipe every message that enters is admitted at the tail of the queue its priority selects, and the pipe is available |
| WeightedFair.Len | examples/model/p_wfq.py:61-62 | the bucket length is the summed sizes: at least 0, and at least the head's size, when no size is negative |
| WeightedFair.LenAppend | examples/model/p_wfq.py:61-62 | the bucket length is the summed sizes: appending adds the message's size |
| WeightedFair.LenWhole | examples/model/p_wfq.py:61-62 | whole sizes sum to a whole length |
| WeightedFair.Length | examples/model/p_wfq.py:61-62 | `len()` of a bucket succeeds exactly when every size is whole and the sum is at least 0, and then gives the summed size; otherwise it raises `TypeError` or `ValueError` |
| WeightedFair.NewBucket | examples/model/p_wfq.py:7-15 | a new bucket is empty and disabled |
| WeightedFair.Refresh | examples/model/p_wfq.py:17-22 | reading `level` moves `last` to now, never exceeds the capacity, and gives a whole number |
| WeightedFair.RefreshAccrues | examples/model/p_wfq.py:19-20 | the read level is the accrued level rounded up, unless the capacity caps it |
| WeightedFair.RefreshIdempotent | examples/model/p_wfq.py:17-22 | reading `level` twice at one instant gives the same answer |
| WeightedFair.RefreshGains | examples/model/p_wfq.py:17-22 | with time moving forward and a non-negative rate, reading never loses tokens below the stored level |
| WeightedFair.Push | examples/model/p_wfq.py:38-47 | the bucket's `len()` is taken first and its failure is the push's; then a message without a size fails; otherwise it is admitted at the tail iff the summed size stays within capacity (then `wake` fires), and else finalised with 'full' with the bucket unchanged; so the summed size never exceeds capacity |
| WeightedFair.Pop | examples/model/p_wfq.py:49-59 | the head leaves and its size is taken from the refreshed level; the bucket stays active iff the level covers the new head; an empty bucket is unchanged |
| WeightedFair.PopKeepsLevel | examples/model/p_wfq.py:53 | popping a head the level covered leaves the level between 0 and the capacity |
| WeightedFair.Activate | examples/model/p_wfq.py:28-36 | fails on an empty buffer, or on a zero rate when tokens are missing; otherwise the bucket is enabled after no delay iff the level covers the head |
| WeightedFair.Delay | examples/model/p_wfq.py:35 | the delay is the time the rate takes to accrue the missing tokens |
| WeightedFair.ActivationSuffices | examples/model/p_wfq.py:33-36 | once the delay has passed, the level covers the head, when the head fits the capacity |
| WeightedFair.TriangleClosedForm | examples/model/p_wfq.py:92 | `1 + … + n` is `n(n + 1)/2` |
| WeightedFair.ClassRateFloorsShare | examples/model/p_wfq.py:94 | class i's rate is its exact share `R(i + 1)/(1 + … + n)` rounded down |
| WeightedFair.ClassRateMonotone | examples/model/p_wfq.py:94 | a higher class never gets a lower rate |
| WeightedFair.ClassRateSumBound | examples/model/p_wfq.py:92-96 | rounding each share down never gives out more than the shares |
| WeightedFair.RateSumIsClassRateSum | examples/model/p_wfq.py:93-94 | the rates `_set_queue_param` leaves are the class rates |
| WeightedFair.ClassRatesWithinTotal | examples/model/p_wfq.py:92-94 | the n class rates add up to at most the total |
| WeightedFair.RatesWithinTotal | examples/model/p_wfq.py:91-96 | `_set_queue_param` never hands out more than the total rate |
| WeightedFair.SetQueueParam | examples/model/p_wfq.py:91-96 | class i gets rate, capacity and level equal to its class rate; buffers and flags are kept |
| WeightedFair.SetClasses | examples/model/p_wfq.py:84-89 | buckets are added up to the new count, empty and disabled; a smaller count removes nothing |
| WeightedFair.NewWfq | examples/model/p_wfq.py:66-69 | a new pipe has rate 10 and one disabled bucket with rate, capacity and level 10 |
| WeightedFair.ActiveLength | simpype/pipe.py:212 | the total `full()` computes succeeds exactly when every active bucket has a `len()`, and is then the summed active length |
| WeightedFair.ActiveLenCovers | simpype/pipe.py:212 | when every active length is defined, the total is at least any one active bucket's length |
| WeightedFair.Full | simpype/pipe.py:205-216 | fails exactly when an active bucket has no `len()`; otherwise `available` ends triggered exactly when it was or the active buckets hold something, and nothing else changes |
| WeightedFair.ActivateIn | simpype/queue.py:177-181 | the bucket's activation step as the pipe sees it: the bucket is enabled after the delay and `full()` is consulted, which fails exactly when some active bucket has no `len()` |
| WeightedFair.ActivationWakesPipe | examples/model/p_wfq.py:28-36 | activating a bucket whose messages have a positive summed size leaves the pipe available |
| WeightedFair.Defaults | examples/model/p_wfq.py:111-114 | a missing priority becomes 0 and a missing size 1; present properties are kept |
| WeightedFair.ClassOf | examples/model/p_wfq.py:115-116 | a priority selects the bucket whose number it equals, and is missing otherwise |
| WeightedFair.Admit | examples/model/p_wfq.py:109-116 | fails when the priority names no bucket; otherwise the message is pushed onto its bucket, admitted iff it fits, and every bucket stays within capacity |
| WeightedFair.EnterWfq | simpype/pipe.py:16-17 | the enqueue wrapper locates the message at the pipe and makes its resource the pipe's, recording the visit and keeping id and properties |
| WeightedFair.Enqueue | simpype/pipe.py:13-23 | under the enqueue wrapper the message first enters the pipe, then `Admit` runs, then `full()`, which fails exactly when an active bucket has no `len()`; afterwards active buckets holding something leave the pipe available |
| WeightedFair.Pick | examples/model/p_wfq.py:100-106 | the eligible bucket with the smallest head, the first on ties, or none |
| WeightedFair.Select | examples/model/p_wfq.py:100-106 | the selection loop, which replaces the choice only on a strictly smaller head, picks exactly that bucket |
| WeightedFair.RefreshActive | examples/model/p_wfq.py:102-104 | every active bucket's level is refreshed; an active empty bucket raises |
| WeightedFair.Dequeue | examples/model/p_wfq.py:98-107 | the chosen bucket is popped; with no eligible bucket the call fails |
| WeightedFair.DequeueServesSmallest | examples/model/p_wfq.py:98-107 | the message served is the smallest head any eligible bucket offers, no other bucket loses a message, and the served bucket's level stays between 0 and its capacity |

## Left out

- **SimPy's scheduler.** The event loop, `env.process`, timeouts, `&`/`|`
  conditions and `Interrupt` are a library outside this model. The processes
  `_wait_loop`, `_service`, `_activate`, `_wait_event` and `h_gen` appear only
  as their synchronous steps: `Pipes.Wake`/`Finish`, `Resources.Serve`,
  `WeightedFair.Activate`/`ActivateIn`, `Messages.Settle` and
  `Generators.Chain`.
- **The `free`/`available` wiring.** `simpype/pipe.py` waits on
  `resource.free` as an event, but `Resource` defines `available` as the event
  and `free()` as a method. Only the counting rule is modelled
  (`Pipes.Slots`, `Resources.Free`).
- **Randomness.** The `random` module and seeding are out. Every draw is a
  parameter (`draw`, `draws`, `arrivals`, `initial`). A producer is abstracted
  to `Skip` or a value, so repeated calls to one producer give the same value.
- **Logging and I/O.** `Log`, `Model`, `Timestamp` writing, `Simulation.run`,
  dynamic loading in `build.py`, and the queue and resource `log` flags are
  out.
- **Timestamps.** `message.timestamp` calls have no effect on the model.
- **Custom models.** `add_resource` and `add_generator` with a custom model or
  pipe are out; the default models are built. The examples
  `examples/model/cashier.py` and `simpype/model/resource.py` are thin service
  delays and are not modelled.
- Messages.Settle: when a subscription's wait wakes is decided by the
  scheduler, so the caller applies `Settle` for the id whose event or
  `disable` fired. It deletes by id, as the code does, so the wait of an entry
  replaced by a re-subscription deletes the replacement too. Until it is
  applied, `Messages.Done` and `Messages.Subscribe` fail on the disabled
  entry, as in Python before the wait has run.
- Messages.Subscribe: the callback a subscription runs when its event fires
  is not modelled; `Settle` only removes the entry.
- **The pipe's `_message_dropped`.** It only asserts the location, so it is
  not modelled.
- **Identity.** Object identity is replaced by value equality. A message is
  found in a buffer by its contents, and resources are referred to by id.
- **Partial updates before an exception.** `done()`, `_update_message` and
  `Wfq.dequeue` may change some state before raising. The model returns
  `Err` and keeps no partial state.
- **`add_pipe` on a `None` destination.** When the destination is a pipeline
  with no `first`, Python stores `None`; the model stores `None` in the list
  (`Pipelines.Target`). Building `next` from such a list fails, as
  `p.id` does on `None`.
- Pipelines.Merge: Python appends the new elements in the hash order of a
  set. The model fixes first-occurrence order. Every property proved about
  merging holds in any order except `Pipelines.FreshOrder` and
  `Pipelines.MergeOrderExample`, which describe the fixed order.
- RandomSteps.Build: a table with two consecutive skip windows before the
  +inf sentinel makes the Python loop append a step whose producer is stale or
  unbound. Such tables are excluded by a precondition (`NoInteriorDoubleSkip`).
- RandomSteps.Value: the corrected reading gives each absorbed window its own
  closure value. The code as written is `RandomSteps.ValueAsWritten` (see
  Findings).
- Resources.KeyOf: tasks are keyed by the pair of message id and number,
  not by the string `str(id) + str(seq_num)` of the code, and so are
  `Resources.AddTask`, `Resources.DelTask`, `Resources.ResourceMessageDropped`
  and `Resources.Serve`. The string key is modelled only in
  `Resources.TaskIdCollision` (see Findings).
- Resources.ServiceTasks: a task's `process.is_alive` is approximated by "not
  interrupted".
- Preemption.Victim: the same approximation is used for `process.is_alive`.
- Generators.Chain: the schedule is cut where the supplied arrival draws end.
  Negative draws, which SimPy rejects, are not excluded.
- WeightedFair.NewBucket: the bucket's initial infinite capacity, level and
  rate start at 0. `_set_queue_param` overwrites them before anything reads
  them.
- WeightedFair.Activate: one pass of the `_activate` loop is one call. The
  wait is returned as a delay instead of being slept. The `enable()` that
  ends the pass consults the pipe's `full()`; that step is
  `WeightedFair.ActivateIn`.
- WeightedFair.Length: sizes are reals, and a size is taken for a Python
  `int` exactly when it is a whole number. A float size with a whole value,
  such as `2.0`, which Python's `len()` also rejects, is not told apart.
- WeightedFair.ActivateIn: the delay before `enable()` is returned, not slept,
  so `full()` is consulted on the state at the start of the wait.
- WeightedFair.SetClasses: the stored `classes` value is not kept.
- WeightedFair.Len: sizes are exact reals, so float rounding is not modelled.
- WeightedFair.DequeueServesSmallest: it requires non-negative sizes.
- WeightedFair.Dequeue: with no eligible bucket it is an error (`None.pop()`),
  not a precondition.

## Findings

| source | as written | input that shows it | evidently intended | confidence | as-written member | corrected member |
|---|---|---|---|---|---|---|
| simpype/resource.py:138 | the task id is `str(message.id) + str(message.seq_num)` | message 'gen1' #2 and message 'gen' #12 both get 'gen12'; the second task overwrites the first in `resource.task` | one task per message, keyed by id and number | not executed | Resources.TaskIdCollision | Resources.KeyOfInjective |
| simpype/random.py:131-137 | every skip-then-value step returns the one closure variable `wait`, which holds the last value assigned | table {0: skip, 10: 1.0, 20: skip, 30: 2.0} read at time 5 returns 12.0 | each absorbed window returns its own value, 11.0 here | not executed | RandomSteps.SharedClosureCounterexample | RandomSteps.Value |
| examples/model/p_roundrobin.py:36 | after the push, `enqueue` pushes again onto `self.queue[priority]`, a name bound nowhere | any message: the first push happens, then `NameError` | return the result `m` of the one push | not executed | RoundRobins.EnqueueAsWritten | RoundRobins.EnqueueAdmits |
