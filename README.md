# CPU-scheduling engine, modelled and verified in Dafny

This project models the six scheduling engines of a CPU-scheduling
visualiser (`lib/scheduling-algorithms.ts`) and the record shapes they work
on (`types/scheduling.ts`). Every engine takes a list of processes (id, name,
arrival time, burst time, optional priority) and returns per-process metrics
(start, completion, turnaround, waiting and response time) together with a
Gantt chart of `{name, start, end}` segments.

- **FCFS** (`FcfsEngine.Fcfs`): a stable sort by arrival, then each process
  runs whole as soon as the CPU is free and the process has arrived.
- **SJF and non-preemptive priority** (`NonPreemptiveEngine`): one shared
  loop.
  - Filter the processes that have arrived.
  - Pick the best one by a key, using a strict comparison, so on a tie the
    first candidate in `remaining` order wins.
  - Run it whole, then splice it out.
  - If nothing has arrived, jump the clock to the earliest remaining
    arrival.
  - Results are returned in completion order.
- **SRTF and preemptive priority** (`PreemptiveEngine`): one shared loop
  that works one time unit per tick.
  - Each tick, the best ready process runs for one unit. The key is its
    remaining time or its priority key.
  - The clock goes up by one when nobody is ready.
  - A tick extends the last Gantt segment when that segment has the same
    name; otherwise it opens a new one.
  - Results are re-sorted into input order by `findIndex` of the id.
- **Round Robin** (`RoundRobinEngine`):
  - A FIFO queue is fed from the arrival-sorted list.
  - Each dispatch runs the head for `min(quantum, remaining)` units as one
    segment.
  - Processes that arrived during the slice are queued before the preempted
    process goes back to the tail.
  - An empty queue makes the clock jump to the next arrival, and only that
    process is queued.
  - Results are re-sorted into input order.

The engines are imperative methods: a clock, `while` loops and, for the
piecewise engines, an `array<Work>` of working copies that is updated in
place. Each has a declarative partner and a proof that the method produces
it:
- for SJF and priority NP, a run-to-completion schedule (`NpSchedule`) with
  one valid decision per process;
- for SRTF and priority P, a tick trace (`PreemptiveTrace`) with one valid
  choice per time unit;
- for Round Robin, a dispatch log (`RrLog`) with one valid slice per
  dispatch, each serving the head of the ready queue. The queue is replayed
  from the log (`Replay`).

Each declarative partner is proved to pin the result down: there is at most
one complete schedule, trace or log (`NpScheduleUnique`, `TraceUnique`,
`RrLogUnique`). It also implies the properties the visualiser relies on:
- an ordered, non-overlapping chart;
- the metric identities;
- each process shown busy for exactly its burst;
- for Round Robin with every burst ≤ quantum, exactly the FCFS chart.

Modules, one per file:
- `SchedTypes`: `types.dfy`.
- `Sorting`: `sorting.dfy`. It holds JavaScript's stable sort and `findIndex`.
- `Gantt`: `gantt.dfy`.
- `Selection`: `selection.dfy`. It holds the `filter`/`reduce`/`Math.min`
  decision points and the priority key.
- `FcfsEngine`: `fcfs.dfy`.
- `NonPreemptiveEngine`: `nonpreemptive.dfy`.
- `PreemptiveEngine`: `preemptive.dfy`.
- `RoundRobinEngine`: `roundrobin.dfy`.

The engines perform no I/O and use no clock or randomness, so nothing had
to become a parameter. The `algorithm` label string each engine returns is
not modelled.

## Model

| member | source | states |
|---|---|---|
| SchedTypes.RanWhole | lib/scheduling-algorithms.ts:62-69 | The record of a process that runs whole from `start` completes at start + burst. When it starts no earlier than its arrival, turnaround, waiting and response agree, with waiting equal to response and 0 ≤ response ≤ waiting. |
| Sorting.SortedPositions | lib/scheduling-algorithms.ts:4 | The stable sort used by every engine lists every position exactly once. Keys are non-decreasing, and equal keys keep their input order. |
| Sorting.FindIndex | lib/scheduling-algorithms.ts:129 | `findIndex` on the id is -1 exactly when no process has that id. Otherwise it is a position with that id, and no earlier position has it. |
| Sorting.IndexOf | lib/scheduling-algorithms.ts:72 | `indexOf` gives the first position holding the element. |
| Sorting.SortByInputPosition | lib/scheduling-algorithms.ts:128-130 | The `findIndex` re-sort used at the end of the SRTF, preemptive priority and Round Robin engines (also lines 222-224 and 354-356): a stable sort of the records keyed on the input position of their id, keeping their number. SortByInputPositionRestoresOrder proves that it puts process i's record at position i. |
| Sorting.SortByInputPositionRestoresOrder | lib/scheduling-algorithms.ts:128-130 | With distinct ids, re-sorting one record per process by `findIndex` of its id puts the record of input process i at position i. |
| Gantt.WellFormedNoOverlap | lib/scheduling-algorithms.ts:12-16 | In a chart whose adjacent segments are ordered, no two segments overlap. |
| Gantt.AppendSegment | lib/scheduling-algorithms.ts:193-197 | Pushing a non-empty segment that starts after the chart's end keeps the chart ordered. It adds its length to the busy time of its own name only. |
| Gantt.AddTick | lib/scheduling-algorithms.ts:105-114 | The tick-by-tick chart update of both preemptive engines (also lines 328-338). If the chart is empty or its last segment has another name, it appends the segment [clock − 1, clock); otherwise it moves the last segment's end to the clock. The name comparison is the only merge test. AddTickProperties states what it keeps. |
| Gantt.TimelineBusy | lib/scheduling-algorithms.ts:56-60 | In a one-segment-per-record chart, a name carried by one record only is busy exactly from that record's start to its completion. |
| Gantt.AddTickProperties | lib/scheduling-algorithms.ts:105-114 | Extending or opening the last segment for one tick keeps the chart ordered and non-overlapping. The last segment then ends at the clock with the ticking name, and a merge adds no segment. When a merged segment reached the previous tick, the tick adds one unit of busy time to that name and none to any other. |
| Selection.Reduce | lib/scheduling-algorithms.ts:250-259 | The `reduce` with a strict comparison returns a candidate that no other candidate beats, and that beats every candidate before it, so ties go to the first match. This holds for both directions of the priority comparison and for the smaller-key engines. |
| Selection.ReduceWinner | lib/scheduling-algorithms.ts:51 | Among candidates in input order, nobody beats the winner, and a candidate with an equal key comes no earlier than the winner. |
| Selection.Arrived | lib/scheduling-algorithms.ts:44 | The `filter` on arrival keeps exactly the remaining processes that have arrived by the clock. A list in increasing position order stays so. |
| Selection.Available | lib/scheduling-algorithms.ts:89 | The per-tick `filter` keeps exactly the working copies that have arrived and still need time, in input order. |
| Selection.MinArrival | lib/scheduling-algorithms.ts:47 | The idle jump target is the arrival of some remaining process, and no remaining process arrives earlier. |
| Selection.PriorityKey | lib/scheduling-algorithms.ts:251-252 | The priority key of both priority engines (also lines 311-312): the process's own priority when present, otherwise 0 under higher-first and 999 under lower-first. PriorityFallbackLoses states the consequence. |
| Selection.PriorityFallbackLoses | lib/scheduling-algorithms.ts:251-252 | The fallbacks are 0 under higher-first and 999 under lower-first. So in either direction, a process without a priority never wins while a candidate has a priority strictly between 0 and 999. |
| FcfsEngine.ArrivalOrderSorted | lib/scheduling-algorithms.ts:4 | The FCFS order lists every process once, by arrival, and processes that arrive together keep their input order. |
| FcfsEngine.Serve | lib/scheduling-algorithms.ts:8-28 | The reference definition of the FCFS map: in the given order, each process starts at max(time the CPU is free, arrival) and runs its whole burst, and the next one sees the CPU free at that completion. It returns one record per position. ServeAt states its k-th record, and ServeInOrder proves that the loop computes it. |
| FcfsEngine.ServeAt | lib/scheduling-algorithms.ts:8-27 | The k-th process in the order starts at max(free time, arrival) and completes after its burst. Turnaround, waiting and response agree, with waiting equal to response. |
| FcfsEngine.ServeWellFormed | lib/scheduling-algorithms.ts:12-18 | The FCFS chart's segments are non-empty, ordered and non-overlapping. |
| FcfsEngine.ServeProperties | lib/scheduling-algorithms.ts:8-28 | Every record of the FCFS schedule carries its process, starts at max(free time, arrival) and satisfies the metric identities. The chart is ordered. |
| FcfsEngine.FcfsTieKeepsInputOrder | lib/scheduling-algorithms.ts:4 | Two processes that arrive together are served in input order. The earlier one completes before the later one starts. |
| FcfsEngine.ServeBusy | lib/scheduling-algorithms.ts:12-16 | When every process is served once and names are distinct, the FCFS chart shows each process busy for exactly its burst. |
| FcfsEngine.FcfsServe | lib/scheduling-algorithms.ts:3-35 | Serving every process in arrival order from time 0 gives an ordered chart, records that carry their process, start at max(free time, arrival) and satisfy the metric identities with waiting equal to response, and, with distinct names, busy time equal to burst. |
| FcfsEngine.ServeInOrder | lib/scheduling-algorithms.ts:8-28 | The loop builds exactly the reference FCFS records of the given order, and a chart with one segment per record. |
| FcfsEngine.Fcfs | lib/scheduling-algorithms.ts:3-35 | The method's records are the reference FCFS schedule of the arrival order, returned in that order, with one segment per record. It states every per-record property of ServeProperties and an ordered chart. With distinct names, each process is busy for exactly its burst. |
| NonPreemptiveEngine.Decision | lib/scheduling-algorithms.ts:43-72 | Decision k of a run-to-completion schedule. The process has not run yet and runs whole from its start, no earlier than its arrival. It starts when the CPU becomes free if some pending process has arrived by then, otherwise at the earliest pending arrival. No other pending process that has arrived by the start has a better key, or an equal key and an earlier position. StepDecision proves that the loop's choice meets it. |
| NonPreemptiveEngine.NpSchedule | lib/scheduling-algorithms.ts:37-80 | A complete run-to-completion schedule: an order listing every process once, and records in which decision k is valid for every k. NpScheduleProperties and NpScheduleUnique state its properties. |
| NonPreemptiveEngine.Splice | lib/scheduling-algorithms.ts:72 | Splicing out the chosen process leaves a list one shorter that holds every other remaining process and nothing new. A list in increasing position order stays so, without the chosen process. |
| NonPreemptiveEngine.PartialInit | lib/scheduling-algorithms.ts:39-41 | With everything remaining and the clock at 0, the loop invariant holds. |
| NonPreemptiveEngine.PartialStep | lib/scheduling-algorithms.ts:51-72 | Running the `reduce` winner among the arrived processes whole from the clock is a valid decision. Splicing it out and advancing the clock to its completion keeps the loop invariant. |
| NonPreemptiveEngine.StepDecision | lib/scheduling-algorithms.ts:51-54 | The winner has not run before and starts at the clock. No pending process that has arrived by then has a better key, or an equal key and an earlier position. |
| NonPreemptiveEngine.PartialJump | lib/scheduling-algorithms.ts:46-48 | When nothing has arrived, jumping to the earliest remaining arrival keeps the invariant, emits nothing, and makes some process available. |
| NonPreemptiveEngine.PartialComplete | lib/scheduling-algorithms.ts:43 | When nothing remains, every process has been run exactly once, each by a valid decision. |
| NonPreemptiveEngine.RunOne | lib/scheduling-algorithms.ts:50-72 | One pass: the chosen process is the `reduce` winner and is still remaining. Its record (run whole from the clock) and its segment are appended, and the loop invariant is kept for the spliced list and the completion time. |
| NonPreemptiveEngine.RunToCompletion | lib/scheduling-algorithms.ts:37-80 | The shared loop returns, in completion order, a complete run-to-completion schedule with one segment per record. The chart is ordered and the metric identities hold. With distinct names, each process is busy for exactly its burst. |
| NonPreemptiveEngine.NpFinished | lib/scheduling-algorithms.ts:75-77 | When the loop ends, the decisions made form a complete schedule with the properties of NpScheduleProperties. |
| NonPreemptiveEngine.NpScheduleProperties | lib/scheduling-algorithms.ts:53-71 | Any complete run-to-completion schedule has an ordered, non-overlapping chart and metrics with waiting equal to response. With distinct names, each process is busy for exactly its burst. |
| NonPreemptiveEngine.DecisionsAgree | lib/scheduling-algorithms.ts:43-54 | Two complete schedules that agree on their first k decisions also agree on decision k: the start time and the winner are forced. |
| NonPreemptiveEngine.NpScheduleUnique | lib/scheduling-algorithms.ts:43-73 | There is at most one complete run-to-completion schedule for given processes and key, so the engine's result is determined. |
| NonPreemptiveEngine.Sjf | lib/scheduling-algorithms.ts:37-80 | The SJF result is the unique run-to-completion schedule keyed on burst time, smaller winning, in completion order. It has one segment per record, an ordered chart and the metric identities. |
| NonPreemptiveEngine.PriorityNonPreemptive | lib/scheduling-algorithms.ts:233-291 | It is the same, keyed on the priority with its fallback: larger wins under higher-first, smaller under lower-first. The default order is lower-first. |
| PreemptiveEngine.TickOK | lib/scheduling-algorithms.ts:88-103 | Unit t of a tick trace (also lines 302-317). It is idle exactly when no process has arrived and still needs time. Otherwise it goes to a ready process such that no other ready process has a better key, or an equal key and an earlier position. ChosenTickOK proves that the loop's choice meets it. |
| PreemptiveEngine.PreemptiveTrace | lib/scheduling-algorithms.ts:82-134 | A complete tick trace: every unit is valid and is taken while some process still needs time, and every process runs for exactly its burst. TraceProperties and TraceUnique state its properties. |
| PreemptiveEngine.Chart | lib/scheduling-algorithms.ts:105-114 | The chart of a trace: AddTick applied for every busy unit, in order; idle units add nothing. ChartShape and ChartBusy state its properties. |
| PreemptiveEngine.ChartShape | lib/scheduling-algorithms.ts:105-114 | The chart built tick by tick is ordered and non-overlapping. It is empty exactly when nothing ran. Otherwise its last segment ends just after the last busy unit and carries that unit's name. |
| PreemptiveEngine.NoIdleGap | lib/scheduling-algorithms.ts:106 | With distinct names, when the last segment already carries the name of the process running now, it ends exactly where this unit begins. So a merge never spans an idle gap or another process. |
| PreemptiveEngine.ChartBusy | lib/scheduling-algorithms.ts:105-114 | With distinct names, a valid run's chart shows each process busy for exactly the units it ran. |
| PreemptiveEngine.TraceMetrics | lib/scheduling-algorithms.ts:116-124 | In a complete run every process ran. The record built from its first and last unit satisfies turnaround = completion − arrival, waiting = turnaround − burst, response = start − arrival, and 0 ≤ response ≤ waiting. |
| PreemptiveEngine.TraceProperties | lib/scheduling-algorithms.ts:88-125 | A complete run has an ordered chart and the metric identities. With distinct names, each process is busy for exactly its burst. |
| PreemptiveEngine.TraceUnique | lib/scheduling-algorithms.ts:88-103 | The per-tick rules and the stopping rule leave no choice: there is at most one complete run. |
| PreemptiveEngine.StopsWhenDone | lib/scheduling-algorithms.ts:88 | Once every process has run its whole burst, no further unit is taken. |
| PreemptiveEngine.TickInit | lib/scheduling-algorithms.ts:85-86 | Fresh working copies (whole burst, not started) at clock 0 satisfy the loop invariant. |
| PreemptiveEngine.TickIdle | lib/scheduling-algorithms.ts:91-93 | With nobody ready and work left, one idle unit keeps the invariant, and the clock is below the latest arrival. |
| PreemptiveEngine.ChosenTickOK | lib/scheduling-algorithms.ts:96 | The `reduce` winner on the working copies is ready and is a valid choice for this unit. |
| PreemptiveEngine.TickRun | lib/scheduling-algorithms.ts:96-124 | Running the winner for one unit keeps the invariant, and total remaining time drops by exactly 1. The unit fixes its start if it had none, updates its copy, extends the chart and records completion at zero. |
| PreemptiveEngine.BusyTick | lib/scheduling-algorithms.ts:96-124 | One busy tick updates only the working copy of the `reduce` winner: remaining − 1, start fixed on the first run. The chart grows by AddTick at clock + 1, the loop invariant is kept, and total remaining time drops by 1. |
| PreemptiveEngine.RunTicks | lib/scheduling-algorithms.ts:82-134 | The shared loop's results are those of the unique complete tick trace, in input order, and the chart is that trace's chart. Each record satisfies the metric identities. With distinct names, each process is busy for exactly its burst. |
| PreemptiveEngine.FinishedRun | lib/scheduling-algorithms.ts:88-130 | When no copy needs time, the trace is complete and the re-sorted records are its results in input order. |
| PreemptiveEngine.RestoredResults | lib/scheduling-algorithms.ts:128-130 | Re-sorting the completion-ordered records by `findIndex` gives each process its record from the trace. |
| PreemptiveEngine.Srtf | lib/scheduling-algorithms.ts:82-134 | These are the RunTicks guarantees when each unit goes to the ready process with the least remaining time, first match on ties. |
| PreemptiveEngine.PriorityPreemptive | lib/scheduling-algorithms.ts:293-360 | These are the RunTicks guarantees when each unit goes to the ready process with the best priority key. The fallback keys are 0/999 and the default order is lower-first. |
| RoundRobinEngine.SliceOK | lib/scheduling-algorithms.ts:178-201 | Dispatch k of a log serves a process that still needs time. It starts when the CPU is free or, if later, at the process's arrival, and lasts min(quantum, time still needed). LogOKAppend proves that the loop's dispatch meets it. |
| RoundRobinEngine.Complete | lib/scheduling-algorithms.ts:169-219 | Every dispatch of the log is valid and every process has received its whole burst. LogFacts and LogMetrics state what follows. |
| RoundRobinEngine.Jump | lib/scheduling-algorithms.ts:171-175 | With an empty ready queue and processes still to come, the queue becomes the next process in arrival order, and nothing else changes. |
| RoundRobinEngine.Replay | lib/scheduling-algorithms.ts:163-218 | The ready queue after the dispatches of a log. It starts from the processes that arrived by 0. Each dispatch jumps if the queue is empty, takes the head, admits the processes that arrived by the end of the slice, and then puts the head back at the tail if it still needs time. ReplayStep and DispatchReplay prove that the loop's queue is this queue. |
| RoundRobinEngine.Head | lib/scheduling-algorithms.ts:177-178 | The process the next dispatch takes: the head of the replayed queue after a jump, if the queue is not empty. |
| RoundRobinEngine.FifoLog | lib/scheduling-algorithms.ts:177-178 | Every dispatch of the log serves Head of the queue replayed from the dispatches before it. FifoLogAt states this dispatch by dispatch. |
| RoundRobinEngine.RrLog | lib/scheduling-algorithms.ts:136-231 | A complete log whose every dispatch serves the head of the ready queue. RrLogUnique proves there is at most one. |
| RoundRobinEngine.LogOKAppend | lib/scheduling-algorithms.ts:188-201 | A dispatch that starts when the CPU is free and lasts min(quantum, still needed) extends a valid log. |
| RoundRobinEngine.LogSpan | lib/scheduling-algorithms.ts:182-214 | In a valid log, each process is served between 0 and its burst. It has a first start exactly when it has been served, and that start is no earlier than its arrival. Its last end is at least first start + service and no later than the CPU became free. |
| RoundRobinEngine.LogBusy | lib/scheduling-algorithms.ts:193-197 | With distinct names, the chart shows each process busy for exactly the time it was served. |
| RoundRobinEngine.LogChart | lib/scheduling-algorithms.ts:188-197 | The chart of a valid log is ordered and non-overlapping. Each segment lasts between 1 and quantum units and starts no earlier than its process's arrival. |
| RoundRobinEngine.FitLogIsServe | lib/scheduling-algorithms.ts:188-190 | When every burst fits in one quantum, dispatch k of a log in a given order starts and ends where the FCFS schedule of that order puts it. |
| RoundRobinEngine.FitChartIsTimeline | lib/scheduling-algorithms.ts:161-197 | When every burst fits in one quantum, the Round Robin chart is the FCFS chart. |
| RoundRobinEngine.AdmitFrom | lib/scheduling-algorithms.ts:204-207 | The admission from a given index stops at the first process, in arrival order, that has not arrived by the clock, after taking every process before it. |
| RoundRobinEngine.AdmitFromUnique | lib/scheduling-algorithms.ts:204-207 | Any index with those properties is the one AdmitFrom gives, so the stopping point of an admission is determined. |
| RoundRobinEngine.ReplayStep | lib/scheduling-algorithms.ts:178-218 | Recording a dispatch of the head of the queue, admitting the arrivals by its end and re-queueing the head when it still needs time yields exactly the replayed queue of the extended log, and every dispatch still serves the head. |
| RoundRobinEngine.FifoInit | lib/scheduling-algorithms.ts:163-167 | The initial admission at time 0 is the queue the replay starts from. |
| RoundRobinEngine.FifoLogAt | lib/scheduling-algorithms.ts:177-178 | In a log whose dispatches serve the head of the queue, dispatch k serves the head of the queue left by the dispatches before it. |
| RoundRobinEngine.FifoLogPrefix | lib/scheduling-algorithms.ts:177-178 | Every prefix of such a log is such a log. |
| RoundRobinEngine.SlicesAgree | lib/scheduling-algorithms.ts:171-190 | Two complete Round Robin logs that agree on their first k dispatches agree on dispatch k: its process, its start and its end are forced. |
| RoundRobinEngine.SlicesAgreeUpTo | lib/scheduling-algorithms.ts:169-219 | Two complete Round Robin logs agree on every prefix both have. |
| RoundRobinEngine.PendingAt | lib/scheduling-algorithms.ts:200-218 | Every dispatch of a valid log serves a process that still needed time. |
| RoundRobinEngine.ShorterLogIsSame | lib/scheduling-algorithms.ts:169 | A complete Round Robin log no longer than another equals it: once every burst is served no further dispatch is valid. |
| RoundRobinEngine.RrLogUnique | lib/scheduling-algorithms.ts:169-219 | There is at most one complete Round Robin log for given processes and quantum, so the engine's result is determined. |
| RoundRobinEngine.TwoProcessExample | lib/scheduling-algorithms.ts:169-219 | For P1 (arrival 0, burst 5) and P2 (arrival 1, burst 3) with quantum 2, the log serving P1 to the end before P2 is complete and every dispatch in it is valid, but it is not a Round Robin log, because P2 heads the queue after the first slice. |
| RoundRobinEngine.Admit | lib/scheduling-algorithms.ts:204-207 | Admission appends, in arrival order, the next processes that arrived by the clock, and stops at the first one that has not. The stopping index is AdmitFrom's. |
| RoundRobinEngine.RrInit | lib/scheduling-algorithms.ts:161-167 | After the initial admission the loop invariant holds, with an empty log. |
| RoundRobinEngine.RrJump | lib/scheduling-algorithms.ts:171-175 | With an empty queue and processes still to come, jumping to the next arrival and queueing only that process prepares a valid dispatch. |
| RoundRobinEngine.DispatchQueue | lib/scheduling-algorithms.ts:204-217 | After a dispatch, the queue holds exactly the admitted processes that still need time, each once. |
| RoundRobinEngine.DispatchRecords | lib/scheduling-algorithms.ts:182-214 | A dispatch extends the log by a valid slice whose segment extends the chart. It keeps every working copy in step with the log and completes the head exactly when it has received its burst. |
| RoundRobinEngine.DispatchStep | lib/scheduling-algorithms.ts:178-218 | A dispatch keeps the loop invariant for the log extended by its slice, and total remaining time strictly decreases. |
| RoundRobinEngine.DispatchReplay | lib/scheduling-algorithms.ts:177-218 | A dispatch of the head of the replayed queue leaves exactly the replayed queue of the extended log. |
| RoundRobinEngine.Dispatch | lib/scheduling-algorithms.ts:178-218 | Dequeue the head and run it for min(quantum, remaining) from the clock as one segment, fixing its start on the first dispatch. Admit the arrivals up to the new clock, then either re-queue the head at the tail after them or complete it. Only the head's working copy changes. |
| RoundRobinEngine.Step | lib/scheduling-algorithms.ts:169-218 | One iteration (jump if the queue is empty, then dispatch) serves the process at the head of the replayed queue from max(free time, arrival). It extends log and chart by that one slice, keeps the loop invariant and the replayed queue, and strictly lowers the total remaining time. |
| RoundRobinEngine.RunQueue | lib/scheduling-algorithms.ts:169-219 | The main loop ends with an empty queue and everything admitted, in a loop state whose log serves the head of the queue at every dispatch. |
| RoundRobinEngine.RrFinished | lib/scheduling-algorithms.ts:169-224 | When the queue is empty and everything has been admitted, the log is complete (every dispatch valid, every burst served) and every process has completed exactly once. The re-sorted records are the log's results, and with every burst ≤ quantum the log follows arrival order. |
| RoundRobinEngine.DoneResults | lib/scheduling-algorithms.ts:221-224 | With distinct ids, re-sorting the completion-ordered records by `findIndex` gives each process the record its log determines. |
| RoundRobinEngine.RrResult | lib/scheduling-algorithms.ts:169-228 | At loop exit, with every dispatch at the head of the queue, the returned schedule has every property RoundRobin states. |
| RoundRobinEngine.AllServed | lib/scheduling-algorithms.ts:169 | At loop exit every process has received its whole burst and has been completed once. |
| RoundRobinEngine.LogMetrics | lib/scheduling-algorithms.ts:210-214 | The results of a complete log satisfy turnaround = completion − arrival, waiting = turnaround − burst, and 0 ≤ response ≤ waiting. |
| RoundRobinEngine.LogFacts | lib/scheduling-algorithms.ts:188-224 | Any complete log (every dispatch valid, every burst served) gives an ordered chart of slices between 1 and quantum long, per-record metric identities, and busy time equal to burst under distinct names. With every burst ≤ quantum, it gives the FCFS chart. |
| RoundRobinEngine.RoundRobin | lib/scheduling-algorithms.ts:136-231 | The results are those of a complete Round Robin log, which RrLogUnique makes the only one, in input order, and the chart is that log's chart: ordered, with segments of 1..quantum units. The metric identities hold, and with distinct names each process is busy for its burst. With every burst ≤ quantum, the chart is exactly the FCFS chart. |

## Left out

- The `algorithm` label strings returned by every engine: display text only.
- The React UI, the metrics card (floating-point averages) and the page's
  choice of engine: `components/` and `app/` are not part of this model.
- JavaScript numbers are modelled as unbounded integers. Fractional
  arrival, burst or quantum values are not modelled.
- The optional result fields of `types/scheduling.ts` are not modelled as
  optional. They are the fields of `ProcResult` (and `remainingTime` of
  `Work`), present once an engine has computed them.
- Processes are referred to by input position. The preemptive engines and
  Round Robin are specified only for inputs with distinct ids
  (`DistinctIds`). The source keys Round Robin's map and queue by id and
  re-sorts by `findIndex` of the id, so duplicate ids would merge processes
  there. FCFS, SJF and non-preemptive priority do not use ids and need no
  such requirement.
- RoundRobinEngine.RoundRobin: requires quantum ≥ 1. With quantum 0 the
  source loop never terminates, and the input form only offers values
  from 1.
- The input contract (`ValidInput`): arrival ≥ 0 and burst ≥ 1, as the
  input form enforces. The engines are not modelled for other inputs.
- PreemptiveEngine.ChartBusy, RoundRobinEngine.LogBusy and the busy-time
  ensures of the engines: they are stated only under distinct names. The
  source merges adjacent segments by name, so two processes with the same
  name can share a segment.
- Round Robin's `processMap` record update is modelled as an in-place
  update of an `array<Work>` indexed by position. Aliasing between the map
  entries and the returned records is not modelled: each completed record
  is a fresh value.
- SJF and non-preemptive priority return their records in completion
  order, as the source does. Only the other engines re-sort into input
  order.
