# Verification model of the Lynx LWM2M client

A Dafny model of the client's protocol core, with proofs. Every component follows the C code as
it is written, its deviations from the LWM2M design included; where the two differ, the model
follows the code, and the proofs say for which inputs the design's promise is met.

- **Lists** (`Lists`): the linked list that serves as map and as source of fresh ids, as nodes
  on the heap, proved to be a sequence of bindings. Other modules keep their lists as such
  sequences.
- **TLV codec** (`Bits`, `TlvHeader`, `TlvValues`, `TlvTree`, `TlvExactness`, `TlvMaps`,
  `TlvLeftover`, `TlvPrinter`, `TlvParser`): the header of section 6.4.3 of OMA-TS-LightweightM2M-V1_0 with its
  bit fields, the values, and the nested lists. Whether `char` is signed is a parameter of every
  parser. The specification is on byte sequences; printer methods write arrays in place and
  parser methods walk positions, each proved to compute it.
- **Scheduler and reporting** (`Scheduler`, `Reporting`, `ReportingTimes`, `Stopping`): tasks, the sleeping
  thread, and observe, cancel and value changes as atomic steps under the scheduler's mutex, in
  any interleaving, with a clock in seconds. Task ids may repeat, as the client's generator makes
  them; what depends on them says so.
- **Attributes, notification, writing** (`Attributes`, `ObjectTree`, `Notifying`, `Merging`,
  `Setting`, `WriteSteps`): section 5.1.2 of the same standard. Resources, attribute records and tasks are
  objects changed in place.
- **Access control** (`AccessControl`): instance creation and deletion with the access-control
  instances of section 7.3.2, over whole runs.
- **Text** (`Text`, `Topics`, `Registration`): topic names and the registration payload.
- **Deregistration** (`Deregistration`): request and deregistration threads around the server
  mutex.

`dafny verify dfyconfig.toml` checks everything.

Where the code differs from its documentation or the standard, and the model follows the code:

- Header lengths are cut to one byte before they are shifted, and ids are read as plain `char`
  (src/lwm2m_parser_serialize.c:60-66, src/lwm2m_parser_deserialize.c:36-48); the format has 24-bit
  lengths and 16-bit ids.
- Integers are written lowest byte first and read highest byte first.
- The `pmin` of an object is looked up in its `pmax` (src/lwm2m_attribute.c:64), and defaults come
  from the server object's instance, not from the security object that include/lwm2m_attribute.h:46
  names.
- The id that marks a whole object's access-control instance is 66535
  (src/lwm2m_access_control.c:5); the standard reserves 65535.
- Removing from an empty list keeps the list's guard, and several refusals of a creation keep the
  lock of the object tree.

## Model

| member | source | states |
|---|---|---|
| Lists.MaxKeyIsMaximum | src/list.c:53-55 | the cached greatest key is -1 or a key in use, and bounds every key |
| Lists.NextIdIsFresh | src/lwm2m_object.c:410-413 | greatest key + 1 is a non-negative id that no entry uses |
| Lists.LookupIsTop | src/list.c:59-67 | a lookup finds the newest of the values remembered for the key, and finds something exactly if the key is listed |
| Lists.UnbindPops | src/list.c:69-116 | removal takes exactly the newest value of its key, uncovers the next older one and touches no other key |
| Lists.UnbindUndoesAdd | src/list.c:40-116 | a removal right after an addition of the same key restores the list |
| Lists.UnbindKeepsDistinct | src/list.c:69-116 | from a list with distinct keys removal takes the one entry of the key and keeps all the others |
| Lists.RunRemembers | src/list.c:40-116 | after any run of additions and removals, what each key remembers is told by a stack of its own additions and removals, and a lookup gives its top |
| Lists.ReverseKeepsLookup | src/list.c:40-57 | with distinct keys, reversing a list (what prepending on parse does) changes no lookup |
| Lists.List.Contains | src/list.c:26-38 | the pointer loop answers whether the key is bound |
| Lists.List.Find | src/list.c:59-67 | the pointer loop returns the newest binding's value, none if there is none |
| Lists.List.Add | src/list.c:40-57 | the nodes, `size` and `greatest_key` become those of the sequence with the new binding in front |
| Lists.List.Remove | src/list.c:69-116 | relinking gives exactly the sequence without the newest binding, with `size` and `greatest_key` recomputed; the guard stays held exactly if the list was empty |
| TlvHeader.SerializeHeader | src/lwm2m_parser_serialize.c:26-71 | the bit operations on the buffer leave the header's bytes at its front, report their number and touch nothing behind them |
| TlvHeader.ParseTlvHeader | src/lwm2m_parser_deserialize.c:27-62 | the pointer walk, with `char` signed or not, decodes exactly the header that stands at its position, or reports the read past the buffer |
| TlvHeader.NarrowHeader | src/lwm2m_parser_deserialize.c:27-62 | every header with a one-byte id, at any position, byte by byte: two bits of type, the width of the length, its three low bits if there are no length bytes, the id, and the length highest byte first, only its one-byte form read as `char` |
| TlvHeader.WideHeader | src/lwm2m_parser_deserialize.c:27-62 | the same with a two-byte id, lowest byte first, both bytes read as `char` |
| TlvHeader.BigEndianLengthReadsBack | src/lwm2m_parser_deserialize.c:46-59 | every length below 2^24 reads back from its own bytes in each width that holds it: three bytes, two bytes below 2^16, and one byte below 256 if `char` is unsigned |
| TlvHeader.HeaderFits | src/lwm2m_parser_deserialize.c:27-62 | a header is an error if and only if the buffer ends before it does |
| TlvHeader.PrintedBytes | src/lwm2m_parser_serialize.c:26-71 | the printed header, byte by byte, in each of the five ranges of lengths |
| TlvHeader.IdReadsBack | src/lwm2m_parser_serialize.c:49-57 | which ids are recovered from their printed bytes: if and only if they survive the `char` reads |
| TlvHeader.LengthReadsBack | src/lwm2m_parser_serialize.c:58-70 | which lengths are recovered, given that the high length bytes are cut before they are shifted |
| TlvHeader.HeaderExactDomain | src/lwm2m_parser_deserialize.c:27-62 | for every type, id, length, signedness and surrounding bytes: parsing a printed header recovers it if and only if the id is -128..127 or has both bytes below 128 with 256 <= id < 32768 and the length is 0..127 or 255 (signed), or id 0..65535 and length 0..255 (unsigned) |
| TlvHeader.LongLengthIsTruncated | src/lwm2m_parser_serialize.c:58-70 | a 300-byte value is announced as 44 bytes, so the 24-bit lengths of the format do not round trip |
| TlvValues.IntegerByteOrder | src/lwm2m_parser_serialize.c:91-95 | an integer fits the bytes it gets; parsing the reversed bytes gives it back; parsing the bytes themselves does if and only if they are a palindrome |
| TlvValues.ParseInt | src/lwm2m_parser_deserialize.c:64-70 | the shifting loop computes the big-endian value wrapped to 32 bits |
| TlvValues.NumbersAreBigEndian | src/lwm2m_parser_deserialize.c:64-70 | up to four bytes at any position, read as a number: the sum of the bytes by their weights, highest first, wrapped to 32 bits; a flag is true if and only if it is not 0 |
| TlvValues.TextsEndAtNul | src/lwm2m_parser_deserialize.c:130-141 | a text ends before its first NUL or with its payload, wherever it stands; opaque data is the payload |
| TlvValues.ValueFits | src/lwm2m_parser_deserialize.c:123-161 | which values can be read from a buffer: if and only if the bytes that their type reads are there and, of numbers, at most four |
| TlvValues.NumbersArePrinted | src/lwm2m_parser_serialize.c:77-117 | integers are printed lowest byte first, in one to four bytes, and flags as 0 or 1 |
| TlvValues.ValueRoundTrip | src/lwm2m_parser_deserialize.c:123-161 | every printed value, wherever it stands, parses to its crossed value: byte-swapped numbers, swapped link fields, unchanged texts, opaque data and flags |
| TlvValues.StableIsFixed | src/lwm2m_parser_serialize.c:77-117 | one crossing leaves a value alone if and only if it is a byte palindrome, a swapped link, or neither number nor link |
| TlvValues.SmallIntegersAreStable | src/lwm2m_parser_serialize.c:10-24 | 0..254 cross unchanged; 255 takes two bytes and does not |
| TlvValues.LinkCrossesTwice | src/lwm2m_parser_deserialize.c:148-153 | two crossings of a 16-bit link are the identity |
| TlvTree.LeavesRoundTrip | src/lwm2m_parser_serialize.c:172-199 | the instances of a multiple resource are read back, reversed, from anywhere in a buffer |
| TlvTree.InstanceRoundTrip | src/lwm2m_parser_serialize.c:201-235 | an instance with single and multiple resources is read back, every list reversed |
| TlvTree.ObjectRoundTrip | src/lwm2m_parser_serialize.c:237-258 | a whole object tree, three levels deep, is read back, every list reversed and every value crossed once |
| TlvTree.TypeInHeaderDecides | src/lwm2m_parser_deserialize.c:195-216 | an entry of the multiple type becomes a multiple resource whatever its definition says, any other one value of the defined type; an id without a definition stops the parser |
| TlvTree.TypeIsIgnored | src/lwm2m_parser_deserialize.c:163-235 | within a multiple resource and at the top an entry of any type is read alike, and the rest of the list after it |
| TlvExactness.LeavesExact | src/lwm2m_parser_deserialize.c:163-181 | a printed list of resource instances is read back if and only if every id and length survives |
| TlvExactness.InstanceExact | src/lwm2m_parser_deserialize.c:195-216 | a printed instance is read back if and only if every id and length survives, those within multiple resources included, unless a multiple resource before the last one has its length cut |
| TlvExactness.ObjectExact | src/lwm2m_parser_deserialize.c:219-235 | a printed object with any number of instances is read back if and only if every id and length survives at all three levels, unless an instance before the last one, or a multiple resource before the last one of its instance, has its length cut |
| TlvExactness.SingleInstanceExact | src/lwm2m_parser_deserialize.c:219-235 | one printed instance is read back if and only if its own id and length and its resources survive; a cut length leaves bytes that are taken for more instances |
| TlvLeftover.LeftoverBytesCanMatch | src/lwm2m_parser_deserialize.c:219-235 | with the length of an earlier instance cut, survival is not necessary: a concrete tree whose first entry is cut short is read back all the same, its leftover bytes being read as just the other instances |
| TlvLeftover.NestedLeftoverCanMatch | src/lwm2m_parser_deserialize.c:195-216 | nor with the length of an earlier multiple resource cut: a concrete instance, whose leftover bytes are read as just its other resources |
| TlvMaps.ParsedObjectIsSame | src/lwm2m_parser_deserialize.c:219-235 | parse after print gives the same id-to-value map at every level, for keyed trees whose values read the same in both byte orders |
| TlvPrinter.SerializeValue | src/lwm2m_parser_serialize.c:77-117 | the value's bytes are written in place, after a text also its NUL, and nothing behind them changes |
| TlvPrinter.SerializeMultipleResource | src/lwm2m_parser_serialize.c:172-199 | the loop writes exactly the nested entries, one after the other, and nothing behind them |
| TlvPrinter.SerializeInstance | src/lwm2m_parser_serialize.c:201-235 | the loop writes exactly the entries of all resources, and nothing behind them |
| TlvPrinter.SerializeObject | src/lwm2m_parser_serialize.c:237-258 | the loop writes exactly the entries of all instances, and nothing behind them |
| TlvParser.ParseValue | src/lwm2m_parser_deserialize.c:123-161 | the value read from a position is the specified one, or the error of the read it would do outside the buffer |
| TlvParser.ParseMultipleResource | src/lwm2m_parser_deserialize.c:163-181 | the pointer loop prepends exactly the specified entries, for every buffer |
| TlvParser.ParseInstanceList | src/lwm2m_parser_deserialize.c:195-216 | the pointer loop gives exactly the specified resources, for every buffer |
| TlvParser.ParseObjectList | src/lwm2m_parser_deserialize.c:219-235 | the pointer loop gives exactly the specified instances, for every buffer |
| Scheduler.ProcessIsExact | src/scheduler.c:116-127 | one pass runs every due task once and no other, in list order, and leaves nothing due behind if and only if no due task has a period of 0 or less |
| Scheduler.OperationsWake | src/scheduler.c:79-114 | scheduling, cancelling and executing signal a sleeping thread and leave its deadline and every other task alone; a task is due one period after it is scheduled or executed, and a cancel right after a scheduling restores the list |
| Scheduler.PassSets | src/scheduler.c:116-127 | a pass leaves a task that is not due alone, sets a due one a period on from now, and notes the time of a notification but not of an update |
| Scheduler.TaskScheduler.ScheduleTask | src/scheduler.c:79-89 | the task, of any period, is listed with its deadline and the thread signalled; no task's function is called |
| Scheduler.TaskScheduler.CancelTask | src/scheduler.c:91-103 | the newest task of that id leaves the list and the thread is signalled; no task's function is called |
| Scheduler.TaskScheduler.ExecuteTask | src/scheduler.c:105-114 | the task's function is called once, the task is set back by its period, and the thread is signalled |
| Scheduler.TaskScheduler.FindEarliestWakingTime | src/scheduler.c:45-61 | the loop finds a listed task's deadline that is no later than any other |
| Scheduler.TaskScheduler.Await | src/scheduler.c:63-77 | the thread sleeps until one second after the earliest deadline, or without a deadline if there is no task |
| Scheduler.TaskScheduler.ProcessTasks | src/scheduler.c:116-127 | the loop over the tasks in place is one pass: the log of calls grows by exactly the due tasks, each once, in list order |
| Scheduler.TaskScheduler.Resume | src/scheduler.c:136-154 | after a wait the thread leaves if stopped and calls nothing, else makes one pass and goes round |
| Scheduler.TaskScheduler.StopScheduler | src/scheduler.c:129-134 | the stop is set and the thread signalled if it sleeps |
| Reporting.NoLostWakeUpEver | src/scheduler.c:63-154 | in every reachable state, whatever ids and periods the tasks have, a sleeping, unsignalled thread has a deadline at most one second after every listed task's; while the thread lives a listed task is at most a second late if and only if its period is at least -1, and no time passes with a negative period listed |
| Reporting.StepsCanBeTaken | src/scheduler.c:63-154 | when each step can be taken: while the thread lives every new task can be scheduled and, with any task listed, every observation and update cancelled; time passes exactly while the thread sleeps unsignalled before its deadline, or is gone |
| Reporting.NewTasksAreListed | src/lwm2m_information_reporting.c:205-285 | a new observation or update is listed at once, due one period from now, and an observation is what its server's changes at the node are reported to |
| Reporting.NegativePeriodIsLate | src/lwm2m_information_reporting.c:205-220 | an observation with a period of -2 or less, as a written pmax of -5 gives: its task is late from the start and is called for a deadline more than a second ago |
| Reporting.StepKeepsObservers | src/lwm2m_information_reporting.c:184-334 | a step keeps observer lists and schedule in agreement if and only if it is no cancel that takes another task than it should: no newer listed task has the cancelled task's id |
| Reporting.RunKeepsObservers | src/lwm2m_information_reporting.c:184-334 | over whole runs the lists agree throughout if and only if every cancel takes the task it should |
| Reporting.FreshIdsHit | src/scheduler.c:39-42 | ids that do not repeat among listed tasks make every cancel take the task it should |
| Reporting.EqualIdsMiss | src/scheduler.c:39-42 | two observations made with one id, as in one second, and a cancel of the older: its task stays scheduled, observed by nobody, and the newer one, still observed, is not scheduled any more |
| Reporting.ObserversAgree | src/lwm2m_information_reporting.c:184-334 | after any run whose cancels take the right tasks a notification task is in its node's observer list as often as in the scheduler, at most once, and in no other list |
| Reporting.ObserversStand | src/lwm2m_information_reporting.c:184-334 | each observer list remembers exactly the observations not yet cancelled, newest first, whatever ids the tasks have |
| Reporting.CancelUndoesLatest | src/lwm2m_information_reporting.c:288-334 | a cancel takes the latest standing observation of that server and node out of the observer list; after any run exactly that task leaves the schedule if and only if no other listed task is the newest of its id |
| ReportingTimes.NotificationsAreSpaced | src/lwm2m_object.c:5-14 | over whole runs, however pmin changes on the way, a periodic notification of an observation comes at least its period after every earlier one, and one on a value change more than the pmin it was tested with; whatever the period |
| ReportingTimes.ChangeReportedExactly | src/lwm2m_object.c:5-14 | the other side of the spacing, in every reachable state with the thread alive: a change is reported to an observing server if and only if there is no pmin or every notification of that observation so far, whatever caused it, is more than the pmin ago; and then it is reported once, now |
| ReportingTimes.FiringsArePunctual | src/scheduler.c:45-127 | a task called for deadline w is not called before w, and is called at w or w + 1 if and only if its period is at least -1 |
| ReportingTimes.DueTaskFires | src/scheduler.c:63-127 | a listed task with deadline w that is neither cancelled nor fired early fires for it at w or w + 1, once the clock has passed w + 1 with the thread alive, if and only if its period is at least -1 |
| ReportingTimes.PeriodicFiringWindow | src/scheduler.c:79-127 | the k-th firing of a purely periodic task lies between start + k * period and start + k * (period + 1) if and only if the period is at least -1, and then has come about once that time is over, while the task is listed and the thread lives |
| Stopping.StopHonoured | src/scheduler.c:136-154 | a run ends with the thread gone if and only if the thread has come back from a wait with a stop set, which takes a stop |
| Stopping.StopInTime | src/scheduler.c:63-147 | with a stop set and the thread woken, signalled or asleep until a deadline, no run of any steps passes that deadline before the thread is gone |
| Stopping.ScheduleCanBeEmptied | src/lwm2m_information_reporting.c:288-334 | from every reachable state with the thread not gone some run of cancels alone empties the schedule, whatever ids the tasks have and whatever cancels have missed |
| Stopping.StopForeverPending | src/scheduler.c:129-147 | with a stop set, any length of time can pass before it is honoured, over runs of any steps, if and only if the thread is about to sleep, or asleep with no deadline and no signal |
| Stopping.StopLostIfReady | src/scheduler.c:129-134 | in any reachable state a stop may be lost and stay pending for any length of time if and only if it comes while the thread is not yet asleep, with tasks listed or without |
| Attributes.LastWriterWins | src/lwm2m_attribute.c:120-193 | after any run of write-attributes by any servers each stored attribute is the last value its server wrote for it, unset exactly if it wrote none |
| Attributes.FieldsDecide | include/lwm2m_attribute.h:12-19 | two records that agree on the six attributes are equal, so the law covers all that is stored |
| Attributes.PmaxIsFirstDefined | src/lwm2m_attribute.c:35-96 | each pmax lookup gives the first defined value of the levels its kind of lookup visits, default last |
| Attributes.PminExactDomain | src/lwm2m_attribute.c:26-69 | for lookups from the object, the instance and the resource and every kind of lookup: the code gives the documented pmin if and only if pmin and pmax at the object level come to the same, a lower level decides, or the lookup stays at a lower level |
| Attributes.ObjectPminIsIgnored | src/lwm2m_attribute.c:62-69 | no pmin written at the object level is seen by any pmin lookup |
| Attributes.ObjectPminIsLost | src/lwm2m_attribute.c:62-69 | a pmin written for an object that the documented lookups find and the code's do not, from any level |
| Attributes.Stored.Merge | src/lwm2m_attribute.c:120-145 | the record becomes its old values overridden by those the request sets |
| Attributes.AttributeList.OnWriteAttributes | src/lwm2m_attribute.c:149-193 | the server's record becomes what the write makes of it, added empty if it had none; no other server's changes |
| ObjectTree.Resource.SetValue | src/lwm2m_object.c:19-97 | the value is replaced and handed back if the resource has a type or the new value is NULL; a resource of no type keeps its own and hands back NULL |
| Notifying.ShouldNotify | src/lwm2m_information_reporting.c:40-84 | the list has exactly the servers concerned: the value is set or cleared, or is not numeric, or meets every limit the server wrote |
| Notifying.IntegerChangeConcerns | src/lwm2m_information_reporting.c:6-38 | an integer that goes from a to b concerns a server without limits, and one with limits if and only if b is above its gt, below its lt and more than its stp away from a, for those it wrote |
| Notifying.DoubleChangeConcerns | src/lwm2m_information_reporting.c:6-38 | the same of doubles, by the numbers their bytes stand for |
| Notifying.OtherChangesConcern | src/lwm2m_information_reporting.c:40-84 | a change that sets or clears the value, and any change of what is no number, concerns everyone |
| Notifying.Report | src/lwm2m_object.c:112-119 | the server's task at a level is called, once, exactly if it exists and passes the level's pmin |
| Notifying.NotifyResource | src/lwm2m_object.c:280-293 | of the listed servers' tasks on the resource exactly those that pass are called, each once, no other task is, and the thread is signalled if any was |
| Notifying.NotifyInstanceObject | src/lwm2m_object.c:298-322 | the same at the object's and the instance's level |
| Notifying.LimitsAre | src/lwm2m_attribute.c:26-69 | which number a level is tested with: at a resource the pmin the server wrote there, else at an instance the one it wrote there, else the pmax it wrote at the object, else its default |
| Notifying.PeriodsAre | src/lwm2m_attribute.c:35-96 | the period of a new observation: the first pmax on the way up from its node, else the server's default |
| Notifying.DefaultsAre | src/lwm2m_attribute.c:80-96 | a server's default pmin and pmax are the integers in resources 2 and 3 of its own instance, and unset if these hold none |
| Notifying.CalledExactly | src/lwm2m_object.c:5-14 | what once or not at all comes to: a server's task is called once if the change concerns the server and there is no limit, or the task never ran, or it last ran more than the limit ago; else not at all |
| Notifying.InstanceReportedUnder | src/lwm2m_object.c:314-320 | at an instance the number p that decides so is the server's own pmin there, else its pmax at the object, else its default |
| Notifying.ObjectReportedUnder | src/lwm2m_object.c:306-312 | at an object it is the pmax the server wrote there, else its default |
| Merging.MergeResource | src/lwm2m_object.c:195-295 | a single-valued resource takes its new value, the returned servers are exactly those concerned, and exactly their passing tasks ran |
| Merging.MergedHoldsNew | src/lwm2m_object.c:324-347 | with each resource given once, every given one holds its new value and no other changes |
| Merging.MergedByType | src/lwm2m_object.c:19-97 | a given resource of any type holds what it was given; one of no type is cleared by NULL and else keeps what it had |
| Merging.AddMissing | src/lwm2m_object.c:333-341 | collecting servers gives the union, each server once |
| Merging.MergeAll | src/lwm2m_object.c:324-342 | after the loop the values are the merged ones, the collected servers are exactly those some resource concerns, and only tasks of servers that a resource concerns ran at it; with each resource given once, each such task ran once if it passes the resource's pmin, else not at all |
| Merging.MergeResources | src/lwm2m_object.c:324-347 | one write, one report per level: each server's object-level and instance-level task was called exactly once, by the log of calls, if some merged resource concerns it and it passes that level's pmin, else not at all; with each resource given once, the same at every resource for its own change; nothing else ran; however often a resource is given, each call passed the pmin of its level at the time of its test; to each server the resources report before the object and that before the instance; values as merged |
| Merging.Describe | src/lwm2m_object.c:324-330 | every tree, payload and server list has the description that the contracts of the write are stated with |
| Merging.LimitsMove | src/lwm2m_attribute.c:80-87 | while an instance is written a limit changes only if the instance holds the server's default pmin, and then to the default as written so far |
| Setting.SetValue | src/lwm2m_object.c:102-139 | setting a value reports once at each of the three levels under the same condition, else not at all, and nowhere else; to each server the resource first, then the object, then the instance |
| WriteSteps.CallsAreChanges | src/scheduler.c:105-114 | calls that each pass their pmin test, at the time of the test and however often a task occurs, are a run of Change steps of the reporting machine, which ends in the state the notification code leaves |
| WriteSteps.ReachableIsReached | src/lwm2m_object.c:102-347 | every reachable state is one from which a write is known to keep the distances between notifications |
| WriteSteps.SetValueSteps | src/lwm2m_object.c:102-139 | setting a value is such a run, one step for each call, with the limits as they are when it returns; from every reachable state notifications are as far apart after it as they should be |
| WriteSteps.MergeResourcesSteps | src/lwm2m_object.c:324-347 | writing an instance is such a run for every payload, resources given twice included, one step for each call with that call's limit; from every reachable state notifications are as far apart after it as they should be |
| AccessControl.FindAco | src/lwm2m_access_control.c:107-137 | the search loop returns the first access-control instance listed for the instance, or for the object |
| AccessControl.Context.CheckCreate | src/lwm2m_access_control.c:45-72 | the creation check reads the server's rights, else the default's, of the object's access-control instance |
| AccessControl.Context.CheckAccess | src/lwm2m_access_control.c:16-43 | the access check: granted to the only server, else own rights, ownership, default rights; a NULL pointer is followed if the instance has no access-control instance |
| AccessControl.GrantsChosen | src/lwm2m_access_control.c:39-42 | rights that are the sum of any choice of READ, WRITE, EXECUTE, DELETE and CREATE grant an operation if and only if it is among those chosen |
| AccessControl.EntriesDecide | src/lwm2m_access_control.c:16-43 | unless there is just one server: a server's own entry grants exactly the operations chosen in it, even to the owner; without one the owner may do anything, and others exactly what the default entry chooses, nothing if there is none |
| AccessControl.EntriesDecideCreation | src/lwm2m_access_control.c:45-72 | who may create on an object: exactly by CREATE in the server's own entry, else in the default entry, of the object's own access-control instance; its owner has no special right |
| AccessControl.Context.OnInstanceCreate | src/lwm2m_device_management.c:248-315 | the whole new tree, status and id of a creation, error paths included, and when the tree lock is given back |
| AccessControl.Context.OnInstanceDelete | src/lwm2m_device_management.c:317-337 | the whole new tree and status of a deletion, error paths included |
| AccessControl.CreateAnswers | src/lwm2m_device_management.c:248-315 | what a creation answers and when: not authorised, not allowed for a listed id or an incomplete payload, else created; refusals make no access-control instance, and only an incomplete payload under a free id leaves anything listed |
| AccessControl.DeleteAnswers | src/lwm2m_device_management.c:317-337 | a deletion by the only server succeeds; else it is answered by the rights in the instance's access-control instance, and follows NULL if there is none |
| AccessControl.RequestsGetThrough | src/lwm2m_device_management.c:248-337 | with the lock free every request on a known object, or a live instance, can be taken up; with the lock kept only those that do without it |
| AccessControl.DeleteTakesBoth | src/lwm2m_object.c:415-435 | deletion removes the instance and its access-control instance, and changes no other instance's |
| AccessControl.CreatedIsOwned | src/lwm2m_access_control.c:90-105 | a successful creation uses a free id; with several servers it makes one access-control instance owned by the creator, the only one if and only if the id is not MAX_ID |
| AccessControl.RunKeepsPaired | src/lwm2m_device_management.c:248-337 | over any run of creations, deletions, registrations and deregistrations keys are the instance ids and distinct, no instance has two access-control instances, and each names a live instance |
| AccessControl.CreatorAlone | src/lwm2m_access_control.c:16-43 | right after its creation an instance grants other servers nothing, unless the creator's short id is 0, which everyone reads as the default |
| AccessControl.OnlyCreatorDeletes | src/lwm2m_device_management.c:317-337 | a request to delete such an instance is refused if and only if it is not the creator's, the creator's short id is not 0 and there is not just one server |
| AccessControl.NoStaleRights | src/lwm2m_device_management.c:248-337 | an instance created among several servers, under any id and however often it was used before, stays its creator's alone throughout a run if and only if neither the creator asks to delete it nor anybody while one server is registered; other servers' requests are refused |
| AccessControl.RunKeepsRights | src/lwm2m_device_management.c:248-337 | from any state in which a live instance is its creator's alone, it stays so throughout a run if and only if no request to delete it is granted |
| AccessControl.CreationAndCreateRights | src/lwm2m_access_control.c:45-72 | a successful creation leaves all rights to create as they are if and only if its id is not MAX_ID or it makes no access-control instance; otherwise nobody may create on the object any more |
| AccessControl.DeletionAndCreateRights | src/lwm2m_object.c:415-435 | a deletion changes rights to create only if the id is MAX_ID: they become those of the object's next access-control instance; unchanged if and only if that one gives the same |
| AccessControl.RunKeepsCreateRights | src/lwm2m_device_management.c:248-337 | rights to create stay as they are throughout a run if and only if no step is a successful creation under MAX_ID among several servers, or a granted deletion under it whose next access-control instance gives other rights |
| AccessControl.MarkedIdTakesCreation | src/lwm2m_access_control.c:5 | made for the only server and deleted, an instance with that id takes the object's own access-control instance with it; made among several it takes everyone's right to create at once, until its creator deletes it |
| AccessControl.RefusedButListed | src/lwm2m_device_management.c:284-304 | a creation refused for a missing mandatory resource leaves the instance listed without access-control instance and keeps the tree lock: creations, deletions, reads and writes are stuck, and the checks that skip the lock follow a NULL pointer on it exactly unless one server is registered |
| AccessControl.LockFreeExactly | src/lwm2m_device_management.c:72-337 | after any run the tree lock is free if and only if no creation failed, no deletion followed NULL and no read or write kept it |
| AccessControl.LockedForever | src/lwm2m_device_management.c:248-315 | once kept, the lock is never free again and the tree never changes |
| AccessControl.SecondServerFindsNoRights | src/lwm2m_device_management.c:302-305 | any access to an instance made for the only server follows a NULL pointer once a second one registers |
| AccessControl.StepKeepsGuarded | src/lwm2m_device_management.c:248-337 | a step leaves every instance with an access-control instance if and only if it lists no bare one: a permitted creation under a free id that is incomplete, or made with no second server registered |
| AccessControl.RunKeepsGuarded | src/lwm2m_device_management.c:248-337 | over every run all instances stay guarded if and only if no step lists a bare one, and then no access check of the run follows a NULL pointer |
| AccessControl.NullExactly | src/lwm2m_access_control.c:16-43 | after any run, bare instances listed or not, the checks of a live instance follow NULL if and only if not just one server is registered and the step that last listed the instance left it bare |
| AccessControl.BareFollowsNull | src/lwm2m_device_management.c:197-244 | one bare instance is enough for its checks and every reading of its object to follow NULL, at once unless one server is registered, else as soon as a second one registers |
| Text.DecimalReadsBack | src/lwm2m.c:6-10 | `atoi` undoes `itoa` on every number |
| Text.DecimalDigits | src/lwm2m.c:6-10 | `itoa` writes the decimal digits, the highest first, and a minus sign before those of a negative number |
| Text.AtoiReads | src/lwm2m_transport_mqtt.c:69-83 | `atoi` of any text that begins with a number, after white space and a plus sign if any, is that number, whatever follows its last digit |
| Text.TokensOfJoined | src/lwm2m_transport_mqtt.c:30-69 | cutting a joined string gives the parts back if and only if each is non-empty and free of the delimiter |
| Text.Tokenizer.Next | src/lwm2m_transport_mqtt.c:31-67 | one `strtok` call returns the next token and leaves the rest, or reports that none is left |
| Topics.SerializeTopic | src/lwm2m_transport.c:108-130 | the buffer holds the names and the defined ids, joined by slashes |
| Topics.ParseTopic | src/lwm2m_transport_mqtt.c:30-83 | the parser makes of any string what its tokens say, or follows NULL if a name is missing |
| Topics.TopicRoundTrip | src/lwm2m_transport_mqtt.c:30-83 | a topic is read back from its own name if and only if its five names are non-empty and slash-free and no id is missing before one that is given |
| Registration.SerializeTree | src/lwm2m_parser_serialize_register.c:23-44 | the loops write one link per instance, or per object without instances, joined by commas |
| Registration.PayloadInjective | src/lwm2m_parser_serialize_register.c:6-44 | for trees in which no two neighbouring objects of one id both have instances, distinct ids included, two trees have the same payload if and only if they are equal, order included; only the empty tree has the empty payload |
| Registration.PayloadDeterminesMerged | src/lwm2m_parser_serialize_register.c:6-44 | for all trees: two have the same payload if and only if they are equal once such neighbours are made one |
| Registration.RepeatedIdsCollide | src/lwm2m_parser_serialize_register.c:10-21 | every other tree shares its payload with a different tree |
| Registration.RegisterOnServer | src/lwm2m_register.c:152-200 | registering sends the payload of the whole tree and remembers it for the updates; it is empty only for the empty tree |
| Registration.Server.Update | src/lwm2m_register.c:202-247 | for every tree, an update sends the empty payload if and only if the tree prints as it did at the last registration or update, sent or not, or has no objects; for trees as in PayloadInjective that is, if it is the same tree; it sends only while registered |
| Deregistration.DeregistrationIsSafe | src/lwm2m_transport_mqtt.c:271-328 | in every reachable state of any number of request and deregistration threads: mutex free means no request pending, a request in its handler finds its server registered, and no deregistration waits on the condition |
| Deregistration.NoHandlerAfterEnd | src/lwm2m_register.c:102-136 | once the registration has ended no request reaches a handler |
| Deregistration.HandledExactlyOnce | src/lwm2m_transport_mqtt.c:271-328 | over all runs: a request that takes the mutex is handled exactly once if no deregistration has ended the registration before, and never if one has; its way to the handler is open and no other thread's step changes the outcome |
| Deregistration.EveryThreadCanFinish | src/lwm2m_register.c:102-136 | from every reachable state each request and each deregistration under way can be brought to its end |

## Left out

- TlvTree.ObjectRoundTrip: the condition is exact (TlvExactness.ObjectExact) unless the length of an instance, or of a multiple resource, before the end of its list is cut; then only the sufficient condition is stated, because the bytes left over can be read as just the entries that follow (TlvLeftover.LeftoverBytesCanMatch, TlvLeftover.NestedLeftoverCanMatch).
- TlvHeader.ParseTlvHeader: a negative decoded length, which moves the C pointer backwards, is an error of the model.
- TlvParser.ParseValue: reads outside the buffer, shifts of more than 31 bits and four-byte floats are errors of the model, where C has no defined result.
- TlvMaps.ParsedObjectIsSame: values that change in crossing (negative and large integers, doubles, links) are covered by ObjectRoundTrip, which says what they become, and not by this lemma.
- Merging.MergeResources: single-valued resources with notification on; the branch for multiple resources tests a field that parsing never sets for them, and write callbacks are taken not to touch the tree. When a payload gives one resource twice, what runs at that resource is bounded, and counted only round by round (Merging.MergeResource).
- Notifying.ShouldNotify: numbers are compared as reals, and a double is a function of its eight bytes; a limit tested on NULL, which C would follow as a pointer, is excluded.
- Reporting.NoLostWakeUpEver: a cancel needs a list that is not empty, since removing from an empty one keeps its guard; an observe or cancel request is one step with its change of the observer list, a `pmin` test is one step with the execution it allows, and an update reports nothing; split, the test would read a field that the scheduler may be changing, and the spacing property would not hold.
- ReportingTimes.NotificationsAreSpaced: waits end at their deadline and the work of a step takes no time, so with a negative period listed the clock stands still.
- Reporting.ObserversAgree: a cancel frees its task, and one that takes another task leaves the freed task listed; the model lets that task run on, where C has no defined result.
- AccessControl.RunKeepsPaired: objects that may have several instances, other than the access-control object; on single-instance objects a creation overwrites its id pointer with NULL and follows it. Whether a payload has every mandatory resource is a parameter; the merge that follows is in Merging. Reads and writes are one step that may keep the lock.
- Topics.SerializeTopic: ids fit the ten bytes of `itoa`; the round trip itself is stated for all ids.
- Registration.Server.Update: only the payload; the parameter line for endpoint, lifetime and binding mode is not part of this model.
- Deregistration.DeregistrationIsSafe: the object tree lock, which can only delay a thread, is left out.
- Buffers of fixed size (5000, 200 and 100 bytes): outputs are taken to fit.
- malloc, free and leaks, including the frees that `__merge_attributes` guards with the wrong field.
- MQTT connections, publishing and subscriptions, TLS and logging: input and output only.
- Text-format values: they depend on the C library's number formatting, and long texts are shortened for display.
- `serialize_response` and `parse_response`: the response class is not carried, so there is no round trip.
- Bootstrap, and deletion of observed instances, which cancels no task.
- Deadlock freedom: the scheduler's mutex and the object tree lock are taken in both orders.
- The tables of predefined objects: data only.
