# lmkd reaper bookkeeping and client helpers, in Dafny

This project models two small pieces of sequential logic from lmkd, Android's
low-memory-killer daemon, and proves properties about them.

* **The Reaper's request bookkeeping** (`reaper.h`, `reaper.cpp`). The main
  thread asks for a process to be killed with `request_kill`. The request is
  admitted only for an fd other than -1, while reaper threads exist, and while
  fewer requests are active than there are threads. An admitted request is
  pushed onto a work list. Reaper threads take the newest entry
  (`dequeue_request`) and later call `request_complete`. The model also covers
  `get_time_diff_ms` (with C's truncating division) and the tri-state cache of
  `is_reaping_supported`.
* **The lmkd client library** (`liblmkd_utils.cpp`). This covers how the
  outcome of `lmkd_update_props` is chosen among five values, and how
  register/unregister map write results to return codes. It also covers the
  scan of `cgroup.controllers` for the `memory` token and its once-computed
  cache, and the choice of apps directory. Finally, it covers `create_memcg`:
  the paths it builds, their truncation to a 256-byte buffer, the calls it
  makes and its return codes -1/-2/-3/0.

The results of system calls and of reading files become inputs:

* what `write` and `read` returned;
* the decoded command tag and result field of a reply;
* how each `mkdir` ended (created, `EEXIST`, other error);
* the fd `open` returned;
* the content of `cgroup.controllers`, or `None` when it cannot be opened;
* what `dup` returned;
* the result and errno of the `process_mrelease` probe;
* whether each `pthread_create` succeeded.

Files:

* `cformat.dfy` (module `CFormat`): `%u` rendering of 32-bit values, its
  inverse, and what `snprintf` leaves in a 256-byte buffer.
* `lmkd_client.dfy` (module `LmkdClient`): `liblmkd_utils.cpp`.
* `reaper.dfy` (module `Reaper`): `reaper.h` and `reaper.cpp`. The `Reaper`
  class holds `queue`, `active`, `threadCnt` and `debugLogsEnabled`, and its
  methods update them in place. The postconditions of the request, dequeue and
  complete methods tie the new state to a pure step function (`KillStep`, `DequeueStep`, `CompleteStep`). Lemmas
  about runs of these steps state the admission invariants. These runs are
  sequences of request/dequeue/complete events.

Two consequences of the code worth stating:

* `create_memcg` creates its directories with mode 0775
  (`S_IRWXU | S_IRWXG | S_IROTH | S_IXOTH`, liblmkd_utils.cpp:110 and 116):
  rwx for owner and group, r-x for others.
* Its outcome does not depend on whether a directory was created or already
  existed, because EEXIST is tolerated (liblmkd_utils.cpp:111 and 117).

## Model

| member | source | states |
|---|---|---|
| `CFormat.AsUnsigned` | liblmkd_utils.cpp:115 | `%u` applied to a `pid_t` reads the same 32 bits as unsigned: non-negative values are unchanged, negative values gain 2^32 |
| `CFormat.Decimal` | liblmkd_utils.cpp:126 | the `%u` text is non-empty, all digits, has no leading zero, and is one character long exactly for values below 10 |
| `CFormat.DecimalRoundTrip` | liblmkd_utils.cpp:126 | parsing the `%u` text of n gives back n |
| `CFormat.DecimalLength` | liblmkd_utils.cpp:126-129 | a number below 10^k has at most k digits |
| `CFormat.U32DecimalFits` | liblmkd_utils.cpp:126-129 | the `%u` text of any 32-bit value has at most 10 characters, so the defensive clamp to 255 never fires |
| `CFormat.Snprintf` | liblmkd_utils.cpp:109 | the buffer holds at most 255 characters; it is a prefix of the full text, and equals the full text whenever that fits |
| `CFormat.TruncationKeepsPrefix` | liblmkd_utils.cpp:109-121 | the truncated text of a path is a prefix of the truncated text of any extension of it |
| `LmkdClient.LmkdUpdateProps` | liblmkd_utils.cpp:57-79 | SEND_ERR iff the write failed; RECV_ERR iff the write succeeded and the read returned a negative value; FORMAT_ERR iff the read succeeded but the size is not 2*sizeof(int) or the tag is not LMK_UPDATE_PROPS, whatever the result field says; for a well-formed reply, SUCCESS iff result == 0, FAIL otherwise |
| `LmkdClient.SendErrIgnoresReply` | liblmkd_utils.cpp:61-64 | once the write fails the outcome is SEND_ERR, whatever a read would have returned |
| `LmkdClient.EveryUpdatePropsOutcomeOccurs` | liblmkd_utils.cpp:57-79 | each of the five outcomes is produced by some write result and reply |
| `LmkdClient.LmkdRegisterProc` | liblmkd_utils.cpp:35-44 | returns -1 iff the write result is negative, else 0; a short write counts as success |
| `LmkdClient.LmkdUnregisterProc` | liblmkd_utils.cpp:46-55 | returns -1 iff the write result is negative, else 0; a short write counts as success |
| `LmkdClient.SendFailureAgrees` | liblmkd_utils.cpp:41-64 | register/unregister report -1 exactly when update_props reports SEND_ERR for the same write result |
| `LmkdClient.NoTokenInsideRun` | liblmkd_utils.cpp:85-89 | within one run of non-space characters, "memory" is a whole token only if the run is exactly "memory" |
| `LmkdClient.DetectMemcgV2` | liblmkd_utils.cpp:81-92 | true iff the file opened and some whitespace-delimited token of its content is exactly "memory"; an unreadable or empty file gives false |
| `LmkdClient.AppsDir` | liblmkd_utils.cpp:100-102 | the result is one of the two fixed directories, "/sys/fs/cgroup" exactly when v2 is in use |
| `LmkdClient.MemcgVersion.constructor` | liblmkd_utils.cpp:95 | the detection result starts out not yet computed |
| `LmkdClient.MemcgVersion.UsingMemcgV2` | liblmkd_utils.cpp:94-98 | the first call stores the result of the scan; every later call returns the stored value whatever the file then holds |
| `LmkdClient.MemcgVersion.MemcgAppsDir` | liblmkd_utils.cpp:100-102 | the first call stores whether `controllers` lists the `memory` token; every call returns the v2 apps directory exactly when the stored answer is true, else the v1 one; an existing cached value is not changed |
| `LmkdClient.CreateMemcg` | liblmkd_utils.cpp:104-134 | -1 iff one of the mkdirs fails with something other than EEXIST. -2 iff both directory steps pass and open fails. -3 iff the file opened and the write failed. 0 otherwise. Every path handed to the file system has at most 255 characters. The calls stop at the failing stage: mkdir uid dir, mkdir pid dir, open tasks, write the pid's decimal text, close. Nothing is written unless the open succeeded, and close always follows the write |
| `LmkdClient.ProvisionedPathsNest` | liblmkd_utils.cpp:109-122 | each truncated path (uid directory, pid directory, tasks file) is a string prefix of the next; after truncation they can coincide or end mid-component |
| `LmkdClient.LongAppsDirCollapsesPaths` | liblmkd_utils.cpp:109-122 | with an apps directory of at least 250 characters, both mkdir calls and the open all name the same path: the first 255 characters of the apps directory with "/uid_" appended |
| `LmkdClient.TasksFileNamesThePid` | liblmkd_utils.cpp:126-130 | the text written to the tasks file is all digits and parses back to the pid, read as unsigned |
| `LmkdClient.ProvisioningExample` | liblmkd_utils.cpp:109-130 | uid 1000 and pid 2000 give `…/uid_1000`, `…/uid_1000/pid_2000`, `…/pid_2000/tasks` and the written text "2000" |
| `Reaper.KillStep` | reaper.cpp:154-181 | accepted iff pidfd != -1, threads exist and active < threadCnt. A refusal changes nothing. Acceptance raises active by exactly one and appends exactly one entry {dup'd fd, pid} at the back, keeping earlier entries. The thread count never changes, and active <= threadCnt is preserved |
| `Reaper.DequeueStep` | reaper.cpp:193-204 | the taken entry is the last one, and the remaining queue followed by it is the old queue; the counters are untouched |
| `Reaper.CompleteStep` | reaper.cpp:206-209 | active decreases by exactly one; the queue and thread count are unchanged |
| `Reaper.DequeueTakesLatestRequest` | reaper.cpp:170-203 | LIFO: dequeuing right after an accepted request returns exactly that request and restores the previous queue |
| `Reaper.ActiveNeverExceedsThreads` | reaper.cpp:166-170 | along any feasible run of requests, dequeues and completions, active never exceeds the thread count, which never changes |
| `Reaper.ActiveAccounting` | reaper.cpp:170-208 | along any run, active minus the queue length changes by the number of dequeues minus the number of completions, so it counts taken-but-uncompleted requests |
| `Reaper.SaturatedWithoutCompletion` | reaper.cpp:61-87 | once active reaches the thread count, a run without request_complete (as after failed kills in the reaper loop) keeps active fixed and never adds to the queue |
| `Reaper.NoThreadsNoAdmission` | reaper.cpp:161-163 | with no reaper threads no run ever adds to the queue |
| `Reaper.FreshReaperRefuses` | reaper.h:42 | on a freshly constructed Reaper every request_kill returns false and changes nothing |
| `Reaper.Reaper.constructor` | reaper.h:42 | empty queue, no active requests, no threads, debug logs off |
| `Reaper.Reaper.ReaperThreadCnt` | reaper.h:49 | returns the stored thread count; a function, so it changes nothing |
| `Reaper.Reaper.EnableDebugLogs` | reaper.h:50 | afterwards the debug flag is the argument and the bookkeeping is unchanged |
| `Reaper.Reaper.DebugLogsEnabled` | reaper.h:51 | returns the debug flag |
| `Reaper.Reaper.CreateThreadPool` | reaper.cpp:131-152 | the thread count is the number of successful thread creations; returns true iff it is not zero; queue and active are untouched |
| `Reaper.Reaper.RequestKill` | reaper.cpp:154-181 | the new state and result are those of `KillStep`: refused requests change nothing; accepted ones add one to active and push {dupFd, pid} at the back |
| `Reaper.Reaper.DequeueRequest` | reaper.cpp:193-204 | returns the last entry and removes only it; counters unchanged |
| `Reaper.Reaper.RequestComplete` | reaper.cpp:206-209 | active decreases by exactly one; queue and thread count unchanged |
| `Reaper.TruncDiv` | reaper.cpp:46-47 | rounds toward zero: for a >= 0, q*d <= a < q*d + d; for a < 0, q*d - d < a <= q*d <= 0 |
| `Reaper.TimeDiffMs` | reaper.cpp:44-48 | the reported milliseconds, (to.sec - from.sec)*1000 plus the nanosecond difference divided by 10^6 rounding toward zero, differ from the exact time difference by less than one millisecond, in the direction of the nanosecond difference |
| `Reaper.TimeDiffAntisymmetric` | reaper.cpp:44-48 | swapping the two timestamps negates the result |
| `Reaper.TimeDiffSelf` | reaper.cpp:44-48 | the difference of a timestamp from itself is 0 |
| `Reaper.ProbeReapSupport` | reaper.cpp:100-104 | the probe concludes unsupported exactly when process_mrelease fails with ENOSYS, supported otherwise, never unknown |
| `Reaper.ReapingSupport.constructor` | reaper.cpp:93-97 | the cached state starts out UNKNOWN |
| `Reaper.ReapingSupport.IsReapingSupported` | reaper.cpp:92-107 | the first call stores the probe's conclusion; later calls keep the stored state whatever a probe would say; returns true iff the state is SUPPORTED |

## Left out

- `lmkd_connect`: socket creation is I/O and has no logic to model.
- The `lmkd_pack_*` packet codec and the `LMKD_CTRL_PACKET` layout come from a header that is not part of this model. The reply is given as its size, its decoded command tag and its result field. `LMK_UPDATE_PROPS` is taken as 7, its position in the `lmk_cmd` enumeration of lmkd.h, and `sizeof(int)` as 4.
- `TEMP_FAILURE_RETRY`: the retry on EINTR is not modelled; the input is the value the retried call finally returned.
- The real effects of `mkdir`, `open`, `write`, `close` and the `ifstream` read are not modelled. Their outcomes are inputs, and `create_memcg` records the calls it makes as a list. The result of `close` is ignored, as in the source.
- `LmkdClient.CreateMemcg`: an apps directory containing a NUL character would cut `%s` short in C. The model treats it as an ordinary character.
- `LmkdClient.CreateMemcg`: each character of a path stands for one byte of the C string. `snprintf` truncates at 255 bytes, so for an apps directory with multi-byte (for example UTF-8) characters the model's "at most 255 characters" is not the C bound, and C may cut a character in half. The same holds for `CFormat.Snprintf`.
- The thread-safety of the static `using_v2` and `reap_support` caches is not modelled; each cache is an object holding its once-computed value.
- `reaper_main`, the `pthread_t` pool, `get_nprocs`, and the mutex/condition-variable waits are not modelled. These are thread machinery. The blocking wait in `dequeue_request` becomes the precondition that the queue is non-empty. Its only consequence for the bookkeeping, that failed kills skip `request_complete`, is stated by `Reaper.SaturatedWithoutCompletion`.
- `Reaper.Reaper.CreateThreadPool` models only the counting of successful `pthread_create` calls (the input `spawned`, one entry per CPU). The threads themselves and `queue_.reserve` are not modelled.
- The kill-failure pipe (`setup_thread_comm`, `drop_thread_comm`, `get_failed_kill_pid`, `notify_kill_failure`) is fd I/O and is not modelled.
- `pidfd_send_signal`, `process_mrelease`, `dup`, `SetTaskProfiles`, `clock_gettime` and logging are foreign calls. `dup`'s result is the input `dupFd`, queued unchecked as in the source. The probe's result and errno are inputs.
- `Reaper.Reaper.RequestKill`: `active_requests_` is a C `int`, whose overflow is not modelled; it is bounded by the thread count. As in the source, `Reaper.Reaper.RequestComplete` does not stop the counter going below zero.
- `Reaper.TimeDiffMs`: the `long` arithmetic of `get_time_diff_ms` (32 or 64 bits by ABI) is modelled with unbounded integers, so its overflow is not captured: after about 2^31 ms on 32-bit ABIs, 2^63 ms on 64-bit ones.
- The watchdog (`watchdog.cpp`, `watchdog.h`) is not part of this model. It is a timer thread whose point is timing and concurrency.
