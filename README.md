# AutomationServer: life cycle and duration reports

This Dafny project models two parts of `AutomationServer`. That class is the embedded
automation server of the Android automation library.

1. **The server life cycle** (`lifecycle.dfy`, module `Lifecycle`).
   - The process-wide singleton is created by `install` on port 4939.
   - Each server has three handles: the loop thread `mThread`, the worker pool `mThreadPool` and
     the listening socket `mServer`. `start`, `stop` and `isRunning` act on these handles.
   - `stop` clears the shared window registry, which is a static field.
   - The first step of the loop thread is modelled: it binds the socket and then decides whether
     to enter the accept loop.
   - Threads, pools, sockets and the registry are small classes. Each holds only the flags these
     operations read and write.
   - Outcomes the platform decides are parameters of the method that meets them:
     - `Stop(closeSucceeds)`: whether `close()` throws `IOException`.
     - `BindInLoopThread(runner, bindSucceeds)`: whether the bind succeeds.
   - The model follows the code as written:
     - `stop` returns `true` right after a successful close. It does NOT clear the registry on
       that path.
     - When a thread handle is set but the socket is `null`, `stop` ends in a
       `NullPointerException`. This is `StopOutcome.NullSocket`. The socket is `null` when no
       bind has succeeded since the handle was last dropped; a failed bind keeps the previous
       handle. So this also happens when `stop` runs after `start` but before the loop thread
       has reached the bind at line 424.
     - `start` refuses whenever a thread handle is set, even a dead one. So `install` never
       revives a loop thread that has died.
   - Four scenario methods state these behaviours end to end.

2. **The duration reports** (`duration_report.dfy`, module `DurationReport`). These are the text
   builders of `reportAllActivityDuration` and `sendActivityDuration`.
   - The two global duration maps are parameters. The iteration order of the `HashMap` is also a
     parameter, `entries`.
   - `Collections.sort` with the TotalDuration comparator (a stable merge sort) is modelled by a
     stable insertion sort, which yields the same order. It is proved sorted and a permutation,
     so every recorded activity appears exactly once.
   - In the full report and in ordinary-mode mails, an activity's total is wrapped in
     `<font color="red">` if and only if it exceeds 800. The first-launch mail never wraps the
     activity's own total; only its launch total is red.
   - The first-launch mail is titled "App First Launch Duration". Its body ends with the red sum of
     the activity's TotalDuration and the parsed app-level OnCreate.
   - The Java exceptions are `Err` results:
     - A missing activity raises `NullPointerException`.
     - An unparsable OnCreate raises `NumberFormatException`.

   `numerals.dfy` (module `Numerals`) holds the Java arithmetic these builders rely on:
   - 32-bit `int` addition with wrap-around.
   - `Integer.toString`.
   - `Integer.parseInt` with radix 10, for ASCII input.
   - The round trip between `Integer.parseInt` and `Integer.toString`.

Two details of the code are worth stating plainly:
- `stop` returns at line 398, before the registry is cleared at lines 403-404. A failed
  `close()` keeps `mServer`.
- The listening socket is bound to the address `InetAddress.getLocalHost()` returns. That
  address is not modelled.

## Model

| member | source | states |
|---|---|---|
| Lifecycle.Server.constructor | android-automation-library/src/main/java/com/qa/automation/android/AutomationServer.java:79-81 | a new server has the given port and no thread, pool or socket |
| Lifecycle.Server.Start | android-automation-library/src/main/java/com/qa/automation/android/AutomationServer.java:365-373 | starts iff no thread handle was set. A refusal changes nothing. Otherwise: a fresh running thread named "Local View Server [port=<port>]", a fresh 10-worker pool, the socket untouched, and `IsRunning()` afterwards |
| Lifecycle.Server.Stop | android-automation-library/src/main/java/com/qa/automation/android/AutomationServer.java:382-406 | four outcomes. (1) No thread: registry cleared, returns false. (2) Thread but null socket: thread interrupted, pool shut down, handles dropped, NullPointerException, registry untouched. (3) Successful close: socket closed and dropped, returns true, registry untouched. (4) Failed close: socket kept and still open, registry cleared, returns false. The old thread is never killed by `stop`, and with no thread the pool and socket are left as they were |
| Lifecycle.Server.IsRunning | android-automation-library/src/main/java/com/qa/automation/android/AutomationServer.java:415-417 | running means a thread handle is set and that thread is alive; the socket is not consulted |
| Lifecycle.Server.BindInLoopThread | android-automation-library/src/main/java/com/qa/automation/android/AutomationServer.java:422-429 | a successful bind sets a fresh open socket on the port with backlog 10. A failed bind leaves the old handle. The runner stays alive iff a socket is set and it is still the thread of record |
| Lifecycle.LoopThread.Start | android-automation-library/src/main/java/com/qa/automation/android/AutomationServer.java:371 | the thread becomes started and alive |
| Lifecycle.LoopThread.Interrupt | android-automation-library/src/main/java/com/qa/automation/android/AutomationServer.java:384 | the interrupt flag is set |
| Lifecycle.WorkerPool.ShutdownNow | android-automation-library/src/main/java/com/qa/automation/android/AutomationServer.java:385-391 | the pool is shut down |
| Lifecycle.ListeningSocket.Close | android-automation-library/src/main/java/com/qa/automation/android/AutomationServer.java:395-401 | reports whether the close succeeded. The socket is closed iff it already was or the close succeeded |
| Lifecycle.WindowRegistry.ClearWindows | android-automation-library/src/main/java/com/qa/automation/android/AutomationServer.java:403 | the window list is empty |
| Lifecycle.WindowRegistry.ClearFocusedWindow | android-automation-library/src/main/java/com/qa/automation/android/AutomationServer.java:404 | no window is focused |
| Lifecycle.Statics.constructor | android-automation-library/src/main/java/com/qa/automation/android/AutomationServer.java:60-62 | no singleton, no current context, an empty unfocused registry |
| Lifecycle.Statics.Install | android-automation-library/src/main/java/com/qa/automation/android/AutomationServer.java:109-125 | returns the existing singleton, or a fresh one on port 4939. A running server is left unchanged. One without a thread handle gets a fresh running thread. One with a dead thread keeps it and stays not running. The context is recorded |
| Lifecycle.InstallTwice | android-automation-library/src/main/java/com/qa/automation/android/AutomationServer.java:109-125 | two installs return the same singleton, and the first loop thread is the only one, still running |
| Lifecycle.DeadThreadNotRevived | android-automation-library/src/main/java/com/qa/automation/android/AutomationServer.java:109-125 | after a failed bind the thread dies. A second install does not revive it (not running), and `stop` ends in the NullPointerException |
| Lifecycle.StopThenRestart | android-automation-library/src/main/java/com/qa/automation/android/AutomationServer.java:382-398 | after a successful bind, `stop` returns true and a later `start` succeeds |
| Lifecycle.FailedCloseKeepsSocketOpen | android-automation-library/src/main/java/com/qa/automation/android/AutomationServer.java:395-404 | after a failed `close()`, `stop` returns false, the socket stays open and `stop` does not kill the loop thread |
| Numerals.WrapInt32 | android-automation-library/src/main/java/com/qa/automation/android/AutomationServer.java:289 | the Java `int` sum is congruent to the mathematical sum modulo 2^32, and equal to it when that fits in 32 bits |
| Numerals.NatToString | android-automation-library/src/main/java/com/qa/automation/android/AutomationServer.java:289 | non-empty, all decimal digits, no leading zero |
| Numerals.IntToString | android-automation-library/src/main/java/com/qa/automation/android/AutomationServer.java:246 | non-empty. Starts with '-' iff the value is negative. Every other character is a digit |
| Numerals.ParseInt | android-automation-library/src/main/java/com/qa/automation/android/AutomationServer.java:289 | only decimal numerals (optional sign, at least one digit) are accepted, and every string of one to nine digits is |
| Numerals.DigitsValueOfNatToString | android-automation-library/src/main/java/com/qa/automation/android/AutomationServer.java:289 | reading back the digits written for n gives n |
| Numerals.ParseIntOfIntToString | android-automation-library/src/main/java/com/qa/automation/android/AutomationServer.java:289 | `Integer.parseInt(Integer.toString(x)) == x` for every Java `int` |
| Numerals.ParseIntOfSignedDigits | android-automation-library/src/main/java/com/qa/automation/android/AutomationServer.java:289 | an optional sign followed by digits parses to the signed value of the digits whenever that fits in an `int` |
| Numerals.ParseIntOfNumeral | android-automation-library/src/main/java/com/qa/automation/android/AutomationServer.java:289 | every in-range numeral with an optional "+" or "-" and any number of leading zeros parses to its signed value |
| Numerals.IntToStringIsNumeral | android-automation-library/src/main/java/com/qa/automation/android/AutomationServer.java:289 | every string `Integer.toString` writes is a decimal numeral |
| DurationReport.AppOnCreate | android-automation-library/src/main/java/com/qa/automation/android/AutomationServer.java:289 | the app-level OnCreate as `Integer.parseInt` reads it; none when the entry is missing (`parseInt(null)`) or malformed |
| DurationReport.AppHeader | android-automation-library/src/main/java/com/qa/automation/android/AutomationServer.java:240-241 | the header both builders open with: "App Name:" and the app-level OnCreate, each appended as "null" when missing |
| DurationReport.TotalLine | android-automation-library/src/main/java/com/qa/automation/android/AutomationServer.java:245-249 | the " Total Duration:" line, with the value in red font tags when it exceeds 800 |
| DurationReport.ReportBody | android-automation-library/src/main/java/com/qa/automation/android/AutomationServer.java:240-254 | the full report for a visiting order: the header, then one paragraph per activity appended in that order |
| DurationReport.InsertByTotal | android-automation-library/src/main/java/com/qa/automation/android/AutomationServer.java:234-238 | inserting a recorded activity adds exactly that name (multiset) and keeps every name recorded |
| DurationReport.SortByTotal | android-automation-library/src/main/java/com/qa/automation/android/AutomationServer.java:233-238 | the sorted list is a permutation of the entry list, and every name is recorded |
| DurationReport.InsertByTotalSorted | android-automation-library/src/main/java/com/qa/automation/android/AutomationServer.java:234-238 | insertion into a list sorted by TotalDuration keeps it sorted |
| DurationReport.SortByTotalSorted | android-automation-library/src/main/java/com/qa/automation/android/AutomationServer.java:233-238 | the sorted list is in non-decreasing TotalDuration order |
| DurationReport.SortedEntriesListEachActivityOnce | android-automation-library/src/main/java/com/qa/automation/android/AutomationServer.java:233-242 | the report order holds one entry per recorded activity and no duplicates. A name is in it iff it is recorded. It is sorted by TotalDuration |
| DurationReport.ReportIsHeaderThenParagraphs | android-automation-library/src/main/java/com/qa/automation/android/AutomationServer.java:240-254 | the report body is the app header followed by one paragraph per activity, in order |
| DurationReport.ReportLayout | android-automation-library/src/main/java/com/qa/automation/android/AutomationServer.java:242-254 | the i-th activity's paragraph sits between the header plus the earlier paragraphs and the later ones |
| DurationReport.ReportBodyExtend | android-automation-library/src/main/java/com/qa/automation/android/AutomationServer.java:242-254 | the body for the first k+1 activities is the body for the first k with the (k+1)-th appended |
| DurationReport.TotalLineRedIff | android-automation-library/src/main/java/com/qa/automation/android/AutomationServer.java:245-249 | the total line carries the red font tag iff the total exceeds 800 |
| DurationReport.PhaseLineNeverRed | android-automation-library/src/main/java/com/qa/automation/android/AutomationServer.java:250-252 | a phase line never carries the red font tag |
| DurationReport.DurationLinesRedIff | android-automation-library/src/main/java/com/qa/automation/android/AutomationServer.java:293-300 | the total line and the three phase lines together carry the red tag iff the total exceeds 800 |
| DurationReport.ParagraphRedIff | android-automation-library/src/main/java/com/qa/automation/android/AutomationServer.java:243-253 | an activity's paragraph opens with its name line, and what follows contains the red tag iff its total exceeds 800 |
| DurationReport.AppendActivityLines | android-automation-library/src/main/java/com/qa/automation/android/AutomationServer.java:243-253 | the appends of one loop iteration produce that activity's paragraph after the text so far |
| DurationReport.ReportAllActivityDuration | android-automation-library/src/main/java/com/qa/automation/android/AutomationServer.java:232-264 | the mail is titled "Activity Duration Report", and its body is the header then each activity's paragraph in TotalDuration order |
| DurationReport.SendActivityDuration | android-automation-library/src/main/java/com/qa/automation/android/AutomationServer.java:277-302 | an unrecorded activity gives NullPointerException. A first launch with an unparsable OnCreate gives NumberFormatException. Otherwise the mail is built, titled "App First Launch Duration" or "Activity Duration Report" |
| DurationReport.FirstLaunchBody | android-automation-library/src/main/java/com/qa/automation/android/AutomationServer.java:283-289 | the first-launch body: header, name line, unhighlighted " Activity Total Duration:" line, the three phase lines, and the red wrapped launch total with no trailing newline |
| DurationReport.OrdinaryBody | android-automation-library/src/main/java/com/qa/automation/android/AutomationServer.java:292-300 | the ordinary body: "Activity Name:" and the name with no newline, then the total line and the three phase lines |
| DurationReport.FirstLaunchTotalIsRed | android-automation-library/src/main/java/com/qa/automation/android/AutomationServer.java:281-289 | a first-launch mail exists only for a recorded activity with a parsable OnCreate. It is titled "App First Launch Duration" and ends with the red (wrapped) sum of TotalDuration and OnCreate, whatever the values |
| DurationReport.OrdinaryReportRedIff | android-automation-library/src/main/java/com/qa/automation/android/AutomationServer.java:290-301 | for a recorded activity the ordinary mail is built and titled "Activity Duration Report". It opens with "Activity Name:" and the name, and the rest carries the red tag iff the total exceeds 800 |

## Left out

- The accept loop of `run()` (lines 430-446) and the worker sessions it submits are not modelled.
  Only the bind and the loop-entry condition are. The network, sockets and threads are not modelled.
- Concurrency is not modelled: every operation runs atomically. The unsynchronised window
  registry's races are outside the model.
- `addWindow`, `removeWindow`, `setFocusedWindow`, the registry getters and
  `getCurrContext`/`setCurrContext` are not modelled. `WindowManager` is not part of this model;
  only the two clears `stop` performs are.
- `init`, `initStrictMode`, `getViewCenter`, `getLastToast` and `isMusicActive` are not modelled.
  They call into Android APIs and other classes that are not part of this model.
- The private no-argument constructor (`mPort = -1`) is not modelled, because nothing in the class
  calls it.
- `Lifecycle.WorkerPool.ShutdownNow`: the `SecurityException` that `shutdownNow` may throw is
  logged and ignored by `stop`. The model takes the pool as shut down in every case.
- `Lifecycle.Statics.Install`: the `IOException` catch around `start()` is unreachable, because
  `start` never throws. The model has no error path there.
- Log calls and mail delivery are not modelled. This covers the `Log.w` calls, the mail thread,
  `MailSender.sendHTMLMail`, the recipients and the SMTP credentials. The builders return the
  title and body they would hand over.
- `DurationReport.SortByTotal`: `Collections.sort` is stable, but the order in which the
  `HashMap` hands out entries is unspecified. So the entry order is the parameter `entries`, and
  the order among equal totals is that of `entries`.
- A recorded activity missing one of its inner keys (TotalDuration, OnCreate, OnStart, OnResume)
  makes the source throw `NullPointerException` when it unboxes or calls `toString()`. The model
  records all four values per activity, so that case cannot arise.
- A missing "AppName" or "OnCreate" in the app-level map is appended as "null" (`AppendedValue`).
  That is what `StringBuilder.append(Object)` does.
- `Numerals.ParseInt`: `Integer.parseInt` also accepts non-ASCII Unicode decimal digits. The model
  accepts ASCII digits only.
- `DurationReport.FirstLaunchTotalIsRed`: states the title and how the body ends. That the body
  opens with the app header and the activity's lines follows from the definition of
  `FirstLaunchBody` and is not restated as a lemma.
- `DurationReport.OrdinaryReportRedIff`: states the opening of the body and where the red tag is.
  The exact phase lines are given by `OrdinaryBody`.
