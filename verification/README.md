# Ajile DMD streaming examples, modelled in Dafny

The repository holds two host programs that stream images to an Ajile DMD
projector, plus a helper that runs a prebuilt DMD project. This project models
them as follows.

- `streaming.py` (the root program) and `Streaming/streaming.py`:
  - Load the images of a directory into a deque.
  - Stop the device and wait until it reads STOPPED, then load a project.
  - Pump frames into the device's streaming buffer while it holds fewer than
    100 (root) or 500 (`Streaming/`) items.
  - Start the sequence when the buffer is full and the device reads STOPPED.
  - Read a key after each full pass, and leave on `q`/`Q` or when the deque
    runs dry.
  - Finally stop the device and wait while it still reads RUNNING.
- `Streaming/example_helper.py`: `RunDmdExample` parses the command line and
  connects. It checks that the caller's project holds the requested sequence,
  then stops the device and loads the project. It then runs every sequence in
  turn:
  - lite mode for a narrow region of interest;
  - start, and abort if the start returns -1;
  - wait for RUNNING;
  - stop by hand when the repeat count is 0;
  - wait while RUNNING.
- `utilities.py`, `Streaming/utilities.py` and `Streaming/example_helper.py`
  share the command-line parser (three near-identical copies). `GaugedQueue`
  is a FIFO queue that samples its own throughput.
- `Streaming/constants.py` and the utilities hold the driver's enumerations and
  the default parameters.

The vendor driver, the device and the keyboard are not code this model can
see. They become inputs:
- a busy wait on the run state is the first index of a trace of polled states
  that satisfies its condition;
- each loop iteration reads one observation (buffer occupancy, run state, key
  code);
- what the programs do to the device is a log of driver commands.

Modules:
- `Wrappers`: Option and Result.
- `SeqFacts`: small sequence lemmas.
- `DriverCodes`: the enumerations and constants.
- `IntText`: Python's `int()` on text.
- `CommandLine`: the parser.
- `GaugedQueue`.
- `ImageLoading`: both `load_images` variants.
- `Driver`: the commands, busy waits and key decoding.
- `StreamPump`: both streaming `main`s.
- `DmdExample`: `RunDmdExample`.

### Behaviour worth knowing

- There is no one-shot guard on Start. Every full pass that reads STOPPED
  issues Start again (`StreamPump.StartIsReissued`).
- A submission is made once per frame and its result is ignored; nothing is
  retried.
- `RunDmdExample` raises when a start returns -1 and does not stop the device
  first (`DmdExample.ManualStopOnlyWhenRepeating`, `DmdExample.AbortedRun`).
- The final wait lasts only while the device reads RUNNING, so PAUSED ends it
  as well as STOPPED or PARKED.
- `RunDmdExample` stops the device but does not wait for STOPPED before loading
  the project.
- The buffer threshold is a fixed 100 (root) or 500 (`Streaming/`). The
  computed `dmdImageSize` is never used.
- The `__main__` block of `Streaming/streaming.py` only loads the images and
  never runs `main`. Its `main` is still modelled, with threshold 500.
- The `Streaming/` image conversion raises on every file (`shapep`), so its
  `load_images` only succeeds on a walk that lists no file
  (`ImageLoading.LoadFirstImages`).

## Model

| member | source | states |
|---|---|---|
| DriverCodes.RunStateOfCode | Streaming/constants.py:29-34 | decoding a run-state code gives the state with that code, and fails exactly on codes no state has |
| DriverCodes.RunStateRoundTrip | Streaming/utilities.py:52-57 | every run state decodes back from its code (PARKED 1 … PAUSED 4) |
| DriverCodes.RunStateCode | Streaming/constants.py:29-34 | run-state codes lie in 1..4, with STOPPED exactly 2 and RUNNING exactly 3 |
| DriverCodes.RunStateCodesDistinct | Streaming/constants.py:29-34 | two run states share a code only if they are the same state |
| DriverCodes.ErrorCode | Streaming/constants.py:14-27 | ERROR_NONE is the only 0, ERROR_WARNING the only 1, and every other error is in -10..-1 |
| DriverCodes.ErrorOfCode | utilities.py:23-35 | decoding an error code is the inverse of ErrorCode, failing exactly on codes no error has |
| DriverCodes.ErrorRoundTrip | Streaming/utilities.py:37-50 | every error type decodes back from its code |
| DriverCodes.ErrorCodesDistinct | Streaming/constants.py:14-27 | the twelve error codes are pairwise distinct |
| DriverCodes.ControlInputCode | Streaming/constants.py:37-51 | control-input codes lie in 0..13, and the external trigger outputs are exactly the codes from 6 up |
| DriverCodes.ControlInputOfCode | Streaming/utilities.py:60-74 | decoding a control-input code is the inverse of ControlInputCode |
| DriverCodes.StateOutputCode | Streaming/constants.py:53-70 | state-output codes lie in 128..143 or are 150, which is LIGHTING_ON alone |
| DriverCodes.StateOutputOfCode | Streaming/utilities.py:76-93 | decoding a state-output code is the inverse of StateOutputCode |
| DriverCodes.SignalCodesRoundTrip | Streaming/constants.py:37-70 | control inputs and state outputs both decode back from their codes |
| DriverCodes.SignalCodesDisjoint | Streaming/constants.py:53-70 | no control-input code is a state-output code, and neither decoder accepts the other's codes |
| DriverCodes.TriggerTypeCode | Streaming/constants.py:72-77 | trigger types are numbered 1..5 |
| DriverCodes.TriggerTypeOfCode | Streaming/constants.py:72-77 | decoding a trigger-type code is the inverse of TriggerTypeCode, failing exactly on codes no type has |
| DriverCodes.TriggerTypeCodesDistinct | Streaming/constants.py:72-77 | every trigger type decodes back from its code, and no two share one |
| DriverCodes.DeviceTypeCode | Streaming/constants.py:79-90 | device types are numbered 0..12, skipping 8 and 9 |
| DriverCodes.DeviceTypeCodesDistinct | Streaming/utilities.py:102-113 | two device types share a code only if they are the same type |
| DriverCodes.InterfaceCode | Streaming/constants.py:92-99 | interface codes lie in 0..6, with USB2 exactly 2 and USB3 exactly 3 |
| DriverCodes.InterfaceOfCode | Streaming/utilities.py:115-122 | decoding an interface code is the inverse of InterfaceCode |
| DriverCodes.InterfaceCodesDistinct | Streaming/constants.py:92-99 | every interface decodes back from its code, and USB2, USB3, PCIE and the others have pairwise distinct codes |
| DriverCodes.GrayscaleBitTime | Streaming/constants.py:128-129 | bit plane b is shown for 15000·2^b, the entry of both the frame-time and the LED-time table |
| DriverCodes.GrayscaleTablesDouble | Streaming/constants.py:128 | the grayscale tables have eight entries, start at 15000, double at each step, and are equal |
| DriverCodes.PackedSize | streaming.py:129 | the `width * height / 8` byte size of a frame, as whole bytes plus fewer than 8 leftover bits, which together account for every pixel bit |
| DriverCodes.DefaultFramePacksExactly | Streaming/constants.py:114-115 | the default 1140×912 one-bit frame is exactly 129960 bytes |
| IntText.LeadingSpaces | utilities.py:73 | the whitespace `int()` skips before a number is a maximal run of whitespace |
| IntText.TrailingSpaces | utilities.py:73 | the whitespace `int()` skips after a number is a maximal run of whitespace |
| IntText.ParseInt | utilities.py:73 | `int(text)` raises ValueError on any text without a decimal digit; text of any length is accepted (see "## Left out") |
| IntText.ParseIntRoundTrip | utilities.py:73 | `int(str(n)) == n` for every integer n, with no limit on the number of digits (see "## Left out") |
| IntText.FractionRejected | utilities.py:83 | any text containing `.` makes `int()` fail (ValueError) |
| IntText.LooseJoinerRejected | utilities.py:86-87 | an underscore that is not between two digits makes `int()` fail |
| IntText.GroupedExample | utilities.py:90 | `int("1_000")` is 1000 |
| IntText.NatTextValue | utilities.py:93 | the decimal text of n has value n |
| CommandLine.ExitStatus | utilities.py:95-97 | the process ends with status 2 exactly for an unknown option, and never with 0 on a parse error |
| CommandLine.IntArgAt | utilities.py:72-74 | `int(argv[k])` succeeds exactly when the value exists and is an integer, and fails with IndexError exactly when it is missing |
| CommandLine.ParseOption | utilities.py:67-97 | the head token fails as unknown exactly when it is not an option; it consumes itself plus its arity and shows usage exactly for -h/--help; -h leaves the record alone; every field the option does not own, the sequence ID included, keeps its value; missing values fail (the values written are stated by `CommandLine.ParseOptionWrites`) |
| CommandLine.ParseOptionWrites | utilities.py:69-94 | each recognised option writes exactly its own value(s): `-i` and `-f` the text, `-r`, `-d`, `--sub`, `--bit` and both `--roi` fields the `int()` of their values, `--usb3`/`--pcie` the interface, and nothing else changes |
| CommandLine.ParseOptionSucceeds | utilities.py:67-97 | an option parses exactly when it is recognised, all the values it reads are present and `int()` accepts each value it converts; a failure is the unknown token itself, a missing value of it, or one of its own values that `int()` rejects |
| CommandLine.ParseSteps | utilities.py:65-98 | the loop runs at most one iteration per token, since each moves the index on by at least one |
| CommandLine.ParseTokens | utilities.py:65-98 | the loop prints usage at most once per token and never changes the sequence ID; it fails only on a non-empty rest |
| CommandLine.ParseArguments | utilities.py:63-98 | a command line with no arguments leaves the defaults; usage is printed at most once per argument; the sequence ID is never changed |
| CommandLine.ParseOptionIgnoresRest | Streaming/utilities.py:154-186 | an option that parses on its own parses the same whatever tokens follow it |
| CommandLine.ParseTokensCompose | Streaming/example_helper.py:51-86 | parsing a + b is parsing a and then continuing with b from where a left off |
| CommandLine.ParseArgumentsCompose | utilities.py:63-98 | a command line extended by tokens parses as the original followed by those tokens |
| CommandLine.LaterOptionOverrides | utilities.py:69-74 | a later `-i` or `-r` overwrites exactly its own field (last wins) |
| CommandLine.LaterInterfaceWins | utilities.py:78-81 | `--usb3` selects USB3, and a later `--pcie` wins over it |
| CommandLine.UnknownTokenExits | utilities.py:95-97 | an unrecognised token stops the parse with exit 2, whatever follows |
| CommandLine.HelpDoesNotStop | utilities.py:67-68 | `-h` prints usage once and the parse carries on with the next token |
| CommandLine.OptionWithoutValueFails | Streaming/utilities.py:157-182 | an option given last without its value raises IndexError (status 1) and does not fall back to a default |
| CommandLine.NonIntegerValueFails | Streaming/utilities.py:170-182 | a non-integer value for -r, -d, --sub or --bit raises ValueError |
| CommandLine.RoiValueFails | Streaming/utilities.py:173-175 | `--roi` converts its first value before its second, so a non-integer first value is the one reported, and otherwise a non-integer second value |
| CommandLine.UnnamedFieldKept | Streaming/example_helper.py:54-86 | a field no token names keeps its default |
| CommandLine.HelperDefaultsSurvive | Streaming/example_helper.py:27-28 | the helper's repeat count 0 and frame time -1 survive any command line without -r or -f |
| GaugedQueue.GaugeStep | Streaming/utilities.py:205-211 | the first call marks the start, `% 0` fails, and a sample is taken exactly on multiples of measure_per |
| GaugedQueue.Put | Streaming/utilities.py:203-215 | put appends at the tail and raises the put count; only the put side's state changes, it samples per schedule, and it fails only on `% 0` (the rate print's division by a zero clock difference is not modelled, see Left out) |
| GaugedQueue.Get | Streaming/utilities.py:218-228 | get (corrected) returns the head exactly when there is one and the timeout is valid, and raises Empty exactly as `Queue.get` does; the count rises even when it raises, and only the get side's state changes; it fails only on `% 0` (the rate print's division by a zero clock difference is not modelled, see Left out) |
| GaugedQueue.GetAsWritten | Streaming/utilities.py:224 | the get as written agrees with the corrected get once a put has happened, and otherwise differs only by raising TypeError |
| GaugedQueue.Dequeue | Streaming/utilities.py:228 | the inherited `Queue.get`: the head and the rest when the queue holds an item and the timeout is not negative; otherwise ValueError for a negative timeout, Empty, or blocking forever for `block=True` without timeout, with the queue unchanged |
| GaugedQueue.PutAll | Streaming/utilities.py:203-215 | putting a sequence appends it to the items and counts each put; it fails only when measure_per is 0 |
| GaugedQueue.NonBlockingGets | Streaming/utilities.py:218-228 | the items n non-blocking gets receive, followed by what is left, are the original items; at most n are received; it fails only when measure_per is 0 |
| GaugedQueue.PutAllEffect | Streaming/utilities.py:203-215 | a run of puts appends its items in order and samples at exactly the scheduled counts |
| GaugedQueue.NonBlockingGetsEffect | Streaming/utilities.py:218-228 | n non-blocking gets take the first n items in order, and each one counts, whether it returns an item or raises Empty |
| GaugedQueue.NonBlockingGetsSamples | Streaming/utilities.py:219-225 | gets sample on the same schedule as puts |
| GaugedQueue.FifoLaw | Streaming/utilities.py:191-228 | what is put is got back in the same order, leaving the queue empty |
| GaugedQueue.PutSampleSchedule | Streaming/utilities.py:205-211 | on a fresh queue, puts sample exactly at the positive multiples of measure_per below the number of puts |
| GaugedQueue.ZeroMeasurePerBreaksSecondPut | Streaming/utilities.py:208 | with measure_per 0 the first put succeeds and the second fails with ZeroDivisionError |
| GaugedQueue.GetAsWrittenCrashesBeforeFirstPut | Streaming/utilities.py:222-224 | before any put, the get after a positive multiple of measure_per gets raises TypeError where the corrected get raises Empty |
| ImageLoading.LoadAllImages | streaming.py:34-55 | a missing folder raises FileNotFoundError before any conversion; otherwise the schedule is every listed file in walk order (AllFiles), each exactly once and nothing else; the deque is their frames in task order exactly when every file decodes, and otherwise a file that failed to decode raises |
| ImageLoading.ConvertAll | streaming.py:18-53 | `gather` over the conversions succeeds exactly when every file decodes, with the frames in task order; otherwise it raises for a scheduled file that does not decode |
| ImageLoading.LoadFirstImages | Streaming/streaming.py:30-64 | a missing folder raises FileNotFoundError; otherwise only the first file of each directory is scheduled, one per non-empty directory, and since the conversion raises on every file the load succeeds (with an empty deque) exactly when no directory lists a file |
| ImageLoading.AllFilesLength | streaming.py:46-51 | one task is scheduled per listed file |
| ImageLoading.AllFilesPosition | streaming.py:46-47 | file j of directory i is scheduled at position (files of earlier directories) + j, i.e. in walk order |
| ImageLoading.AllFilesSources | streaming.py:49-51 | every scheduled path names a file some directory lists |
| ImageLoading.FirstFilesAreFirstOnly | Streaming/streaming.py:54-60 | the break schedules exactly what the full walk would schedule with each directory cut to its first file |
| ImageLoading.FirstFilesMembers | Streaming/streaming.py:55-60 | a path is scheduled exactly when it is the first file some directory lists |
| ImageLoading.FirstFilesCount | Streaming/streaming.py:54-59 | one file per non-empty directory, never more than the number of directories |
| ImageLoading.FirstFilesPosition | Streaming/streaming.py:57-62 | the first file of directory i comes after those of earlier non-empty directories |
| Driver.WaitUntil | streaming.py:122 | a busy wait ends at the first poll that satisfies its condition, and spins forever exactly when no poll does |
| Driver.KeyChar | streaming.py:165 | a code whose remainder modulo 256 is below 128 gives the character with that value, and any other code gives '?' |
| Driver.QuitKeyCodes | streaming.py:134 | the loop stops on exactly the key codes congruent to 'q' or 'Q' modulo 256 |
| Driver.NoKeyIsNoQuit | streaming.py:164-165 | waitKey's -1 (no key) reads '?' and never ends the loop |
| Driver.LoadedCounts | streaming.py:120-126 | the stop-load-wait prelude holds one stop, one load, no submission and no start |
| StreamPump.Issued | streaming.py:137-161 | a pass submits the deque's head exactly when it reads below the threshold with frames left, and starts exactly when it reads full and STOPPED; it never does both |
| StreamPump.Step | streaming.py:137-165 | a pass breaks exactly when it reads below the threshold with an empty deque; otherwise it moves the submitted head from the deque to the log, counts frameNum, and reads a key only when full |
| StreamPump.RunLoop | streaming.py:134-165 | the loop only appends submissions and starts; frames leave in deque order; frameNum counts submissions; it quits only on q/Q and breaks only on an empty deque; starts and submissions match the full-and-STOPPED and below-threshold observations it used |
| StreamPump.NoStartBelowThreshold | streaming.py:137-161 | while the buffer never fills, the sequence is never started |
| StreamPump.NoSubmitWhileFull | streaming.py:158-165 | while the buffer stays full, nothing is submitted and the deque is untouched |
| StreamPump.DrainBelowThreshold | Streaming/streaming.py:155-183 | below the threshold the loop submits the whole deque in order, one frame per pass, and breaks on the next pass |
| StreamPump.StartIsReissued | Streaming/streaming.py:186-190 | two full passes that both read STOPPED issue Start twice: there is no one-shot guard |
| StreamPump.RunSession | streaming.py:119-172 | the session begins with a stop, and stalls before the load exactly when the device never reads STOPPED |
| StreamPump.LoopAfterLoad | streaming.py:125-157 | after the load the loop issues no stop or load; the submitted frames followed by the rest of the deque are the images; frameNum is 1 + submissions |
| StreamPump.LoadAfterStop | Streaming/streaming.py:133-139 | the project is loaded exactly when the device has read STOPPED, and the log then opens with stop, load, wait |
| StreamPump.SubmittedInOrder | streaming.py:140-157 | frames reach the device in deque order, each at most once |
| StreamPump.FinishedSession | Streaming/streaming.py:196-202 | a finished session ends with its second stop, after the device left RUNNING; frameNum is 1 + submissions; running out of images means every image was submitted |
| DmdExample.FindSequence | Streaming/example_helper.py:115 | returns the first position holding a sequence with the requested ID, or reports that none has it |
| DmdExample.RunSequence | Streaming/example_helper.py:134-157 | a sequence without a first frame raises IndexError and issues nothing; a start returning -1 raises; a sequence that returns has seen RUNNING and then its end |
| DmdExample.RunSequences | Streaming/example_helper.py:134-157 | an empty project runs nothing and returns; a loop that raises because a start returned -1 has that start as its last command; the loop never exits the process |
| DmdExample.RunDmdExample | Streaming/example_helper.py:99-157 | a run either issues nothing or opens with stop, load, wait |
| DmdExample.LiteModeBeforeStart | Streaming/example_helper.py:136-144 | lite mode is set, before the start, exactly when 0 < ROI width < DMD width; each sequence is started once |
| DmdExample.OnlyCriticalStartAborts | Streaming/example_helper.py:144-146 | of the driver's error codes only ERROR_CRITICAL (-1) aborts the run |
| DmdExample.ManualStopOnlyWhenRepeating | Streaming/example_helper.py:150-157 | a sequence is stopped by hand exactly when the repeat count is 0 and the device reached RUNNING; a failed start leaves it unstopped |
| DmdExample.SequencesCounts | Streaming/example_helper.py:134 | a loop that returns starts every sequence once and stops each by hand exactly when the repeat count is 0; no loop starts more sequences than there are |
| DmdExample.FirstFailure | Streaming/example_helper.py:134-157 | the position of the first sequence whose run does not return: every earlier run returns, and there is none exactly when every run returns |
| DmdExample.AbortedLoop | Streaming/example_helper.py:134-146 | the loop returns exactly when no sequence fails; otherwise it ends as the first failing run ended, its log ends with that run's log, and it has started exactly the sequences before it plus that run's own start |
| DmdExample.StartFailedLoop | Streaming/example_helper.py:144-146 | a loop that raises on a -1 start ends with the failing sequence's start, after one start for each earlier sequence |
| DmdExample.AbortedRun | Streaming/example_helper.py:124-146 | a run that raises on a -1 start has loaded the project, got -1 from the first failing sequence, started it and each earlier sequence once, and issued nothing after that start |
| DmdExample.BadArgumentsIssueNothing | Streaming/example_helper.py:102-103 | a bad command line ends the run before any driver command: exit 2 for an unknown option, an exception otherwise |
| DmdExample.ConnectFailureIssuesNothing | Streaming/example_helper.py:88-94 | a device that does not start exits with -1 before any driver command |
| DmdExample.MissingSequenceIssuesNothing | Streaming/example_helper.py:116 | a project without the requested sequence exits with -1 before any driver command |
| DmdExample.StartsFollowLoad | Streaming/example_helper.py:124-144 | no sequence is started before the stop, the load and the wait for the load |
| DmdExample.LoadedOnce | Streaming/example_helper.py:128-129 | a run that reaches the device loads the project exactly once |
| DmdExample.CompletedRun | Streaming/example_helper.py:124-157 | a run that returns has started every sequence once, and stopped once before the load plus once per sequence when the repeat count is 0 |
| DmdExample.DefaultRepeatStopsByHand | Streaming/example_helper.py:152-154 | without -r, the default repeat count 0 makes a completed run stop every sequence by hand |

## Left out

- IntText.ParseInt, IntText.ParseIntRoundTrip: the digit limit of newer
  Pythons is not modelled. From 3.11, and from the 3.7.14, 3.8.14, 3.9.14
  and 3.10.7 security releases, `int()` and `str()` raise ValueError on more
  than 4300 digits unless `sys.set_int_max_str_digits` changes the limit.
  That behaviour depends on the interpreter and not on the scripts, whose
  values are short numbers.
- The vendor driver (`ajiledriver`) is not modelled. This covers connection,
  project building, device discovery, component indices and hardware types.
  Its answers are inputs.
- `connect_device`, `retrieve_components` and `init_project` are left out.
  They only call into the vendor driver.
- The image conversion (`read_and_shrink_image`, OpenCV) is not modelled
  beyond whether it raises. A frame is known by the file it came from. Whether
  `cv2.imread` can decode a file is an input of the root loader. The
  `Streaming/` conversion raises on every file (`shapep` at
  Streaming/streaming.py:36).
- ImageLoading.ConvertAll: when several conversions raise, `gather` passes on
  whichever exception comes first in time. The model takes the first failing
  file in task order, and the contract promises only some failing file.
- Concurrency is not modelled: asyncio, thread pools and `gather`. Results are
  taken in task order, which is the order `gather` returns. Connection and
  loading are treated as sequential.
- GaugedQueue.Put, GaugedQueue.Get: the frame-rate print divides by the clock
  difference (Streaming/utilities.py:210, 224), which raises
  ZeroDivisionError if the clock has not advanced. Time is not modelled, so
  this failure is not either.
- Time and floating point are not modelled: frame-rate prints, `time.time()`,
  `calc_frame_time_from_motor_speed` and `calcFrameTimeFromMotorSpeed`. Console
  output and the usage banner are also left out. The banner is only counted.
- CommandLine.ParseOption: the `-f` value is kept as text. A failing `float()`
  on it is not modelled, so `-f abc` parses here but raises ValueError in
  Python.
- IntText: Unicode digits and whitespace beyond ASCII, which Python's `int()`
  also accepts, are not modelled.
- The parser's `while i < len(argv)` loop is modelled as a recursion over the
  remaining tokens. `CommandLine.ParseSteps` bounds its iterations.
- `get_command_arguments` writes to the `AJParameters` class itself rather than
  to an instance. Aliasing is not modelled; the result is the same record.
- Busy waits that never end are modelled as a stalled or hanging outcome,
  because each trace is finite.
- `input()` in `RunDmdExample` is assumed to return once Enter is pressed.
- `DMD_3000_IMAGE_WIDTH_MAX` is a parameter, since its value comes from the
  vendor library.
- `project.Sequences().iteritems()` is taken to yield the sequences in order.
- `raise "error in starting the sequence"` actually raises TypeError in Python
  3. Either way it is an uncaught exception, which is how it is modelled.
- Unused fields are not modelled: netmask, gateway, port, STACK_COUNT,
  dmdIndex, and the camera fields' vendor values (kept as their names).
- The sequence-status queue read (`GetNextSequenceStatus`) is left out. Its
  result is never used.
- `ReadFromMemory`, `SequenceItem`, `Frame` and `AddFrame` are left out. They
  build the vendor objects a submission carries; a submission carries the frame.

## Findings

| source | as written | input that shows it | evidently intended | confidence | as-written member | corrected member |
|---|---|---|---|---|---|---|
| Streaming/utilities.py:224 | `get` computes its rate from `self.prev_put`, the put side's start mark | a `GaugedQueue()` that has not been put into, after 100 `get(block=False)` calls that raise Empty: the 101st raises TypeError (`None - float`) | `get` measures against its own mark `self.prev_get` and raises Empty | high, not executed | GaugedQueue.GetAsWritten, GaugedQueue.GetAsWrittenCrashesBeforeFirstPut | GaugedQueue.Get |
