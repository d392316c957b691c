# lerobot-gui session broker, modelled in Dafny

The lerobot-gui backend puts a web dashboard in front of the long-running
`lerobot` command-line programs. These are calibration, teleoperation, motor
set-up, dataset recording, dataset replay and model training.

For each program, a service does four things:
- it builds the argument list;
- it keeps parallel registries of sessions, output queues, processes and
  cancelled ids;
- it reads the program's terminal output line by line or chunk by chunk;
- it turns that output into queued messages, a session log, prompt flags and
  end-of-run statuses.

Around the services sit:
- the camera-stream registry and the teleoperation table forwarding of the
  web layer;
- the arm-configuration validator and USB-port classifier;
- the dataset-metadata derivation;
- the Hugging Face credential store.

The model keeps all of this state logic and abstracts everything around it:
- A child process is an abstract `ProcessState`: `Alive`, or `Exited(code)`.
- The clock, spawn success and terminal-write success are parameters.
- Terminal reads are the texts handed to the per-chunk methods.

Each service is a class over a shared `Sessions.Registry`:
- The registry holds `sessions`, `queues`, `processes` and `cancelled`.
- Its invariant `Valid` keeps the session and queue keys equal, and keeps
  processes a subset of sessions.
- Calibration adds a phase map, and teleoperation a map of latest tables.

A monitor thread is the sequence `BeginMonitor`, then one `HandleChunk` per
read, then `Finish`. Each of these methods is one atomic step, so concurrent
use is modelled as an interleaving of method calls.

The shared text machinery lives in two modules:
- `Text` holds Python's `strip`, `split`, `join`, `replace`, `lower` and
  `str(int)`.
- `Ansi` is the escape-sequence remover, written as a deterministic scanner
  and proved equal to the control-sequence grammar of ECMA-48 section 5.4
  (ESC followed by an Fe byte, or a CSI sequence).

## Model

| member | source | states |
|---|---|---|
| Ansi.StripEscapes | backend/calibration_service.py:23-24 | Removing escape sequences never lengthens the text, and leaves a text without ESC unchanged |
| Ansi.StripEscapesChars | backend/teleoperation_service.py:24-28 | The escape remover introduces no character that was not in its input |
| Ansi.SequenceLength | backend/calibration_service.py:23 | The length matched at an ESC is 0 (no match) or at least 2 and within the text |
| Ansi.ScannerSound | backend/calibration_service.py:23 | What the scanner removes is a sequence of the pattern's grammar (ESC + Fe byte, or CSI parameters, intermediates, final byte) |
| Ansi.ScannerComplete | backend/calibration_service.py:23 | Every grammar sequence at the start of a text is matched whole by the scanner: the match is unique |
| Ansi.StripEscapesKeepsFirst | backend/calibration_service.py:23-24 | A leading character other than ESC is kept and the rest is processed |
| Ansi.StripEscapesSkips | backend/calibration_service.py:23-24 | A sequence matched at the start is dropped whole |
| Ansi.StripEscapesPlainPrefix | backend/dataset_recording_service.py:26-30 | Plain text before the rest passes through unchanged |
| Ansi.StripEscapesDropsSequence | backend/dataset_recording_service.py:26-30 | Any grammar sequence in front of a text is removed completely |
| Ansi.SgrIsSequence | backend/dataset_replay_service.py:26-30 | A colour/bold/reset code `ESC [ digits-and-semicolons m` is a sequence of the grammar |
| Ansi.StripEscapesColoured | backend/tests/test_calibration_service.py:21-37 | Coloured text loses its colour codes and keeps its characters, as in "\x1B[32mHello\x1B[0m World" becoming "Hello World" |
| Text.ReplaceAll | backend/calibration_service.py:27 | `replace` leaves a text without the pattern unchanged |
| Text.RemoveChar | backend/calibration_service.py:27 | `replace('\r', '')` leaves no '\r' and changes nothing when there was none |
| Text.ReplaceChar | backend/motor_setup_service.py:21 | `port.replace('/', '_')` keeps the length and replaces exactly the matching characters |
| Text.Lower | backend/calibration_service.py:191 | `lower()` keeps the length and lowers each ASCII letter in place |
| Text.LowerKeepsOccurrence | backend/motor_setup_service.py:84 | An occurrence of a piece in the text is an occurrence of the lowered piece in the lowered text |
| Text.LStrip | backend/calibration_service.py:36 | `lstrip` drops exactly the leading whitespace and returns a suffix |
| Text.RStrip | backend/model_training_service.py:151 | `rstrip` drops exactly the trailing whitespace and returns a prefix |
| Text.Strip | backend/calibration_service.py:184 | `strip` is the slice of the text between its leading and its trailing whitespace, and leaves no whitespace at either end |
| Text.StripEmptyIffBlank | backend/calibration_service.py:184-185 | A stripped line is empty exactly when the line was all whitespace |
| Text.Split | backend/calibration_service.py:182 | `split('\n')` yields at least one piece, none holding the separator |
| Text.JoinSplit | backend/teleoperation_service.py:169-177 | Joining the pieces of a split with the separator gives the original text |
| Text.LastSegment | backend/dataset_visualization_service.py:122 | `split('/')[-1]` holds no '/' |
| Text.LastSegmentSpec | backend/dataset_visualization_service.py:122 | `split('/')[-1]` is the suffix after the last '/', and the whole text when there is none |
| Text.JoinEndsWithLast | backend/dataset_visualization_service.py:122 | A join ends with its last part, after a separator when there are several |
| Text.NatToString | backend/dataset_replay_service.py:42 | `str(n)` of a natural number is a non-empty run of decimal digits |
| Text.ParseNatToString | backend/dataset_replay_service.py:42 | Reading back the decimal rendering gives the number |
| Text.IntToString | backend/dataset_recording_service.py:52 | `str(i)` is non-empty and starts with '-' exactly for negative values |
| Text.IntToStringInjective | backend/dataset_recording_service.py:52 | Distinct time stamps render as distinct texts |
| Text.Repr | backend/dataset_recording_service.py:212-216 | `repr(s)` is quoted with '"' exactly when the text holds a single quote and no double quote, else with a single quote |
| Text.ReprRoundTrip | backend/dataset_recording_service.py:212-216 | The text `repr` writes, with its escaped backslashes, quote and control characters, reads back as the original string |
| Text.ReprInjective | backend/dataset_recording_service.py:212-216 | Distinct strings have distinct `repr` texts |
| Text.ReprPlain | backend/dataset_recording_service.py:212-216 | A text without quotes, backslashes or control characters is written unchanged between single quotes |
| Text.BoolText | backend/dataset_recording_service.py:95-98 | `str(b).lower()` is "true" exactly when b holds and "false" otherwise |
| Sessions.PollText | backend/calibration_service.py:271 | `str(process.poll())` is "None" exactly while the process runs |
| Sessions.ResolveEnd | backend/calibration_service.py:252-272 | A cancelled session only gets "… cancelled by user"; otherwise exit 0 completes it and anything else fails it with the exit code in the message |
| Sessions.ResolveEndDistinguishesCodes | backend/dataset_recording_service.py:205-210 | Different failing exit codes give different failure messages |
| Sessions.KeyErrorText | backend/dataset_recording_service.py:212-216 | `str(KeyError(id))` is `repr(id)`: it reads back as the id, between the quote `repr` chooses |
| Sessions.NonBlank | backend/dataset_recording_service.py:183-184 | Stripped, non-empty lines: never more than the pieces, each non-empty with no outer whitespace |
| Sessions.NonBlankAvoids | backend/dataset_recording_service.py:181-184 | A character absent from every piece is absent from every kept line |
| Sessions.ChunkLines | backend/dataset_recording_service.py:181-184 | The lines handled for a chunk are non-empty, hold no '\n' and have no outer whitespace |
| Sessions.CleanedMessages | backend/dataset_recording_service.py:186-188 | The recording/replay messages for a chunk are non-empty, no more than its lines, and hold no '\n' |
| Sessions.CleanedMessagesPlain | backend/dataset_replay_service.py:136-138 | Non-empty lines without escape sequences are posted exactly as they are |
| Sessions.Registry.constructor | backend/calibration_service.py:41-46 | Every map and the cancelled set start empty |
| Sessions.Registry.Open | backend/dataset_recording_service.py:60-81 | Forgets an earlier cancellation, creates an empty queue and a "starting" session, and leaves processes alone |
| Sessions.Registry.Restart | backend/calibration_service.py:53-75 | An earlier process under the id is stopped and removed; the session is opened afresh |
| Sessions.Registry.Launch | backend/calibration_service.py:53-138 | The whole start: a restart, then either the process plus the start message, or (spawn failed) a session without a process |
| Sessions.Registry.Attach | backend/calibration_service.py:124 | The spawned process is recorded and nothing else changes |
| Sessions.Registry.Exit | backend/calibration_service.py:168 | The process of a known id becomes `Exited(code)`; other maps are unchanged |
| Sessions.Registry.Post | backend/calibration_service.py:286-306 | `_add_output`: the message is appended to the queue and to the session log; a missing queue or session is skipped independently |
| Sessions.Registry.PostAll | backend/dataset_recording_service.py:181-188 | Several posts append the messages to the queue and the log in call order |
| Sessions.Registry.Drain | backend/calibration_service.py:367-392 | `get_all_output`: returns the queue in FIFO order and leaves it empty; an unknown id gives [] and changes nothing |
| Sessions.Registry.Take | backend/calibration_service.py:343-365 | `get_output`: the oldest message is removed and returned, or None with nothing changed |
| Sessions.Registry.Remove | backend/calibration_service.py:414-456 | `stop`: refused with nothing changed for an id without a process; otherwise cancelled and removed from the process, queue and session maps |
| Sessions.Registry.SetStatus | backend/calibration_service.py:260 | Only the status of that session changes |
| Sessions.Registry.SetWaiting | backend/calibration_service.py:214 | Only the waiting flag of that session changes |
| Sessions.Registry.BeginMonitor | backend/dataset_recording_service.py:167-168 | The monitor goes on exactly when the process is known and then marks the session running; otherwise the failure is reported when asked |
| Sessions.Registry.Finish | backend/dataset_recording_service.py:194-211 | The end report is posted, and the status of a still-existing session is set when not cancelled |
| Sessions.StopTwice | backend/tests/test_dataset_recording_service.py:83-89 | Stopping the same session twice succeeds once, then is refused; the id is gone from every map and cancelled |
| Cameras.Put | backend/teleoperation_service.py:104 | Dictionary assignment adds at most one item and makes the name present |
| Cameras.PutSpec | backend/teleoperation_service.py:104 | Assignment keeps names distinct, maps the name to the new entry and leaves every other name as it was |
| Cameras.LookupDistinct | backend/teleoperation_service.py:104 | With distinct names, looking up an item's name finds its entry |
| Cameras.LookupAbsent | backend/teleoperation_service.py:104 | An absent name is not found |
| Cameras.LastNamed | backend/teleoperation_service.py:102-104 | The last requested camera carrying a name, if any, and no later one carries it |
| Cameras.BuildConfig | backend/teleoperation_service.py:101-110 | The `enumerate(cameras)` loop builds exactly `ConfigOf(cams)` |
| Cameras.ConfigOfSpec | backend/teleoperation_service.py:101-110 | The dictionary has distinct names, and a name maps to the entry of the last camera carrying it, or is absent when none does |
| Cameras.DefaultCamera | backend/teleoperation_service.py:105-109 | A camera with no keys is "opencv", index 0, 1920x1080, 30 fps, named `camera_<i>` |
| Cameras.CameraArgs | backend/teleoperation_service.py:100-114 | No camera arguments for an empty list; otherwise the dictionary comes first, and `--display_data=true` is present exactly when asked for |
| Calibration.CleanAnsiCodes | backend/calibration_service.py:18-38 | `clean_ansi_codes` output has no '\r' and no leading or trailing whitespace |
| Calibration.CollapseBlankLines | backend/calibration_service.py:35 | Collapsing `\n\s*\n` never lengthens the text, and leaves a text without '\n' unchanged |
| Calibration.CleanAnsiCodesChars | backend/calibration_service.py:18-38 | Cleaning introduces no character |
| Calibration.NoBracketNoCursorText | backend/calibration_service.py:30-32 | Without '[' the cursor-code removals change nothing |
| Calibration.CleanPlainLine | backend/calibration_service.py:18-38 | A stripped line without ESC, '\r', '[' or '\n' is returned unchanged |
| Calibration.CleanColouredLine | backend/tests/test_calibration_service.py:21-37 | A coloured line such as "\x1B[32mHello\x1B[0m World" comes out as its text |
| Calibration.Tagged | backend/calibration_service.py:191-195 | A line mentioning traceback, error or exception in any case is logged as "ERROR: " + line, any other unchanged |
| Calibration.CleanLines | backend/calibration_service.py:184-187 | One cleaned line per handled line, each `clean_ansi_codes` of it |
| Calibration.TagAll | backend/calibration_service.py:191-195 | Each cleaned line tagged in order |
| Calibration.LowerAll | backend/calibration_service.py:198 | Each cleaned line lowered in order |
| Calibration.PhaseTransition | backend/calibration_service.py:201-212 | `initial` moves to `first_step` only on "move test" with "middle of its range"; `first_step` moves to `second_step` only on "move all joints" with "entire ranges"; nothing else moves |
| Calibration.PhaseMachine | backend/calibration_service.py:201-223 | The phase after a line: a press-enter prompt gives `waiting` from any phase; otherwise the transitions above |
| Calibration.PhaseAfterInput | backend/calibration_service.py:324-333 | Input moves `second_step` to `next_phase` and `waiting` to `initial`; other phases stay |
| Calibration.PhasesAfterLineAgrees | backend/calibration_service.py:198-223 | The phase-map update of the monitor agrees with the phase machine for the session |
| Calibration.LinesPhasesFrame | backend/calibration_service.py:198-223 | The phase machine over a chunk changes no other session's phase, for an existing session and for a removed one |
| Calibration.PromptInChunkWaits | backend/calibration_service.py:216-223 | A press-Enter prompt anywhere in a chunk sets the waiting flag; as the last line it leaves the phase "waiting" |
| Calibration.OrphanRaisesIffWaiting | backend/calibration_service.py:210-223 | For a removed session a chunk raises exactly when the same lines would set the flag of an existing one, and otherwise the phases agree |
| Calibration.OrphanLinesStop | backend/calibration_service.py:183-228 | Once a line has raised, the rest of the chunk is not read |
| Calibration.SessionId | backend/calibration_service.py:53 | The id is `robot_id + "_" + arm_type` |
| Calibration.SessionIdSeparatesArms | backend/calibration_service.py:53 | The leader and follower of the same robot get different ids |
| Calibration.DeviceTypeIsLower | backend/calibration_service.py:81-88 | The type value is `robot_type.lower()`: the later replacements never match |
| Calibration.Command | backend/calibration_service.py:79-91 | The command is the interpreter, `-m lerobot.calibrate`, then type, port and id flags |
| Calibration.CommandFlags | backend/calibration_service.py:78-91 | A leader gets `--teleop.*` flags and anything else `--robot.*`, with the lowered type, the port and the id |
| Calibration.QuietStep | backend/calibration_service.py:231-247 | A quiet poll after the wait sets waiting once with "Waiting for user input..."; later polls post "Still waiting…" every 60th time |
| Calibration.QuietRun | backend/calibration_service.py:231-247 | Quiet polls in a row count up and keep the wait detected once it was |
| Calibration.QuietRunAnnouncesOnce | backend/calibration_service.py:237-242 | A run of quiet polls announces waiting at most once |
| Calibration.CalibrationService.constructor | backend/calibration_service.py:41-46 | All maps empty |
| Calibration.CalibrationService.Stop | backend/calibration_service.py:414-456 | A known id: True, removed from processes, queues, sessions and phases, and cancelled. An unknown id: False with nothing changed |
| Calibration.CalibrationService.Start | backend/calibration_service.py:48-142 | Id `robot_id_arm_type`; an earlier session is stopped with its phase; the cancellation is forgotten; a "starting" session and an empty queue are created; the command is built; spawn success decides the process and start message |
| Calibration.CalibrationService.ProcessExited | backend/calibration_service.py:168 | The child's exit is recorded and nothing else changes |
| Calibration.CalibrationService.BeginMonitor | backend/calibration_service.py:148-164 | Goes on exactly when the process is known: session running, phase `initial`, queue unchanged. Otherwise "Calibration monitoring error: " with `repr(id)` is queued and logged and the session fails with its waiting flag kept; an id without a session changes nothing |
| Calibration.CalibrationService.RunPhaseMachine | backend/calibration_service.py:198-223 | The phase map follows the phase machine, and the waiting flag is set exactly when the line reaches `second_step` or is a prompt; a removed session raises |
| Calibration.CalibrationService.HandleLine | backend/calibration_service.py:186-223 | The message reaches the queue and the log; the phase moves as the phase machine says; the waiting flag becomes set when the line sets it; other sessions unchanged. For a removed session nothing is posted and a line that would set the flag raises after recording its transition |
| Calibration.CalibrationService.HandleLines | backend/calibration_service.py:183-223 | For an existing session: every message in order in queue and log, the phases as the fold of the phase machine over the lines, the flag set when some line sets it, other sessions unchanged. For a removed session: nothing posted, and the chunk ends at the first line that would set the flag |
| Calibration.CalibrationService.HandleSessionLines | backend/calibration_service.py:183-223 | The loop over the lines of an existing session: queue, log, phases and waiting flag after all of them |
| Calibration.CalibrationService.HandleOrphanLines | backend/calibration_service.py:183-223 | The loop over the lines of a removed session: nothing posted; it stops at the first line that would set the flag, after recording that line's transition |
| Calibration.CalibrationService.HandleChunk | backend/calibration_service.py:180-227 | One chunk: the tagged, cleaned, non-blank lines reach queue and log in order; the phase machine runs over their lower-cased text and the flag is set when a line sets it; the quiet state resets to `QuietStart` unless a line raised |
| Calibration.CalibrationService.QuietPoll | backend/calibration_service.py:231-247 | A quiet poll sets waiting and posts the message `QuietStep` prescribes, to both queue and log, other sessions unchanged; for a removed session that would have its flag set it raises out of the monitor |
| Calibration.CalibrationService.Finish | backend/calibration_service.py:252-272 | The end report of `ResolveEnd` is queued and appended to the log; the status is set when the report gives one; the waiting flag and every other session are kept |
| Calibration.CalibrationService.SendInput | backend/calibration_service.py:308-341 | True exactly for a live process and a successful write; then waiting is cleared and the phase advanced; otherwise nothing changes |
| Calibration.CalibrationService.GetOutput | backend/calibration_service.py:343-365 | The oldest queued message, removed, or None |
| Calibration.CalibrationService.GetAllOutput | backend/calibration_service.py:367-392 | The queue in FIFO order, then empty; [] for an unknown id |
| Calibration.CalibrationService.IsRunning | backend/calibration_service.py:394-402 | True exactly for an existing session that is "starting" or "running" |
| Calibration.CalibrationService.IsWaitingForInput | backend/calibration_service.py:404-412 | False for an unknown id, else the flag |
| Calibration.StopEndsRunning | backend/calibration_service.py:414-456 | After stopping a known session it is no longer running |
| Teleoperation.BlankIffStripsToEmpty | backend/teleoperation_service.py:35-36 | `not text.strip()` holds exactly for all-whitespace text |
| Teleoperation.TableResult | backend/teleoperation_service.py:30-52 | `_process_table_output` returns the text itself or None, and never returns blank text |
| Teleoperation.TableResultSpec | backend/teleoperation_service.py:35-52 | A whole table (separator and "time:") is recorded and returned; other table texts are returned only when they are whole tables; a flushed block without "time:" and blank text give None; an ordinary line passes |
| Teleoperation.FallbackUnreachable | backend/teleoperation_service.py:174-206 | The "substantial buffer" branch is never taken: separator lines always take the first branch |
| Teleoperation.TableStep | backend/teleoperation_service.py:173-211 | A separator starts a buffer (flushing an earlier one); a timing line in a table flushes and leaves the table; other table lines accumulate; other lines pass |
| Teleoperation.TableRunRows | backend/teleoperation_service.py:185-187 | Inside a table, rows only accumulate |
| Teleoperation.WholeTable | backend/teleoperation_service.py:173-197 | Separator, rows and timing line are handed on as one '\n'-joined text, after any unfinished earlier table, and the accumulator ends outside a table |
| Teleoperation.CleanAll | backend/teleoperation_service.py:24-28 | Each text cleaned of escape sequences, in order |
| Teleoperation.TablesIn | backend/teleoperation_service.py:254-266 | The table messages of a log, in order |
| Teleoperation.WithoutTables | backend/teleoperation_service.py:254-266 | The other messages of a log, in order |
| Teleoperation.TablesInAppend | backend/teleoperation_service.py:254-266 | Both filters distribute over concatenation |
| Teleoperation.WithoutTablesOfPlain | backend/teleoperation_service.py:254-266 | A log without tables is kept whole by the filter and holds no table |
| Teleoperation.LogAfterSpec | backend/teleoperation_service.py:245-268 | After `_add_output` the other messages are kept in order, plus the new one, and the tables are the new one alone when it is a table |
| Teleoperation.LogAfterAllSpec | backend/teleoperation_service.py:245-268 | Over any outputs a log keeps at most one table, and the other messages accumulate in order |
| Teleoperation.LogAfterAllAppend | backend/teleoperation_service.py:245-268 | Outputs in two batches equal the outputs in one |
| Teleoperation.Emitted | backend/teleoperation_service.py:178-180 | `_process_table_output` lets through the text or nothing |
| Teleoperation.ResultsSnoc | backend/teleoperation_service.py:178-211 | One more handled text extends the results by what it lets through, and records it when it is a whole table |
| Teleoperation.SessionId | backend/teleoperation_service.py:61 | The id is `leader_id + "_" + follower_id + "_teleop"` |
| Teleoperation.CommandSpec | backend/teleoperation_service.py:89-114 | The follower is the robot, the leader the teleoperator; with cameras, the dictionary and `--display_data=true` follow, otherwise there are nine arguments |
| Teleoperation.TeleoperationService.constructor | backend/teleoperation_service.py:17-22 | All maps empty |
| Teleoperation.TeleoperationService.AddOutput | backend/teleoperation_service.py:245-268 | A table never reaches the queue and replaces every earlier table in the log; any other message goes to queue and log |
| Teleoperation.TeleoperationService.ProcessTableOutput | backend/teleoperation_service.py:30-52 | Returns `TableResult`, recording a whole table as the session's latest |
| Teleoperation.TeleoperationService.HandleText | backend/teleoperation_service.py:178-211 | One handed-on text is classified, may become the latest table, and what comes through is output |
| Teleoperation.TeleoperationService.HandleTexts | backend/teleoperation_service.py:170-211 | The handed-on texts of a chunk: the latest table is the last whole table among them; the queue gets the non-table results in order |
| Teleoperation.TeleoperationService.HandleChunk | backend/teleoperation_service.py:166-211 | One chunk through the accumulator: the next accumulator state and the queued results |
| Teleoperation.TeleoperationService.GetLatestTable | backend/teleoperation_service.py:319-324 | The latest recorded table, or None |
| Teleoperation.TeleoperationService.Stop | backend/teleoperation_service.py:270-299 | A known id is removed from every map including the latest tables, and cancelled; an unknown id is refused with nothing changed |
| Teleoperation.TeleoperationService.Start | backend/teleoperation_service.py:54-148 | Id `leader_follower_teleop`; clean-up of a same-id session; a fresh "starting" session, not waiting, and queue, every other session, queue, process and cancellation unchanged; the command; the process and start message on a successful spawn |
| Teleoperation.TeleoperationService.BeginMonitor | backend/teleoperation_service.py:150-153 | Goes on exactly when the process is known (session running); otherwise the session fails with the error posted |
| Teleoperation.TeleoperationService.Finish | backend/teleoperation_service.py:216-233 | The end report of `ResolveEnd` is queued and appended to the log, the status set when the report gives one, the waiting flag and every other session kept |
| Teleoperation.EndReportNotTable | backend/teleoperation_service.py:216-233 | No end report, whatever the exit code, holds the table separator, so `_add_output` always queues it |
| Teleoperation.EndMessagesNoDoubleDash | backend/teleoperation_service.py:216-233 | The three end messages (cancelled, completed, failed with any exit code) hold no double dash |
| Teleoperation.TeleoperationService.GetAllOutput | backend/teleoperation_service.py:307-317 | The queue in FIFO order, then empty, and never a table |
| Teleoperation.TeleoperationService.IsRunning | backend/teleoperation_service.py:301-305 | True exactly for an existing "starting" or "running" session |
| MotorSetup.SessionId | backend/motor_setup_service.py:21 | The id starts with the robot type, and holds no '/' where the port was |
| MotorSetup.SessionIdDistinct | backend/motor_setup_service.py:21 | Sessions of one arm started at different seconds get different ids |
| MotorSetup.AsksForEnterAnyCase | backend/motor_setup_service.py:84-86 | Any casing of one of the four phrases in a chunk sets the prompt flag |
| MotorSetup.PieceOfLowered | backend/motor_setup_service.py:84 | A phrase found in the lowered chunk is the lowering of a piece of the chunk |
| MotorSetup.PromptHasPhrase | backend/motor_setup_service.py:84-86 | Conversely, the flag is set only when some piece of the chunk is a phrase in some casing |
| MotorSetup.MotorSetupService.constructor | backend/motor_setup_service.py:13-17 | All maps empty |
| MotorSetup.MotorSetupService.Start | backend/motor_setup_service.py:19-62 | The command is exactly `[python, "-u", "-m", "lerobot.setup_motors", "--robot.type=…", "--robot.port=…"]`; the id comes from the arm and the clock; the session is restarted |
| MotorSetup.MotorSetupService.BeginMonitor | backend/motor_setup_service.py:72-73 | Goes on exactly when the process is known; a missing process ends the monitor silently |
| MotorSetup.MotorSetupService.HandleChunk | backend/motor_setup_service.py:80-86 | A non-empty raw chunk goes to queue and log unchanged; a prompt sets waiting, and raises for a removed session |
| MotorSetup.MotorSetupService.Finish | backend/motor_setup_service.py:92-109 | The end report of `ResolveEnd` is posted and the status set |
| MotorSetup.MotorSetupService.SendInput | backend/motor_setup_service.py:132-148 | True exactly for a live process and a successful write; then waiting is cleared |
| MotorSetup.MotorSetupService.Stop | backend/motor_setup_service.py:150-175 | A known id is removed from the three maps and cancelled; an unknown id is refused |
| MotorSetup.MotorSetupService.GetAllOutput | backend/motor_setup_service.py:113-118 | The queue in FIFO order, then empty; [] for an unknown id |
| MotorSetup.MotorSetupService.IsRunning | backend/motor_setup_service.py:120-124 | True exactly for an existing "starting" or "running" session |
| MotorSetup.MotorSetupService.IsWaitingForInput | backend/motor_setup_service.py:126-130 | False for an unknown id, else the flag |
| MotorSetup.PromptThenAnswer | backend/motor_setup_service.py:84-86 | After a prompt the session waits; after the input it no longer does |
| Recording.SessionIdDistinct | backend/dataset_recording_service.py:52 | Recordings of the same arms at different seconds get different ids |
| Recording.OptionalArg | backend/dataset_recording_service.py:120-125 | An optional flag is present, with its value, exactly when the value is truthy |
| Recording.CommandSpec | backend/dataset_recording_service.py:87-125 | Booleans as "true"/"false"; the camera dictionary after the base arguments when there are cameras; the repository and then the task last, each present exactly when truthy |
| Recording.CamerasArgIffCameras | backend/dataset_recording_service.py:104-117 | The command holds a camera dictionary exactly when cameras are requested |
| Recording.NoDisplayFlagForCameras | backend/dataset_recording_service.py:104-117 | No `--display_data=true` is added after the base arguments |
| Recording.OptionalArgLacks | backend/dataset_recording_service.py:120-125 | An optional argument never equals a text that differs from its flag |
| Recording.RecordingService.constructor | backend/dataset_recording_service.py:20-24 | All maps empty |
| Recording.RecordingService.Start | backend/dataset_recording_service.py:32-163 | The id `robot_teleop_recording_ts`; the command; the session restarted; spawn success decides the process and start message |
| Recording.RecordingService.BeginMonitor | backend/dataset_recording_service.py:167-168 | Goes on exactly when the process is known; otherwise the session fails |
| Recording.RecordingService.HandleChunk | backend/dataset_recording_service.py:178-188 | The non-empty cleaned lines of a chunk go to queue and log in order |
| Recording.RecordingService.Finish | backend/dataset_recording_service.py:193-211 | Completed / failed / cancelled by the shared end rule |
| Recording.RecordingService.Stop | backend/dataset_recording_service.py:235-262 | A known id is removed from every map and cancelled; an unknown id is refused |
| Recording.RecordingService.GetAllOutput | backend/dataset_recording_service.py:270-280 | The queue in FIFO order, then empty |
| Recording.RecordingService.IsRunning | backend/dataset_recording_service.py:264-268 | True exactly for an existing "starting" or "running" session |
| Replay.SessionIdDistinct | backend/dataset_replay_service.py:42 | Replays on one arm at different seconds get different ids |
| Replay.CommandEpisode | backend/dataset_replay_service.py:68-75 | The command is the module and five flags in fixed order; different episodes give different commands, differing only in the episode flag |
| Replay.CleanReplayLine | backend/tests/test_dataset_replay_service.py:83-92 | Colour codes are removed and plain text is left unchanged |
| Replay.ReplayService.constructor | backend/dataset_replay_service.py:20-24 | All maps empty |
| Replay.ReplayService.Start | backend/dataset_replay_service.py:32-113 | The id `robot_replay_ts`; the command; the session restarted; spawn success decides the process and start message |
| Replay.ReplayService.BeginMonitor | backend/dataset_replay_service.py:117-118 | Goes on exactly when the process is known; otherwise the session fails |
| Replay.ReplayService.HandleChunk | backend/dataset_replay_service.py:128-138 | The non-empty cleaned lines of a chunk go to queue and log in order |
| Replay.ReplayService.Finish | backend/dataset_replay_service.py:143-161 | Completed / failed / cancelled by the shared end rule |
| Replay.ReplayService.Stop | backend/dataset_replay_service.py:185-212 | A known id is removed from every map and cancelled; an unknown id is refused |
| Replay.ReplayService.GetAllOutput | backend/dataset_replay_service.py:220-230 | The queue in FIFO order, then empty |
| Replay.ReplayService.IsRunning | backend/dataset_replay_service.py:214-218 | True exactly for an existing "starting" or "running" session |
| Training.PathJoin | backend/model_training_service.py:60 | `os.path.join` puts exactly one '/' between a non-empty directory and the relative path |
| Training.CommandSpec | backend/model_training_service.py:47-61 | Ten arguments, and the checkpoint under the output directory as an eleventh exactly when resuming; booleans "true"/"false" |
| Training.SearchFromSpec | backend/model_training_service.py:138-140 | The search finds a link exactly when some position starts one, and then it is the link at the leftmost such position |
| Training.SearchShape | backend/model_training_service.py:138 | A link is `https://wandb.ai/` plus a non-empty run without whitespace, found in the line and ending at whitespace or at the end of the line |
| Training.FirstLinkSpec | backend/model_training_service.py:134-141 | The link comes from the first line holding one; there is none exactly when no line holds one |
| Training.TrainingService.constructor | backend/model_training_service.py:24-31 | Nothing running, empty buffer, no error |
| Training.TrainingService.Start | backend/model_training_service.py:33-92 | Refused with nothing changed while running; otherwise the state is reset and the command built; a failed spawn ends not running with the error recorded |
| Training.TrainingService.Stop | backend/model_training_service.py:94-117 | Nothing changes without a run or a process; otherwise the run stops and "Training stopped by user" is appended |
| Training.TrainingService.ExtractWandbLink | backend/model_training_service.py:134-141 | The line loop returns `FirstLink` of the buffer |
| Training.TrainingService.GetStatus | backend/model_training_service.py:119-128 | The flags, a copy of the buffer and the first link |
| Training.TrainingService.ClearOutput | backend/model_training_service.py:130-132 | The buffer is emptied and nothing else changes |
| Training.TrainingService.ReadLines | backend/model_training_service.py:149-153 | Each line is appended right-stripped, in order |
| Training.TrainingService.Finish | backend/model_training_service.py:155-168 | Exit 0 completes with a message, anything else records the failure; always ends not running without a process |
| Training.TrainingService.MonitorFailed | backend/model_training_service.py:164-168 | A read failure records the error and ends the run |
| Training.RefusedStartKeepsStatus | backend/model_training_service.py:35-36 | A refused start leaves the reported status unchanged |
| Api.CameraStreams.constructor | backend/main.py:23 | The registry starts empty |
| Api.CameraStreams.Start | backend/main.py:474-486 | Success without opening for an active index; otherwise success iff the device opens; the registry never changes |
| Api.CameraStreams.Stop | backend/main.py:488-499 | Success iff the index is active; exactly that key is removed |
| Api.CameraStreams.IsStreaming | backend/main.py:501-504 | True iff the index is registered |
| Api.CameraStreams.OpenStream | backend/main.py:212-224 | A device that opens is registered under its index; otherwise nothing changes |
| Api.CameraStreams.KeepStreaming | backend/main.py:227 | The generator loops only while its index is registered |
| Api.CameraStreams.CloseStream | backend/main.py:254-256 | The generator removes the index on exit |
| Api.StopEndsStream | backend/main.py:488-499 | A stop ends the generator's loop, and a second stop fails |
| Api.ForwardedSpec | backend/main.py:446-453 | No empty table is sent, none twice in a row, at most one per reading, and every table sent was read |
| Api.ClientHasLatest | backend/main.py:446-453 | After a non-empty reading, the last table sent is that reading |
| Api.ForwardTables | backend/main.py:409-453 | The forwarding loop sends exactly `Forwarded(readings)` |
| Api.FormatValue | backend/main.py:516-517 | A text request value is written as it is, a number as its decimal text |
| Api.RunMotorSetup | backend/main.py:506-518 | 400 "Missing type or port" exactly when either JSON value is falsy (absent, empty text, 0); otherwise the motor set-up command with both values written into their flags |
| Api.RunMotorSetupCases | backend/main.py:506-518 | Absent, empty and zero values are refused; a non-zero number is accepted and written as `--robot.type=<number>` |
| Api.GetCalibrationStatus | backend/main.py:116-132 | "running" iff the session is running, else "finished"; the waiting flag as the service reports it |
| ArmConfig.Updated | openbot/dashboard/backend/arm_configuration_service.py:75-80 | Only the fields passed change; `connected` is kept |
| ArmConfig.UpdatedIdempotent | openbot/dashboard/backend/arm_configuration_service.py:75-80 | Passing nothing changes nothing, and repeating an update changes nothing more |
| ArmConfig.Warnings | openbot/dashboard/backend/arm_configuration_service.py:269-274 | At most two warnings, none exactly when every configured port is available |
| ArmConfig.Validate | openbot/dashboard/backend/arm_configuration_service.py:233-281 | `valid` is exactly "no errors"; the configuration is returned |
| ArmConfig.ValidIff | openbot/dashboard/backend/arm_configuration_service.py:244-277 | Valid exactly when the six fields are set and the arms differ in port and id; the available ports never matter |
| ArmConfig.DefaultInvalid | openbot/dashboard/backend/arm_configuration_service.py:244-257 | The empty configuration has exactly the six "not configured" errors |
| ArmConfig.AnyInSpec | openbot/dashboard/backend/arm_configuration_service.py:217 | `any(p in s for p in pats)` holds exactly when some pattern occurs |
| ArmConfig.IsUsbDevice | openbot/dashboard/backend/arm_configuration_service.py:204-231 | An unreadable device counts as USB, as do the Linux prefixes and the manufacturer or product keywords |
| ArmConfig.NotUsbIff | openbot/dashboard/backend/arm_configuration_service.py:204-231 | Not USB exactly when the device is readable, has none of the prefixes or patterns, and no keyword is mentioned |
| ArmConfig.MacPrefixHoldsPattern | openbot/dashboard/backend/arm_configuration_service.py:212-217 | A macOS prefix implies the matching pattern in the lowered path |
| ArmConfig.SerialPortNotUsb | openbot/dashboard/backend/tests/test_arm_configuration_service.py:248-252 | `/dev/ttyS0` with nothing else known is not USB |
| ArmConfig.UsbPortIsUsb | openbot/dashboard/backend/arm_configuration_service.py:208-209 | `/dev/ttyUSB0` is USB |
| ArmConfig.ArmConfigurationService.constructor | openbot/dashboard/backend/arm_configuration_service.py:34-55 | The loaded configuration, or the default |
| ArmConfig.ArmConfigurationService.UpdateLeader | openbot/dashboard/backend/arm_configuration_service.py:69-85 | The leader takes the passed fields, the follower is untouched, the result is the save result |
| ArmConfig.ArmConfigurationService.UpdateFollower | openbot/dashboard/backend/arm_configuration_service.py:87-102 | Symmetric to the leader update |
| ArmConfig.ArmConfigurationService.ValidateConfig | openbot/dashboard/backend/arm_configuration_service.py:233-281 | `Validate` of the current configuration |
| ArmConfig.ArmConfigurationService.Reset | openbot/dashboard/backend/arm_configuration_service.py:287-297 | All six fields become empty |
| ArmConfig.ResetInvalidates | openbot/dashboard/backend/tests/test_arm_configuration_service.py:376-384 | After a reset the configuration is invalid with six errors |
| Datasets.FirstTruthySpec | backend/dataset_visualization_service.py:98-110 | The first truthy value of a list, `Null` exactly when none is truthy |
| Datasets.SizePrecedence | backend/dataset_visualization_service.py:98-110 | The size is the first truthy of `size`, `sizeInBytes`, `size_bytes`, `cardData.size`, `cardData.sizeInBytes` |
| Datasets.CategoryValue | backend/dataset_visualization_service.py:113-118 | The prefix followed by a text gives that text |
| Datasets.CategoryOfSpec | backend/dataset_visualization_service.py:113-118 | The category comes from the first tag with the prefix; none when no tag has it |
| Datasets.FindCategory | backend/dataset_visualization_service.py:113-118 | The tag loop with its `break` computes `CategoryOf` |
| Datasets.SizeFormatted | backend/dataset_visualization_service.py:153-163 | From a convertible truthy size (raising from 1024^5 - 3 on, where the double-precision unit index reaches 5); None for a non-convertible one; else the category when truthy; else None |
| Datasets.NameOf | backend/dataset_visualization_service.py:122 | The name holds no '/' |
| Datasets.NameSpec | backend/dataset_visualization_service.py:122 | The name is the part after the last '/', the whole id without one |
| Datasets.Derive | backend/dataset_visualization_service.py:98-163 | The shared derived fields, and exactly when processing raises |
| Datasets.IsOwner | backend/dataset_visualization_service.py:134 | True iff a non-empty user name equals the author |
| Datasets.KeptFromInput | backend/dataset_visualization_service.py:89-171 | The listing is never longer than the input and holds only processed input records |
| Datasets.KeptAll | backend/dataset_visualization_service.py:89-171 | Without raising records, the listing is the processed input, in order |
| Datasets.ProcessDatasets | backend/dataset_visualization_service.py:89-171 | The loop appends the processed records and skips those that raise |
| Datasets.Details | backend/dataset_visualization_service.py:173-258 | The derived fields, or the empty dictionary exactly when processing raises |
| Datasets.ListedMatchesDetails | backend/dataset_visualization_service.py:89-258 | The listing and the details agree on the shared fields |
| Env.Or | backend/env_manager.py:40-41 | `a or b` on texts |
| Env.EnvGet | backend/env_manager.py:40-41 | `os.environ.get(name, '')` |
| Env.HfCredentials.constructor | backend/env_manager.py:3-7 | Both stored values start empty |
| Env.HfCredentials.Set | backend/env_manager.py:9-21 | Both stored values are overwritten; only non-empty ones are written into the environment, which otherwise stays |
| Env.HfCredentials.EnvForCli | backend/env_manager.py:23-33 | Exactly the non-empty stored values, under their names |
| Env.HfCredentials.Get | backend/env_manager.py:35-52 | Field by field a non-empty environment value wins; flags are non-emptiness; the source is "system" iff either variable is set |
| Env.SetThenEnvForCli | backend/env_manager.py:14-33 | After setting, the children's environment holds exactly the non-empty given values |
| Env.SetThenGet | backend/env_manager.py:14-52 | A non-empty user just set is reported, with source "system" |

## Left out

- Process and terminal plumbing is not modelled. This covers `subprocess.Popen`, `pty.openpty`, `select`, `os.read`/`os.write`, terminate, wait and kill, daemon threads and `time.sleep`.
  - A child is an abstract `ProcessState`. Reads are the texts given to the per-chunk methods. Spawn and write success are parameters.
  - The environment passed to the children (`os.environ` plus the `**cli_env` Hugging Face variables in calibration, recording and replay) is not modelled on the spawn; `Env.HfCredentials.EnvForCli` models what `cli_env` holds.
  - Stopping always succeeds: the kill-after-timeout path and exceptions raised while terminating are not modelled.
- Concurrency is modelled only as an interleaving of whole method calls. Races inside one Python method are not modelled.
- Clock readings are parameters: the session-id time stamps, training's start time, and the calibration quiet-poll timing (a boolean `overWait`). `datetime` formatting is not modelled.
- Session metadata the services store but never read back is not modelled: ports, types, cameras, start time, and the "error" field set by the monitor's exception handler.
- Decoding bytes from the terminal (`decode('utf-8', errors=…)`) is not modelled: chunks are already strings.
- `Text.Lower`: lower-cases ASCII letters only, because Python's Unicode case mapping is out of scope.
- `Datasets.Derive`: the hub fields passed through to the listing and the details unchanged are not modelled: description, downloads, likes, tags, card data, the creation and modification dates and the other detail-only fields. Only the fields the service computes are.
- `Datasets.IntOf`: models `int(size)` only for integers and digit strings. Signs, surrounding whitespace and underscores are not modelled.
- `Datasets.SizeFormatted`: `_format_size` (`math.log`, float rounding) is kept as the opaque label `FormattedBytes(n)`. Only its out-of-range `IndexError` is modelled. Its first raising size, 1024^5 - 3, assumes an IEEE 754 `log` that is correctly rounded near 1024^5; a platform `log` that rounds differently there moves that boundary by a few bytes.
- `json.dumps` of the camera dictionary is not modelled. The command carries the dictionary as a structured argument, and its JSON text is treated as an opaque serialisation.
- `Cameras.CameraArgs`: the `index_or_path` value is taken as given. Its type is not validated.
- `Api.RunMotorSetup`: request values are texts, integers or absent. Floats, booleans, lists and objects are not modelled.
- `Sessions.KeyErrorText`: `Text.Repr` escapes backslashes, the chosen quote and the ASCII control characters as Python does. Python also escapes non-ASCII characters that Unicode classes as non-printable; the model keeps every non-ASCII character as it is.
- The logger, `print` and the WebSocket send loops are not modelled, apart from the teleoperation table de-duplication. A failed send, which ends the loop, is not modelled.
- These are not modelled because they are filesystem, serial or network I/O: `check_calibration_files`, both `list_ports`, `test_connection`, `load_config`/`save_config`, and the Hugging Face HTTP calls.
  - The loaded configuration and the save result are parameters.
  - The available ports are a parameter of validation.
- The `validate_config` exception path ("Validation failed: …") and the missing-configuration case are not modelled. The service always holds a configuration.
- The `/run-motor-setup` subprocess run, its time-out and its output are not modelled. Only the parameter check and the command are.
- The motor-setup stop endpoint of backend/main.py:650-659 calls a method that does not exist. That endpoint is not modelled; `MotorSetup.MotorSetupService.Stop` models the service method.
- OpenCV capture, JPEG encoding and camera scanning are not modelled. A capture is an opaque handle, and "opens" is a parameter.
- These parts of the repository lie outside the modelled core and are not modelled: the `openbot` sensor, transport and interface packages, the example programs and the build scripts.
