# Sensor dashboard: a Dafny model

The system is a small IoT sensor setup.

- **Firmware.** A Zephyr image runs on an STM32 board with on-board sensors (HTS221, LPS22HB, LIS3MDL, LSM6DSL, VL53L0X) and a button. Its shell has these commands:
  - read a sensor;
  - log a sensor periodically to a file on the LittleFS partition mounted at `/lfs`;
  - POST a sensor periodically to an HTTP endpoint;
  - arm the LSM6DSL tap or step interrupt;
  - browse the file system (`ls`, `cd`, `pwd`, `cat`, `rm`, `mkdir`);
  - join a Wi-Fi network and keep its credentials in `/lfs/wifi.conf`.
- **Host scripts.** A Flask terminal sends shell lines to the board over the serial port and cleans up the echo. A Flask receiver accepts the sensor POSTs and keeps a history per endpoint.
- **File explorer.** A React page drives `ls` and `cd` through the terminal.

The model has one Dafny module per core source file:

| module | file | what it holds |
|---|---|---|
| `Text` | `text.dfy` | C and Python string helpers the other modules share: `strchr`/`strrchr`, NUL-terminated buffers, `strip`, `split`, `lower`, decimal digits, `atoi` |
| `Firmware` | `firmware.dfy` | `src/main.c`: the sensor table, timers, the work queue, `sensor_reading`, the file and HTTP sinks, the shell table, the LSM6DSL mode switches |
| `FileShell` | `filesys.dfy` | `src/filesys.c`: the shell's current directory and the `ls`/`cat`/`cd`/`pwd`/`rm`/`mkdir` commands |
| `Wifi` | `wifi.dfy` | `src/wifi.c`: connect parameters, saving credentials, the byte-by-byte config parser, reconnecting |
| `Lsm6dsl` | `lsm6dsl.dfy` | `src/lsm6dsl_step.c`: register writes for step detection, the step counter, init |
| `Receiver` | `receiver.dfy` | `scripts/sensor_app.py`: the sensor and event endpoints, the history, and the command line the dashboard sends |
| `BoardLink` | `board_link.dfy` | code shared by both `controller.py` files: the echo and ANSI filter, reply collection, command classification, the timeout command |
| `HostTerminal` | `host_terminal.dfy` | `scripts/python_server/flaskr/controller.py`: `process_command` and the choice of serial port |
| `LegacyTerminal` | `legacy_terminal.dfy` | `python_server/flaskr/controller.py`: the older `process_command` |
| `Explorer` | `explorer.dfy` | `fs_frontend/dashboard/app/FileExplorer.tsx`: parsing `ls` replies, and the page state updated by `pwd`, `ls` and clicks |

State that the source changes in place is modelled as classes:
- `Firmware.Board`: the sensor table array, the LSM6DSL mode and action, the set of pending work items.
- `FileShell.Shell`: `current_dir`.
- `Wifi.Station`: the connect parameters, `ssid`/`password`, `wifi_is_ready`, the contents of the config file.
- `Lsm6dsl.Lsm6dslContext`: the register writes issued, the step count, the trigger flag.
- `Receiver.Server`: the message history and the socket.io emits.
- `Explorer.Page`: the React state and the commands posted.

Everything the code only computes is functions and lemmas.

The two `controller.py` files share the same `filter_line` and `send_command` code. In `python_server/flaskr/controller.py` it sits at lines 52-87, and one definition in `BoardLink` models both.

Driver calls, file-system calls, sockets, the serial port and `fetch` are parameters: the return code or data they would give. Examples:
- `Io` and `Readout` in `Firmware`;
- `openRc` and lists of read replies in `FileShell`;
- `ifaceFound`/`mgmtRc` and the file contents in `Wifi`;
- `portOpens`/`received` in `BoardLink`;
- `Option<string>` replies in `Explorer`.

An operation that performs I/O either returns the sequence of I/O steps it would issue (`Firmware.WorkTrace`, a `seq<IoOp>`) or leaves the reply in the object's state.

Behaviour of the code that is easy to misread, and that the model follows:
- `read_wifi_config` takes its SSID from the first line only. If the first line is empty, the buffer index is never reset, so nothing afterwards becomes the SSID and the scan cannot finish (`Wifi.StepStuck`).
- On a failed `sensor_sample_fetch`, `sensor_reading` returns before it NUL-terminates the last byte of the buffer.
- `init_dir` is not called anywhere in the sources, so `current_dir` starts out as the empty string (`FileShell.Shell.constructor`).
- `cmd_cat` reads `argv[1]` without checking `argc`.
- The dashboard's "time interval (ms)" box is passed unchanged as the timer argument, which the firmware reads as seconds.
- `k_work_submit` of an item already queued does nothing more, so the pending work is a set.

## Model

| member | source | states |
|---|---|---|
| Firmware.Find | src/main.c:327-334 | the index is the first position holding the name, and -1 exactly when the name is not in the table |
| Firmware.FindsOwnIndex | src/main.c:261-325 | the six sensor names are distinct: each is found at its own slot |
| Firmware.Board.GetSensorIndex | src/main.c:327-334 | the loop's answer is `Find` over the table's names |
| Firmware.InterruptWork | src/main.c:338-375 | the LSM6DSL interrupt queues work only in TAP mode: file work exactly for (TAP, FILE), HTTP work exactly for (TAP, HTTP) |
| Firmware.Board.Int1Handler | src/main.c:338-375 | the pending set grows by exactly the item `InterruptWork` names for the current mode and action, and is unchanged otherwise; the board invariant is kept |
| Firmware.ShellLookup | src/main.c:1029-1041 | no registered command name leads to `cmd_lsm6dsl_step_http_start` |
| Firmware.ShellNeverReachesStepHttp | src/main.c:1029-1041 | no sequence of shell commands takes the LSM6DSL from another mode and action to (STEP, HTTP) |
| Firmware.MotionAfter | src/main.c:807-864 | a start command without its argument, and any other command, leaves the mode and action alone; with its argument a start command sets TAP for the tap commands and STEP otherwise, FILE for the file commands and HTTP otherwise |
| Firmware.RunShell | src/main.c:1029-1041 | command lines without arguments never change the mode and action |
| Firmware.SnprintfFits | src/main.c:994-1004 | a formatted text shorter than the buffer reads back whole from the NUL-terminated buffer |
| Firmware.Format | src/main.c:892-997 | per table name: the five fetched sensors fail exactly with a non-zero fetch code and otherwise give the driver text; the button fails with -EIO exactly when it cannot be read, otherwise "Button pressed" or "Button released"; any name outside the table gives "Unknown sensor: <name>"; an early error is never 0 |
| Firmware.UnknownSensorReading | src/main.c:994-1004 | for a name outside the table, the result is the length of "Unknown sensor: <name>\n", which is non-negative, with that line left as the buffer's C string when it fits, and -ENOSPC with a NUL in the last byte when it does not |
| Firmware.Snprintf | src/main.c:994-1004 | the buffer keeps its length; a shorter text is copied with a NUL after it, a longer one is cut to one byte less than the buffer and NUL-terminated |
| Firmware.SensorReading | src/main.c:882-1005 | -EINVAL and an untouched buffer for a null name, a null buffer or length 0. A fetch failure of any of the five sensors returns that code. Otherwise the last byte is NUL, and the result is -ENOSPC exactly when the text does not fit, else the text's length with the text in the buffer |
| Firmware.ReadCommand | src/main.c:1007-1027 | fewer than two words gives -EINVAL; a negative `sensor_reading` code is returned and nothing is printed; otherwise 0, and the text printed is the formatted reading whenever it fits the 256-byte buffer |
| Firmware.HandlerReadingIsFormatted | src/main.c:460-470 | a work handler gets a reading exactly when formatting succeeded and fit in 128 bytes; the reading is then that text |
| Firmware.HandlerReading | src/main.c:459-470 | a reading a handler uses holds no NUL and is shorter than the 128-byte buffer |
| Firmware.ThreeHeaderLines | src/main.c:493 | the three header lines of the POST template are those three headers in order |
| Firmware.PostHeaderValues | src/main.c:493 | the POST carries the given Host and Content-Length and the JSON content type |
| Firmware.PostMessageFraming | src/main.c:493-494 | the request is framed by its length exactly when Content-Length equals the body's length |
| Firmware.PostTemplateText | src/main.c:493 | the `snprintf` template is the HTTP/1.1 serialisation of a POST with those three headers |
| Firmware.PostTemplate | src/main.c:492-494 | the text starts with the request line for the path and ends with the body |
| Firmware.Sent | src/main.c:491-495 | what is written is a prefix of the request of at most 255 bytes, and the whole request when it fits |
| Firmware.PostTemplateIsRequest | src/main.c:493-494 | the template text is the HTTP request it is meant to be: framed exactly when its length is right, and addressed to the host |
| Firmware.PostRequestIsFramed | src/main.c:493-494 | the periodic sensor POST declares the reading's own length and is framed |
| Firmware.TapContentLengthShort | src/main.c:620-621 | as written, the tap POST declares 12 bytes fewer than its body holds and is not framed |
| Firmware.TapPostRequestIsFramed | src/main.c:620-621 | with the prefix counted, the tap POST is a framed request |
| Firmware.SplitUrl | src/main.c:471-483 | the host has no '/'; host, '/' and path put together give back the URL cut to 127 characters; with no '/' the host is the whole URL and the path is empty |
| Firmware.SplitUrlOfHostPath | src/main.c:471-483 | splitting `host/path` gives back that host and path |
| Firmware.LogPath | src/main.c:519 | `/lfs/` and the file name, cut to 127 characters; the whole of it for a name of at most 122 characters |
| Firmware.FileSinkTrace | src/main.c:500-532 | no I/O when the reading fails; otherwise the log file is opened first, and the reading is written and the file closed exactly when the open succeeds |
| Firmware.InterruptFileTrace | src/main.c:534-568 | the log file is opened first, before the reading is taken, and closed exactly when the open succeeded |
| Firmware.HttpSinkTrace | src/main.c:446-498 | no I/O when the reading fails; otherwise the URL's host is resolved first, and socket, connect, one write of at most 255 bytes and close follow exactly when it resolves (the tap handler, lines 570-627, has the same shape) |
| Firmware.WorkTrace | src/main.c:446-627 | the I/O of file work begins by opening a file, that of HTTP work by resolving a host |
| Firmware.ReadFailureWritesNothing | src/main.c:446-627 | when the reading fails, no handler writes to a file or a socket, and none resolves a host |
| Firmware.FileSinksAppendReading | src/main.c:500-569 | a file handler first opens `/lfs/<destination>` for create and append, writes nothing but the reading, and closes last; the interrupt handler always opens the file |
| Firmware.InterruptHttpPostsShortLength | src/main.c:571-627 | the tap handler resolves the URL's host first and, when the request fits the buffer, writes a POST whose declared length is the reading's, 12 bytes short of the body it carries |
| Firmware.HttpSinkPostsReading | src/main.c:446-498 | the HTTP handler resolves the URL's host first and, when the request fits the buffer, writes the framed POST of the reading to the URL's path |
| Firmware.StartGuardAdmitsMissingTiming | src/main.c:674-682 | as written, the argc guard admits a three-word command line, which has no timing argument |
| Firmware.StartArgsAccepted | src/main.c:674-682 | the corrected guard admits only command lines that carry the timing argument `argv[3]` |
| Firmware.UpdateConsistent | src/main.c:641-690 | replacing a table entry by one with the same name that keeps every destination work depends on preserves the board invariant |
| Firmware.SubmitConsistent | src/main.c:630-638 | queueing ready work preserves the board invariant |
| Firmware.TimerStopConsistent | src/main.c:641-652 | stopping either timer of a sensor preserves the board invariant |
| Firmware.AfterExpiry | src/main.c:689 | after an expiry a timer started with period 0 (`K_NO_WAIT`) is stopped, and any other keeps running as it was |
| Firmware.Board.constructor | src/main.c:261-325 | every sensor starts with its own name, no destinations and stopped timers; NORMAL mode, FILE action, nothing queued |
| Firmware.Board.TimerStart | src/main.c:674-690 | a line of fewer than three words changes nothing (the guard as written); otherwise only that sensor's log file and file timer change, and the timer runs with `atoi` of the timing as both delay and period |
| Firmware.Board.HttpTimerStart | src/main.c:655-671 | likewise for the URL and the HTTP timer |
| Firmware.Board.TimerStop | src/main.c:867-878 | stops only that sensor's file timer; without an argument, or when the timer is already stopped, nothing changes |
| Firmware.Board.HttpTimerStop | src/main.c:641-652 | stops only that sensor's HTTP timer; without an argument, or when the timer is already stopped, nothing changes |
| Firmware.Board.TapStart | src/main.c:836-846 | with a file argument: sets the LSM6DSL's interrupt file and switches to (TAP, FILE); without one, changes nothing |
| Firmware.Board.StepStart | src/main.c:848-858 | likewise with (STEP, FILE) |
| Firmware.Board.TapHttpStart | src/main.c:807-819 | likewise with the interrupt URL and (TAP, HTTP) |
| Firmware.Board.StepHttpStart | src/main.c:821-834 | likewise with the interrupt URL and (STEP, HTTP) |
| Firmware.Board.StepStop | src/main.c:860-864 | prints "Stopped LSM6DSL step detection" and stops nothing: the mode and action are those from before the call |
| Firmware.Board.TimerExpired | src/main.c:630-633 | a running file timer queues exactly that sensor's file work; a timer started with period 0 is one-shot and stops, any other keeps running |
| Firmware.Board.HttpTimerExpired | src/main.c:635-638 | a running HTTP timer queues exactly that sensor's HTTP work; a period-0 timer stops, any other keeps running |
| Firmware.Board.RunWork | src/main.c:446-627 | the item leaves the queue and its handler's I/O is the trace for that sensor's entry (the tap handler's request with its Content-Length as written); the invariant that the entry has its destination is kept |
| FileShell.Shell.constructor | src/filesys.c:8 | `current_dir` starts out empty |
| FileShell.Shell.SetDir | src/filesys.c:11-14 | the directory becomes the given path |
| FileShell.Shell.InitDir | src/filesys.c:17-21 | the directory becomes `/lfs`, which lies under the mount point |
| FileShell.CdBranchesAgree | src/filesys.c:180-184 | the `/lfs`-root branch of `cd` builds the same path as the general child branch |
| FileShell.ChildPath | src/filesys.c:181-183 | `dir/name` cut to the 256-byte buffer, and the whole of it when it fits |
| FileShell.ParentPath | src/filesys.c:172-174 | the directory up to its last '/': a strict prefix, followed in the directory by that '/' and a part without '/' |
| FileShell.CdAfter | src/filesys.c:152-200 | unchanged without exactly one argument or when the child does not open; `cd ..` below `/lfs` gives the parent; a child that opens gives `ChildPath`, from either `snprintf` branch |
| FileShell.CdKeepsInLfs | src/filesys.c:152-200 | from a directory under `/lfs`, every `cd` is defined and stays under `/lfs` |
| FileShell.ParentInLfs | src/filesys.c:171-174 | `cd ..` below `/lfs` stays under `/lfs` |
| FileShell.ChildInLfs | src/filesys.c:175-197 | entering a child stays under `/lfs` |
| FileShell.RunCds | src/filesys.c:152-200 | any sequence of `cd` commands from under `/lfs` ends under `/lfs` |
| FileShell.CdsFromInitStayInLfs | src/filesys.c:17-21 | after `init_dir`, no `cd` sequence leaves `/lfs` |
| FileShell.CdChildThenParent | src/filesys.c:166-196 | `cd name` that opens, then `cd ..`, returns to the starting directory |
| FileShell.Shell.Cd | src/filesys.c:152-200 | the new directory is the one `cmd_cd` computes: the child on a successful `cd name`, the parent on `cd ..`, otherwise unchanged; staying under `/lfs` is preserved |
| FileShell.Shell.Pwd | src/filesys.c:147-150 | prints the current directory and a newline |
| FileShell.TargetPathSplits | src/filesys.c:103-106 | the `rm`/`mkdir` target is the directory, '/', and the name, and the name reads back as its last component |
| FileShell.TargetPath | src/filesys.c:103-106 | fits the buffer, and is `dir/name` (`/name` in the root) whenever that fits |
| FileShell.Shell.Rm | src/filesys.c:95-113 | no target without an argument; otherwise removes `current_dir/name` |
| FileShell.Shell.Mkdir | src/filesys.c:115-145 | a target exactly when argc is 2, namely `current_dir/name` |
| FileShell.CatPath | src/filesys.c:63-65 | the path opened starts with `/lfs/` and fits the 64-byte buffer |
| FileShell.CatLoopStep | src/filesys.c:77-89 | one read: an error stops with its code, 0 bytes stops cleanly, otherwise the chunk is printed and reading goes on |
| FileShell.CatLoop | src/filesys.c:77-89 | the code is 0 or negative, and 0 when no read fails; the printed text holds no NUL |
| FileShell.CatPrintsFile | src/filesys.c:77-91 | for a file without NUL bytes, read in 63-byte chunks, the output is the whole file and the code is 0 |
| FileShell.CatRead | src/filesys.c:77-89 | the printed text and the code are those of the read loop `CatLoop` |
| FileShell.Shell.Cat | src/filesys.c:58-93 | ENOENT is reported as no such file with code 0; any other open error is returned; otherwise the file text printed after the heading line, and the code, are those of the read loop |
| FileShell.LsPrintsEntries | src/filesys.c:37-54 | reading a directory prints each entry's name, in order, ending with code 0 |
| FileShell.LsLoop | src/filesys.c:37-54 | the code is 0 or the negative code one `fs_readdir` returned; at most one printed line per reply |
| FileShell.Shell.Ls | src/filesys.c:24-55 | an open error returns its code and prints nothing; otherwise the entries are listed and the directory is closed |
| Wifi.ParamsFor | src/wifi.c:15-20 | the SSID and PSK lengths are the C string lengths, with WPA2-PSK on any channel |
| Wifi.Station.Connect | src/wifi.c:9-35 | fewer than three words gives -EINVAL and nothing changes; otherwise the parameters are those of `ParamsFor`, and the result is -ENODEV without an interface, else the management call's code |
| Wifi.Overwrite | src/wifi.c:40-50 | opening without truncation leaves the old tail after the new text |
| Wifi.SavedText | src/wifi.c:47-50 | as long as the two C strings and two newlines; it starts with the SSID's C string, followed by a newline, and it ends with a newline |
| Wifi.Station.Save | src/wifi.c:37-56 | a failed open changes nothing; the file then exists, and with exactly two arguments `ssid\npassword\n` is written over the start of its old contents |
| Wifi.Station.OnEvent | src/wifi.c:63-71 | `wifi_is_ready` becomes true on an IPv4 address event and stays set |
| Wifi.ReadByte | src/wifi.c:93-113 | one byte of the loop, on the array, matches the pure scanning step |
| Wifi.ParseConfigLoop | src/wifi.c:88-115 | the byte loop recovers the SSID as the first line and the password as the second, or none where a line is missing |
| Wifi.ParseConfig | src/wifi.c:88-115 | a password only together with an SSID; each value read is non-empty and holds no NUL and no newline |
| Wifi.Step | src/wifi.c:92-111 | the buffer keeps its size and receives the byte at `b` (NUL for a newline); any other byte only advances `b`; the scan ends exactly at a newline after the SSID is taken; once taken, the SSID stays |
| Wifi.Run | src/wifi.c:92-115 | the line buffer keeps its size through the whole scan |
| Wifi.RunPhase | src/wifi.c:92-115 | every prefix of the scan is in the phase its position allows: first line, stuck after an empty first line, second line, or done |
| Wifi.StepPreserves | src/wifi.c:92-115 | one byte keeps the scan in phase and inside the 64-byte buffer |
| Wifi.StepStuck | src/wifi.c:95-103 | after an empty first line nothing more is ever recorded |
| Wifi.StepSecondNewline | src/wifi.c:104-110 | the newline ending the second line finishes the scan with the parsed credentials |
| Wifi.EndOfFile | src/wifi.c:92 | reaching the end of the file unfinished gives what the lines provide |
| Wifi.ReadFits | src/wifi.c:88-113 | for a file whose lines fit the buffer, no write goes past byte 63 |
| Wifi.SaveThenParse | src/wifi.c:37-115 | saved credentials read back as the same SSID and password, whatever the file held before |
| Wifi.TwoLines | src/wifi.c:92-111 | text that starts with two non-empty lines parses as those two lines |
| Wifi.Station.ReadConfig | src/wifi.c:73-122 | with no file, nothing changes; otherwise `ssid`/`password` are what the file's lines give, or what the stack buffers held |
| Wifi.Station.ConnectToSaved | src/wifi.c:124-151 | reads the file, then connects with those credentials when both are present; otherwise the parameters stay |
| Wifi.SavedCredentialsReconnect | src/wifi.c:124-132 | after `wifi_save`, reconnecting uses exactly the saved SSID and password |
| Wifi.Station.constructor | src/wifi.h:12-17 | no credentials, not ready, no parameters |
| Lsm6dsl.OrZero | src/lsm6dsl_step.c:66-77 | accumulating codes with `|=` gives 0 exactly when every step returned 0 |
| Lsm6dsl.Apply | src/lsm6dsl_step.c:68-75 | a write to FUNC_CFG_ACCESS switches register banks; other writes go to the open bank |
| Lsm6dsl.StepDetectionKeepsBanks | src/lsm6dsl_step.c:68-75 | the step setup opens the embedded bank, writes only embedded registers there, and closes it; it issues the same writes as `enable_step_sensor` in src/main.c |
| Lsm6dsl.StepDetectionConfigures | src/lsm6dsl_step.c:65-78 | after the writes, the pedometer and step interrupt are enabled, the step threshold is set, and the normal bank is selected |
| Lsm6dsl.Combine | src/lsm6dsl_step.c:118 | the high byte is the top 8 bits and the low byte the bottom 8 |
| Lsm6dsl.CombineValue | src/lsm6dsl_step.c:118 | the count is high × 256 + low |
| Lsm6dsl.CombineSplit | src/lsm6dsl_step.c:118 | every 16-bit count is the combination of its two bytes |
| Lsm6dsl.SplitCombine | src/lsm6dsl_step.c:118 | combining does not lose either byte |
| Lsm6dsl.TriggerFlag.constructor | include/lsm6dsl_step.h:14 | the flag holds the given value |
| Lsm6dsl.Lsm6dslContext.constructor | include/lsm6dsl_step.h:12-15 | no writes yet, and nothing configured |
| Lsm6dsl.Lsm6dslContext.WriteReg | src/lsm6dsl_step.c:34-36 | appends exactly one register write and returns the bus's code |
| Lsm6dsl.Lsm6dslContext.EnableStepDetection | src/lsm6dsl_step.c:65-78 | issues exactly the step-setup writes; 0 exactly when every write returned 0 |
| Lsm6dsl.Lsm6dslContext.ReadStepCount | src/lsm6dsl_step.c:113-121 | on two good reads the count is the combined bytes; on any failure a nonzero code and the count unchanged |
| Lsm6dsl.Lsm6dslContext.ClearTrigger | src/lsm6dsl_step.c:123-127 | a non-null flag is cleared |
| Lsm6dsl.Lsm6dslContext.Init | src/lsm6dsl_step.c:42-62 | -ENODEV and nothing configured when the bus is not ready; otherwise pin, callback and interrupt are set up and the interrupt setup's code is returned |
| Receiver.InitialHistory | scripts/sensor_app.py:26-36 | the history has exactly the known endpoints, all empty |
| Receiver.GrowsTransitive | scripts/sensor_app.py:112-116 | the history only grows, so growth composes |
| Receiver.Status | scripts/sensor_app.py:118-138 | 404 exactly for an unknown endpoint, 400 exactly for a known one whose body is not JSON, else 200 |
| Receiver.FieldValue | scripts/sensor_app.py:124 | none exactly when no header has the name, compared without regard to ASCII case; otherwise the value of a header that has it |
| Receiver.FieldValueIgnoresCase | scripts/sensor_app.py:124 | the lookup gives the same answer whatever case the name is written in |
| Receiver.Mimetype | scripts/sensor_app.py:124 | lower-case, as long as the trimmed part of the value before the first ';' |
| Receiver.IsJson | scripts/sensor_app.py:124 | a JSON request has a Content-Type field whose media type starts with `application/` |
| Receiver.ContentTypeAnyCase | scripts/sensor_app.py:124 | a JSON Content-Type is recognised whatever the case of its field name |
| Receiver.AnyCaseJsonPostLogged | scripts/sensor_app.py:118-128 | such a POST to a known sensor endpoint gets 200 exactly when its body decodes |
| Receiver.LowerCaseContentTypeLogged | scripts/sensor_app.py:118-128 | a POST to `/sensor/hts221` with `content-type: application/json` gets 200 exactly when its body decodes |
| Receiver.Allows | scripts/sensor_app.py:118-146 | OPTIONS always; nothing outside OPTIONS, POST, GET and HEAD; an endpoint rule answers exactly OPTIONS and POST |
| Receiver.PathOf | scripts/sensor_app.py:118-146 | the path matched is the target up to its first '?', and the whole target when it has none |
| Receiver.RouteOf | scripts/sensor_app.py:118-146 | `/sensor/<name>` and `/event/<name>` with a one-segment name match their rules, and `/dashboard` and `/` exactly match theirs |
| Receiver.RouteOfSegment | scripts/sensor_app.py:118-131 | every one-segment name is routed to its endpoint |
| Receiver.Response | scripts/sensor_app.py:118-146 | 404 exactly for an unmatched path or a POST to an unknown endpoint; 405 exactly for a method the rule does not answer; 400 exactly for a POST to a known endpoint whose body is not JSON (its Content-Type found whatever the case of the field name); 200 otherwise: OPTIONS, the two pages with GET or HEAD, and logged POSTs |
| Receiver.QueryIgnored | scripts/sensor_app.py:118-146 | adding a query string to a target changes neither the answer nor whether the request is logged |
| Receiver.Server.constructor | scripts/sensor_app.py:26-36 | starts with the initial history and nothing emitted |
| Receiver.Server.LogMessage | scripts/sensor_app.py:112-116 | appends the entry to that endpoint's history and emits it; the history grows |
| Receiver.Server.Accept | scripts/sensor_app.py:121-128 | the status is `Status`; a 200 logs exactly one entry, and any other status changes nothing |
| Receiver.Server.SensorEndpoint | scripts/sensor_app.py:118-128 | likewise for `sensor/<name>` |
| Receiver.Server.EventEndpoint | scripts/sensor_app.py:130-138 | likewise for `event/<type>` |
| Receiver.Server.Serve | scripts/sensor_app.py:118-146 | the status is `Response`; a logged request (a JSON POST to a known endpoint, its Content-Type field name matched without regard to case, with a body that decodes) appends exactly one entry to its endpoint's history and emits it; every other request changes nothing |
| Receiver.EnableHttp | scripts/sensor_app.py:453-463 | no command when either box is blank; otherwise the `sensor_timer_http_start` line with the trimmed boxes |
| Receiver.DashboardEndpoint | scripts/sensor_app.py:460 | both branches name `sensor/<sensor>` |
| Receiver.HttpStartLine | scripts/sensor_app.py:461 | the command name, sensor, URL and interval joined by single spaces |
| Receiver.DashboardSensor | scripts/sensor_app.py:204 | every sensor the dashboard offers is a firmware sensor whose endpoint the receiver knows |
| Receiver.UrlIsWord | scripts/sensor_app.py:461 | the URL the dashboard builds is one shell word |
| Receiver.ShellLookupHttpStart | src/main.c:1035 | the dashboard's command name is bound to `cmd_sensor_timer_http_start` |
| Receiver.HttpStartLineReachesEndpoint | scripts/sensor_app.py:453-462 | the board splits the dashboard's line into exactly those four words, and the URL splits back into the IP and the receiver's endpoint |
| Receiver.EnableHttpReachesEndpoint | scripts/sensor_app.py:453-462 | filled-in boxes give exactly that line |
| Receiver.MimetypeOfPlain | scripts/sensor_app.py:124 | a plain content type is its own mimetype |
| Receiver.JsonMimetype | scripts/sensor_app.py:124 | the firmware's content type counts as JSON |
| Receiver.FirmwarePostOutcome | scripts/sensor_app.py:118-128 | the firmware's POST for a dashboard sensor gets 200 exactly when its body decodes |
| Receiver.SegmentPostOutcome | scripts/sensor_app.py:118-128 | likewise for any known one-segment sensor endpoint |
| BoardLink.EscapeLength | scripts/python_server/flaskr/controller.py:101 | an escape sequence matched at the start is at least two characters and begins with ESC |
| BoardLink.StripAnsi | scripts/python_server/flaskr/controller.py:101-107 | removing escapes never lengthens the line |
| BoardLink.StripAnsiIsSubsequence | scripts/python_server/flaskr/controller.py:107 | the cleaned line is a subsequence of the original |
| BoardLink.StripAnsiPlain | scripts/python_server/flaskr/controller.py:107 | a line without ESC is unchanged |
| BoardLink.SgrStripped | scripts/python_server/flaskr/controller.py:101 | a colour sequence `ESC [ params m` disappears completely |
| BoardLink.FilterLine | scripts/python_server/flaskr/controller.py:100-107 | a line is dropped exactly when it is noise or the echo of the command; a kept line is the line with escapes removed |
| BoardLink.IsNoise | scripts/python_server/flaskr/controller.py:102-104 | a noise line holds one of the markers, so it has at least five characters |
| BoardLink.EchoIsDropped | scripts/python_server/flaskr/controller.py:109-128 | the board's echo of the command sent is never part of the reply |
| BoardLink.Kept | scripts/python_server/flaskr/controller.py:125-131 | the kept lines are no more than those read, and none is empty |
| BoardLink.Keep | scripts/python_server/flaskr/controller.py:129-130 | one line contributes itself exactly when the filter kept it non-empty |
| BoardLink.KeptStep | scripts/python_server/flaskr/controller.py:126-130 | the lines kept after one more read are the earlier ones plus that line's contribution |
| BoardLink.LinesSplit | scripts/python_server/flaskr/controller.py:130 | joining lines with newlines and splitting again gives the lines back |
| BoardLink.Lines | scripts/python_server/flaskr/controller.py:129-130 | every line is followed by a newline, so a non-empty reply ends with one |
| BoardLink.BoardReply | scripts/python_server/flaskr/controller.py:109-135 | a reply exactly when the port opens, and the empty reply when nothing was read |
| BoardLink.ReplySplitsIntoKeptLines | scripts/python_server/flaskr/controller.py:125-132 | the reply splits into exactly the kept lines |
| BoardLink.SendCommand | scripts/python_server/flaskr/controller.py:109-135 | writes the command and a newline when the port opens and returns the kept lines; with no port, writes nothing and returns None |
| BoardLink.Classify | scripts/python_server/flaskr/controller.py:139-166 | the branches in the source's order, case-insensitively: help, `set_timeout `, `os_do `, else to the board |
| BoardLink.ClassifySetTimeout | scripts/python_server/flaskr/controller.py:148 | every `set_timeout ` line goes to the timeout branch |
| BoardLink.SetTimeoutReply | scripts/python_server/flaskr/controller.py:148-153 | usage without an argument, the float's text after a good parse, the error text otherwise |
| BoardLink.TimeoutReplyReadBack | scripts/python_server/flaskr/controller.py:179-180 | the terminal's read-back finds the value as the fourth, second-to-last word of the reply |
| HostTerminal.OsDoReply | scripts/python_server/flaskr/controller.py:154-162 | trimmed output on success, the error prefix with trimmed stderr on failure, the error prefix with the message on an exception |
| HostTerminal.ProcessCommand | scripts/python_server/flaskr/controller.py:137-166 | each kind of command is answered by its branch |
| HostTerminal.SetTimeoutMissingArgument | scripts/python_server/flaskr/controller.py:148-153 | `set_timeout` with only spaces after it gets the usage message |
| HostTerminal.Least | scripts/python_server/flaskr/controller.py:70-78 | the first element of `sorted(set(...))` is found and is below every name |
| HostTerminal.Flatten | scripts/python_server/flaskr/controller.py:65-67 | the collected names are exactly those globbed, and none exactly when every pattern found none |
| HostTerminal.FindSerialPort | scripts/python_server/flaskr/controller.py:55-78 | no port exactly when no pattern matched; otherwise the least name found under any pattern |
| LegacyTerminal.ProcessCommand | python_server/flaskr/controller.py:89-115 | the same branches, with `os_do` reported as executed unless `os.system` raises |
| LegacyTerminal.OsDoReplyNamesCommand | python_server/flaskr/controller.py:106-109 | the reply to `os_do cmd` names exactly `cmd` after the fixed prefix |
| Explorer.NonBlank | fs_frontend/dashboard/app/FileExplorer.tsx:55 | keeps no blank line and adds none; a single line is kept exactly when it is not blank |
| Explorer.NonBlankAppend | fs_frontend/dashboard/app/FileExplorer.tsx:55 | the filter works line by line: filtering `a + b` is filtering `a`, then `b`, so every non-blank line is kept, in order |
| Explorer.ItemOf | fs_frontend/dashboard/app/FileExplorer.tsx:56-60 | the name is the trimmed line, and an item is a file exactly when its name holds a '.' |
| Explorer.Items | fs_frontend/dashboard/app/FileExplorer.tsx:56-61 | one item per line, in order |
| Explorer.ParseLs | fs_frontend/dashboard/app/FileExplorer.tsx:55-61 | every item has a non-empty trimmed name |
| Explorer.ParseLsLines | fs_frontend/dashboard/app/FileExplorer.tsx:55-61 | one item per non-blank line of the reply, in order, each the item of that line |
| Explorer.NamesOfItems | fs_frontend/dashboard/app/FileExplorer.tsx:57 | trimmed lines give back their own names |
| Explorer.ParseLsOfLines | fs_frontend/dashboard/app/FileExplorer.tsx:55-61 | a reply of plain names, one per line, parses back to those names |
| Explorer.KeptPlain | scripts/python_server/flaskr/controller.py:125-131 | plain entry names pass the terminal's filter unchanged |
| Explorer.ExplorerShowsDirectory | fs_frontend/dashboard/app/FileExplorer.tsx:55-61 | the explorer lists exactly the entries the board's `ls` printed |
| Explorer.ShowsDirectoryAfter | fs_frontend/dashboard/app/FileExplorer.tsx:43-61 | through the terminal's filter for the `ls` command, the explorer still shows exactly the board's entries |
| Explorer.CdCommandArgv | fs_frontend/dashboard/app/FileExplorer.tsx:99 | the board receives `cd` with the item's name as its one argument |
| Explorer.Page.constructor | fs_frontend/dashboard/app/FileExplorer.tsx:12-18 | empty output, path "/", no contents, nothing selected |
| Explorer.Page.FetchPwd | fs_frontend/dashboard/app/FileExplorer.tsx:23-39 | posts `pwd`; on a reply the path is the trimmed reply, otherwise an error line is added |
| Explorer.Page.FetchLs | fs_frontend/dashboard/app/FileExplorer.tsx:43-70 | clears the selection and hides the menu; posts `ls`; on a reply the contents are the parsed reply and the output is only the "Contents of: " line for the path; otherwise the contents are empty and the output is only the failure line; the path and menu target are kept, and every item shown has a good name |
| Explorer.Page.ShowListing | fs_frontend/dashboard/app/FileExplorer.tsx:47-69 | posts `ls`; sets the contents and output as in FetchLs; the selection, menu, path and menu target are kept |
| Explorer.PwdResult | fs_frontend/dashboard/app/FileExplorer.tsx:23-39 | the path has no surrounding whitespace, and is "/" when the request failed |
| Explorer.PathAfter | fs_frontend/dashboard/app/FileExplorer.tsx:31-32 | the path shown is kept when the request failed, otherwise it is the trimmed reply |
| Explorer.ListingAfter | fs_frontend/dashboard/app/FileExplorer.tsx:55-66 | nothing listed when the request failed; otherwise one item per non-blank line |
| Explorer.OutputAfter | fs_frontend/dashboard/app/FileExplorer.tsx:44-67 | one line: the failure message when the request failed, otherwise "Contents of: " and the path |
| Explorer.Page.HandleItemClick | fs_frontend/dashboard/app/FileExplorer.tsx:93-110 | a file is only selected; a directory posts `cd name`, `pwd` and `ls` and shows the new path and listing, or only adds the change-directory error when the `cd` post fails |
| Explorer.Page.HandleBackClick | fs_frontend/dashboard/app/FileExplorer.tsx:112-126 | changes nothing at "/"; elsewhere posts `cd ..`, `pwd` and `ls` and shows the new path and listing, or only adds the go-back error when the `cd` post fails |
| Explorer.Page.Refresh | fs_frontend/dashboard/app/FileExplorer.tsx:72-79 | posts `pwd` then `ls`; the path shown is the trimmed reply (kept when that fetch fails), the listing is the parsed `ls` reply (empty on failure), and the output is only the heading for the fetched path ("/" on failure) or the listing error |
| Explorer.Page.PostThenRefresh | fs_frontend/dashboard/app/FileExplorer.tsx:95-104 | posts the command; a failed post only adds the failure line; a delivered one refreshes path and listing, whose output replaces everything before it |
| Explorer.Page.HandleContextMenu | fs_frontend/dashboard/app/FileExplorer.tsx:128-133 | remembers the right-clicked item and shows the menu, changing nothing else |
| Explorer.Page.HandleCreateDirectory | fs_frontend/dashboard/app/FileExplorer.tsx:135-153 | a cancelled or empty name only hides the menu; otherwise posts `mkdir name`, then `pwd` and `ls` and shows the new path and listing, or, when the post fails, adds the echo and the backend error and changes nothing else |
| Explorer.Page.HandleRemoveItem | fs_frontend/dashboard/app/FileExplorer.tsx:155-172 | with no menu target only hides the menu; otherwise the same as creating, with `rm name` for the menu's item |
| Text.Truncate | src/main.c:472 | the result is a prefix of at most n characters, and the whole string when it fits |
| Text.FirstIndexOf | src/main.c:477 | the first position of the character, or -1 exactly when it is absent |
| Text.LastIndexOf | src/filesys.c:172 | the last position of the character, or -1 exactly when it is absent |
| Text.CStr | src/main.c:466 | the text up to the first NUL, the whole text when it has none |
| Text.Trim | scripts/python_server/flaskr/controller.py:127 | no whitespace at either end |
| Text.Split | fs_frontend/dashboard/app/FileExplorer.tsx:55 | at least one piece, and no piece holds the separator |
| Text.Words | scripts/python_server/flaskr/controller.py:150 | no more pieces than characters |
| Text.WordsAreWords | scripts/python_server/flaskr/controller.py:150 | every piece is a non-empty run without whitespace |
| Text.LowerChar | scripts/python_server/flaskr/controller.py:139 | never a capital; a letter stays a letter and nothing else becomes one |
| Text.Lower | scripts/python_server/flaskr/controller.py:139 | the same length, each character lower-cased on its own |
| Text.Contains | scripts/python_server/flaskr/controller.py:103 | a contained text is no longer than the line |
| Text.SplitJoin | fs_frontend/dashboard/app/FileExplorer.tsx:55 | splitting at a separator undoes joining pieces that do not contain it |
| Text.NatToString | src/main.c:493-494 | `%d` of a non-negative number: at least one character, all decimal digits (read back by DigitsRoundTrip) |
| Text.DigitsRoundTrip | src/main.c:494 | the decimal digits printed for a number read back as that number |
| Text.AtoiOfDecimal | src/main.c:682 | `atoi` of a printed number is that number |
| Text.Atoi | src/main.c:682 | 0 when no sign or digit follows the leading whitespace; not positive after a '-', not negative otherwise |

## Left out

- Zephyr's drivers, file system, network stack, kernel timers and real time. These are parameters (return codes and data) or left implicit. `k_timer_start` is recorded as the running timer's delay and period; expiry is an operation the caller invokes, and a timer whose period is 0 (`K_NO_WAIT`) stops after it. Negative timings are treated as periodic, like any other non-zero period.
- The text each sensor's format produces is the `Readout.text` parameter. The `%f` formatting of floating-point channel values is not modelled.
- `enable_tap_sensor` and `enable_single_tap_sensor` in src/main.c, the tap setup in src/lsm6dsl_step.c and `lsm6dsl_int1_handler` are not modelled. They only write fixed registers or print. As a result, the `&val` misuse in the tap setup is not modelled either.
- The register reads `int1_handler` does in STEP mode are left out, because they only print.
- `init_sensors`, `main`, `self_assign_ip`, `cmd_wifi_ap`, `toggle_led1`, the HTTP server thread and the Bluetooth code are left out. They are start-up wiring, LED toggling, or outside the core. The `k_malloc` of the destination buffers in `init_sensors` is modelled as destinations that are absent until a start command sets them.
- Sockets, the serial port, socket.io, `subprocess`, `os.system`, `glob` and `fetch` are parameters.
- Python float parsing and printing is the `floatRepr` parameter.
- The Windows branch of `find_serial_port` in scripts/python_server/flaskr/controller.py is left out. It enumerates COM ports through pyserial.
- The older `find_serial_port` in python_server/flaskr/controller.py (lines 28-35) is left out. It takes the first name `glob` returns for `/dev/cu.usbmodem*`, in the file system's order, which the model has no way to state.
- The interactive `terminal()` loop and `handle_serial_command` are left out; only the read-back of the timeout reply is modelled. The loop's time-bounded reads are modelled as the list of lines received.
- Whitespace and case folding cover ASCII only. Python's `strip()` and `split()` also treat the separators 0x1C-0x1F as whitespace, while the model's whitespace is C's `isspace` set. The members below therefore keep those four characters where the host scripts would drop them.
- BoardLink.FilterLine: a line that begins or ends with 0x1C-0x1F is compared and kept with those characters, which `strip()` would remove.
- BoardLink.Kept: the same, for the `readline().strip()` of each line read.
- BoardLink.SendCommand: the same, through `Kept`.
- BoardLink.SetTimeoutReply: 0x1C-0x1F do not separate words here, though `split()` splits at them.
- HostTerminal.OsDoReply: the output's surrounding 0x1C-0x1F are kept, though `strip()` removes them.
- React rendering, JSX, the context menu's position, the global click listener that hides the menu, and the asynchronous ordering of `fetch` calls are left out. Each handler is modelled as its calls running in program order.
- Firmware.Board.TimerStart: requires that a command line passing the `argc < 3` guard names a sensor in the table. The source indexes the table with the -1 that an unknown name yields.
- Firmware.Board.TimerStart: requires a fourth word whenever the guard passes. With exactly three words the source reads `argv[3]` past the arguments (see Findings), and the model gives that read no meaning.
- Firmware.Board.HttpTimerStart: the same two requirements, for the same reasons.
- Firmware.Board.TimerStop: requires that a command with an argument names a sensor in the table, for the same reason.
- Firmware.Board.HttpTimerStop: the same requirement, for the same reason.
- Firmware.Board.TimerStart: destinations are copied strings, not pointers into `argv`. The start commands store `argv` pointers in the source, and this aliasing is not modelled.
- Wifi.ParseConfigLoop: requires that every line fits the 64-byte buffer. The source writes past the buffer on a longer line.
- Wifi.Station.ReadConfig: the same requirement, for the same reason. The contents of the uninitialised stack buffers are the `junkSsid`/`junkPassword` parameters.
- FileShell.Shell.Cd: requires `CdDefined`: `cd ..` needs a '/' in the directory, because `strrchr` would return NULL otherwise.
- FileShell.Shell.Cat: requires an argument, because the source reads `argv[1]` without checking `argc`.
- FileShell.Shell.Cat: reports which case happened, not the text of the shell's message lines ("File doesn't exist: <name>", the open error line, the "Contents of <name>:" heading); the printed text is the file's part only.
- Text.Atoi: does not model overflow of C's `atoi`.
- Receiver.Response: a target is matched as the path it spells. Werkzeug's percent-decoding of the path and absolute-form targets are not modelled.
- Firmware.SensorReading: the LSM6DSL branch formats with an unbounded `sprintf`; the model cuts its text to the buffer like the other branches' `snprintf`, rather than writing past the buffer.
- Wifi.Station.ReadConfig: a failing `k_malloc` and a failing `fs_read` are not modelled; the file's contents are a parameter.

## Findings

| source | as written | input that shows it | evidently intended | confidence | as-written member | corrected member |
|---|---|---|---|---|---|---|
| src/main.c:620-621 | the tap-event POST declares `Content-Length` as the reading's length, but the body starts with the 12-byte prefix `TAP EVENT:\r\n` | any tap reading, e.g. "x": a 13-byte body declared as 1 byte | the length counts the whole body | high (not executed) | Firmware.TapContentLengthShort | Firmware.TapPostRequestIsFramed |
| src/main.c:674-682 | `sensor_timer_start` and `sensor_timer_http_start` reject only `argc < 3`, then read `argv[3]` | `sensor_timer_start hts221 temp.log` (argc 3) | reject `argc < 4` | high (not executed) | Firmware.StartGuardAdmitsMissingTiming | Firmware.StartArgsAccepted |
