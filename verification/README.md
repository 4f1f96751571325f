# OPUS spectrometer controllers for Sardana, modelled in Dafny

This project models the control logic of the Sardana controllers that drive a
Bruker OPUS infrared spectrometer at a beamline:

- a counter controller that talks to OPUS over a raw TCP socket. It starts a
  macro with `RUN_MACRO`, polls it with `MACRO_RESULTS` and kills it with
  `KILL_MACRO` (module `SocketCounterCtrl`);
- a counter controller that drives OPUS through the OPUS Tango device server.
  It renders the `MeasureSample` command from its attributes and can append the
  Linkam stage temperature to the file name (module `ProxyCounterCtrl`);
- two one-dimensional controllers built on the same command.
  - `ProxyOneDCtrl` also returns a `file://` reference to the spectrum.
  - `ModeOneDCtrl` also switches between the IR path and the visible camera
    through motor 56 and sets the lamp intensity;
- the motor controller of the OPUS sample stage. It passes serial commands
  through the server and keeps per-axis motion parameters (module
  `StageMotorCtrl`);
- the pseudo motor that moves the stage axes linearly with the Linkam
  temperature (module `LinkamPseudoMotor`);
- the timer controller that reports "Acquiring" for an integration time
  (module `TimerCounterCtrl`).

The three Tango-proxy controllers are separate classes whose hooks (StartOne,
StateOne, ReadOne, AbortOne, the parameter lookup) repeat one another almost
line for line. Each controller module models its own class, so such a hook
appears once per module.

The shared pieces each have their own module:

- `CommandBuilder`: the `MeasureSample` template, Python's `str.format`
  restricted to what the template uses, and the `_Temp±DDD_CC` suffix with
  its parser;
- `Text`: string helpers with Python's meaning;
- `PyValues`: the Python values stored in attributes;
- `Tango`: states and the projection of the server's state;
- `Outcomes`: `Option` and `Outcome`, where `Outcome` is "raised or returned".

A controller is an immutable record, and every hook is a function of the
record and its inputs. Anything the hook reads from outside is an input:

- the server's state;
- the answer on the socket;
- the Linkam temperature;
- the clock;
- the outcome of a `float()` conversion.

Every hook returns the new record together with the calls it made on the
socket or the proxy, and whether it raised.

The constructors `ProxyCounterCtrl.New`, `ProxyOneDCtrl.New` and
`ModeOneDCtrl.New` build the records that `__init__` sets up
(controllers/OPUSSocketCtrl.py:54-75, controllers/OPUSoneDSocketCtrl.py:52-74
and sardana_opus/ctrl/OPUSoneDSocketCtrl.py:66-89). They carry no contract of
their own; `ProxyCounterCtrl.FirstPreStart` and `CommandBuilder.RenderDefaults`
state what a fresh controller renders.

Behaviours of the code that the model keeps as written:

- `StateOne` of the socket controller never clears the macro id once a macro
  has finished.
- Socket errors in `StartOne`, `StateOne` and `AbortOne` are not caught; they
  raise.
- `StartOne` does not refuse a start while a macro is running. It replaces
  the id.
- The temperature suffix is zero-padded to width 7 including the sign, so
  25.5 °C gives `_Temp+025_50`.
- The stage reads `deceleration` back as the acceleration.
- The one-dimensional proxy controller recomputes the suffix in `RefOne` from
  the last temperature it cached, even when the name is empty.
- A name or path that contains a brace is pasted into the format string
  before `str.format` runs, so braces in it are interpreted
  (`CommandBuilder.RenderSubstitutesIntoName`).

## Model

| member | source | states |
|---|---|---|
| Tango.ProjectState | controllers/OPUSSocketCtrl.py:91-103 | RUNNING reads as Moving and ALARM as Fault (both iff), every other state passes through unchanged, and no projected state is Running or Alarm |
| Text.Upper | OPUSSocketCtrl.py:77 | `str.upper` keeps the length; no lower-case letter is left, and every character that is not a lower-case letter stays where it was |
| Text.Lower | controllers/OPUSSocketCtrl.py:140-155 | `str.lower` keeps the length; no upper-case letter is left, and every character that is not an upper-case letter stays where it was |
| Text.UpperIdempotent | OPUSSocketCtrl.py:77 | upper-casing twice is upper-casing once |
| Text.LowerIdempotent | controllers/OPUSSocketCtrl.py:140-155 | lower-casing twice is lower-casing once |
| Text.CaseFold | controllers/OPUSSocketCtrl.py:140-155 | lower-casing an upper-cased text gives the lower-cased text, and the other way round |
| Text.NameIsIgnoresCase | controllers/OPUSSocketCtrl.py:140-155 | a parameter name upper-cased before the `name.lower() == key` test selects the same parameter |
| Text.Split | OPUSSocketCtrl.py:78 | `str.split(sep)` always yields at least one field |
| Text.SplitFieldCount | OPUSSocketCtrl.py:106 | the number of fields is one more than the number of separators |
| Text.SplitFieldsFree | OPUSSocketCtrl.py:106 | no field of a split contains the separator |
| Text.JoinSplit | OPUSSocketCtrl.py:106 | joining the fields of a split with the separator gives back the original answer |
| Text.OkMarkerGivesSecondField | OPUSSocketCtrl.py:105-106 | an answer that contains "OK\n" after upper-casing has a field 1, so `ans.split('\n')[1]` cannot raise |
| Text.ContainsChar | OPUSSocketCtrl.py:77 | a substring's characters all occur in the text that contains it |
| Text.NatToStringValue | controllers/OPUSSocketCtrl.py:117 | the decimal digits printed for n read back as n |
| Text.ZeroPadValue | controllers/OPUSSocketCtrl.py:117 | zero-padding to a width gives max(length, width) digits with the same value |
| Text.ParseInt | OPUSSocketCtrl.py:78 | `int()` of an empty text raises; of a run of decimal digits it is the number they spell |
| Text.ParseIntSignBlank | OPUSSocketCtrl.py:78 | a sign, any whitespace and then decimal digits read as the signed number, so `int("- 1")` is -1 |
| Text.ParseIntRoundTrip | OPUSSocketCtrl.py:78 | `int()` of the decimal text of any integer gives that integer back |
| Text.ReplaceChar | controllers/OPUSSocketCtrl.py:117 | `str.replace` of one character keeps the length; afterwards the replaced character no longer occurs, and every other character in the result was already in the text |
| Text.ReplaceCharInverse | controllers/OPUSSocketCtrl.py:117 | when the new character does not occur in the text, replacing back restores the text |
| Text.ReplaceCharIdempotent | controllers/OPUSSocketCtrl.py:117 | replacing twice is replacing once |
| Text.ReplaceCharConcat | controllers/OPUSSocketCtrl.py:117 | replacing in a concatenation is replacing in each part |
| Text.ReplaceCharAbsent | controllers/OPUSSocketCtrl.py:117 | replacing a character that does not occur changes nothing |
| Text.PathJoin | sardana_opus/ctrl/OPUSoneDSocketCtrl.py:104 | `os.path.join(a, b)` ends with b. It is a+"/"+b when a is non-empty without a trailing slash, a+b when a is empty or ends in "/", and b alone when b is absolute |
| CommandBuilder.Format | controllers/OPUSSocketCtrl.py:123 | `str.format` leaves brace-free text unchanged and does not raise on it |
| CommandBuilder.FormatEscape | controllers/OPUSSocketCtrl.py:113-123 | `str.format` of text with its braces doubled gives the text back |
| CommandBuilder.FormatLiteral | controllers/OPUSSocketCtrl.py:123 | brace-free text passes through `str.format` unchanged |
| CommandBuilder.FormatOpenBrace | controllers/OPUSSocketCtrl.py:113 | "{{" formats to "{" |
| CommandBuilder.FormatCloseBrace | controllers/OPUSSocketCtrl.py:122 | "}}" formats to "}" |
| CommandBuilder.FormatFirstArg | controllers/OPUSSocketCtrl.py:113-123 | "{0}" is replaced by the experiment |
| CommandBuilder.FormatSecondArg | controllers/OPUSSocketCtrl.py:113-123 | "{1}" is replaced by the experiment path |
| CommandBuilder.ClausesBraceFree | controllers/OPUSSocketCtrl.py:118-121 | the NAM and PTH clauses are brace-free when their arguments are |
| CommandBuilder.FormatTemplate | controllers/OPUSSocketCtrl.py:113-123 | formatting the assembled template with brace-free NAM and PTH gives exactly the MeasureSample command with EXP and XPP filled in |
| CommandBuilder.TempSuffix | controllers/OPUSSocketCtrl.py:117 | the suffix contains no '.', each dot having become '_', and is exactly as long as the text `"_Temp{:+07.2f}"` gives |
| CommandBuilder.TempSuffixShape | controllers/OPUSSocketCtrl.py:117 | the suffix is "_Temp", a sign, at least three whole digits, "_" and two cent digits; it has no dot and no brace |
| CommandBuilder.SuffixDigitsValue | controllers/OPUSSocketCtrl.py:117 | the whole and cent digits together spell the temperature's magnitude in hundredths |
| CommandBuilder.TempSuffixRoundTrip | controllers/OPUSSocketCtrl.py:117 | parsing the suffix printed for a temperature gives that temperature back |
| CommandBuilder.TempSuffixInjective | controllers/OPUSSocketCtrl.py:117 | different temperatures give different suffixes |
| CommandBuilder.Render | controllers/OPUSSocketCtrl.py:113-123 | with a brace-free name, path and suffix, rendering never raises and gives the MeasureSample command with EXP and XPP filled in, NAM iff the name is non-empty and PTH iff the path is non-empty |
| CommandBuilder.FormatBuiltTemplate | controllers/OPUSSocketCtrl.py:113-123 | the final `str.format` of the template assembled from a brace-free name, path and suffix gives that MeasureSample command |
| CommandBuilder.RenderDefaults | controllers/OPUSSocketCtrl.py:65-123 | the attribute defaults render to `COMMAND_LINE MeasureSample (0, {EXP='None', XPP='None'});` |
| CommandBuilder.RenderSubstitutesIntoName | controllers/OPUSSocketCtrl.py:118-123 | a name "{0}" is replaced by the experiment, because the name is part of the format string |
| CommandBuilder.NameSuffixShape | controllers/OPUSSocketCtrl.py:114-118 | the suffix is non-empty iff the name is non-empty, the flag is truthy and the Linkam proxy exists; it is brace-free and parses back to the temperature |
| CommandBuilder.RenderBraceFree | controllers/OPUSSocketCtrl.py:113-123 | with a brace-free suffix, a brace-free name and path render to the MeasureSample command |
| SocketCounterCtrl.ProbeFrame | OPUSSocketCtrl.py:58-94 | the probe goes out as "s_pipe\n\n" |
| SocketCounterCtrl.Frame | OPUSSocketCtrl.py:58-59 | the bytes sent are the command followed by one line break |
| SocketCounterCtrl.Transmit | OPUSSocketCtrl.py:58-61 | a disconnected socket raises a socket error; a connected one returns the answer received |
| SocketCounterCtrl.FrameAddsOneNewline | OPUSSocketCtrl.py:58-59 | every command is sent followed by exactly one added line break |
| SocketCounterCtrl.ConnectSocket | OPUSSocketCtrl.py:40-51 | a connect sets the connected flag to its outcome; success sets On, failure leaves the state alone |
| SocketCounterCtrl.New | OPUSSocketCtrl.py:31-38 | a new controller has no macro id; it is On if the first connect succeeded, and otherwise its state is unset |
| SocketCounterCtrl.Reconnect | OPUSSocketCtrl.py:53-56 | a reconnect closes, then connects once |
| SocketCounterCtrl.PreStartOne | OPUSSocketCtrl.py:91-98 | the probe is sent first; an answered probe changes nothing, a socket error triggers a reconnect; the result is the connected flag |
| SocketCounterCtrl.StartOne | OPUSSocketCtrl.py:100-112 | not connected: Fault and nothing sent. OK answer: Moving with field 1 as the macro id. Other answer: Fault, no id. Socket error or unset macro name: raises |
| SocketCounterCtrl.StateOne | OPUSSocketCtrl.py:71-86 | only a Moving controller with an id polls MACRO_RESULTS. An OK result that Python 2's `int()` reads as 1 gives On, any other integer (blanks after the sign included) stays Moving, and a result it cannot read raises; a non-OK answer gives Fault with "Error reading macro status"; Fault reports "Can not connect with the server" |
| SocketCounterCtrl.AbortOneAsWritten | OPUSSocketCtrl.py:117-122 | KILL_MACRO is sent iff there is an id and the state is Running; the id is cleared and the state becomes On |
| SocketCounterCtrl.AbortOne | OPUSSocketCtrl.py:117-122 | the corrected abort: KILL_MACRO is sent iff there is an id and the state is Moving, the state StartOne sets; otherwise as written |
| SocketCounterCtrl.ReadOne | OPUSSocketCtrl.py:63-69 | raises while read_peak is unset, and otherwise returns None |
| SocketCounterCtrl.GetAxisExtraPar | OPUSSocketCtrl.py:124-130 | ip, opus_macro_name and read_peak, in any case, read their attribute and raise iff it was never set; any other name reads None |
| SocketCounterCtrl.SetAxisExtraPar | OPUSSocketCtrl.py:132-138 | only the three parameter attributes can change; a known name reads back the value set, and any other name changes nothing |
| SocketCounterCtrl.ParameterRoundTrip | OPUSSocketCtrl.py:124-138 | ip, opus_macro_name and read_peak read back as set under any case of the name, the other two are untouched, and state, id and connection are unchanged |
| SocketCounterCtrl.UnknownParameter | OPUSSocketCtrl.py:124-138 | any other name changes nothing and reads None |
| SocketCounterCtrl.InvInitially | OPUSSocketCtrl.py:31-38 | a new controller is never Running, and a Moving one has a macro id |
| SocketCounterCtrl.InvPreStartOne | OPUSSocketCtrl.py:91-98 | PreStartOne keeps that invariant |
| SocketCounterCtrl.InvStartOne | OPUSSocketCtrl.py:100-112 | StartOne keeps it |
| SocketCounterCtrl.InvStateOne | OPUSSocketCtrl.py:71-86 | StateOne keeps it |
| SocketCounterCtrl.InvAbortOne | OPUSSocketCtrl.py:117-122 | both aborts keep it |
| SocketCounterCtrl.InvSetAxisExtraPar | OPUSSocketCtrl.py:132-138 | setting a parameter keeps it |
| SocketCounterCtrl.AbortAsWrittenNeverKills | OPUSSocketCtrl.py:117-122 | in every reachable state the abort as written sends nothing |
| SocketCounterCtrl.AbortAfterStartSendsNothing | OPUSSocketCtrl.py:100-122 | after a started macro "7", the abort as written sends nothing and the corrected one sends "KILL_MACRO 7\n" |
| SocketCounterCtrl.OkExample | OPUSSocketCtrl.py:105-106 | "OK\n<v>\n" is an OK answer with v in field 1 |
| SocketCounterCtrl.StartThenComplete | OPUSSocketCtrl.py:71-112 | start answered "OK\n42\n" then poll answered "OK\n1\n": id "42", Moving, then On with the id kept |
| SocketCounterCtrl.PollSignBlank | OPUSSocketCtrl.py:73-80 | a poll whose result field reads "- 1" is the integer -1, so the controller stays Moving "Acquiring" and nothing changes |
| SocketCounterCtrl.PollError | OPUSSocketCtrl.py:81-83 | a poll answered "ERROR\n" gives Fault "Error reading macro status" |
| SocketCounterCtrl.ReconnectThenStart | OPUSSocketCtrl.py:91-112 | after a failed probe and a good reconnect, an OK start gives Moving with the new id |
| SocketCounterCtrl.FailedReconnectFaults | OPUSSocketCtrl.py:91-112 | after a failed reconnect PreStartOne returns False and StartOne goes Fault without sending |
| SocketCounterCtrl.RestartReplacesMacro | OPUSSocketCtrl.py:100-107 | a start while Moving sends one command and replaces the id |
| ProxyCounterCtrl.PreStartOne | controllers/OPUSSocketCtrl.py:111-126 | only the command changes and no call is made on the OPUS proxy; the Linkam temperature, which the code reads from the Linkam proxy when the suffix is wanted, is an input. With a brace-free name and path it is the MeasureSample command: NAM iff the name is non-empty (with the temperature suffix), PTH iff the path is non-empty. If formatting raises, the unformatted template is kept |
| ProxyCounterCtrl.PreStartIgnoresOldCommand | controllers/OPUSSocketCtrl.py:113 | the rendered command does not depend on the previous one |
| ProxyCounterCtrl.PreStartIgnoresTemperature | controllers/OPUSSocketCtrl.py:114-118 | without a wanted suffix the temperature reading does not matter |
| ProxyCounterCtrl.FirstPreStart | controllers/OPUSSocketCtrl.py:54-126 | a fresh controller renders `COMMAND_LINE MeasureSample (0, {EXP='None', XPP='None'});` |
| ProxyCounterCtrl.StartOne | controllers/OPUSSocketCtrl.py:128-131 | sets the running flag and sends exactly the stored command; nothing else changes |
| ProxyCounterCtrl.StateOne | controllers/OPUSSocketCtrl.py:89-106 | ON clears the flag. READ_PKA is sent iff a macro was running and read_peak is truthy, and then the report is Moving, otherwise On. An unset read_peak with a running macro raises. Other states are projected and leave the record alone; the status is the server's |
| ProxyCounterCtrl.TwoPollsAfterStart | controllers/OPUSSocketCtrl.py:89-131 | with read_peak set, the first ON poll after a start sends READ_PKA and reads Moving; the second reads On and sends nothing |
| ProxyCounterCtrl.RunningPollKeepsFlag | controllers/OPUSSocketCtrl.py:100-103 | RUNNING keeps the record and reads Moving; ALARM reads Fault |
| ProxyCounterCtrl.ReadOne | controllers/OPUSSocketCtrl.py:77-87 | raises iff read_peak is unset. A value is returned only when read_peak is truthy and the server is ON, and then it is the converted last output |
| ProxyCounterCtrl.AbortOne | controllers/OPUSSocketCtrl.py:136-137 | sends stopOpusMacro and changes nothing |
| ProxyCounterCtrl.GetAxisExtraPar | controllers/OPUSSocketCtrl.py:139-155 | an unknown name reads None; opus_cmd reads the stored command; the call raises iff ds, or read_peak, is asked for before it was set |
| ProxyCounterCtrl.SetAxisExtraPar | controllers/OPUSSocketCtrl.py:157-171 | an unknown name and opus_cmd change nothing; any other parameter reads back the value set; the running flag is kept |
| ProxyCounterCtrl.ParamOfName | controllers/OPUSSocketCtrl.py:139-171 | each parameter is selected by its own name |
| ProxyCounterCtrl.ParameterRoundTrip | controllers/OPUSSocketCtrl.py:139-171 | every writable parameter reads back as set under any case of its name |
| ProxyCounterCtrl.ParameterIndependent | controllers/OPUSSocketCtrl.py:139-171 | setting one name leaves every other name's reading unchanged |
| ProxyCounterCtrl.CommandIsReadOnly | controllers/OPUSSocketCtrl.py:142-171 | opus_cmd cannot be set, and it reads the rendered command |
| ProxyCounterCtrl.UnknownParameter | controllers/OPUSSocketCtrl.py:139-171 | an unknown name changes nothing and reads None |
| ProxyOneDCtrl.PreStartOne | controllers/OPUSoneDSocketCtrl.py:114-130 | renders as the proxy counter does, and caches the temperature iff the suffix is wanted; nothing else changes |
| ProxyOneDCtrl.RefOne | controllers/OPUSoneDSocketCtrl.py:87-95 | "file://" + path joined with name + suffix, the suffix being recomputed from the cached temperature when the flag and the Linkam proxy are on. Raises when no temperature is cached or the path is not a string |
| ProxyOneDCtrl.ReferenceMatchesCommand | controllers/OPUSoneDSocketCtrl.py:87-130 | after PreStartOne with a non-empty name, the reference names the same file as the NAM of the command |
| ProxyOneDCtrl.EmptyNameReference | controllers/OPUSoneDSocketCtrl.py:87-121 | with an empty name and the flag on, nothing is cached; RefOne raises or uses a stale temperature |
| ProxyOneDCtrl.StartOne | controllers/OPUSoneDSocketCtrl.py:132-135 | sets the running flag and sends exactly the stored command |
| ProxyOneDCtrl.StartSendsRendered | controllers/OPUSoneDSocketCtrl.py:114-135 | after PreStartOne, StartOne sends the command just rendered |
| ProxyOneDCtrl.StateOne | controllers/OPUSoneDSocketCtrl.py:97-109 | ON reads On and clears the running flag, and nothing else changes. RUNNING reads Moving and ALARM reads Fault, and every other server state is reported as it is; these leave the record alone. The status is the server's |
| ProxyOneDCtrl.StartThenPoll | controllers/OPUSoneDSocketCtrl.py:97-135 | a started macro is finished by the first ON poll and not before |
| ProxyOneDCtrl.ReadOne | controllers/OPUSoneDSocketCtrl.py:75-85 | always None: the output is only logged |
| ProxyOneDCtrl.AbortOne | controllers/OPUSoneDSocketCtrl.py:140-141 | sends stopOpusMacro and changes nothing |
| ProxyOneDCtrl.GetAxisExtraPar | controllers/OPUSoneDSocketCtrl.py:143-157 | an unknown name reads None; opus_cmd reads the stored command; the call raises iff ds is asked for before it was set |
| ProxyOneDCtrl.SetAxisExtraPar | controllers/OPUSoneDSocketCtrl.py:159-171 | an unknown name and opus_cmd change nothing; any other parameter reads back the value set; the running flag is kept |
| ProxyOneDCtrl.ParamOfName | controllers/OPUSoneDSocketCtrl.py:143-171 | each parameter is selected by its own name |
| ProxyOneDCtrl.ParameterRoundTrip | controllers/OPUSoneDSocketCtrl.py:143-171 | every writable parameter reads back as set under any case of its name |
| ProxyOneDCtrl.ParameterIndependent | controllers/OPUSoneDSocketCtrl.py:143-171 | setting one name leaves every other name's reading unchanged |
| ProxyOneDCtrl.ReadOnlyOrUnknown | controllers/OPUSoneDSocketCtrl.py:159-171 | opus_cmd and unknown names change nothing |
| ModeOneDCtrl.CacheSuffix | sardana_opus/ctrl/OPUSoneDSocketCtrl.py:127-132 | a non-empty name caches the suffix, which is empty unless wanted. The temperature is cached iff the suffix is wanted. An empty name caches nothing |
| ModeOneDCtrl.PreStartOne | sardana_opus/ctrl/OPUSoneDSocketCtrl.py:124-140 | caches as above and renders the MeasureSample command with the cached suffix; no call on the OPUS proxy, the Linkam temperature being an input |
| ModeOneDCtrl.EmptyNameKeepsSuffix | sardana_opus/ctrl/OPUSoneDSocketCtrl.py:127 | with an empty name the suffix and temperature of an earlier start survive |
| ModeOneDCtrl.StartOne | sardana_opus/ctrl/OPUSoneDSocketCtrl.py:142-151 | IR sends the command; VISIBLE sends `take_snapshot <pth> <nam><suffix>` and raises iff no suffix was ever cached; another mode sends nothing; the flag is set |
| ModeOneDCtrl.RefOne | sardana_opus/ctrl/OPUSoneDSocketCtrl.py:102-105 | "file://" + path joined with name + cached suffix + ".0"; raises iff nothing is cached or the path is not a string |
| ModeOneDCtrl.SnapshotMatchesReference | sardana_opus/ctrl/OPUSoneDSocketCtrl.py:102-151 | after PreStartOne in VISIBLE mode the snapshot and the reference name the same file |
| ModeOneDCtrl.StateOne | sardana_opus/ctrl/OPUSoneDSocketCtrl.py:107-119 | ON reads On and clears the running flag, and nothing else changes. RUNNING reads Moving and ALARM reads Fault, and every other server state is reported as it is; these leave the record alone. The status is the server's |
| ModeOneDCtrl.StartThenPoll | sardana_opus/ctrl/OPUSoneDSocketCtrl.py:107-151 | a started macro is finished by the first ON poll and not before |
| ModeOneDCtrl.ReadOne | sardana_opus/ctrl/OPUSoneDSocketCtrl.py:91-100 | always None |
| ModeOneDCtrl.AbortOne | sardana_opus/ctrl/OPUSoneDSocketCtrl.py:156-157 | sends stopOpusMacro and changes nothing |
| ModeOneDCtrl.GetAxisExtraPar | sardana_opus/ctrl/OPUSoneDSocketCtrl.py:159-177 | an unknown name reads None; opus_cmd reads the stored command; the call raises iff ds is asked for before it was set |
| ModeOneDCtrl.SetAxisExtraPar | sardana_opus/ctrl/OPUSoneDSocketCtrl.py:179-212 | an unknown name and opus_cmd change nothing and send nothing; any other parameter reads back the value set, even when a motor command then raised; the running flag is kept |
| ModeOneDCtrl.Set | sardana_opus/ctrl/OPUSoneDSocketCtrl.py:179-212 | the value is stored first. The call raises iff the lamp level cannot be computed, when the mode is set to VISIBLE or the intensity is set. Only the mode and the intensity send commands, at most two |
| ModeOneDCtrl.LampCommand | sardana_opus/ctrl/OPUSoneDSocketCtrl.py:203-205 | `100 + intensity` succeeds iff the intensity is an int or a bool (counted as 0 or 1); the command is MOT56 set to that sum |
| ModeOneDCtrl.ParamOfName | sardana_opus/ctrl/OPUSoneDSocketCtrl.py:159-212 | each parameter is selected by its own name |
| ModeOneDCtrl.ParameterRoundTrip | sardana_opus/ctrl/OPUSoneDSocketCtrl.py:159-212 | every writable parameter, mode and intensity included, reads back as set under any case of its name |
| ModeOneDCtrl.ParameterIndependent | sardana_opus/ctrl/OPUSoneDSocketCtrl.py:159-212 | setting one name leaves every other name's reading unchanged |
| ModeOneDCtrl.ReadOnlyOrUnknown | sardana_opus/ctrl/OPUSoneDSocketCtrl.py:179-212 | opus_cmd and unknown names change nothing and send nothing |
| ModeOneDCtrl.SelectMode | sardana_opus/ctrl/OPUSoneDSocketCtrl.py:192-205 | the mode is stored in every case. IR sends MOT56=1. VISIBLE sends MOT56=2 and then the lamp command for the stored intensity, MOT56=<100+intensity> for an int; when that sum cannot be computed, MOT56=2 alone goes out and the call raises. Any other value sends nothing |
| ModeOneDCtrl.SetIntensity | sardana_opus/ctrl/OPUSoneDSocketCtrl.py:206-212 | a numeric intensity drives the lamp iff the mode is VISIBLE |
| ModeOneDCtrl.IntensityNotANumber | sardana_opus/ctrl/OPUSoneDSocketCtrl.py:206-209 | a text intensity is stored, sends nothing and raises |
| ModeOneDCtrl.IntensityThenVisible | sardana_opus/ctrl/OPUSoneDSocketCtrl.py:198-212 | switching to VISIBLE sets the lamp from the intensity stored before |
| ModeOneDCtrl.MotorCommandsFollowMode | sardana_opus/ctrl/OPUSoneDSocketCtrl.py:179-212 | a motor command goes out only if the stored mode is IR or VISIBLE, and a lamp command only in VISIBLE |
| StageMotorCtrl.AddDevice | sardana_opus/ctrl/OpusStageMotorCtrl.py:43-48 | the axis gets the default record and other axes are untouched |
| StageMotorCtrl.DeleteDevice | sardana_opus/ctrl/OpusStageMotorCtrl.py:49-50 | the axis record becomes None and other axes are untouched |
| StageMotorCtrl.Classify | sardana_opus/ctrl/OpusStageMotorCtrl.py:93-102 | 'M' gives Moving whatever else is present. Otherwise 'E', 'T' or '-' gives Fault, and anything else gives On (each iff) |
| StageMotorCtrl.StateOne | sardana_opus/ctrl/OpusStageMotorCtrl.py:75-111 | only an ON server is asked `?statusaxis <name>`, whose answer is classified, a failed call giving Fault. An unknown axis or unset name raises. Other states are projected. The status is the server's |
| StageMotorCtrl.MovingWins | sardana_opus/ctrl/OpusStageMotorCtrl.py:93-94 | an answer with 'M' reads Moving |
| StageMotorCtrl.OnServerReports | sardana_opus/ctrl/OpusStageMotorCtrl.py:79-104 | from an ON server every report is On, Moving or Fault |
| StageMotorCtrl.ReadOne | sardana_opus/ctrl/OpusStageMotorCtrl.py:53-73 | asks `?pos <name>`. The position is finite iff the axis has a name and the answer converts, and then it is the converted answer; every failure reads INF |
| StageMotorCtrl.StartOne | sardana_opus/ctrl/OpusStageMotorCtrl.py:113-116 | sends `!go <name> <position>`; raises iff the axis has no name |
| StageMotorCtrl.StopOne | sardana_opus/ctrl/OpusStageMotorCtrl.py:118-121 | sends `?abort <name>`; raises iff the axis has no name |
| StageMotorCtrl.CommandsShareAxisName | sardana_opus/ctrl/OpusStageMotorCtrl.py:53-121 | go, abort, status and position all address the stored axis name |
| StageMotorCtrl.ParamOfName | sardana_opus/ctrl/OpusStageMotorCtrl.py:124-166 | each parameter is selected by its own name |
| StageMotorCtrl.GetAxisExtraPar | sardana_opus/ctrl/OpusStageMotorCtrl.py:144-166 | an unknown name or a deleted axis raises; acceleration and deceleration both read the stored acceleration; velocity raises iff the steps per unit are zero |
| StageMotorCtrl.SetAxisExtraPar | sardana_opus/ctrl/OpusStageMotorCtrl.py:124-142 | an unknown name is ignored; a known name on a dead axis raises; other axes are never touched |
| StageMotorCtrl.AddDeviceDefaults | sardana_opus/ctrl/OpusStageMotorCtrl.py:43-166 | a new axis reads velocity 1, steps 1, base rate 0 and acceleration 0; it has no name, so a move raises |
| StageMotorCtrl.NumberRoundTrip | sardana_opus/ctrl/OpusStageMotorCtrl.py:124-166 | steps per unit, base rate and acceleration read back as the number set |
| StageMotorCtrl.AxisNameRoundTrip | sardana_opus/ctrl/OpusStageMotorCtrl.py:118-163 | the axis name reads back as set and the stop command uses it |
| StageMotorCtrl.VelocityPerUnit | sardana_opus/ctrl/OpusStageMotorCtrl.py:131-153 | velocity reads back divided by the steps per unit; zero steps raise |
| StageMotorCtrl.VelocityRoundTripAtUnitStep | sardana_opus/ctrl/OpusStageMotorCtrl.py:43-153 | with the default steps the velocity reads back as set |
| StageMotorCtrl.DecelerationReadsAcceleration | sardana_opus/ctrl/OpusStageMotorCtrl.py:135-156 | deceleration is stored but reads back the acceleration |
| StageMotorCtrl.NotANumber | sardana_opus/ctrl/OpusStageMotorCtrl.py:131-140 | a numeric parameter whose value does not convert raises |
| StageMotorCtrl.UnknownParameter | sardana_opus/ctrl/OpusStageMotorCtrl.py:124-166 | an unknown name is ignored by set and raises on get, the result never being bound |
| StageMotorCtrl.DeletedAxisRaises | sardana_opus/ctrl/OpusStageMotorCtrl.py:49-121 | after a delete every access raises and the position reads INF |
| LinkamPseudoMotor.PyIndex | sardana_opus/ctrl/LinkamOpusStagePseudoMotorController.py:36 | a list index from 0 to len−1 returns that element, an index from −len to −1 returns the element counted from the end, and anything beyond either end raises |
| LinkamPseudoMotor.CalcPseudo | sardana_opus/ctrl/LinkamOpusStagePseudoMotorController.py:39-40 | the pseudo position is the temperature motor's position; an empty list raises |
| LinkamPseudoMotor.SignedVariation | sardana_opus/ctrl/LinkamOpusStagePseudoMotorController.py:32-37 | factor times the absolute change times the sign is factor times the signed change |
| LinkamPseudoMotor.CalcPhysical | sardana_opus/ctrl/LinkamOpusStagePseudoMotorController.py:28-37 | index 1 (the temperature motor) goes to the target temperature and raises iff no target is given. Any other index returns iff both lists are non-empty, index − 1 is a valid Python index and it has a factor; axes 2 up to the list length move to their position plus factor times (target − current temperature) |
| LinkamPseudoMotor.DefaultFactorsCoverStage | sardana_opus/ctrl/LinkamOpusStagePseudoMotorController.py:23-37 | with the default factors, axes 2 to 4 never raise |
| LinkamPseudoMotor.NoChangeNoMove | sardana_opus/ctrl/LinkamOpusStagePseudoMotorController.py:28-37 | a move to the current temperature leaves every axis in place |
| LinkamPseudoMotor.FollowsTemperature | sardana_opus/ctrl/LinkamOpusStagePseudoMotorController.py:28-37 | with a positive factor an axis moves in the same direction as the temperature |
| LinkamPseudoMotor.PseudoInvertsPhysical | sardana_opus/ctrl/LinkamOpusStagePseudoMotorController.py:28-40 | CalcPseudo reads back the temperature that CalcPhysical sent |
| LinkamPseudoMotor.FactorKey | sardana_opus/ctrl/LinkamOpusStagePseudoMotorController.py:43-48 | a factor name selects key 1, 2 or 3 |
| LinkamPseudoMotor.SetAxisExtraPar | sardana_opus/ctrl/LinkamOpusStagePseudoMotorController.py:42-49 | returns iff the name is a factor name, and then adds that key |
| LinkamPseudoMotor.DefaultFactorValues | sardana_opus/ctrl/LinkamOpusStagePseudoMotorController.py:23-59 | the defaults read 0.34743, 0.12602 and 0.43009 |
| LinkamPseudoMotor.GetAxisExtraPar | sardana_opus/ctrl/LinkamOpusStagePseudoMotorController.py:51-59 | returns iff the name is a factor name whose key is in the table, and then it is that factor |
| LinkamPseudoMotor.FactorRoundTrip | sardana_opus/ctrl/LinkamOpusStagePseudoMotorController.py:42-59 | a factor reads back as set and the other factors are unchanged |
| LinkamPseudoMotor.SetFactorDrivesAxis | sardana_opus/ctrl/LinkamOpusStagePseudoMotorController.py:28-49 | after setting x_factor the x axis moves by the new factor |
| LinkamPseudoMotor.NamesAreExact | sardana_opus/ctrl/LinkamOpusStagePseudoMotorController.py:42-59 | names are case-sensitive: "X_FACTOR" raises on set and on get |
| TimerCounterCtrl.StateOne | sardana_opus/ctrl/OPUSCtrl.py:29-38 | the report is Moving "Acquiring" or On "On". Without a non-zero integration time it is On; with one it is Moving iff the clock is before start time + integration time |
| TimerCounterCtrl.StartAll | sardana_opus/ctrl/OPUSCtrl.py:40-42 | the start time is taken and nothing else changes; with a positive integration time loaded, the controller reads Moving at that instant |
| TimerCounterCtrl.LoadOne | sardana_opus/ctrl/OPUSCtrl.py:44-45 | loading v leaves the start and the file alone, and an acquisition is pending iff v is non-zero |
| TimerCounterCtrl.AbortOne | sardana_opus/ctrl/OPUSCtrl.py:47-48 | the integration time is cleared, so no acquisition is pending; start and file are kept |
| TimerCounterCtrl.AbortedIsOn | sardana_opus/ctrl/OPUSCtrl.py:47-48 | after an abort the controller reads On at any time |
| TimerCounterCtrl.AcquisitionWindow | sardana_opus/ctrl/OPUSCtrl.py:29-45 | after a load of v > 0 and a start at t it reads Moving before t + v and On after, in either order of load and start |
| TimerCounterCtrl.ZeroTimeIsOn | sardana_opus/ctrl/OPUSCtrl.py:32 | a zero integration time reads On at once |
| TimerCounterCtrl.NegativeTimeIsOn | sardana_opus/ctrl/OPUSCtrl.py:32 | a negative integration time reads On once the start has passed |
| TimerCounterCtrl.StateIsShiftInvariant | sardana_opus/ctrl/OPUSCtrl.py:30-42 | shifting start and clock together leaves the state unchanged |
| TimerCounterCtrl.FreshControllerReadsMoving | sardana_opus/ctrl/OPUSCtrl.py:20-38 | as written, a controller built at t0 > 0 reads Moving until 2·t0 |
| TimerCounterCtrl.FreshControllerReadsOn | sardana_opus/ctrl/OPUSCtrl.py:20-45 | the corrected controller reads On until loaded, and from a load and a start on it behaves exactly as the one as written |
| TimerCounterCtrl.GetAxisExtraPar | sardana_opus/ctrl/OPUSCtrl.py:50-52 | "file" in any case reads the file, any other name reads None |
| TimerCounterCtrl.SetAxisExtraPar | sardana_opus/ctrl/OPUSCtrl.py:54-56 | "file" in any case sets the file, any other name changes nothing, and the timing is never touched |
| TimerCounterCtrl.FileRoundTrip | sardana_opus/ctrl/OPUSCtrl.py:50-56 | "file" in any case reads back as set, and the timing is unchanged |
| TimerCounterCtrl.FileNameCaseInsensitive | sardana_opus/ctrl/OPUSCtrl.py:50-56 | "FILE" and "File" name the same parameter |
| TimerCounterCtrl.UnknownParameter | sardana_opus/ctrl/OPUSCtrl.py:50-56 | any other name changes nothing and reads None |

## Left out

- Sockets, Tango proxies and the network are not modelled as such. Their answers are inputs: a `Reply`, the server `State`, an `Option` for a call that may fail. Their effects are the returned event or call lists.
- Floating point: temperatures are whole hundredths of a degree. Rounding of `{:+07.2f}` to two decimals is not modelled, and neither is "-0.00" for a negative temperature that rounds to zero. `float()` conversions are inputs. Stage positions and factors are exact reals.
- `StageMotorCtrl.ReadOne`: the busy-wait until the server is ON (`time.sleep`) is not modelled; the read starts once the server is ON.
- `TimerCounterCtrl`: the clock is an input. `ReadOne` reads a file from disk and is not modelled.
- `StartAll` of the socket, Tango-proxy counter and one-dimensional controllers only logs, and `LoadOne` of each of them is a bare `pass`. Neither changes any state, so they are not modelled.
- Logging (`self._log`) throughout.
- Failure to build the OPUS proxy in a constructor (`_opusds` None, state Fault): later calls on None raise. The model assumes the proxy exists. A Linkam proxy that cannot be built is modelled as the flag `hasLinkam`.
- A failing Linkam temperature read in PreStartOne (an exception from `read_attribute`) is not modelled.
- `Text.Upper`, `Text.Lower`: ASCII letters only; Python's Unicode case mapping is not modelled.
- `Text.ParseInt`: Python 2's `int()` on a byte string is modelled: surrounding whitespace, a sign, whitespace after the sign, then decimal digits. For a magnitude beyond a 64-bit `long`, Python 2 parses again as a `long` and then refuses whitespace after the sign; that fallback is not modelled.
- `CommandBuilder.Format`: only the replacement fields "{0}" and "{1}" and the escapes "{{" and "}}" are modelled. Any other field is treated as raising, as well as a stray brace. `ModeOneDCtrl.Mot56` writes the `{}`-formatted motor command out directly.
- The class-level `factors` dictionary of the pseudo motor is shared by every instance. The model keeps one `Factors` map per call.
- The stage's defaults mix Python ints and floats (`base_rate: 0`, `velocity: 1`). The model keeps reals, which compare and print the same for these uses except in `str()`.
- `str()` of a stage position in `StartOne` is an input string.

## Findings

| source | as written | input that shows it | evidently intended | confidence | as-written member | corrected member |
|---|---|---|---|---|---|---|
| OPUSSocketCtrl.py:117-122 | AbortOne sends KILL_MACRO only when the state is `State.Running`, but StartOne sets `State.Moving` and nothing ever sets Running | a started macro with id "7" (state Moving); AbortOne sends nothing and the macro keeps running on the instrument (`SocketCounterCtrl.AbortAfterStartSendsNothing`, and `SocketCounterCtrl.AbortAsWrittenNeverKills` for every reachable state) | kill the macro when the controller is Moving with an id | medium, not executed | SocketCounterCtrl.AbortOneAsWritten | SocketCounterCtrl.AbortOne |
| sardana_opus/ctrl/OPUSCtrl.py:20 | the constructor sets the integration time as well as the start time to `time.time()` | a controller built at t0 = 1.7e9 s and polled at t0 + 1 reads Moving "Acquiring", and would until 2·t0 (`TimerCounterCtrl.FreshControllerReadsMoving`; the corrected constructor is covered by `TimerCounterCtrl.FreshControllerReadsOn`) | start with no integration time loaded, so a fresh controller reads On | low, not executed | TimerCounterCtrl.NewAsWritten | TimerCounterCtrl.New |
