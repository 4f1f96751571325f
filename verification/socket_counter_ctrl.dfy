/**
  The counter controller that drives an OPUS measurement macro over the
  instrument's line protocol (OPUSSocketCtrl.py at the top of the repository).

  Each command is written with one '\n' appended and answered by one read of
  the socket. A successful answer holds "OK\n" (compared case-insensitively)
  and a value on its second line. The controller keeps the id of the running
  macro and a Sardana state. The socket is replaced by its observable effect:
  every operation takes the instrument's answer (or a socket error) as input and
  returns the new controller record with the socket events it caused.
 */
module SocketCounterCtrl {
  import opened Outcomes
  import opened Text
  import opened PyValues
  import opened Tango

  /** What the controller did on its socket. */
  datatype LineEvent = Send(data: string) | Closed | Connected(ok: bool)

  /** The result of one send-then-recv: the text read, or a socket error (timeout included). */
  datatype Reply = Answer(text: string) | SocketError

  datatype Ctrl = Ctrl(
    connected: bool,
    /** None while no connect has succeeded yet: the constructor only assigns it on success. */
    state: Option<State>,
    macroId: Option<string>,
    /** Attributes the constructor never assigns; None until SetAxisExtraPar stores one. */
    ip: Option<Value>,
    macroName: Option<Value>,
    readPeak: Option<Value>)

  /** A state change, the socket events it caused and whether the call raised. */
  datatype Step = Step(ctrl: Ctrl, events: seq<LineEvent>, raised: bool)

  /** The outcome of StateOne: the record, the socket events, and the report or a raise. */
  datatype Poll = Poll(ctrl: Ctrl, events: seq<LineEvent>, report: Outcome<Report>)

  datatype PreStart = PreStart(ctrl: Ctrl, events: seq<LineEvent>, result: bool)

  const ProbeCommand: string := "s_pipe\n"
  const FaultStatus: string := "Can not connect with the server"
  const ReadErrorStatus: string := "Error reading macro status"

  /** _runOPUScmd writes the command with a '\n' appended. */
  function Frame(cmd: string): (r: string)
    ensures |r| == |cmd| + 1 && r[..|cmd|] == cmd && r[|cmd|] == '\n'
  {
    cmd + "\n"
  }

  /** The probe already ends in '\n' and gets a second one. */
  lemma ProbeFrame()
    ensures Frame(ProbeCommand) == "s_pipe\n\n"
  {
  }

  /** Every frame is the command followed by exactly one added line break. */
  lemma FrameAddsOneNewline(cmd: string)
    ensures Count(Frame(cmd), '\n') == Count(cmd, '\n') + 1
    ensures Frame(cmd)[..|cmd|] == cmd && Frame(cmd)[|cmd|] == '\n'
  {
    CountAppend(cmd, '\n');
  }

  lemma {:induction false} CountAppend(s: string, c: char)
    ensures Count(s + [c], c) == Count(s, c) + 1
    decreases |s|
  {
    if |s| > 0 {
      assert (s + [c])[1..] == s[1..] + [c];
      CountAppend(s[1..], c);
    } else {
      assert s + [c] == [c];
    }
  }

  /** A send over a socket that is not connected fails; otherwise the instrument's reply stands. */
  function Transmit(c: Ctrl, reply: Reply): (r: Reply)
    ensures !c.connected ==> r == SocketError
    ensures c.connected ==> r == reply
  {
    if c.connected then reply else SocketError
  }

  /** `'OK\n' in ans.upper()`. */
  predicate IsOk(ans: string)
  {
    Contains(Upper(ans), "OK\n")
  }

  /** `ans.split('\n')[1]`, defined whenever the answer is OK. */
  function SecondField(ans: string): string
    requires IsOk(ans)
  {
    OkMarkerGivesSecondField(ans);
    Split(ans, '\n')[1]
  }

  /** _connectSocket: success marks the socket connected and the state On; failure only clears the flag. */
  function ConnectSocket(c: Ctrl, ok: bool): (r: Ctrl)
    ensures r.connected == ok
    ensures ok ==> r.state == Some(On)
    ensures !ok ==> r.state == c.state
    ensures r.macroId == c.macroId && r.ip == c.ip && r.macroName == c.macroName && r.readPeak == c.readPeak
  {
    c.(connected := ok, state := if ok then Some(On) else c.state)
  }

  /** The constructor: no macro, no attributes set, one connect attempt. */
  function New(connectOk: bool): (r: Ctrl)
    ensures r.connected == connectOk && r.macroId == None
    ensures r.state == if connectOk then Some(On) else None
  {
    ConnectSocket(Ctrl(false, None, None, None, None, None), connectOk)
  }

  /** _reconnectSocket: close the socket and connect a fresh one. */
  function Reconnect(c: Ctrl, ok: bool): (s: Step)
    ensures s.events == [Closed, Connected(ok)] && !s.raised
    ensures s.ctrl == ConnectSocket(c, ok)
  {
    Step(ConnectSocket(c, ok), [Closed, Connected(ok)], false)
  }

  /**
    PreStartOne: probe the link with "s_pipe\n"; when the probe fails, reconnect
    once. The result is the connection flag afterwards.
   */
  function PreStartOne(c: Ctrl, probe: Reply, reconnectOk: bool): (p: PreStart)
    ensures Transmit(c, probe).Answer? ==> p.ctrl == c && p.events == [Send(Frame(ProbeCommand))]
    ensures Transmit(c, probe).SocketError? ==>
      p.ctrl == ConnectSocket(c, reconnectOk)
      && p.events == [Send(Frame(ProbeCommand)), Closed, Connected(reconnectOk)]
    ensures p.result == p.ctrl.connected
    ensures |p.events| >= 1 && p.events[0] == Send("s_pipe\n\n")
  {
    ProbeFrame();
    match Transmit(c, probe)
    case Answer(_) => PreStart(c, [Send(Frame(ProbeCommand))], c.connected)
    case SocketError =>
      var r := Reconnect(c, reconnectOk);
      PreStart(r.ctrl, [Send(Frame(ProbeCommand))] + r.events, r.ctrl.connected)
  }

  /** The command StartOne sends for a macro name. */
  function RunMacroCommand(name: Value): string
  {
    "RUN_MACRO " + PyStr(name)
  }

  /**
    StartOne: when connected, send RUN_MACRO with the macro name. An OK answer
    stores field 1 of the answer as the macro id and sets Moving; any other answer
    sets Fault and forgets the id. When not connected nothing is sent, the state
    becomes Fault and the id is kept.
   */
  function StartOne(c: Ctrl, reply: Reply): (s: Step)
    ensures !c.connected ==>
      !s.raised && s.events == [] && s.ctrl == c.(state := Some(Fault))
    ensures c.connected && c.macroName.None? ==> s.raised && s.events == [] && s.ctrl == c
    ensures c.connected && c.macroName.Some? ==>
      s.events == [Send(RunMacroCommand(c.macroName.value) + "\n")]
    ensures c.connected && c.macroName.Some? && reply.SocketError? ==> s.raised && s.ctrl == c
    ensures c.connected && c.macroName.Some? && reply.Answer? && IsOk(reply.text) ==>
      !s.raised && s.ctrl == c.(state := Some(Moving), macroId := Some(SecondField(reply.text)))
    ensures c.connected && c.macroName.Some? && reply.Answer? && !IsOk(reply.text) ==>
      !s.raised && s.ctrl == c.(state := Some(Fault), macroId := None)
  {
    if !c.connected then Step(c.(state := Some(Fault)), [], false)
    else match c.macroName
      case None => Step(c, [], true)
      case Some(name) =>
        var sent := [Send(Frame(RunMacroCommand(name)))];
        match reply
        case SocketError => Step(c, sent, true)
        case Answer(ans) =>
          if IsOk(ans) then Step(c.(state := Some(Moving), macroId := Some(SecondField(ans))), sent, false)
          else Step(c.(state := Some(Fault), macroId := None), sent, false)
  }

  /**
    StateOne: only Moving with a macro id talks to the instrument, asking
    MACRO_RESULTS <id>. An OK answer whose field 1 reads as 1 gives On; any other
    integer keeps Moving ("Acquiring"); a field that is not an integer raises; an
    answer without OK gives Fault. Fault reports the connection message, every
    other state reports itself with status "On". The macro id is never changed.
   */
  function StateOne(c: Ctrl, reply: Reply): (p: Poll)
    ensures p.ctrl.macroId == c.macroId && p.ctrl.connected == c.connected
    ensures p.ctrl.ip == c.ip && p.ctrl.macroName == c.macroName && p.ctrl.readPeak == c.readPeak
    ensures c.state.None? ==> p.report.Raised? && p.events == [] && p.ctrl == c
    ensures c.state == Some(Moving) && c.macroId.Some? ==>
      p.events == [Send("MACRO_RESULTS " + c.macroId.value + "\n")]
    ensures !(c.state == Some(Moving) && c.macroId.Some?) ==> p.events == [] && p.ctrl == c
    ensures c.state == Some(Fault) ==> p.report == Returned(Report(Fault, FaultStatus))
    ensures c.state.Some? && c.state != Some(Fault) && !(c.state == Some(Moving) && c.macroId.Some?) ==>
      p.report == Returned(Report(c.state.value, "On"))
    ensures c.state == Some(Moving) && c.macroId.Some? ==>
      match Transmit(c, reply)
      case SocketError => p.report.Raised? && p.ctrl == c
      case Answer(ans) =>
        if !IsOk(ans) then
          p.report == Returned(Report(Fault, ReadErrorStatus)) && p.ctrl == c.(state := Some(Fault))
        else match ParseInt(SecondField(ans))
          case None => p.report.Raised? && p.ctrl == c
          case Some(code) =>
            if code == 1 then p.report == Returned(Report(On, "On")) && p.ctrl == c.(state := Some(On))
            else p.report == Returned(Report(Moving, "Acquiring")) && p.ctrl == c
  {
    match c.state
    case None => Poll(c, [], Raised)
    case Some(st) =>
      if st == Moving && c.macroId.Some? then
        var sent := [Send(Frame("MACRO_RESULTS " + c.macroId.value))];
        match Transmit(c, reply)
        case SocketError => Poll(c, sent, Raised)
        case Answer(ans) =>
          if IsOk(ans) then
            match ParseInt(SecondField(ans))
            case None => Poll(c, sent, Raised)
            case Some(code) =>
              if code == 1 then Poll(c.(state := Some(On)), sent, Returned(Report(On, "On")))
              else Poll(c, sent, Returned(Report(Moving, "Acquiring")))
          else Poll(c.(state := Some(Fault)), sent, Returned(Report(Fault, ReadErrorStatus)))
      else if st == Fault then Poll(c, [], Returned(Report(Fault, FaultStatus)))
      else Poll(c, [], Returned(Report(st, "On")))
  }

  /** Python's truth value of the stored macro id (an empty id is false). */
  predicate HasMacro(c: Ctrl)
  {
    c.macroId.Some? && c.macroId.value != ""
  }

  /** The abort logic, parameterised by the state in which a kill is sent. */
  function Abort(c: Ctrl, killIn: State, reply: Reply): (s: Step)
  {
    if HasMacro(c) then
      match c.state
      case None => Step(c, [], true)
      case Some(st) =>
        if st == killIn then
          var sent := [Send(Frame("KILL_MACRO " + c.macroId.value))];
          match Transmit(c, reply)
          case SocketError => Step(c, sent, true)
          case Answer(_) => Step(c.(macroId := None, state := Some(On)), sent, false)
        else Step(c.(macroId := None, state := Some(On)), [], false)
    else Step(c.(macroId := None, state := Some(On)), [], false)
  }

  /**
    AbortOne as written: KILL_MACRO is sent only for a non-empty macro id in
    state Running; unless that send fails, the id is cleared and the state is On.
   */
  function AbortOneAsWritten(c: Ctrl, reply: Reply): (s: Step)
    ensures !s.raised ==> s.ctrl == c.(macroId := None, state := Some(On))
    ensures s.events != [] <==> HasMacro(c) && c.state == Some(Running)
    ensures s.events != [] ==> s.events == [Send("KILL_MACRO " + c.macroId.value + "\n")]
    ensures s.raised <==> HasMacro(c) && (c.state.None? || (c.state == Some(Running) && Transmit(c, reply).SocketError?))
  {
    Abort(c, Running, reply)
  }

  /**
    AbortOne with the state test the protocol needs: a running macro (state
    Moving with a non-empty id) is killed; the id is then cleared and the state is
    On whatever the kill's answer says.
   */
  function AbortOne(c: Ctrl, reply: Reply): (s: Step)
    ensures !s.raised ==> s.ctrl == c.(macroId := None, state := Some(On))
    ensures s.events != [] <==> HasMacro(c) && c.state == Some(Moving)
    ensures s.events != [] ==> s.events == [Send("KILL_MACRO " + c.macroId.value + "\n")]
    ensures s.raised <==> HasMacro(c) && (c.state.None? || (c.state == Some(Moving) && Transmit(c, reply).SocketError?))
  {
    Abort(c, Moving, reply)
  }

  /** ReadOne reads read_peak (raising while it is unset) and returns None in every case. */
  function ReadOne(c: Ctrl): (r: Outcome<Option<int>>)
    ensures r.Raised? <==> c.readPeak.None?
    ensures r.Returned? ==> r.value == None
  {
    if c.readPeak.None? then Raised else Returned(None)
  }

  function Stored(v: Option<Value>): Outcome<Value>
  {
    match v
    case None => Raised
    case Some(x) => Returned(x)
  }

  /** GetAxisExtraPar: ip, opus_macro_name and read_peak, matched case-insensitively; any other name gives None. */
  function GetAxisExtraPar(c: Ctrl, name: string): (r: Outcome<Value>)
    ensures !NameIs(name, "ip") && !NameIs(name, "opus_macro_name") && !NameIs(name, "read_peak") ==> r == Returned(NoneV)
    ensures r.Raised? <==> (NameIs(name, "ip") && c.ip.None?) || (NameIs(name, "opus_macro_name") && c.macroName.None?)
                           || (NameIs(name, "read_peak") && c.readPeak.None?)
  {
    if NameIs(name, "ip") then Stored(c.ip)
    else if NameIs(name, "opus_macro_name") then Stored(c.macroName)
    else if NameIs(name, "read_peak") then Stored(c.readPeak)
    else Returned(NoneV)
  }

  /** SetAxisExtraPar: stores the value under the matching name; any other name changes nothing. */
  function SetAxisExtraPar(c: Ctrl, name: string, v: Value): (r: Ctrl)
    ensures r.(ip := c.ip, macroName := c.macroName, readPeak := c.readPeak) == c
    ensures !NameIs(name, "ip") && !NameIs(name, "opus_macro_name") && !NameIs(name, "read_peak") ==> r == c
    ensures NameIs(name, "ip") || NameIs(name, "opus_macro_name") || NameIs(name, "read_peak") ==>
      GetAxisExtraPar(r, name) == Returned(v)
  {
    if NameIs(name, "ip") then c.(ip := Some(v))
    else if NameIs(name, "opus_macro_name") then c.(macroName := Some(v))
    else if NameIs(name, "read_peak") then c.(readPeak := Some(v))
    else c
  }

  const ParameterNames: seq<string> := ["ip", "opus_macro_name", "read_peak"]

  /**
    A value set under any spelling of a parameter name is read back under any
    other spelling; the other parameters and the protocol state are untouched.
   */
  lemma ParameterRoundTrip(c: Ctrl, setName: string, getName: string, key: string, v: Value)
    requires key in ParameterNames
    requires NameIs(setName, key) && NameIs(getName, key)
    ensures GetAxisExtraPar(SetAxisExtraPar(c, setName, v), getName) == Returned(v)
    ensures forall other :: other in ParameterNames && other != key ==>
      GetAxisExtraPar(SetAxisExtraPar(c, setName, v), other) == GetAxisExtraPar(c, other)
    ensures SetAxisExtraPar(c, setName, v).state == c.state
    ensures SetAxisExtraPar(c, setName, v).macroId == c.macroId
    ensures SetAxisExtraPar(c, setName, v).connected == c.connected
  {
    forall other | other in ParameterNames
      ensures Lower(other) == other
    {
    }
  }

  /** An unknown name is ignored by SetAxisExtraPar and read as None. */
  lemma UnknownParameter(c: Ctrl, name: string, v: Value)
    requires forall key :: key in ParameterNames ==> !NameIs(name, key)
    ensures SetAxisExtraPar(c, name, v) == c
    ensures GetAxisExtraPar(c, name) == Returned(NoneV)
  {
    assert "ip" in ParameterNames && "opus_macro_name" in ParameterNames && "read_peak" in ParameterNames;
  }

  // ---------------------------------------------------------------------------
  // Properties of the life cycle

  /** A running macro always has an id, and nothing puts the controller in state Running. */
  predicate Inv(c: Ctrl)
  {
    (c.state == Some(Moving) ==> c.macroId.Some?) && c.state != Some(Running)
  }

  /** The constructor establishes the invariant and every hook keeps it. */
  lemma InvInitially(ok: bool)
    ensures Inv(New(ok))
  {
  }

  lemma InvPreStartOne(c: Ctrl, probe: Reply, ok: bool)
    requires Inv(c)
    ensures Inv(PreStartOne(c, probe, ok).ctrl)
  {
  }

  lemma InvStartOne(c: Ctrl, reply: Reply)
    requires Inv(c)
    ensures Inv(StartOne(c, reply).ctrl)
  {
  }

  lemma InvStateOne(c: Ctrl, reply: Reply)
    requires Inv(c)
    ensures Inv(StateOne(c, reply).ctrl)
  {
  }

  lemma InvAbortOne(c: Ctrl, reply: Reply)
    requires Inv(c)
    ensures Inv(AbortOne(c, reply).ctrl)
    ensures Inv(AbortOneAsWritten(c, reply).ctrl)
  {
  }

  lemma InvSetAxisExtraPar(c: Ctrl, name: string, v: Value)
    requires Inv(c)
    ensures Inv(SetAxisExtraPar(c, name, v))
  {
  }

  /** Under the invariant the abort as written never sends KILL_MACRO. */
  lemma AbortAsWrittenNeverKills(c: Ctrl, reply: Reply)
    requires Inv(c)
    ensures AbortOneAsWritten(c, reply).events == []
  {
  }

  /** Concretely: after a macro starts, the abort as written leaves it running on the instrument. */
  lemma AbortAfterStartSendsNothing(c: Ctrl, reply: Reply)
    requires c.connected && c.macroName == Some(Str("scan"))
    ensures StartOne(c, Answer("OK\n7\n")).ctrl.state == Some(Moving)
    ensures AbortOneAsWritten(StartOne(c, Answer("OK\n7\n")).ctrl, reply).events == []
    ensures AbortOne(StartOne(c, Answer("OK\n7\n")).ctrl, Answer("OK\n")).events
         == [Send("KILL_MACRO 7\n")]
  {
    var a := "OK\n7\n";
    OkExample(a, "7");
    assert Frame("KILL_MACRO " + "7") == "KILL_MACRO 7\n";
  }

  /** An answer "OK\n<v>\n" is OK and carries v in field 1 when v has no line break. */
  lemma OkExample(a: string, v: string)
    requires a == "OK\n" + v + "\n" && '\n' !in v
    ensures IsOk(a)
    ensures SecondField(a) == v
  {
    var u := Upper(a);
    assert u[..3] == "OK\n";
    assert StartsWith(u, "OK\n");
    SplitPrefixField("OK", v + "\n");
    SplitPrefixField(v, "");
    assert a == "OK" + "\n" + (v + "\n");
    assert v + "\n" == v + "\n" + "";
  }

  /** Splitting "f\nrest" puts f first and the split of rest after it. */
  lemma {:induction false} SplitPrefixField(f: string, rest: string)
    requires '\n' !in f
    ensures Split(f + "\n" + rest, '\n') == [f] + Split(rest, '\n')
    decreases |f|
  {
    if |f| == 0 {
      assert f + "\n" + rest == "\n" + rest;
      assert ("\n" + rest)[1..] == rest;
    } else {
      var s := f + "\n" + rest;
      assert s[1..] == f[1..] + "\n" + rest;
      SplitPrefixField(f[1..], rest);
      assert [f[0]] + f[1..] == f;
    }
  }

  /**
    The start/poll scenario: "OK\n42\n" starts macro "42"; a poll answered
    "OK\n1\n" finishes it with state On, and the id stays stored.
   */
  lemma StartThenComplete(c: Ctrl)
    requires c.connected && c.macroName.Some?
    ensures StartOne(c, Answer("OK\n42\n")).ctrl.macroId == Some("42")
    ensures StartOne(c, Answer("OK\n42\n")).ctrl.state == Some(Moving)
    ensures StateOne(StartOne(c, Answer("OK\n42\n")).ctrl, Answer("OK\n1\n")).report
         == Returned(Report(On, "On"))
    ensures StateOne(StartOne(c, Answer("OK\n42\n")).ctrl, Answer("OK\n1\n")).ctrl.macroId == Some("42")
  {
    OkExample("OK\n42\n", "42");
    OkExample("OK\n1\n", "1");
    ParseOne();
  }

  lemma ParseOne()
    ensures ParseInt("1") == Some(1)
  {
    ParseIntRoundTrip(1);
    assert IntToString(1) == "1";
  }

  /** A poll whose result reads "- 1", blank after the sign, is the integer -1: the macro is still running. */
  lemma PollSignBlank(c: Ctrl)
    requires c.state == Some(Moving) && c.macroId.Some? && c.connected
    ensures StateOne(c, Answer("OK\n- 1\n")).report == Returned(Report(Moving, "Acquiring"))
    ensures StateOne(c, Answer("OK\n- 1\n")).ctrl == c
  {
    OkExample("OK\n- 1\n", "- 1");
    SignBlankMinusOne();
  }

  lemma SignBlankMinusOne()
    ensures ParseInt("- 1") == Some(-1)
  {
    assert AllDigits("1") && DigitsValue("1") == 1;
    ParseIntSignBlank('-', " ", "1");
    assert ['-'] + " " + "1" == "- 1";
  }

  /** A poll answered "ERROR\n" gives Fault with the read-error status. */
  lemma PollError(c: Ctrl)
    requires c.state == Some(Moving) && c.macroId.Some? && c.connected
    ensures StateOne(c, Answer("ERROR\n")).report == Returned(Report(Fault, ReadErrorStatus))
    ensures StateOne(c, Answer("ERROR\n")).ctrl.state == Some(Fault)
  {
    var u := Upper("ERROR\n");
    assert u == "ERROR\n";
    NotContainsOk(u);
  }

  lemma NotContainsOk(u: string)
    requires 'K' !in u
    ensures !Contains(u, "OK\n")
  {
    if Contains(u, "OK\n") {
      ContainsChar(u, "OK\n", 1);
      assert false;
    }
  }

  /**
    A failed probe reconnects; after a successful reconnect an OK start answer
    makes the controller Moving with the new id.
   */
  lemma ReconnectThenStart(c: Ctrl, ans: string)
    requires c.macroName.Some? && IsOk(ans)
    ensures PreStartOne(c, SocketError, true).result
    ensures StartOne(PreStartOne(c, SocketError, true).ctrl, Answer(ans)).ctrl.state == Some(Moving)
    ensures StartOne(PreStartOne(c, SocketError, true).ctrl, Answer(ans)).ctrl.macroId
         == Some(SecondField(ans))
  {
  }

  /** A failed reconnect leaves the controller unable to start: StartOne then sets Fault and sends nothing. */
  lemma FailedReconnectFaults(c: Ctrl, reply: Reply)
    ensures !PreStartOne(c, SocketError, false).result
    ensures StartOne(PreStartOne(c, SocketError, false).ctrl, reply).ctrl.state == Some(Fault)
    ensures StartOne(PreStartOne(c, SocketError, false).ctrl, reply).events == []
  {
  }

  /** Starting while a macro runs is not refused: a new OK answer replaces the macro id. */
  lemma RestartReplacesMacro(c: Ctrl, ans: string)
    requires c.connected && c.macroName.Some? && c.state == Some(Moving) && IsOk(ans)
    ensures StartOne(c, Answer(ans)).ctrl.macroId == Some(SecondField(ans))
    ensures |StartOne(c, Answer(ans)).events| == 1
  {
  }
}
