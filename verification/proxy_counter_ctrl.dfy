/**
  The counter controller that drives an OPUS measurement through the OPUS
  Tango device server (controllers/OPUSSocketCtrl.py).

  PreStartOne renders the MeasureSample command from the stored parameters,
  StartOne hands it to the server, and StateOne projects the server's state,
  asking for the peak table (READ_PKA) once when a macro it started has
  finished and read_peak is set. The proxy is replaced by its observable
  effect: the server's state and the linkam temperature are inputs, and every
  hook returns the new controller record with the proxy calls it made.
 */
module ProxyCounterCtrl {
  import opened Outcomes
  import opened Text
  import opened PyValues
  import opened Tango
  import opened CommandBuilder

  datatype Ctrl = Ctrl(
    /** _opus_macro_is_running: set by StartOne, cleared by the first ON poll. */
    macroRunning: bool,
    /** Whether the linkam proxy could be built in the constructor. */
    hasLinkam: bool,
    cmd: string,
    exp: Value,
    xpp: Value,
    nam: Value,
    pth: Value,
    addTemp: Value,
    /** Attributes the constructor never assigns; None until SetAxisExtraPar stores one. */
    ds: Option<Value>,
    readPeak: Option<Value>)

  /** A state change, the proxy calls it made and whether the hook raised. */
  datatype Step = Step(ctrl: Ctrl, calls: seq<ProxyCall>, raised: bool)

  /** The outcome of StateOne: the record, the proxy calls, and the report or a raise. */
  datatype Poll = Poll(ctrl: Ctrl, calls: seq<ProxyCall>, report: Outcome<Report>)

  const InitialCommand: string := "COMMAND_LINE MeasureSample"
  const ReadPeakCommand: string := "READ_PKA"

  /** The constructor: no macro, empty name and path, experiment unset, no suffix. */
  function New(hasLinkam: bool): Ctrl
  {
    Ctrl(false, hasLinkam, InitialCommand, NoneV, NoneV, Str(""), Str(""), Bool(false), None, None)
  }

  predicate WantsSuffix(c: Ctrl)
  {
    CommandBuilder.SuffixWanted(c.nam, c.addTemp, c.hasLinkam)
  }

  function Suffix(c: Ctrl, temp: int): string
  {
    NameSuffix(c.nam, c.addTemp, c.hasLinkam, temp)
  }

  /**
    PreStartOne: build the format string and format it with the experiment and
    its path. The command attribute is overwritten either way; when str.format
    raises it keeps the unformatted template.
   */
  function PreStartOne(c: Ctrl, temp: int): (s: Step)
    ensures s.calls == [] && s.ctrl == c.(cmd := s.ctrl.cmd)
    ensures NoBraces(PyStr(c.nam)) && NoBraces(PyStr(c.pth)) ==>
      !s.raised
      && s.ctrl.cmd == MeasureCommand(PyStr(c.exp), PyStr(c.xpp),
                                      if c.nam != Str("") then Some(PyStr(c.nam) + Suffix(c, temp)) else None,
                                      if c.pth != Str("") then Some(PyStr(c.pth)) else None)
    ensures s.raised ==> s.ctrl.cmd == BuildTemplate(c.nam, c.pth, Suffix(c, temp))
  {
    var suffix := Suffix(c, temp);
    NameSuffixShape(c.nam, c.addTemp, c.hasLinkam, temp);
    RenderBraceFree(c.exp, c.xpp, c.nam, c.pth, suffix);
    match Render(c.exp, c.xpp, c.nam, c.pth, suffix)
    case None => Step(c.(cmd := BuildTemplate(c.nam, c.pth, suffix)), [], true)
    case Some(r) => Step(c.(cmd := r), [], false)
  }

  /** The rendered command does not depend on the command stored before. */
  lemma PreStartIgnoresOldCommand(c: Ctrl, previous: string, temp: int)
    ensures PreStartOne(c.(cmd := previous), temp) == PreStartOne(c, temp)
  {
    assert c.(cmd := previous).(cmd := c.cmd) == c;
  }

  /** The temperature reading only matters when a suffix is wanted. */
  lemma PreStartIgnoresTemperature(c: Ctrl, t1: int, t2: int)
    requires !WantsSuffix(c)
    ensures PreStartOne(c, t1) == PreStartOne(c, t2)
  {
  }

  /** A controller fresh from the constructor renders the bare measurement with EXP and XPP None. */
  lemma FirstPreStart(hasLinkam: bool, temp: int)
    ensures PreStartOne(New(hasLinkam), temp)
         == Step(New(hasLinkam).(cmd := "COMMAND_LINE MeasureSample (0, {EXP='None', XPP='None'});"), [], false)
  {
    var c := New(hasLinkam);
    assert Suffix(c, temp) == "";
    RenderDefaults();
  }

  /** StartOne: mark the macro running and send the stored command. */
  function StartOne(c: Ctrl): (s: Step)
    ensures s.ctrl.macroRunning && s.calls == [RunCmd(c.cmd)] && !s.raised
    ensures s.ctrl.(macroRunning := c.macroRunning) == c
  {
    Step(c.(macroRunning := true), [RunCmd(c.cmd)], false)
  }

  /**
    StateOne: ON ends a macro. If one was running and read_peak is set, the
    peak table is requested and the axis stays Moving for this poll; otherwise
    it is On. The running flag is cleared on every ON poll (reading an unset
    read_peak raises first). RUNNING reads as Moving, ALARM as Fault, and both
    leave the flag alone; other states pass through. The status is the server's.
   */
  function StateOne(c: Ctrl, server: State, status: string): (p: Poll)
    ensures server != On ==> p == Poll(c, [], Returned(Report(ProjectState(server), status)))
    ensures server == On && c.macroRunning && c.readPeak.None? ==> p == Poll(c, [], Raised)
    ensures server == On && !(c.macroRunning && c.readPeak.None?) ==>
      p.ctrl == c.(macroRunning := false) && p.report.Returned? && p.report.value.status == status
    ensures p.calls != [] <==> server == On && c.macroRunning && c.readPeak.Some? && Truthy(c.readPeak.value)
    ensures p.calls != [] ==> p.calls == [RunCmd(ReadPeakCommand)]
    ensures server == On && p.report.Returned? ==>
      p.report.value.state == (if p.calls != [] then Moving else On)
  {
    if server == On then
      if c.macroRunning then
        match c.readPeak
        case None => Poll(c, [], Raised)
        case Some(rp) =>
          if Truthy(rp) then Poll(c.(macroRunning := false), [RunCmd(ReadPeakCommand)], Returned(Report(Moving, status)))
          else Poll(c.(macroRunning := false), [], Returned(Report(On, status)))
      else Poll(c, [], Returned(Report(On, status)))
    else Poll(c, [], Returned(Report(ProjectState(server), status)))
  }

  /**
    With read_peak set, the first ON poll after a start asks for the peak table
    and reports Moving; the second reports On and sends nothing.
   */
  lemma TwoPollsAfterStart(c: Ctrl, s1: string, s2: string)
    requires c.readPeak.Some? && Truthy(c.readPeak.value)
    ensures var p1 := StateOne(StartOne(c).ctrl, On, s1);
            p1.report == Returned(Report(Moving, s1)) && p1.calls == [RunCmd("READ_PKA")]
            && var p2 := StateOne(p1.ctrl, On, s2);
               p2.report == Returned(Report(On, s2)) && p2.calls == []
  {
  }

  /** While the server keeps running the flag survives any number of polls. */
  lemma RunningPollKeepsFlag(c: Ctrl, status: string)
    ensures StateOne(c, Running, status).ctrl == c
    ensures StateOne(c, Running, status).report == Returned(Report(Moving, status))
    ensures StateOne(c, Alarm, status).report == Returned(Report(Fault, status))
  {
  }

  /**
    ReadOne: the peak is read only when read_peak is set and the server is ON;
    `lastOutput` is float() of the server's last output, None when the call or
    the conversion fails. Reading an unset read_peak raises.
   */
  function ReadOne(c: Ctrl, server: State, lastOutput: Option<real>): (r: Outcome<Option<real>>)
    ensures r.Raised? <==> c.readPeak.None?
    ensures r.Returned? && r.value.Some? ==> Truthy(c.readPeak.value) && server == On && r.value == lastOutput
    ensures r.Returned? && Truthy(c.readPeak.value) && server == On ==> r.value == lastOutput
  {
    match c.readPeak
    case None => Raised
    case Some(rp) => if Truthy(rp) && server == On then Returned(lastOutput) else Returned(None)
  }

  /** AbortOne: ask the server to stop its macro; the record is not changed. */
  function AbortOne(c: Ctrl): (s: Step)
    ensures s.ctrl == c && s.calls == [StopMacro] && !s.raised
  {
    Step(c, [StopMacro], false)
  }

  function Stored(v: Option<Value>): Outcome<Value>
  {
    match v
    case None => Raised
    case Some(x) => Returned(x)
  }

  /** The controller's axis parameters. */
  datatype Param = Ds | OpusCmd | ReadPeak | OpusXpp | OpusExp | OpusPth | OpusNam | AddTemp2Filename

  function ParamName(p: Param): string
  {
    match p
    case Ds => "ds"
    case OpusCmd => "opus_cmd"
    case ReadPeak => "read_peak"
    case OpusXpp => "opus_xpp"
    case OpusExp => "opus_exp"
    case OpusPth => "opus_pth"
    case OpusNam => "opus_nam"
    case AddTemp2Filename => "add_temp2filename"
  }

  /** The parameter a name selects: the lower-cased name is compared with each parameter's name in turn. */
  function ParamOf(name: string): (r: Option<Param>)
    ensures r.Some? ==> Lower(name) == ParamName(r.value)
  {
    var key := Lower(name);
    if key == "ds" then Some(Ds)
    else if key == "opus_cmd" then Some(OpusCmd)
    else if key == "read_peak" then Some(ReadPeak)
    else if key == "opus_xpp" then Some(OpusXpp)
    else if key == "opus_exp" then Some(OpusExp)
    else if key == "opus_pth" then Some(OpusPth)
    else if key == "opus_nam" then Some(OpusNam)
    else if key == "add_temp2filename" then Some(AddTemp2Filename)
    else None
  }

  /** Every parameter is selected by its own name. */
  lemma ParamOfName(p: Param)
    ensures ParamOf(ParamName(p)) == Some(p)
  {
    LowerKeyMatchesItself(ParamName(p));
  }

  /** GetAxisExtraPar; a name that selects no parameter reads as None. */
  function GetAxisExtraPar(c: Ctrl, name: string): (r: Outcome<Value>)
    ensures ParamOf(name).None? ==> r == Returned(NoneV)
    ensures r.Raised? <==> (ParamOf(name) == Some(Ds) && c.ds.None?) || (ParamOf(name) == Some(ReadPeak) && c.readPeak.None?)
    ensures ParamOf(name) == Some(OpusCmd) ==> r == Returned(Str(c.cmd))
  {
    Get(c, ParamOf(name))
  }

  function Get(c: Ctrl, p: Option<Param>): Outcome<Value>
  {
    match p
    case None => Returned(NoneV)
    case Some(Ds) => Stored(c.ds)
    case Some(OpusCmd) => Returned(Str(c.cmd))
    case Some(ReadPeak) => Stored(c.readPeak)
    case Some(OpusXpp) => Returned(c.xpp)
    case Some(OpusExp) => Returned(c.exp)
    case Some(OpusPth) => Returned(c.pth)
    case Some(OpusNam) => Returned(c.nam)
    case Some(AddTemp2Filename) => Returned(c.addTemp)
  }

  /** SetAxisExtraPar; opus_cmd is read-only and falls with the unknown names that change nothing. */
  function SetAxisExtraPar(c: Ctrl, name: string, v: Value): (r: Ctrl)
    ensures ParamOf(name).None? || ParamOf(name) == Some(OpusCmd) ==> r == c
    ensures ParamOf(name).Some? && ParamOf(name) != Some(OpusCmd) ==> Get(r, ParamOf(name)) == Returned(v)
    ensures r.macroRunning == c.macroRunning
  {
    var p := ParamOf(name);
    if p.Some? && p != Some(OpusCmd) then
      SetGetSame(c, p.value, v);
      Set(c, p, v)
    else Set(c, p, v)
  }

  function Set(c: Ctrl, p: Option<Param>, v: Value): Ctrl
  {
    match p
    case None => c
    case Some(Ds) => c.(ds := Some(v))
    case Some(OpusCmd) => c
    case Some(ReadPeak) => c.(readPeak := Some(v))
    case Some(OpusXpp) => c.(xpp := v)
    case Some(OpusExp) => c.(exp := v)
    case Some(OpusPth) => c.(pth := v)
    case Some(OpusNam) => c.(nam := v)
    case Some(AddTemp2Filename) => c.(addTemp := v)
  }

  /**
    A value set under the name of a writable parameter is read back under any
    spelling of that name, and the running flag is untouched.
   */
  lemma ParameterRoundTrip(c: Ctrl, setName: string, getName: string, v: Value)
    requires ParamOf(setName).Some? && ParamOf(setName) != Some(OpusCmd)
    requires Lower(getName) == Lower(setName)
    ensures GetAxisExtraPar(SetAxisExtraPar(c, setName, v), getName) == Returned(v)
    ensures SetAxisExtraPar(c, setName, v).macroRunning == c.macroRunning
  {
    assert ParamOf(getName) == ParamOf(setName);
    SetGetSame(c, ParamOf(setName).value, v);
  }

  lemma SetGetSame(c: Ctrl, p: Param, v: Value)
    requires p != OpusCmd
    ensures Get(Set(c, Some(p), v), Some(p)) == Returned(v)
    ensures Set(c, Some(p), v).macroRunning == c.macroRunning
  {
  }

  /** Setting one parameter leaves the parameter under every other name as it was. */
  lemma ParameterIndependent(c: Ctrl, setName: string, getName: string, v: Value)
    requires Lower(getName) != Lower(setName)
    ensures GetAxisExtraPar(SetAxisExtraPar(c, setName, v), getName) == GetAxisExtraPar(c, getName)
  {
    var ps, pg := ParamOf(setName), ParamOf(getName);
    assert ps.Some? && pg.Some? ==> ps.value != pg.value;
    SetGetOther(c, ps, pg, v);
  }

  lemma SetGetOther(c: Ctrl, ps: Option<Param>, pg: Option<Param>, v: Value)
    requires ps.Some? && pg.Some? ==> ps.value != pg.value
    ensures Get(Set(c, ps, v), pg) == Get(c, pg)
  {
    if ps.Some? {
      var c1 := Set(c, ps, v);
      match ps.value
      case Ds => assert c1 == c.(ds := Some(v));
      case OpusCmd => assert c1 == c;
      case ReadPeak => assert c1 == c.(readPeak := Some(v));
      case OpusXpp => assert c1 == c.(xpp := v);
      case OpusExp => assert c1 == c.(exp := v);
      case OpusPth => assert c1 == c.(pth := v);
      case OpusNam => assert c1 == c.(nam := v);
      case AddTemp2Filename => assert c1 == c.(addTemp := v);
    }
  }

  /** opus_cmd cannot be written: setting it changes nothing, and it reads back the rendered command. */
  lemma CommandIsReadOnly(c: Ctrl, name: string, v: Value, temp: int)
    requires ParamOf(name) == Some(OpusCmd)
    ensures SetAxisExtraPar(c, name, v) == c
    ensures GetAxisExtraPar(PreStartOne(c, temp).ctrl, name) == Returned(Str(PreStartOne(c, temp).ctrl.cmd))
  {
  }

  /** A name that selects no parameter is ignored by SetAxisExtraPar and read as None. */
  lemma UnknownParameter(c: Ctrl, name: string, v: Value)
    requires ParamOf(name).None?
    ensures SetAxisExtraPar(c, name, v) == c
    ensures GetAxisExtraPar(c, name) == Returned(NoneV)
  {
  }
}
