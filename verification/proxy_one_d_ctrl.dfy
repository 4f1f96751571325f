/**
  The one-dimensional controller that runs the OPUS measurement through the
  OPUS Tango device server and reports the written file as its reference
  (controllers/OPUSoneDSocketCtrl.py).

  PreStartOne renders the MeasureSample command and, when it reads the linkam
  temperature for the file name, caches the reading; RefOne rebuilds the file
  name from the cached reading.
 */
module ProxyOneDCtrl {
  import opened Outcomes
  import opened Text
  import opened PyValues
  import opened Tango
  import opened CommandBuilder

  datatype Ctrl = Ctrl(
    macroRunning: bool,
    hasLinkam: bool,
    cmd: string,
    exp: Value,
    xpp: Value,
    nam: Value,
    pth: Value,
    addTemp: Value,
    /** Attributes the constructor never assigns; None until first stored. */
    ds: Option<Value>,
    linkamTemp: Option<int>)

  /** A state change, the proxy calls it made and whether the hook raised. */
  datatype Step = Step(ctrl: Ctrl, calls: seq<ProxyCall>, raised: bool)

  /** The constructor: no macro, empty name and path, experiment unset, no reading cached. */
  function New(hasLinkam: bool): Ctrl
  {
    Ctrl(false, hasLinkam, "COMMAND_LINE MeasureSample", NoneV, NoneV, Str(""), Str(""), Bool(false), None, None)
  }

  predicate WantsSuffix(c: Ctrl)
  {
    SuffixWanted(c.nam, c.addTemp, c.hasLinkam)
  }

  /**
    PreStartOne: render the command as the counter controller does; the
    temperature is read, and cached, only when a suffix is wanted.
   */
  function PreStartOne(c: Ctrl, temp: int): (s: Step)
    ensures s.calls == []
    ensures s.ctrl.linkamTemp == if WantsSuffix(c) then Some(temp) else c.linkamTemp
    ensures s.ctrl == c.(cmd := s.ctrl.cmd, linkamTemp := s.ctrl.linkamTemp)
    ensures NoBraces(PyStr(c.nam)) && NoBraces(PyStr(c.pth)) ==>
      !s.raised
      && s.ctrl.cmd == MeasureCommand(PyStr(c.exp), PyStr(c.xpp),
                                      if c.nam != Str("") then Some(PyStr(c.nam) + NameSuffix(c.nam, c.addTemp, c.hasLinkam, temp)) else None,
                                      if c.pth != Str("") then Some(PyStr(c.pth)) else None)
    ensures s.raised ==> s.ctrl.cmd == BuildTemplate(c.nam, c.pth, NameSuffix(c.nam, c.addTemp, c.hasLinkam, temp))
  {
    var c1 := if WantsSuffix(c) then c.(linkamTemp := Some(temp)) else c;
    var suffix := NameSuffix(c.nam, c.addTemp, c.hasLinkam, temp);
    NameSuffixShape(c.nam, c.addTemp, c.hasLinkam, temp);
    RenderBraceFree(c.exp, c.xpp, c.nam, c.pth, suffix);
    match Render(c.exp, c.xpp, c.nam, c.pth, suffix)
    case None => Step(c1.(cmd := BuildTemplate(c.nam, c.pth, suffix)), [], true)
    case Some(r) => Step(c1.(cmd := r), [], false)
  }

  /**
    RefOne: `file://` + join(pth, <nam><suffix>), with no extension. The
    suffix is rebuilt from the cached reading whenever the flag is on and the
    linkam proxy exists, even for an empty name; reading an uncached temperature
    raises, and so does os.path.join on a path that is not a string.
   */
  function RefOne(c: Ctrl): (r: Outcome<string>)
    ensures r.Returned? <==> c.pth.Str? && (Truthy(c.addTemp) && c.hasLinkam ==> c.linkamTemp.Some?)
    ensures r.Returned? && !(Truthy(c.addTemp) && c.hasLinkam) ==>
      r.value == "file://" + PathJoin(c.pth.s, PyStr(c.nam))
    ensures r.Returned? && Truthy(c.addTemp) && c.hasLinkam ==>
      r.value == "file://" + PathJoin(c.pth.s, PyStr(c.nam) + TempSuffix(c.linkamTemp.value))
  {
    var suffix: Outcome<string> :=
      if Truthy(c.addTemp) && c.hasLinkam then
        (if c.linkamTemp.Some? then Returned(TempSuffix(c.linkamTemp.value)) else Raised)
      else Returned("");
    match suffix
    case Raised => Raised
    case Returned(tn) =>
      match c.pth
      case Str(p) => Returned("file://" + PathJoin(p, PyStr(c.nam) + tn))
      case _ => Raised
  }

  /**
    After PreStartOne with a non-empty name, RefOne names the file the command
    asked for: the path joined with NAM, suffix included.
   */
  lemma ReferenceMatchesCommand(c: Ctrl, temp: int, p: string)
    requires c.nam != Str("") && c.pth == Str(p)
    ensures RefOne(PreStartOne(c, temp).ctrl)
         == Returned("file://" + PathJoin(p, PyStr(c.nam) + NameSuffix(c.nam, c.addTemp, c.hasLinkam, temp)))
  {
  }

  /**
    With an empty name and the flag on, RefOne still appends a suffix, built
    from the last reading PreStartOne cached (none: it raises).
   */
  lemma EmptyNameReference(c: Ctrl, temp: int, p: string)
    requires c.nam == Str("") && c.pth == Str(p) && Truthy(c.addTemp) && c.hasLinkam
    ensures PreStartOne(c, temp).ctrl.linkamTemp == c.linkamTemp
    ensures c.linkamTemp.None? ==> RefOne(PreStartOne(c, temp).ctrl).Raised?
    ensures c.linkamTemp.Some? ==>
      RefOne(PreStartOne(c, temp).ctrl) == Returned("file://" + PathJoin(p, "" + TempSuffix(c.linkamTemp.value)))
  {
  }

  /** StartOne: mark the macro running and send the stored command. */
  function StartOne(c: Ctrl): (s: Step)
    ensures s.ctrl.macroRunning && s.calls == [RunCmd(c.cmd)] && !s.raised
    ensures s.ctrl.(macroRunning := c.macroRunning) == c
  {
    Step(c.(macroRunning := true), [RunCmd(c.cmd)], false)
  }

  /** After PreStartOne, StartOne sends exactly the command just rendered. */
  lemma StartSendsRendered(c: Ctrl, temp: int)
    requires NoBraces(PyStr(c.nam)) && NoBraces(PyStr(c.pth))
    ensures StartOne(PreStartOne(c, temp).ctrl).calls
         == [RunCmd(MeasureCommand(PyStr(c.exp), PyStr(c.xpp),
                                   NamArg(c.nam, NameSuffix(c.nam, c.addTemp, c.hasLinkam, temp)), PthArg(c.pth)))]
  {
  }

  /**
    StateOne: ON clears the running flag and reads On; RUNNING reads Moving,
    ALARM Fault, every other state passes through. The status is the server's.
   */
  function StateOne(c: Ctrl, server: State, status: string): (r: (Ctrl, Report))
    ensures r.1.status == status
    ensures server == On ==> r.1.state == On && !r.0.macroRunning && r.0 == c.(macroRunning := false)
    ensures server == Running ==> r.1.state == Moving && r.0 == c
    ensures server == Alarm ==> r.1.state == Fault && r.0 == c
    ensures server != On && server != Running && server != Alarm ==> r.1.state == server && r.0 == c
  {
    (if server == On then c.(macroRunning := false) else c, Report(ProjectState(server), status))
  }

  /** A started macro is finished by the first ON poll and not before. */
  lemma StartThenPoll(c: Ctrl, server: State, status: string)
    ensures StateOne(StartOne(c).ctrl, server, status).0.macroRunning <==> server != On
  {
  }

  /** ReadOne reads the server's last output but always returns None. */
  function ReadOne(c: Ctrl, server: State): (r: Option<real>)
    ensures r == None
  {
    None
  }

  /** AbortOne: ask the server to stop its macro; the record is not changed. */
  function AbortOne(c: Ctrl): (s: Step)
    ensures s.ctrl == c && s.calls == [StopMacro] && !s.raised
  {
    Step(c, [StopMacro], false)
  }

  // ---------------------------------------------------------------------------
  // Parameters

  datatype Param = Ds | OpusCmd | OpusXpp | OpusExp | OpusPth | OpusNam | AddTemp2Filename

  function ParamName(p: Param): string
  {
    match p
    case Ds => "ds"
    case OpusCmd => "opus_cmd"
    case OpusXpp => "opus_xpp"
    case OpusExp => "opus_exp"
    case OpusPth => "opus_pth"
    case OpusNam => "opus_nam"
    case AddTemp2Filename => "add_temp2filename"
  }

  /** The parameter a name selects: the lower-cased name is compared with each parameter's name in turn. */
  function ParamOf(name: string): (r: Option<Param>)
    ensures r.Some? ==> Lower(name) == ParamName(r.value)
  {
    var key := Lower(name);
    if key == "ds" then Some(Ds)
    else if key == "opus_cmd" then Some(OpusCmd)
    else if key == "opus_xpp" then Some(OpusXpp)
    else if key == "opus_exp" then Some(OpusExp)
    else if key == "opus_pth" then Some(OpusPth)
    else if key == "opus_nam" then Some(OpusNam)
    else if key == "add_temp2filename" then Some(AddTemp2Filename)
    else None
  }

  /** Every parameter is selected by its own name. */
  lemma ParamOfName(p: Param)
    ensures ParamOf(ParamName(p)) == Some(p)
  {
    LowerKeyMatchesItself(ParamName(p));
  }

  function GetAxisExtraPar(c: Ctrl, name: string): (r: Outcome<Value>)
    ensures ParamOf(name).None? ==> r == Returned(NoneV)
    ensures r.Raised? <==> ParamOf(name) == Some(Ds) && c.ds.None?
    ensures ParamOf(name) == Some(OpusCmd) ==> r == Returned(Str(c.cmd))
  {
    Get(c, ParamOf(name))
  }

  /** A name that selects no parameter reads as None; ds raises until it is set. */
  function Get(c: Ctrl, p: Option<Param>): Outcome<Value>
  {
    match p
    case None => Returned(NoneV)
    case Some(Ds) => if c.ds.Some? then Returned(c.ds.value) else Raised
    case Some(OpusCmd) => Returned(Str(c.cmd))
    case Some(OpusXpp) => Returned(c.xpp)
    case Some(OpusExp) => Returned(c.exp)
    case Some(OpusPth) => Returned(c.pth)
    case Some(OpusNam) => Returned(c.nam)
    case Some(AddTemp2Filename) => Returned(c.addTemp)
  }

  function SetAxisExtraPar(c: Ctrl, name: string, v: Value): (r: Ctrl)
    ensures ParamOf(name).None? || ParamOf(name) == Some(OpusCmd) ==> r == c
    ensures ParamOf(name).Some? && ParamOf(name) != Some(OpusCmd) ==> Get(r, ParamOf(name)) == Returned(v)
    ensures r.macroRunning == c.macroRunning
  {
    var p := ParamOf(name);
    if p.Some? && p != Some(OpusCmd) then
      SetGetSame(c, p.value, v);
      Set(c, p, v)
    else Set(c, p, v)
  }

  /** opus_cmd is read-only and falls with the unknown names that change nothing. */
  function Set(c: Ctrl, p: Option<Param>, v: Value): Ctrl
  {
    match p
    case None => c
    case Some(Ds) => c.(ds := Some(v))
    case Some(OpusCmd) => c
    case Some(OpusXpp) => c.(xpp := v)
    case Some(OpusExp) => c.(exp := v)
    case Some(OpusPth) => c.(pth := v)
    case Some(OpusNam) => c.(nam := v)
    case Some(AddTemp2Filename) => c.(addTemp := v)
  }

  /** A value set under the name of a writable parameter is read back under any spelling of that name. */
  lemma ParameterRoundTrip(c: Ctrl, setName: string, getName: string, v: Value)
    requires ParamOf(setName).Some? && ParamOf(setName) != Some(OpusCmd)
    requires Lower(getName) == Lower(setName)
    ensures GetAxisExtraPar(SetAxisExtraPar(c, setName, v), getName) == Returned(v)
    ensures SetAxisExtraPar(c, setName, v).macroRunning == c.macroRunning
  {
    assert ParamOf(getName) == ParamOf(setName);
    SetGetSame(c, ParamOf(setName).value, v);
  }

  lemma SetGetSame(c: Ctrl, p: Param, v: Value)
    requires p != OpusCmd
    ensures Get(Set(c, Some(p), v), Some(p)) == Returned(v)
    ensures Set(c, Some(p), v).macroRunning == c.macroRunning
  {
  }

  /** Setting one parameter leaves the parameter under every other name as it was. */
  lemma ParameterIndependent(c: Ctrl, setName: string, getName: string, v: Value)
    requires Lower(getName) != Lower(setName)
    ensures GetAxisExtraPar(SetAxisExtraPar(c, setName, v), getName) == GetAxisExtraPar(c, getName)
  {
    var ps, pg := ParamOf(setName), ParamOf(getName);
    assert ps.Some? && pg.Some? ==> ps.value != pg.value;
    SetGetOther(c, ps, pg, v);
  }

  lemma SetGetOther(c: Ctrl, ps: Option<Param>, pg: Option<Param>, v: Value)
    requires ps.Some? && pg.Some? ==> ps.value != pg.value
    ensures Get(Set(c, ps, v), pg) == Get(c, pg)
  {
    if ps.Some? {
      var c1 := Set(c, ps, v);
      match ps.value
      case Ds => assert c1 == c.(ds := Some(v));
      case OpusCmd => assert c1 == c;
      case OpusXpp => assert c1 == c.(xpp := v);
      case OpusExp => assert c1 == c.(exp := v);
      case OpusPth => assert c1 == c.(pth := v);
      case OpusNam => assert c1 == c.(nam := v);
      case AddTemp2Filename => assert c1 == c.(addTemp := v);
    }
  }

  /** A name that selects no parameter, or opus_cmd, changes nothing. */
  lemma ReadOnlyOrUnknown(c: Ctrl, name: string, v: Value)
    requires ParamOf(name).None? || ParamOf(name) == Some(OpusCmd)
    ensures SetAxisExtraPar(c, name, v) == c
  {
  }
}
