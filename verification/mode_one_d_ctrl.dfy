/**
  The one-dimensional controller with an infrared and a visible-light mode
  (sardana_opus/ctrl/OPUSoneDSocketCtrl.py).

  In IR mode StartOne runs the MeasureSample command PreStartOne rendered; in
  VISIBLE mode it asks the server for a camera snapshot named after the file.
  Setting the mode or the lamp intensity moves motor 56 of the instrument
  through synchronous commands. RefOne names the file the measurement writes.
 */
module ModeOneDCtrl {
  import opened Outcomes
  import opened Text
  import opened PyValues
  import opened Tango
  import opened CommandBuilder

  const IR: int := 0
  const VISIBLE: int := 1

  datatype Ctrl = Ctrl(
    macroRunning: bool,
    hasLinkam: bool,
    cmd: string,
    exp: Value,
    xpp: Value,
    nam: Value,
    pth: Value,
    addTemp: Value,
    mode: Value,
    intensity: Value,
    /** Attributes the constructor never assigns; None until first stored. */
    ds: Option<Value>,
    tempName: Option<string>,
    linkamTemp: Option<int>)

  /** A state change, the proxy calls it made and whether the hook raised. */
  datatype Step = Step(ctrl: Ctrl, calls: seq<ProxyCall>, raised: bool)

  /** The constructor: IR mode, full intensity, empty name and path, no suffix computed yet. */
  function New(hasLinkam: bool): Ctrl
  {
    Ctrl(false, hasLinkam, "COMMAND_LINE MeasureSample", NoneV, NoneV, Str(""), Str(""), Bool(false),
         Int(IR), Int(100), None, None, None)
  }

  predicate WantsSuffix(c: Ctrl)
  {
    SuffixWanted(c.nam, c.addTemp, c.hasLinkam)
  }

  /**
    The name-dependent attributes PreStartOne stores: with a non-empty name the
    suffix is recomputed (and the temperature cached when a suffix is wanted);
    with an empty name both keep their previous values.
   */
  function CacheSuffix(c: Ctrl, temp: int): (r: Ctrl)
    ensures c.nam == Str("") ==> r == c
    ensures c.nam != Str("") ==> r.tempName == Some(NameSuffix(c.nam, c.addTemp, c.hasLinkam, temp))
    ensures r.linkamTemp == if WantsSuffix(c) then Some(temp) else c.linkamTemp
    ensures r == c.(tempName := r.tempName, linkamTemp := r.linkamTemp)
  {
    if c.nam != Str("") then
      if Truthy(c.addTemp) && c.hasLinkam then c.(linkamTemp := Some(temp), tempName := Some(TempSuffix(temp)))
      else c.(tempName := Some(""))
    else c
  }

  /**
    PreStartOne: cache the suffix, then render the command as the counter
    controller does, with the cached suffix after the name.
   */
  function PreStartOne(c: Ctrl, temp: int): (s: Step)
    ensures s.calls == []
    ensures s.ctrl == CacheSuffix(c, temp).(cmd := s.ctrl.cmd)
    ensures NoBraces(PyStr(c.nam)) && NoBraces(PyStr(c.pth)) ==>
      !s.raised
      && s.ctrl.cmd == MeasureCommand(PyStr(c.exp), PyStr(c.xpp),
                                      if c.nam != Str("") then Some(PyStr(c.nam) + s.ctrl.tempName.value) else None,
                                      if c.pth != Str("") then Some(PyStr(c.pth)) else None)
    ensures s.raised ==> s.ctrl.cmd == BuildTemplate(c.nam, c.pth, NameSuffix(c.nam, c.addTemp, c.hasLinkam, temp))
  {
    var c1 := CacheSuffix(c, temp);
    var suffix := NameSuffix(c.nam, c.addTemp, c.hasLinkam, temp);
    NameSuffixShape(c.nam, c.addTemp, c.hasLinkam, temp);
    RenderBraceFree(c.exp, c.xpp, c.nam, c.pth, suffix);
    match Render(c.exp, c.xpp, c.nam, c.pth, suffix)
    case None => Step(c1.(cmd := BuildTemplate(c.nam, c.pth, suffix)), [], true)
    case Some(r) => Step(c1.(cmd := r), [], false)
  }

  /** With an empty name the suffix of an earlier start survives, and the temperature is not read. */
  lemma EmptyNameKeepsSuffix(c: Ctrl, temp: int)
    requires c.nam == Str("")
    ensures PreStartOne(c, temp).ctrl.tempName == c.tempName
    ensures PreStartOne(c, temp).ctrl.linkamTemp == c.linkamTemp
  {
  }

  /** The file name of a snapshot: `take_snapshot <pth> <nam><suffix>`. */
  function SnapshotCommand(pth: Value, nam: Value, suffix: string): string
  {
    "take_snapshot " + PyStr(pth) + " " + PyStr(nam) + suffix
  }

  /**
    StartOne: mark the macro running; in IR mode run the stored command, in
    VISIBLE mode take a snapshot (reading an unset suffix raises), in any other
    mode send nothing.
   */
  function StartOne(c: Ctrl): (s: Step)
    ensures s.ctrl == c.(macroRunning := true)
    ensures EqualsInt(c.mode, IR) ==> s.calls == [RunCmd(c.cmd)] && !s.raised
    ensures EqualsInt(c.mode, VISIBLE) && c.tempName.Some? ==>
      s.calls == [RunCmd(SnapshotCommand(c.pth, c.nam, c.tempName.value))] && !s.raised
    ensures s.raised <==> EqualsInt(c.mode, VISIBLE) && c.tempName.None?
    ensures !EqualsInt(c.mode, IR) && !EqualsInt(c.mode, VISIBLE) ==> s.calls == []
  {
    var c1 := c.(macroRunning := true);
    if EqualsInt(c.mode, IR) then Step(c1, [RunCmd(c.cmd)], false)
    else if EqualsInt(c.mode, VISIBLE) then
      match c.tempName
      case None => Step(c1, [], true)
      case Some(tn) => Step(c1, [RunCmd(SnapshotCommand(c.pth, c.nam, tn))], false)
    else Step(c1, [], false)
  }

  /**
    RefOne: `file://` + join(pth, <nam><suffix>.0). Reading an unset suffix
    raises, and so does os.path.join on a path that is not a string.
   */
  function RefOne(c: Ctrl): (r: Outcome<string>)
    ensures r.Returned? <==> c.tempName.Some? && c.pth.Str?
    ensures r.Returned? ==>
      r.value == "file://" + PathJoin(c.pth.s, PyStr(c.nam) + c.tempName.value + ".0")
  {
    match c.tempName
    case None => Raised
    case Some(tn) =>
      match c.pth
      case Str(p) => Returned("file://" + PathJoin(p, PyStr(c.nam) + tn + ".0"))
      case _ => Raised
  }

  /**
    After a start with a non-empty name in VISIBLE mode, the snapshot and the
    reference name the same file: the reference is the snapshot's path joined
    with its name plus ".0", and the name carries the temperature suffix when
    one is wanted.
   */
  lemma SnapshotMatchesReference(c: Ctrl, temp: int, p: string)
    requires c.nam != Str("") && c.pth == Str(p) && EqualsInt(c.mode, VISIBLE)
    ensures var name := PyStr(c.nam) + NameSuffix(c.nam, c.addTemp, c.hasLinkam, temp);
            StartOne(PreStartOne(c, temp).ctrl).calls == [RunCmd("take_snapshot " + p + " " + name)]
            && RefOne(PreStartOne(c, temp).ctrl) == Returned("file://" + PathJoin(p, name + ".0"))
  {
    var ready := PreStartOne(c, temp).ctrl;
    var suffix := NameSuffix(c.nam, c.addTemp, c.hasLinkam, temp);
    assert ready.tempName == Some(suffix) && ready.pth == c.pth && ready.nam == c.nam && ready.mode == c.mode;
    SnapshotText(p, PyStr(c.nam), suffix);
  }

  lemma SnapshotText(p: string, n: string, suffix: string)
    ensures SnapshotCommand(Str(p), Str(n), suffix) == "take_snapshot " + p + " " + (n + suffix)
    ensures n + suffix + ".0" == (n + suffix) + ".0"
  {
  }

  /**
    StateOne: ON clears the running flag and reads On; RUNNING reads Moving,
    ALARM Fault, every other state passes through. The status is the server's.
   */
  function StateOne(c: Ctrl, server: State, status: string): (r: (Ctrl, Report))
    ensures r.1.status == status
    ensures server == On ==> r.1.state == On && !r.0.macroRunning && r.0 == c.(macroRunning := false)
    ensures server == Running ==> r.1.state == Moving && r.0 == c
    ensures server == Alarm ==> r.1.state == Fault && r.0 == c
    ensures server != On && server != Running && server != Alarm ==> r.1.state == server && r.0 == c
  {
    (if server == On then c.(macroRunning := false) else c, Report(ProjectState(server), status))
  }

  /** A started macro is finished by the first ON poll and not before. */
  lemma StartThenPoll(c: Ctrl, server: State, status: string)
    ensures StateOne(StartOne(c).ctrl, server, status).0.macroRunning <==> server != On
  {
  }

  /** ReadOne reads the server's last output but always returns None. */
  function ReadOne(c: Ctrl, server: State): (r: Option<real>)
    ensures r == None
  {
    None
  }

  /** AbortOne: ask the server to stop its macro; the record is not changed. */
  function AbortOne(c: Ctrl): (s: Step)
    ensures s.ctrl == c && s.calls == [StopMacro] && !s.raised
  {
    Step(c, [StopMacro], false)
  }

  // ---------------------------------------------------------------------------
  // Motor 56: the mirror that selects the IR or visible path, and the lamp

  /** A synchronous SendCommand that sets motor 56 to the given value. */
  function Mot56(value: string): string
  {
    "COMMAND_LINE SendCommand(0,+{UNI='MOT56=" + value + "'});"
  }

  /** The lamp command for an intensity: motor 56 at 100 + intensity; a TypeError when it is not a number. */
  function LampCommand(intensity: Value): (r: Outcome<ProxyCall>)
    ensures r.Returned? <==> intensity.Int? || intensity.Bool?
    ensures intensity.Int? ==> r == Returned(RunCmdSync(Mot56(IntToString(100 + intensity.i))))
    ensures intensity.Bool? ==> r == Returned(RunCmdSync(Mot56(IntToString(if intensity.b then 101 else 100))))
  {
    match AddInt(100, intensity)
    case Raised => Raised
    case Returned(n) => Returned(RunCmdSync(Mot56(IntToString(n))))
  }

  // ---------------------------------------------------------------------------
  // Parameters

  datatype Param =
    Ds | OpusCmd | OpusXpp | OpusExp | OpusPth | OpusNam | AddTemp2Filename | OpusMode | OpusCamIntensity

  function ParamName(p: Param): string
  {
    match p
    case Ds => "ds"
    case OpusCmd => "opus_cmd"
    case OpusXpp => "opus_xpp"
    case OpusExp => "opus_exp"
    case OpusPth => "opus_pth"
    case OpusNam => "opus_nam"
    case AddTemp2Filename => "add_temp2filename"
    case OpusMode => "opus_mode"
    case OpusCamIntensity => "opus_cam_intensity"
  }

  /** The parameter a name selects: the lower-cased name is compared with each parameter's name in turn. */
  function ParamOf(name: string): (r: Option<Param>)
    ensures r.Some? ==> Lower(name) == ParamName(r.value)
  {
    var key := Lower(name);
    if key == "ds" then Some(Ds)
    else if key == "opus_cmd" then Some(OpusCmd)
    else if key == "opus_xpp" then Some(OpusXpp)
    else if key == "opus_exp" then Some(OpusExp)
    else if key == "opus_pth" then Some(OpusPth)
    else if key == "opus_nam" then Some(OpusNam)
    else if key == "add_temp2filename" then Some(AddTemp2Filename)
    else if key == "opus_mode" then Some(OpusMode)
    else if key == "opus_cam_intensity" then Some(OpusCamIntensity)
    else None
  }

  /** Every parameter is selected by its own name. */
  lemma ParamOfName(p: Param)
    ensures ParamOf(ParamName(p)) == Some(p)
  {
    LowerKeyMatchesItself(ParamName(p));
  }

  function GetAxisExtraPar(c: Ctrl, name: string): (r: Outcome<Value>)
    ensures ParamOf(name).None? ==> r == Returned(NoneV)
    ensures r.Raised? <==> ParamOf(name) == Some(Ds) && c.ds.None?
    ensures ParamOf(name) == Some(OpusCmd) ==> r == Returned(Str(c.cmd))
  {
    Get(c, ParamOf(name))
  }

  /** A name that selects no parameter reads as None; ds raises until it is set. */
  function Get(c: Ctrl, p: Option<Param>): Outcome<Value>
  {
    match p
    case None => Returned(NoneV)
    case Some(Ds) => if c.ds.Some? then Returned(c.ds.value) else Raised
    case Some(OpusCmd) => Returned(Str(c.cmd))
    case Some(OpusXpp) => Returned(c.xpp)
    case Some(OpusExp) => Returned(c.exp)
    case Some(OpusPth) => Returned(c.pth)
    case Some(OpusNam) => Returned(c.nam)
    case Some(AddTemp2Filename) => Returned(c.addTemp)
    case Some(OpusMode) => Returned(c.mode)
    case Some(OpusCamIntensity) => Returned(c.intensity)
  }

  function SetAxisExtraPar(c: Ctrl, name: string, v: Value): (s: Step)
    ensures ParamOf(name).None? || ParamOf(name) == Some(OpusCmd) ==> s == Step(c, [], false)
    ensures ParamOf(name).Some? && ParamOf(name) != Some(OpusCmd) ==> Get(s.ctrl, ParamOf(name)) == Returned(v)
    ensures s.ctrl.macroRunning == c.macroRunning
  {
    var p := ParamOf(name);
    if p.Some? && p != Some(OpusCmd) then
      SetGetSame(c, p.value, v);
      Set(c, p, v)
    else Set(c, p, v)
  }

  /** The record after storing a parameter, before any motor command is sent. */
  function Store(c: Ctrl, p: Option<Param>, v: Value): Ctrl
  {
    match p
    case None => c
    case Some(Ds) => c.(ds := Some(v))
    case Some(OpusCmd) => c
    case Some(OpusXpp) => c.(xpp := v)
    case Some(OpusExp) => c.(exp := v)
    case Some(OpusPth) => c.(pth := v)
    case Some(OpusNam) => c.(nam := v)
    case Some(AddTemp2Filename) => c.(addTemp := v)
    case Some(OpusMode) => c.(mode := v)
    case Some(OpusCamIntensity) => c.(intensity := v)
  }

  /**
    Setting a parameter. opus_cmd is read-only and falls with the unknown names
    that change nothing. The mode is stored first and then: IR moves motor 56
    to 1; VISIBLE moves it to 2 and sets the lamp from the stored intensity. The
    intensity is stored first and its lamp value computed (raising for a value
    that is not a number); the lamp command is sent only in VISIBLE mode.
   */
  function Set(c: Ctrl, p: Option<Param>, v: Value): (s: Step)
    ensures s.ctrl == Store(c, p, v)
    ensures s.raised <==> (p == Some(OpusMode) && EqualsInt(v, VISIBLE) && LampCommand(c.intensity).Raised?)
                          || (p == Some(OpusCamIntensity) && LampCommand(v).Raised?)
    ensures p != Some(OpusMode) && p != Some(OpusCamIntensity) ==> s.calls == []
    ensures |s.calls| <= 2
  {
    var c1 := Store(c, p, v);
    if p == Some(OpusMode) then
      if EqualsInt(v, IR) then Step(c1, [RunCmdSync(Mot56("1"))], false)
      else if EqualsInt(v, VISIBLE) then
        var mirror := RunCmdSync(Mot56("2"));
        match LampCommand(c.intensity)
        case Raised => Step(c1, [mirror], true)
        case Returned(lamp) => Step(c1, [mirror, lamp], false)
      else Step(c1, [], false)
    else if p == Some(OpusCamIntensity) then
      match LampCommand(v)
      case Raised => Step(c1, [], true)
      case Returned(lamp) => Step(c1, if EqualsInt(c.mode, VISIBLE) then [lamp] else [], false)
    else Step(c1, [], false)
  }

  /**
    A value set under the name of a writable parameter is read back under any
    spelling of that name, whether or not a motor command raised after storing it.
   */
  lemma ParameterRoundTrip(c: Ctrl, setName: string, getName: string, v: Value)
    requires ParamOf(setName).Some? && ParamOf(setName) != Some(OpusCmd)
    requires Lower(getName) == Lower(setName)
    ensures GetAxisExtraPar(SetAxisExtraPar(c, setName, v).ctrl, getName) == Returned(v)
    ensures SetAxisExtraPar(c, setName, v).ctrl.macroRunning == c.macroRunning
  {
    assert ParamOf(getName) == ParamOf(setName);
    SetGetSame(c, ParamOf(setName).value, v);
  }

  lemma SetGetSame(c: Ctrl, p: Param, v: Value)
    requires p != OpusCmd
    ensures Get(Store(c, Some(p), v), Some(p)) == Returned(v)
    ensures Store(c, Some(p), v).macroRunning == c.macroRunning
  {
  }

  /** Setting one parameter leaves the parameter under every other name as it was. */
  lemma ParameterIndependent(c: Ctrl, setName: string, getName: string, v: Value)
    requires Lower(getName) != Lower(setName)
    ensures GetAxisExtraPar(SetAxisExtraPar(c, setName, v).ctrl, getName) == GetAxisExtraPar(c, getName)
  {
    var ps, pg := ParamOf(setName), ParamOf(getName);
    assert ps.Some? && pg.Some? ==> ps.value != pg.value;
    SetGetOther(c, ps, pg, v);
  }

  lemma SetGetOther(c: Ctrl, ps: Option<Param>, pg: Option<Param>, v: Value)
    requires ps.Some? && pg.Some? ==> ps.value != pg.value
    ensures Get(Store(c, ps, v), pg) == Get(c, pg)
  {
    if ps.Some? {
      var c1 := Store(c, ps, v);
      match ps.value
      case Ds => assert c1 == c.(ds := Some(v));
      case OpusCmd => assert c1 == c;
      case OpusXpp => assert c1 == c.(xpp := v);
      case OpusExp => assert c1 == c.(exp := v);
      case OpusPth => assert c1 == c.(pth := v);
      case OpusNam => assert c1 == c.(nam := v);
      case AddTemp2Filename => assert c1 == c.(addTemp := v);
      case OpusMode => assert c1 == c.(mode := v);
      case OpusCamIntensity => assert c1 == c.(intensity := v);
    }
  }

  /** A name that selects no parameter, or opus_cmd, changes nothing and sends nothing. */
  lemma ReadOnlyOrUnknown(c: Ctrl, name: string, v: Value)
    requires ParamOf(name).None? || ParamOf(name) == Some(OpusCmd)
    ensures SetAxisExtraPar(c, name, v) == Step(c, [], false)
  {
  }

  /**
    Selecting a mode: IR sends exactly MOT56=1; VISIBLE sends MOT56=2 and then
    MOT56=<100 + intensity>; any other value sends nothing.
   */
  lemma SelectMode(c: Ctrl, name: string, v: Value)
    requires ParamOf(name) == Some(OpusMode)
    ensures EqualsInt(v, IR) ==>
      SetAxisExtraPar(c, name, v)
      == Step(c.(mode := v), [RunCmdSync("COMMAND_LINE SendCommand(0,+{UNI='MOT56=1'});")], false)
    ensures EqualsInt(v, VISIBLE) && LampCommand(c.intensity).Returned? ==>
      SetAxisExtraPar(c, name, v)
      == Step(c.(mode := v), [RunCmdSync("COMMAND_LINE SendCommand(0,+{UNI='MOT56=2'});"), LampCommand(c.intensity).value], false)
    ensures EqualsInt(v, VISIBLE) && c.intensity.Int? ==>
      SetAxisExtraPar(c, name, v).calls
      == [RunCmdSync("COMMAND_LINE SendCommand(0,+{UNI='MOT56=2'});"), RunCmdSync(Mot56(IntToString(100 + c.intensity.i)))]
    ensures EqualsInt(v, VISIBLE) && LampCommand(c.intensity).Raised? ==>
      SetAxisExtraPar(c, name, v)
      == Step(c.(mode := v), [RunCmdSync("COMMAND_LINE SendCommand(0,+{UNI='MOT56=2'});")], true)
    ensures !EqualsInt(v, IR) && !EqualsInt(v, VISIBLE) ==> SetAxisExtraPar(c, name, v) == Step(c.(mode := v), [], false)
  {
    assert Mot56("1") == "COMMAND_LINE SendCommand(0,+{UNI='MOT56=1'});";
    assert Mot56("2") == "COMMAND_LINE SendCommand(0,+{UNI='MOT56=2'});";
  }

  /** Changing the intensity drives the lamp only in VISIBLE mode. */
  lemma SetIntensity(c: Ctrl, name: string, i: int)
    requires ParamOf(name) == Some(OpusCamIntensity)
    ensures SetAxisExtraPar(c, name, Int(i)).calls
         == if EqualsInt(c.mode, VISIBLE) then [RunCmdSync(Mot56(IntToString(100 + i)))] else []
    ensures !SetAxisExtraPar(c, name, Int(i)).raised
  {
  }

  /** An intensity that is not a number is stored, sends nothing, and raises. */
  lemma IntensityNotANumber(c: Ctrl, name: string, s: string)
    requires ParamOf(name) == Some(OpusCamIntensity)
    ensures SetAxisExtraPar(c, name, Str(s)) == Step(c.(intensity := Str(s)), [], true)
  {
  }

  /** The lamp set by switching to VISIBLE uses the intensity stored before. */
  lemma IntensityThenVisible(c: Ctrl, i: int)
    ensures var lit := Set(c, Some(OpusCamIntensity), Int(i)).ctrl;
            Set(lit, Some(OpusMode), Int(VISIBLE)).calls
            == [RunCmdSync(Mot56("2")), RunCmdSync(Mot56(IntToString(100 + i)))]
  {
  }

  /**
    Whatever is set, a motor command goes out only when the mode stored
    afterwards is IR or VISIBLE, and a lamp command only when it is VISIBLE.
   */
  lemma MotorCommandsFollowMode(c: Ctrl, name: string, v: Value)
    ensures var s := SetAxisExtraPar(c, name, v);
            (s.calls != [] ==> EqualsInt(s.ctrl.mode, IR) || EqualsInt(s.ctrl.mode, VISIBLE))
            && (forall k :: 0 <= k < |s.calls| && s.calls[k] != RunCmdSync(Mot56("1")) && s.calls[k] != RunCmdSync(Mot56("2"))
                  ==> EqualsInt(s.ctrl.mode, VISIBLE))
  {
    var p := ParamOf(name);
    var s := SetAxisExtraPar(c, name, v);
    assert s == Set(c, p, v);
    var c1 := Store(c, p, v);
    if p == Some(OpusMode) {
      assert c1.mode == v;
      if EqualsInt(v, IR) {
        assert s == Step(c1, [RunCmdSync(Mot56("1"))], false);
      } else if EqualsInt(v, VISIBLE) {
        match LampCommand(c.intensity)
        case Raised =>
          assert s == Step(c1, [RunCmdSync(Mot56("2"))], true);
        case Returned(lamp) =>
          assert s == Step(c1, [RunCmdSync(Mot56("2")), lamp], false);
      } else {
        assert s == Step(c1, [], false);
      }
    } else if p == Some(OpusCamIntensity) {
      assert c1.mode == c.mode;
      match LampCommand(v)
      case Raised =>
        assert s == Step(c1, [], true);
      case Returned(lamp) =>
        assert s == Step(c1, if EqualsInt(c.mode, VISIBLE) then [lamp] else [], false);
    } else {
      assert s.calls == [];
    }
  }
}
