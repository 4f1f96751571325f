/**
  The motor controller for the sample stage of the OPUS instrument
  (sardana_opus/ctrl/OpusStageMotorCtrl.py).

  Each axis keeps a small dictionary of motion parameters and the stage's
  name for it (x, y or z). Positions, status and moves go through the OPUS
  server's serial pass-through, `send_serial_cmd <instruction> <axis name>`.
  The server's state and answers are inputs.
 */
module StageMotorCtrl {
  import opened Outcomes
  import opened Text
  import opened PyValues
  import opened Tango

  /** One axis's dictionary. Deceleration is absent until it is first set. */
  datatype Axis = Axis(
    stepPerUnit: real,
    baseRate: real,
    acceleration: real,
    velocity: real,
    deceleration: Option<real>,
    axisName: Option<Value>)

  /**
    The per-axis dictionaries. DeleteDevice stores None under the axis, so an
    axis can be absent (never added) or present and deleted; using either raises.
   */
  datatype Ctrl = Ctrl(axes: map<int, Option<Axis>>)

  /** A parameter read: a number, or the stored axis name. */
  datatype Reading = Number(x: real) | Name(v: Value)

  /** A position: a number, or float('INF') when the read failed. */
  datatype Pos = Finite(x: real) | Inf

  /** The record of an axis that is added and not deleted. */
  function Record(c: Ctrl, axis: int): Option<Axis>
  {
    if axis in c.axes then c.axes[axis] else None
  }

  /** The stage name of a live axis with its name set. */
  function StageName(c: Ctrl, axis: int): Option<Value>
  {
    match Record(c, axis)
    case None => None
    case Some(a) => a.axisName
  }

  const DefaultAxis: Axis := Axis(1.0, 0.0, 0.0, 1.0, None, None)

  /** AddDevice: a fresh dictionary with unit steps, velocity 1 and no name; other axes untouched. */
  function AddDevice(c: Ctrl, axis: int): (r: Ctrl)
    ensures Record(r, axis) == Some(DefaultAxis)
    ensures forall b :: b != axis ==> Record(r, b) == Record(c, b)
  {
    Ctrl(c.axes[axis := Some(DefaultAxis)])
  }

  /** DeleteDevice: the axis's dictionary is replaced by None; other axes untouched. */
  function DeleteDevice(c: Ctrl, axis: int): (r: Ctrl)
    ensures Record(r, axis) == None
    ensures forall b :: b != axis ==> Record(r, b) == Record(c, b)
  {
    Ctrl(c.axes[axis := None])
  }

  /**
    The answer to `?statusaxis`, classified in the source's order: a moving
    axis ('M') wins over every error letter; an error ('E'), a timeout ('T')
    or a missing axis ('-') is a fault; anything else is ready.
   */
  function Classify(ans: string): (r: State)
    ensures r == Moving <==> 'M' in ans
    ensures r == Fault <==> 'M' !in ans && ('E' in ans || 'T' in ans || '-' in ans)
    ensures r == On <==> 'M' !in ans && 'E' !in ans && 'T' !in ans && '-' !in ans
  {
    if 'M' in ans then Moving
    else if 'E' in ans then Fault
    else if 'T' in ans then Fault
    else if '-' in ans then Fault
    else On
  }

  /** The calls made by StateOne and its report, or a raise. */
  datatype Poll = Poll(calls: seq<ProxyCall>, report: Outcome<Report>)

  function StatusCommand(name: Value): string
  {
    "send_serial_cmd ?statusaxis " + PyStr(name)
  }

  /**
    StateOne: only an ON server is asked for the axis status. The command is
    built from the axis name before the guarded call, so an unknown axis or an
    unset name raises; a failed call (`answer` None) reads as Fault. RUNNING
    reads Moving, ALARM Fault, other states pass through; the status text is
    the server's.
   */
  function StateOne(c: Ctrl, axis: int, server: State, answer: Option<string>, status: string): (p: Poll)
    ensures server != On ==> p == Poll([], Returned(Report(ProjectState(server), status)))
    ensures server == On && StageName(c, axis).None? ==> p == Poll([], Raised)
    ensures server == On && StageName(c, axis).Some? ==>
      p.calls == [RunCmdSync("send_serial_cmd ?statusaxis " + PyStr(StageName(c, axis).value))]
      && p.report == Returned(Report(if answer.Some? then Classify(answer.value) else Fault, status))
  {
    if server == On then
      match StageName(c, axis)
      case None => Poll([], Raised)
      case Some(name) =>
        var state := match answer
                     case None => Fault
                     case Some(ans) => Classify(ans);
        Poll([RunCmdSync(StatusCommand(name))], Returned(Report(state, status)))
    else Poll([], Returned(Report(ProjectState(server), status)))
  }

  /** A moving axis is reported Moving whatever other letters its status carries. */
  lemma MovingWins(c: Ctrl, axis: int, ans: string, status: string)
    requires StageName(c, axis).Some? && 'M' in ans
    ensures StateOne(c, axis, On, Some(ans), status).report == Returned(Report(Moving, status))
  {
  }

  /** Every report StateOne makes from an ON server is On, Moving or Fault. */
  lemma OnServerReports(c: Ctrl, axis: int, answer: Option<string>, status: string)
    ensures var p := StateOne(c, axis, On, answer, status);
            p.report.Returned? ==> p.report.value.state in {On, Moving, Fault}
  {
    if StageName(c, axis).Some? && answer.Some? {
      var st := Classify(answer.value);
      assert st == On || st == Moving || st == Fault;
    }
  }

  /**
    ReadOne, once the server is ON (the wait for it is not modelled): ask
    `?pos <name>` and return float(answer). `answer` is that conversion, None
    when the call or the conversion fails. Every failure, an unknown axis or
    an unset name included, reads as INF.
   */
  function ReadOne(c: Ctrl, axis: int, answer: Option<real>): (r: (seq<ProxyCall>, Pos))
    ensures StageName(c, axis).None? ==> r == ([], Inf)
    ensures StageName(c, axis).Some? ==>
      r.0 == [RunCmdSync("send_serial_cmd ?pos " + PyStr(StageName(c, axis).value))]
    ensures r.1.Finite? <==> StageName(c, axis).Some? && answer.Some?
    ensures r.1.Finite? ==> r.1.x == answer.value
  {
    match StageName(c, axis)
    case None => ([], Inf)
    case Some(name) =>
      ([RunCmdSync("send_serial_cmd ?pos " + PyStr(name))], if answer.Some? then Finite(answer.value) else Inf)
  }

  /**
    StartOne: `send_serial_cmd !go <name> <position>`, `position` being the
    text str() gives for the target. An unknown axis or unset name raises.
   */
  function StartOne(c: Ctrl, axis: int, position: string): (r: Outcome<ProxyCall>)
    ensures r.Returned? <==> StageName(c, axis).Some?
    ensures r.Returned? ==> r.value == RunCmdSync("send_serial_cmd !go " + PyStr(StageName(c, axis).value) + " " + position)
  {
    match StageName(c, axis)
    case None => Raised
    case Some(name) => Returned(RunCmdSync("send_serial_cmd !go " + PyStr(name) + " " + position))
  }

  /** StopOne: `send_serial_cmd ?abort <name>`; an unknown axis or unset name raises. */
  function StopOne(c: Ctrl, axis: int): (r: Outcome<ProxyCall>)
    ensures r.Returned? <==> StageName(c, axis).Some?
    ensures r.Returned? ==> r.value == RunCmdSync("send_serial_cmd ?abort " + PyStr(StageName(c, axis).value))
  {
    match StageName(c, axis)
    case None => Raised
    case Some(name) => Returned(RunCmdSync("send_serial_cmd ?abort " + PyStr(name)))
  }

  /** Start and stop address the same stage axis, the one status and position queries name. */
  lemma CommandsShareAxisName(c: Ctrl, axis: int, position: string, n: string)
    requires StageName(c, axis) == Some(Str(n))
    ensures StartOne(c, axis, position) == Returned(RunCmdSync("send_serial_cmd !go " + n + " " + position))
    ensures StopOne(c, axis) == Returned(RunCmdSync("send_serial_cmd ?abort " + n))
    ensures StateOne(c, axis, On, None, "").calls == [RunCmdSync("send_serial_cmd ?statusaxis " + n)]
    ensures ReadOne(c, axis, None).0 == [RunCmdSync("send_serial_cmd ?pos " + n)]
  {
  }

  // ---------------------------------------------------------------------------
  // Parameters

  datatype Param = Velocity | Acceleration | Deceleration | StepPerUnit | BaseRate | AxisName

  function ParamName(p: Param): string
  {
    match p
    case Velocity => "velocity"
    case Acceleration => "acceleration"
    case Deceleration => "deceleration"
    case StepPerUnit => "step_per_unit"
    case BaseRate => "base_rate"
    case AxisName => "axis_name"
  }

  /** The parameter a name selects: the lower-cased name is compared with each parameter's name in turn. */
  function ParamOf(name: string): (r: Option<Param>)
    ensures r.Some? ==> Lower(name) == ParamName(r.value)
  {
    var key := Lower(name);
    if key == "velocity" then Some(Velocity)
    else if key == "acceleration" then Some(Acceleration)
    else if key == "deceleration" then Some(Deceleration)
    else if key == "step_per_unit" then Some(StepPerUnit)
    else if key == "base_rate" then Some(BaseRate)
    else if key == "axis_name" then Some(AxisName)
    else None
  }

  /** Every parameter is selected by its own name. */
  lemma ParamOfName(p: Param)
    ensures ParamOf(ParamName(p)) == Some(p)
  {
    LowerKeyMatchesItself(ParamName(p));
  }

  /**
    SetAxisExtraPar. The numeric parameters store float(value); `asFloat` is
    that conversion, None when it raises. axis_name stores the value itself.
    A known name on an axis that is not live raises; an unknown name is
    ignored without touching the axis.
   */
  function SetAxisExtraPar(c: Ctrl, axis: int, name: string, v: Value, asFloat: Option<real>): (r: Outcome<Ctrl>)
    ensures ParamOf(name).None? ==> r == Returned(c)
    ensures ParamOf(name).Some? && Record(c, axis).None? ==> r.Raised?
    ensures r.Returned? ==> forall b :: b != axis ==> Record(r.value, b) == Record(c, b)
  {
    match ParamOf(name)
    case None => Returned(c)
    case Some(p) =>
      match Record(c, axis)
      case None => Raised
      case Some(a) =>
        match Store(a, p, v, asFloat)
        case Raised => Raised
        case Returned(a1) => Returned(Ctrl(c.axes[axis := Some(a1)]))
  }

  /** Storing one parameter in an axis dictionary. */
  function Store(a: Axis, p: Param, v: Value, asFloat: Option<real>): Outcome<Axis>
  {
    if p == AxisName then Returned(a.(axisName := Some(v)))
    else match asFloat
      case None => Raised
      case Some(x) =>
        Returned(match p
          case Velocity => a.(velocity := x)
          case Acceleration => a.(acceleration := x)
          case Deceleration => a.(deceleration := Some(x))
          case StepPerUnit => a.(stepPerUnit := x)
          case BaseRate => a.(baseRate := x)
          case AxisName => a)
  }

  /**
    GetAxisExtraPar. Velocity is reported per unit (stored velocity divided by
    steps per unit, raising on zero steps); acceleration and deceleration both
    report the stored acceleration; an unset axis name raises; an unknown name
    raises, the result variable never being bound.
   */
  function GetAxisExtraPar(c: Ctrl, axis: int, name: string): (r: Outcome<Reading>)
    ensures ParamOf(name).None? || Record(c, axis).None? ==> r.Raised?
    ensures (ParamOf(name) == Some(Acceleration) || ParamOf(name) == Some(Deceleration)) && Record(c, axis).Some?
            ==> r == Returned(Number(Record(c, axis).value.acceleration))
    ensures ParamOf(name) == Some(Velocity) && Record(c, axis).Some?
            ==> (r.Raised? <==> Record(c, axis).value.stepPerUnit == 0.0)
  {
    match ParamOf(name)
    case None => Raised
    case Some(p) =>
      match Record(c, axis)
      case None => Raised
      case Some(a) => Fetch(a, p)
  }

  function Fetch(a: Axis, p: Param): Outcome<Reading>
  {
    match p
    case Velocity => if a.stepPerUnit == 0.0 then Raised else Returned(Number(a.velocity / a.stepPerUnit))
    case Acceleration => Returned(Number(a.acceleration))
    case Deceleration => Returned(Number(a.acceleration))
    case StepPerUnit => Returned(Number(a.stepPerUnit))
    case BaseRate => Returned(Number(a.baseRate))
    case AxisName => if a.axisName.Some? then Returned(Name(a.axisName.value)) else Raised
  }

  /** A freshly added axis reads velocity 1, unit steps, zero base rate and acceleration, and has no name yet. */
  lemma AddDeviceDefaults(c: Ctrl, axis: int)
    ensures var d := AddDevice(c, axis);
            GetAxisExtraPar(d, axis, "velocity") == Returned(Number(1.0))
            && GetAxisExtraPar(d, axis, "step_per_unit") == Returned(Number(1.0))
            && GetAxisExtraPar(d, axis, "base_rate") == Returned(Number(0.0))
            && GetAxisExtraPar(d, axis, "acceleration") == Returned(Number(0.0))
            && GetAxisExtraPar(d, axis, "axis_name").Raised?
            && StartOne(d, axis, "0").Raised?
  {
    ParamOfName(Velocity);
    ParamOfName(StepPerUnit);
    ParamOfName(BaseRate);
    ParamOfName(Acceleration);
    ParamOfName(AxisName);
  }

  /** Steps per unit, base rate and acceleration read back as set, under any spelling of the name. */
  lemma NumberRoundTrip(c: Ctrl, axis: int, setName: string, getName: string, v: Value, x: real)
    requires ParamOf(setName) in {Some(StepPerUnit), Some(BaseRate), Some(Acceleration)}
    requires Lower(getName) == Lower(setName)
    requires Record(c, axis).Some?
    ensures SetAxisExtraPar(c, axis, setName, v, Some(x)).Returned?
    ensures GetAxisExtraPar(SetAxisExtraPar(c, axis, setName, v, Some(x)).value, axis, getName) == Returned(Number(x))
  {
    assert ParamOf(getName) == ParamOf(setName);
  }

  /** The axis name reads back as the value stored, and the motion commands then use it. */
  lemma AxisNameRoundTrip(c: Ctrl, axis: int, setName: string, v: Value, asFloat: Option<real>)
    requires ParamOf(setName) == Some(AxisName) && Record(c, axis).Some?
    ensures SetAxisExtraPar(c, axis, setName, v, asFloat).Returned?
    ensures var d := SetAxisExtraPar(c, axis, setName, v, asFloat).value;
            GetAxisExtraPar(d, axis, setName) == Returned(Name(v))
            && StopOne(d, axis) == Returned(RunCmdSync("send_serial_cmd ?abort " + PyStr(v)))
  {
  }

  /** Velocity is stored per step and read per unit: with steps per unit s it reads back divided by s. */
  lemma VelocityPerUnit(c: Ctrl, axis: int, setName: string, v: Value, x: real)
    requires ParamOf(setName) == Some(Velocity) && Record(c, axis).Some?
    ensures SetAxisExtraPar(c, axis, setName, v, Some(x)).Returned?
    ensures var d := SetAxisExtraPar(c, axis, setName, v, Some(x)).value;
            var s := Record(c, axis).value.stepPerUnit;
            GetAxisExtraPar(d, axis, setName) == if s == 0.0 then Raised else Returned(Number(x / s))
  {
  }

  /** With the default unit steps the velocity reads back as set. */
  lemma VelocityRoundTripAtUnitStep(c: Ctrl, axis: int, v: Value, x: real)
    ensures var d := AddDevice(c, axis);
            GetAxisExtraPar(SetAxisExtraPar(d, axis, "velocity", v, Some(x)).value, axis, "velocity")
            == Returned(Number(x))
  {
    ParamOfName(Velocity);
    VelocityPerUnit(AddDevice(c, axis), axis, "velocity", v, x);
  }

  /** Setting the deceleration is stored but not read back: the reading is the acceleration. */
  lemma DecelerationReadsAcceleration(c: Ctrl, axis: int, setName: string, v: Value, x: real)
    requires ParamOf(setName) == Some(Deceleration) && Record(c, axis).Some?
    ensures SetAxisExtraPar(c, axis, setName, v, Some(x)).Returned?
    ensures var d := SetAxisExtraPar(c, axis, setName, v, Some(x)).value;
            Record(d, axis).value.deceleration == Some(x)
            && GetAxisExtraPar(d, axis, setName) == Returned(Number(Record(c, axis).value.acceleration))
  {
  }

  /** A numeric parameter whose value float() rejects raises and stores nothing. */
  lemma NotANumber(c: Ctrl, axis: int, name: string, v: Value)
    requires ParamOf(name).Some? && ParamOf(name) != Some(AxisName)
    ensures SetAxisExtraPar(c, axis, name, v, None).Raised?
  {
  }

  /** An unknown name is ignored by SetAxisExtraPar, even for an axis that is not live, and raises on read. */
  lemma UnknownParameter(c: Ctrl, axis: int, name: string, v: Value, asFloat: Option<real>)
    requires ParamOf(name).None?
    ensures SetAxisExtraPar(c, axis, name, v, asFloat) == Returned(c)
    ensures GetAxisExtraPar(c, axis, name).Raised?
  {
  }

  /** After DeleteDevice every parameter access and motion command on the axis raises. */
  lemma DeletedAxisRaises(c: Ctrl, axis: int, name: string, v: Value, asFloat: Option<real>, position: string)
    ensures var d := DeleteDevice(c, axis);
            GetAxisExtraPar(d, axis, name).Raised?
            && (ParamOf(name).Some? ==> SetAxisExtraPar(d, axis, name, v, asFloat).Raised?)
            && StartOne(d, axis, position).Raised? && StopOne(d, axis).Raised?
            && StateOne(d, axis, On, None, "").report.Raised?
            && ReadOne(d, axis, None).1 == Inf
  {
  }
}
