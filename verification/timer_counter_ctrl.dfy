/**
  The counter/timer controller that reports a measurement as running for its
  integration time and reads the count from a file (sardana_opus/ctrl/OPUSCtrl.py).

  The clock is an input: every hook that reads time.time() takes `now`.
 */
module TimerCounterCtrl {
  import opened Outcomes
  import opened Text
  import opened PyValues
  import opened Tango

  datatype Ctrl = Ctrl(
    /** The integration time LoadOne stored; None after AbortOne. */
    integTime: Option<real>,
    startTime: real,
    file: Value)

  /** Python's truth value of the integration time: None and 0.0 are false. */
  predicate Integrating(c: Ctrl)
  {
    c.integTime.Some? && c.integTime.value != 0.0
  }

  /**
    StateOne: Moving ("Acquiring") while the integration time is set and has
    not yet elapsed since the start; On ("On") otherwise.
   */
  function StateOne(c: Ctrl, now: real): (r: Report)
    ensures r.state == Moving || r.state == On
    ensures r.status == (if r.state == Moving then "Acquiring" else "On")
    ensures !Integrating(c) ==> r.state == On
    ensures Integrating(c) ==> (r.state == Moving <==> now < c.startTime + c.integTime.value)
  {
    if Integrating(c) && now - c.startTime < c.integTime.value then Report(Moving, "Acquiring")
    else Report(On, "On")
  }

  /** StartAll: the acquisition starts now; with a positive integration time it reads Moving at once. */
  function StartAll(c: Ctrl, now: real): (r: Ctrl)
    ensures r.integTime == c.integTime && r.file == c.file
    ensures Integrating(c) && c.integTime.value > 0.0 ==> StateOne(r, now).state == Moving
  {
    c.(startTime := now)
  }

  /** LoadOne: store the integration time; any non-zero time makes the controller integrate. */
  function LoadOne(c: Ctrl, v: real): (r: Ctrl)
    ensures r.startTime == c.startTime && r.file == c.file
    ensures Integrating(r) <==> v != 0.0
  {
    c.(integTime := Some(v))
  }

  /** AbortOne: forget the integration time, so nothing is being integrated any more. */
  function AbortOne(c: Ctrl): (r: Ctrl)
    ensures r.startTime == c.startTime && r.file == c.file
    ensures !Integrating(r)
  {
    c.(integTime := None)
  }

  /** After an abort the controller reads On, whenever it is asked. */
  lemma AbortedIsOn(c: Ctrl, now: real)
    ensures StateOne(AbortOne(c), now) == Report(On, "On")
  {
  }

  /**
    After a start at t with integration time v > 0 the controller reads
    Moving until t + v and On from then on.
   */
  lemma AcquisitionWindow(c: Ctrl, t: real, v: real, now: real)
    requires v > 0.0
    ensures StateOne(LoadOne(StartAll(c, t), v), now).state == (if now < t + v then Moving else On)
    ensures StateOne(StartAll(LoadOne(c, v), t), now) == StateOne(LoadOne(StartAll(c, t), v), now)
  {
  }

  /** A zero integration time reads On at once. */
  lemma ZeroTimeIsOn(c: Ctrl, t: real, now: real)
    ensures StateOne(LoadOne(StartAll(c, t), 0.0), now) == Report(On, "On")
  {
  }

  /** A negative integration time never reads Moving once the start has passed. */
  lemma NegativeTimeIsOn(c: Ctrl, t: real, v: real, now: real)
    requires v < 0.0 && now >= t
    ensures StateOne(LoadOne(StartAll(c, t), v), now) == Report(On, "On")
  {
  }

  /** The state depends only on the time since the start: shifting both by the same amount changes nothing. */
  lemma StateIsShiftInvariant(c: Ctrl, t: real, now: real, shift: real)
    ensures StateOne(StartAll(c, t + shift), now + shift) == StateOne(StartAll(c, t), now)
  {
  }

  // ---------------------------------------------------------------------------
  // Construction

  /**
    The constructor as written: integration time and start time both take the
    clock's reading t0, and the file is None.
   */
  function NewAsWritten(t0: real): Ctrl
  {
    Ctrl(Some(t0), t0, NoneV)
  }

  /**
    With the integration time set to the clock reading, a controller built at
    t0 > 0 reads Moving until 2 * t0: for a clock counting seconds since 1970
    that is decades after construction.
   */
  lemma FreshControllerReadsMoving(t0: real, now: real)
    requires t0 > 0.0 && t0 <= now < 2.0 * t0
    ensures StateOne(NewAsWritten(t0), now) == Report(Moving, "Acquiring")
  {
  }

  /**
    The constructor with the start time taken from the clock and no
    integration time loaded.
   */
  function New(t0: real): Ctrl
  {
    Ctrl(None, t0, NoneV)
  }

  /** A fresh controller reads On until an integration time is loaded, and loading then starting works as before. */
  lemma FreshControllerReadsOn(t0: real, now: real, t: real, v: real)
    requires v > 0.0
    ensures StateOne(New(t0), now) == Report(On, "On")
    ensures StateOne(LoadOne(StartAll(New(t0), t), v), now).state == (if now < t + v then Moving else On)
    ensures StateOne(LoadOne(StartAll(New(t0), t), v), now) == StateOne(LoadOne(StartAll(NewAsWritten(t0), t), v), now)
  {
  }

  // ---------------------------------------------------------------------------
  // Parameters

  /** GetAxisExtraPar: "file" in any case reads the stored file; any other name reads None. */
  function GetAxisExtraPar(c: Ctrl, name: string): (r: Value)
    ensures NameIs(name, "file") ==> r == c.file
    ensures !NameIs(name, "file") ==> r == NoneV
  {
    if Lower(name) == "file" then c.file else NoneV
  }

  /** SetAxisExtraPar: "file" in any case stores the value; any other name changes nothing. */
  function SetAxisExtraPar(c: Ctrl, name: string, v: Value): (r: Ctrl)
    ensures r.integTime == c.integTime && r.startTime == c.startTime
    ensures r.file == (if NameIs(name, "file") then v else c.file)
  {
    if Lower(name) == "file" then c.(file := v) else c
  }

  /** The file reads back as set under any spelling, and setting it leaves the timing alone. */
  lemma FileRoundTrip(c: Ctrl, setName: string, getName: string, v: Value, now: real)
    requires Lower(setName) == "file" && Lower(getName) == "file"
    ensures GetAxisExtraPar(SetAxisExtraPar(c, setName, v), getName) == v
    ensures StateOne(SetAxisExtraPar(c, setName, v), now) == StateOne(c, now)
  {
  }

  /** "FILE" is the same parameter as "file". */
  lemma FileNameCaseInsensitive(c: Ctrl, v: Value)
    ensures GetAxisExtraPar(SetAxisExtraPar(c, "FILE", v), "File") == v
  {
    assert Lower("FILE") == "file";
    assert Lower("File") == "file";
  }

  /** Any other name is ignored and reads None. */
  lemma UnknownParameter(c: Ctrl, name: string, v: Value)
    requires Lower(name) != "file"
    ensures SetAxisExtraPar(c, name, v) == c && GetAxisExtraPar(c, name) == NoneV
  {
  }
}
