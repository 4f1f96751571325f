/**
  The device states shared by Tango's DevState and Sardana's State (the two
  enumerations have the same members), the projection the proxy-driven
  controllers apply to the OPUS device server's state, and the remote calls
  those controllers make on the server.
 */
module Tango {

  datatype State =
    On | Off | Close | Open | Insert | Extract | Moving | Standby
    | Fault | Init | Running | Alarm | Disable | Unknown

  /** What StateOne hands back to Sardana: a state and a status text. */
  datatype Report = Report(state: State, status: string)

  /**
    A call on the OPUS device-server proxy: runOpusCMD (asynchronous),
    runOpusCMDSync (synchronous) or stopOpusMacro.
   */
  datatype ProxyCall = RunCmd(text: string) | RunCmdSync(text: string) | StopMacro

  /**
    The controllers report a RUNNING server as Moving and an ALARM server as
    Fault; every other state, ON included, is reported as it is.
   */
  function ProjectState(s: State): (r: State)
    ensures r == Moving <==> s == Running || s == Moving
    ensures r == Fault <==> s == Alarm || s == Fault
    ensures r != Running && r != Alarm
    ensures s != Running && s != Alarm ==> r == s
  {
    if s == Running then Moving else if s == Alarm then Fault else s
  }
}
