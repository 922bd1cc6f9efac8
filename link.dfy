/**
 * The radio link to one Crazyflie, seen from the host: an append-only log of
 * everything the host sends. The close call of the motion-capture feed is
 * recorded in the same log, so that the order of teardown is visible.
 */
module CrazyflieLink {

  /** Parameter values as the source passes them: some as strings ('2'), some as numbers. */
  datatype ParamValue = Text(s: string) | Int(i: int) | Real(r: real)

  datatype Command =
    | OpenLink                                                  // SyncCrazyflie.open_link()
    | CloseLink                                                 // SyncCrazyflie.close_link()
    | CloseFeed                                                 // QtmWrapper.close()
    | SetParam(key: string, value: ParamValue)                  // cf.param.set_value(key, value)
    | PositionSetpoint(x: real, y: real, z: real, yaw: real)    // commander.send_position_setpoint
    | HoverSetpoint(vx: real, vy: real, yawRate: real, height: real) // commander.send_hover_setpoint
    | StopSetpoint                                              // commander.send_stop_setpoint

  class Link {
    var log: seq<Command>

    constructor ()
      ensures log == []
    {
      log := [];
    }

    /** Send one command; fire-and-forget, as the link layer is. */
    method Send(c: Command)
      modifies this
      ensures log == old(log) + [c]
    {
      log := log + [c];
    }
  }
}
