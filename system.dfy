/**
 * The system functions: the reachability probe's result mapping
 * (`func_icmp_echo_request`, `func_ping_rover`) and the two administrative
 * instructions sent to the rover.
 */
module SystemCommands {
  import opened Wrappers

  const ShutdownCommand: string := "sudo shutdown -h now"
  const RebootCommand: string := "sudo shutdown -r now"

  /**
   * The probe's result: 1 when `ping` exited with status 0 and -1 otherwise;
   * `None` stands for a `subprocess.call` that raised, which also gives -1.
   */
  function IcmpEchoRequest(exitCode: Option<int>): (r: int)
    ensures r == 1 || r == -1
    ensures r == 1 <==> exitCode == Some(0)
  {
    match exitCode
    case None => -1
    case Some(code) => if code == 0 then 1 else -1
  }

  /** The ping button: the rover is reported up exactly when the probe returned 1. */
  function PingRover(exitCode: Option<int>): (up: bool)
    ensures up <==> exitCode == Some(0)
  {
    IcmpEchoRequest(exitCode) == 1
  }
}
