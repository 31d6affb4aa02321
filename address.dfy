/** Which Nomad address the tool talks to (main.go, getNomadAddr). */
module Address {

  /** The address Nomad's client library defaults to. */
  const DEFAULT_ADDRESS: string := "http://127.0.0.1:4646"

  /**
   * The value given with `--addr` wins; without it the `NOMAD_ADDR`
   * environment variable is used; without either, Nomad's default address.
   * An unset environment variable reads as the empty string, as `os.Getenv`
   * returns it, so the environment is the parameter `envNomadAddr`.
   */
  function GetNomadAddr(cmdLineValue: string, envNomadAddr: string): (nomadAddr: string)
    ensures nomadAddr != ""
    ensures cmdLineValue != "" ==> nomadAddr == cmdLineValue
    ensures cmdLineValue == "" && envNomadAddr != "" ==> nomadAddr == envNomadAddr
    ensures cmdLineValue == "" && envNomadAddr == "" ==> nomadAddr == DEFAULT_ADDRESS
  {
    var fromCmdLine := cmdLineValue;
    var fromEnv := if |fromCmdLine| == 0 then envNomadAddr else fromCmdLine;
    if |fromEnv| == 0 then DEFAULT_ADDRESS else fromEnv
  }
}
