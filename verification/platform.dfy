/** The operating system as `platform.system()` names it, shared by the build script and the update bar. */
module Platform {

  /** The three systems the code tests for, and any other name. */
  datatype System = Windows | Linux | Darwin | OtherSystem(name: string)

  /**
   * The `System` for the text `platform.system()` returns: the three names the code
   * compares against get their own case, every other name is kept as it is.
   */
  function SystemOf(name: string): (r: System)
    ensures r == Windows <==> name == "Windows"
    ensures r == Linux <==> name == "Linux"
    ensures r == Darwin <==> name == "Darwin"
    ensures r.OtherSystem? ==> r.name == name
  {
    if name == "Windows" then Windows
    else if name == "Linux" then Linux
    else if name == "Darwin" then Darwin
    else OtherSystem(name)
  }

  /** The text of a system; `SystemOf` reads it back, so no name has two representations in use. */
  function SystemName(s: System): string {
    match s
    case Windows => "Windows"
    case Linux => "Linux"
    case Darwin => "Darwin"
    case OtherSystem(name) => name
  }

  /** Every name `platform.system()` can return maps to one `System` and back. */
  lemma SystemOfName(name: string)
    ensures SystemName(SystemOf(name)) == name
  {
  }
}
