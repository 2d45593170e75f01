/**
 * What the benchmark driver does to the outside world, recorded as an
 * ordered trace, and the exceptions it can raise.
 */
module Effects {
  import opened Wrappers

  /**
   * Where an action happens: the machine running the driver, a testbed
   * host over SSH, or a group of hosts at once (a Fabric `Group`).
   */
  datatype Target = Localhost | Host(address: string) | Machines(addresses: set<string>)

  datatype Action =
    | Shell(cmd: string)              // a command line run by a shell (`subprocess.run(..., shell=True)`, `Connection.run`)
    | Exec(argv: seq<string>)         // a program run with an argument vector (`subprocess.run([...])`)
    | Put(path: string)               // `Connection.put(path, '.')`
    | Write(file: string, content: string)
    | PrintConfig(file: string)       // a configuration object printed to a file by a class not modelled here
    | UpdatePipeline                  // the fetch, checkout, pull and rebuild pipeline of `_update`, whose text is not modelled

  datatype Event = Event(target: Target, action: Action)

  /** The exceptions the modelled code raises or lets through. */
  datatype Error =
    | AssertionError
    | ExecutionError(stderr: string)
    | CalledProcessError              // a `subprocess.SubprocessError` from `check=True`
    | FabricError                     // a Fabric `GroupException`, wrapped
    | TypeError
    | IndexError
    | ValueError
    | BenchError(message: string, cause: Option<Error>)
}
