/**
 * The external downloader seen from the program: a command line is handed to
 * `subprocess.run`, which comes back in one of four ways. Which way is decided
 * by an oracle, a total function of every command issued so far (the newest
 * last), so the model can state exactly which commands were issued and in
 * what order, without saying anything about the network.
 */
module Proceso {

  /** An argument vector, executable first. */
  type Command = seq<string>

  /** What `subprocess.run(..., check=True)` does with a command: it returns
      after exit status 0 (with captured standard output when asked), raises
      `TimeoutExpired` once a timeout elapses, raises `CalledProcessError`
      after a non-zero exit (with captured standard error when asked), or
      raises `FileNotFoundError` when the executable is missing. */
  datatype Outcome =
    | Success(stdout: string)
    | Timeout
    | NonZeroExit(stderr: string)
    | FileNotFound

  /** The outcome of the newest command, given the whole history of commands
      including it. */
  type Oracle = seq<Command> -> Outcome

  /** The executor: every invocation is appended to `log` and answered by
      `oracle`. */
  class Runner {
    const oracle: Oracle
    var log: seq<Command>

    constructor (oracle: Oracle)
      ensures this.oracle == oracle && log == []
    {
      this.oracle := oracle;
      log := [];
    }

    method Run(cmd: Command) returns (o: Outcome)
      modifies this
      ensures log == old(log) + [cmd]
      ensures o == oracle(log)
    {
      log := log + [cmd];
      o := oracle(log);
    }
  }
}
