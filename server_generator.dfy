/** The contract a server has to meet to be run by the wrapper (src/server_generator.rs). */
module ServerGenerators {

  /** What one finished run of the server asks the wrapper to do next. */
  datatype ContinueRunning =
    | Continue
    | Exit
    | ExitWithError(message: string)

  /** The result of awaiting one run: the outcome it finishes with, or none if it never finishes. */
  datatype Run = Completes(outcome: ContinueRunning) | NeverCompletes

  /**
   * The server generator, seen from outside: the i-th call produces a run that
   * finishes with `outcomes[i]`; every call past the end of `outcomes` produces a
   * run that never finishes. `calls` counts the invocations so far.
   */
  class ServerGenerator {
    const outcomes: seq<ContinueRunning>
    var calls: nat

    constructor (outcomes: seq<ContinueRunning>)
      ensures this.outcomes == outcomes && calls == 0
    {
      this.outcomes := outcomes;
      calls := 0;
    }

    /** The outcomes of the runs that later calls will produce. */
    function Upcoming(): seq<ContinueRunning>
      reads this
    {
      if calls <= |outcomes| then outcomes[calls..] else []
    }

    /** Invokes the generator once. */
    method Invoke() returns (run: Run)
      modifies this
      ensures calls == old(calls) + 1
      ensures old(Upcoming()) == [] ==> run == NeverCompletes && Upcoming() == []
      ensures old(Upcoming()) != [] ==>
                run == Completes(old(Upcoming())[0]) && Upcoming() == old(Upcoming())[1..]
    {
      run := if calls < |outcomes| then Completes(outcomes[calls]) else NeverCompletes;
      calls := calls + 1;
    }
  }
}
