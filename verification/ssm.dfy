/** The records the command line reads from the run-command service. The
    service client itself is outside the model: its answers are inputs. */
module Ssm {

  /** One entry of the service's command listing: a status snapshot of one
      dispatched command. Each poll yields a fresh value. `requestedDateTime`
      is the client's timestamp, already rendered as text. */
  datatype Command = Command(
    commandId: string,
    documentName: string,
    requestedDateTime: string,
    status: string,
    targetCount: int,
    completedCount: int,
    errorCount: int)

  /** The captured output of one plugin of a document on one instance. */
  datatype Plugin = Plugin(name: string, output: string)

  /** The execution of a command on one target instance. */
  datatype Invocation = Invocation(
    instanceId: string,
    instanceName: string,
    status: string,
    plugins: seq<Plugin>)

  /** Total number of plugin outputs across a list of invocations. */
  function PluginCount(invs: seq<Invocation>): nat
  {
    if |invs| == 0 then 0 else |invs[0].plugins| + PluginCount(invs[1..])
  }
}
