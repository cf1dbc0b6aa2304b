/** The packets of the debug protocol, reduced to what client and server compute with. */
module Protocol {
  import opened Wrappers
  import opened Layout
  import opened Timeline

  datatype Command =
    | ListScopes(scope: string)
    | ListItems(scope: string)
    | ReferenceItems(reference: string, designations: seq<WireItem>)
    | QueryInterval(begin: Time, end: Time, items: Option<string>)
    | GetSimulationStatus
    | RunSimulation(untilTime: Option<Time>)
    | PauseSimulation

  datatype SimulationStatus = Running | Paused(nextSampleTime: Time) | Finished

  datatype WireSample = WireSample(time: Time, itemValues: seq<Word>)

  datatype Response =
    | Done
    | Samples(samples: seq<WireSample>)
    | StatusIs(status: SimulationStatus, latestTime: Time)

  datatype Event = SimulationPaused | SimulationFinished

  datatype ServerPacket =
    | Greeting(version: int)
    | Response(response: Response)
    | Error(message: string)
    | Event(event: Event)
  {
    predicate IsReply() { Response? || Error? }
  }
}
