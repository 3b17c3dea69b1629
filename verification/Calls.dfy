/**
  telemetry: one usage record. A recorded cost is a finite floating-point number, given here by its place in the order
  of those numbers; adding two of them is a function that nothing is known about.
 */
module Calls {
  import opened Wrappers

  type Cost = int

  datatype Call = Call(
    source: string, project: string, session: string, provider: string, model: string, role: string,
    agentType: string, day: string,
    input: int, cacheRead: int, cacheWrite: int, output: int, reasoning: int,
    cost: Option<Cost>)
}
