/** The replay of a stored request, which the scheduler and the blast worker share. */
module Dispatch {
  /** What one dispatch answers. */
  datatype Outcome = Accepted(messageId: string) | Rejected(error: string)
}
