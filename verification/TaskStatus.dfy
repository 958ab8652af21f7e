/** The lifecycle states that every download engine shares with the scheduler. */
module TaskStatus {
  datatype Status = Pending | Active | Paused | Complete | Error | Cancelled
  {
    /** States a reschedule pass leaves alone. */
    predicate Finished() {
      Complete? || Cancelled? || Error?
    }
  }
}
