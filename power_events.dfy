/** The system events the platform monitors publish and the sleep detector consumes. */
module PowerEvents {
  datatype PowerEvent = GoingToSuspend | ResumedFromSuspend | Locked | Unlocked
}
