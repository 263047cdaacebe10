/** Where a report run stands. */
module RunStatus {
  datatype Status = Queued | Running | Succeeded | DeliveryFailed | Failed

  predicate Active(status: Status) { status.Queued? || status.Running? }

  predicate Terminal(status: Status) { status.Succeeded? || status.DeliveryFailed? || status.Failed? }
}
