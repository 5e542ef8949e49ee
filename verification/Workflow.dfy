/** Company policy as resolved from its settings. */
module Workflow {
  datatype QcMode = ByMaterial | Always | Never

  datatype OverReceivePolicy = WithPermission | NeverOver | AlwaysIfPermitted

  datatype Policy = Policy(
    grnRequiresPurchaseOrder: bool,
    qcMode: QcMode,
    issueRequiresProductionOrder: bool,
    accountsHandoffEnabled: bool,
    overReceive: OverReceivePolicy,
    fefoEnabled: bool)

  /** Whether a received line must pass inspection. */
  predicate LineQcRequired(materialQcRequired: bool, mode: QcMode) {
    match mode
    case Always => true
    case Never => false
    case ByMaterial => materialQcRequired
  }
}
