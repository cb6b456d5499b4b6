/** What the controllers share: import annotations, conditions, and references to other resources. */
module Resource {
  /** The import annotations; a missing annotation reads as "". */
  datatype Annotations = Annotations(importId: string, importMode: string, importName: string)

  const RECONCILE := "reconcile"
  const ADOPT_ONCE := "adopt-once"
  const OBSERVE_ONLY := "observe-only"

  predicate Managing(a: Annotations) {
    a.importMode == RECONCILE || a.importMode == ADOPT_ONCE
  }

  /** Neither imported nor managed under an import name. */
  predicate Unmanaged(a: Annotations) {
    a.importId == "" && !Managing(a)
  }

  /** The mode an import runs in: a missing annotation means observe-only there. */
  function ModeOf(a: Annotations): string {
    if a.importMode == "" then OBSERVE_ONLY else a.importMode
  }

  datatype Condition = Condition(status: bool, reason: string)

  const READY := "Ready"
  const IMPORTED := "Imported"
  const DRIFT := "DriftDetected"
  const APPLIED_ONCE := "AppliedOnce"

  /** What the API server answers when a referenced resource is fetched; an ID of "" is not ready yet. */
  datatype Answer = Missing | Known(id: string)
}
