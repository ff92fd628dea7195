/**
  The durable records of the apply transaction (updater/ApplyJournal.h), the
  files they talk about, and the predicates and validators that read them
  (updater/ApplyExecutor.cpp, updater/ApplyJournal.cpp).
*/
module Journal {
  import opened Wrappers
  import opened Plans
  import opened Timestamps

  // ---------- files, as the executor observes them ----------

  /** `permissions` is None where the platform reports them as unknown. */
  datatype FileImage = FileImage(identity: string, size: nat, sha256: string, permissions: Option<nat>)

  predicate GoodImage(f: FileImage) {
    && f.identity != "" && IsLowerHexSha256(f.sha256)
    && (f.permissions.Some? ==> f.permissions.value <= PERMISSION_MASK)
  }

  type File = f: FileImage | GoodImage(f) witness FileImage("file", 0, seq(64, i => '0'), None)

  /** permissionBits: unknown permissions have every portable bit set. */
  function PermissionBits(p: Option<nat>): nat {
    match p case None => PERMISSION_MASK case Some(bits) => bits
  }

  // ---------- journal records ----------

  datatype JournalError = JournalError(code: string, message: string) {
    predicate Empty() { code == "" && message == "" }
    predicate Whole() { (code == "") == (message == "") }
  }

  const NO_ERROR := JournalError("", "")
  /** What toJournalError stores: both parts present. */
  const FAILURE := JournalError("ApplyFailed", "apply failed")

  datatype FileState = Prepared | Applying | RollingBack | RolledBack | FilesApplied | Complete | RecoveryFailed
  datatype RestartState = NotRequested | NotAttempted | RestartIntent | Launched | RestartFailed | OutcomeUnknown
  datatype BackupState = BackupPending | BackupIntent | BackupDurable | BackupNotRequired
  datatype ApplyState = ApplyPending | ApplyIntent | ApplyComplete
  datatype RollbackState = RollbackNotStarted | RollbackIntent | RollbackComplete | RollbackFailed | RollbackNotRequired

  datatype Receipt = Receipt(transactionId: string, planDigest: string, completedAt: Option<Instant>)

  datatype Summary = Summary(
    transactionId: string, planDigest: string, fileState: FileState, completedAt: Option<Instant>,
    operationCount: nat, applyError: JournalError, rollbackError: JournalError,
    restartState: RestartState, restartError: JournalError)

  datatype OperationRecord = OperationRecord(
    transactionId: string, index: nat, operationId: string, intent: OperationType,
    originalExists: bool, originalIdentity: string, originalSize: nat, originalSha256: string,
    originalPermissionsKnown: bool, originalPermissions: nat,
    backupState: BackupState, applyState: ApplyState, installedIdentity: string,
    rollbackState: RollbackState, error: JournalError)

  // ---------- matching observed files against plan and record ----------

  predicate MatchesEvidence(f: Option<File>, size: nat, sha256: string) {
    f.Some? && f.value.size == size && f.value.sha256 == sha256
  }

  predicate MatchesInstalled(f: Option<File>, o: Operation) {
    if o.kind == Remove then f.None?
    else MatchesEvidence(f, o.size, o.sha256) && (o.permissions.Some? ==> f.value.permissions == o.permissions)
  }

  predicate MatchesPrecondition(f: Option<File>, p: Precondition) {
    && f.Some? == p.exists_
    && (p.exists_ ==>
          MatchesEvidence(f, p.size, p.sha256) && (p.permissions.Some? ==> f.value.permissions == p.permissions))
  }

  predicate MatchesOriginal(f: Option<File>, r: OperationRecord) {
    if !r.originalExists then f.None?
    else
      && MatchesEvidence(f, r.originalSize, r.originalSha256)
      && (r.originalPermissionsKnown ==> PermissionBits(f.value.permissions) == r.originalPermissions)
  }

  /** verifyOriginalEvidence, for backups: unknown permissions do not satisfy known ones. */
  predicate VerifiesOriginal(f: File, r: OperationRecord) {
    && f.size == r.originalSize && f.sha256 == r.originalSha256
    && (r.originalPermissionsKnown ==> f.permissions == Some(r.originalPermissions))
  }

  // ---------- validators ----------

  predicate ValidSummaryRecord(s: Summary, allowLegacy: bool) {
    && IsLowerHexSha256(s.transactionId) && IsLowerHexSha256(s.planDigest)
    && s.applyError.Whole() && s.rollbackError.Whole() && s.restartError.Whole()
    && (s.completedAt.Some? ==> s.fileState == Complete && InRange(s.completedAt.value))
    && (s.fileState == Complete && s.completedAt.None? ==> allowLegacy)
  }

  predicate ValidOperationRecord(r: OperationRecord) {
    && IsLowerHexSha256(r.transactionId) && IsLowerHexSha256(r.operationId)
    && (if r.originalExists then
          && r.originalIdentity != "" && IsLowerHexSha256(r.originalSha256)
          && (!r.originalPermissionsKnown ==> r.originalPermissions == 0)
          && r.originalPermissions <= PERMISSION_MASK
        else
          && r.originalIdentity == "" && r.originalSize == 0 && r.originalSha256 == ""
          && !r.originalPermissionsKnown && r.originalPermissions == 0)
    && r.error.Whole()
  }

  /** The file/restart combinations validateRecoveredSummary allows. */
  predicate CombinationAllowed(fileState: FileState, restartState: RestartState) {
    match fileState
    case FilesApplied => restartState in {NotRequested, NotAttempted, RestartIntent, OutcomeUnknown}
    case Complete => restartState in {NotRequested, Launched, RestartFailed, OutcomeUnknown}
    case _ => restartState in {NotRequested, NotAttempted}
  }

  predicate ValidRecoveredSummary(plan: Plan, transaction: Receipt, s: Summary) {
    && s.transactionId == transaction.transactionId && s.planDigest == transaction.planDigest
    && s.operationCount == |plan.operations|
    && s.applyError.Whole() && s.rollbackError.Whole() && s.restartError.Whole()
    && (s.restartState == NotRequested <==> plan.restartCommand == [])
    && (!s.restartError.Empty() <==> s.restartState in {RestartFailed, OutcomeUnknown})
    && (!s.rollbackError.Empty() <==> s.fileState == RecoveryFailed)
    && CombinationAllowed(s.fileState, s.restartState)
  }

  /** restartMayHaveStarted. */
  predicate RestartMayHaveStarted(r: RestartState) { r in {RestartIntent, Launched, OutcomeUnknown} }

  // ---------- what the records say about the file that was there ----------

  /** The record describes `b`, the target as preparation found it. */
  predicate Describes(r: OperationRecord, b: Option<File>) {
    match b
    case None =>
      && !r.originalExists && r.originalIdentity == "" && r.originalSize == 0 && r.originalSha256 == ""
      && !r.originalPermissionsKnown && r.originalPermissions == 0
    case Some(f) =>
      && r.originalExists && r.originalIdentity == f.identity
      && r.originalSize == f.size && r.originalSha256 == f.sha256
      && r.originalPermissionsKnown == f.permissions.Some?
      && r.originalPermissions == (if f.permissions.Some? then f.permissions.value else 0)
  }

  /** `f` has the existence, the contents and the known permissions of `b`. */
  predicate Restores(f: Option<File>, b: Option<File>) {
    match b
    case None => f.None?
    case Some(g) =>
      && f.Some? && f.value.size == g.size && f.value.sha256 == g.sha256
      && (g.permissions.Some? ==> f.value.permissions == g.permissions)
  }

  /** What a committed replacement (or removal) leaves: the evidence of the plan, permissions known. */
  predicate InstalledImage(f: Option<File>, o: Operation) {
    MatchesInstalled(f, o) && (o.kind == Replace ==> f.value.permissions.Some?)
  }

  lemma RestoresTransitive(f: Option<File>, g: Option<File>, h: Option<File>)
    requires Restores(f, g) && Restores(g, h)
    ensures Restores(f, h)
  {
  }

  /** A restored file still satisfies whatever operation its model satisfied. */
  lemma RestoresKeepsInstalled(f: Option<File>, b: Option<File>, o: Operation)
    requires Restores(f, b) && MatchesInstalled(b, o)
    ensures MatchesInstalled(f, o)
  {
  }

  lemma RestoresMatchesOriginal(f: Option<File>, b: Option<File>, r: OperationRecord)
    requires Describes(r, b) && Restores(f, b)
    ensures MatchesOriginal(f, r)
  {
  }
}
