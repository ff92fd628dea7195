/**
  Journal summaries, operation records and receipts as JSON trees
  (updater/ApplyJournal.cpp, src/ApplyTransactionReceipt.cpp).  Integers are
  written as decimal strings, completion times as RFC 3339 text.
*/
module JournalJson {
  import opened Wrappers
  import opened Decimal
  import opened Timestamps
  import opened Plans
  import opened PlanJson
  import opened Journal

  // ---------- names of states ----------

  function FileStateName(s: FileState): string {
    match s
    case Prepared => "prepared" case Applying => "applying" case RollingBack => "rolling_back"
    case RolledBack => "rolled_back" case FilesApplied => "files_applied" case Complete => "complete"
    case RecoveryFailed => "recovery_failed"
  }

  function FileStateFromName(name: string): Option<FileState> {
    if name == "prepared" then Some(Prepared) else if name == "applying" then Some(Applying)
    else if name == "rolling_back" then Some(RollingBack) else if name == "rolled_back" then Some(RolledBack)
    else if name == "files_applied" then Some(FilesApplied) else if name == "complete" then Some(Complete)
    else if name == "recovery_failed" then Some(RecoveryFailed) else None
  }

  function RestartStateName(s: RestartState): string {
    match s
    case NotRequested => "not_requested" case NotAttempted => "not_attempted" case RestartIntent => "intent"
    case Launched => "launched" case RestartFailed => "failed" case OutcomeUnknown => "outcome_unknown"
  }

  function RestartStateFromName(name: string): Option<RestartState> {
    if name == "not_requested" then Some(NotRequested) else if name == "not_attempted" then Some(NotAttempted)
    else if name == "intent" then Some(RestartIntent) else if name == "launched" then Some(Launched)
    else if name == "failed" then Some(RestartFailed) else if name == "outcome_unknown" then Some(OutcomeUnknown)
    else None
  }

  function BackupStateName(s: BackupState): string {
    match s
    case BackupPending => "pending" case BackupIntent => "intent" case BackupDurable => "durable"
    case BackupNotRequired => "not_required"
  }

  function BackupStateFromName(name: string): Option<BackupState> {
    if name == "pending" then Some(BackupPending) else if name == "intent" then Some(BackupIntent)
    else if name == "durable" then Some(BackupDurable) else if name == "not_required" then Some(BackupNotRequired)
    else None
  }

  function ApplyStateName(s: ApplyState): string {
    match s case ApplyPending => "pending" case ApplyIntent => "intent" case ApplyComplete => "complete"
  }

  function ApplyStateFromName(name: string): Option<ApplyState> {
    if name == "pending" then Some(ApplyPending) else if name == "intent" then Some(ApplyIntent)
    else if name == "complete" then Some(ApplyComplete) else None
  }

  function RollbackStateName(s: RollbackState): string {
    match s
    case RollbackNotStarted => "not_started" case RollbackIntent => "intent" case RollbackComplete => "complete"
    case RollbackFailed => "failed" case RollbackNotRequired => "not_required"
  }

  function RollbackStateFromName(name: string): Option<RollbackState> {
    if name == "not_started" then Some(RollbackNotStarted) else if name == "intent" then Some(RollbackIntent)
    else if name == "complete" then Some(RollbackComplete) else if name == "failed" then Some(RollbackFailed)
    else if name == "not_required" then Some(RollbackNotRequired) else None
  }

  lemma StateNames(a: FileState, b: RestartState, c: BackupState, d: ApplyState, e: RollbackState)
    ensures FileStateFromName(FileStateName(a)) == Some(a) && RestartStateFromName(RestartStateName(b)) == Some(b)
    ensures BackupStateFromName(BackupStateName(c)) == Some(c) && ApplyStateFromName(ApplyStateName(d)) == Some(d)
    ensures RollbackStateFromName(RollbackStateName(e)) == Some(e)
  {
  }

  // ---------- fields ----------

  predicate Holds(m: map<string, Json>, key: string, value: Json) { key in m && m[key] == value }

  function RequiredBool(j: Json, key: string): Option<bool> {
    match Get(j, key) case Some(Bool(b)) => Some(b) case _ => None
  }

  function DecimalField(j: Json, key: string): Option<nat> {
    var text := RequiredString(j, key);
    if text.None? then None else ReadDecimal(text.value)
  }

  function ErrorJson(e: JournalError): Json { Object(map["code" := Str(e.code), "message" := Str(e.message)]) }

  function ErrorField(j: Json, key: string): Option<JournalError> {
    match Get(j, key)
    case None => None
    case Some(value) =>
      var code, message := RequiredString(value, "code"), RequiredString(value, "message");
      if !OnlyKeys(value, {"code", "message"}) || code.None? || message.None?
        || (code.value == "") != (message.value == "") then None
      else Some(JournalError(code.value, message.value))
  }

  lemma ErrorRoundTrip(j: Json, key: string, e: JournalError)
    requires Get(j, key) == Some(ErrorJson(e))
    ensures ErrorField(j, key) == if e.Whole() then Some(e) else None
  {
  }

  lemma DecimalRoundTrip(j: Json, key: string, n: nat)
    requires Get(j, key) == Some(Str(Text(n)))
    ensures DecimalField(j, key) == if n < UINT64_LIMIT then Some(n) else None
  {
  }

  /** A completion time is read only if it could have been written. */
  function TimeField(j: Json, key: string): Option<Instant> {
    var text := RequiredString(j, key);
    if text.None? then None
    else
      var instant := ParseRfc3339(text.value);
      if instant.Some? && InRange(instant.value) then instant else None
  }

  lemma TimeRoundTrip(j: Json, key: string, t: Instant)
    requires InRange(t) && Get(j, key) == Some(Str(FormatSpec(t)))
    ensures TimeField(j, key) == Some(t)
  {
    hide FormatSpec, ParseRfc3339, InRange;
  }

  // ---------- receipts ----------

  function ReceiptJson(r: Receipt): Json
    requires r.completedAt.Some? ==> InRange(r.completedAt.value)
  {
    var fields := map["schemaVersion" := Number(if r.completedAt.Some? then 3 else 2),
                      "transactionId" := Str(r.transactionId), "planDigest" := Str(r.planDigest)];
    Object(if r.completedAt.Some? then fields["completedAt" := Str(FormatSpec(r.completedAt.value))] else fields)
  }

  function ParseReceipt(j: Json): Option<Receipt> {
    var keys := {"schemaVersion", "transactionId", "planDigest"};
    var schema := Get(j, "schemaVersion");
    if schema.None? || schema.value !in {Number(2), Number(3)}
      || j.fields.Keys != (if schema.value == Number(3) then keys + {"completedAt"} else keys) then None
    else
      var transactionId, planDigest := RequiredString(j, "transactionId"), RequiredString(j, "planDigest");
      if transactionId.None? || planDigest.None?
        || !IsLowerHexSha256(transactionId.value) || !IsLowerHexSha256(planDigest.value) then None
      else if schema.value == Number(2) then Some(Receipt(transactionId.value, planDigest.value, None))
      else
        var completedAt := TimeField(j, "completedAt");
        if completedAt.None? then None else Some(Receipt(transactionId.value, planDigest.value, completedAt))
  }

  /** Every receipt that can be written reads back as itself. */
  lemma ReceiptRoundTrip(r: Receipt)
    requires IsLowerHexSha256(r.transactionId) && IsLowerHexSha256(r.planDigest)
    requires r.completedAt.Some? ==> InRange(r.completedAt.value)
    ensures ParseReceipt(ReceiptJson(r)) == Some(r)
  {
    hide FormatSpec, ParseRfc3339, IsLowerHexSha256, InRange;
    if r.completedAt.Some? { TimeRoundTrip(ReceiptJson(r), "completedAt", r.completedAt.value); }
    hide TimeField;
  }

  // ---------- summaries ----------

  const SUMMARY_KEYS := {"schemaVersion", "transactionId", "planDigest", "fileState", "operationCount",
                         "applyError", "rollbackError", "restartState", "restartError"}

  function SummaryBase(s: Summary): map<string, Json> {
    map["schemaVersion" := Number(if s.completedAt.Some? then 3 else 2),
        "transactionId" := Str(s.transactionId), "planDigest" := Str(s.planDigest),
        "fileState" := Str(FileStateName(s.fileState)), "operationCount" := Str(Text(s.operationCount)),
        "applyError" := ErrorJson(s.applyError), "rollbackError" := ErrorJson(s.rollbackError),
        "restartState" := Str(RestartStateName(s.restartState)), "restartError" := ErrorJson(s.restartError)]
  }

  function SummaryJson(s: Summary): Json
    requires s.completedAt.Some? ==> InRange(s.completedAt.value)
  {
    Object(if s.completedAt.Some? then SummaryBase(s)["completedAt" := Str(FormatSpec(s.completedAt.value))]
           else SummaryBase(s))
  }

  function ParseSummary(j: Json): Option<Summary> {
    var schema := Get(j, "schemaVersion");
    if schema.None? || schema.value !in {Number(2), Number(3)}
      || !OnlyKeys(j, if schema.value == Number(3) then SUMMARY_KEYS + {"completedAt"} else SUMMARY_KEYS) then None
    else
      var transactionId, planDigest := RequiredString(j, "transactionId"), RequiredString(j, "planDigest");
      var fileText, restartText := RequiredString(j, "fileState"), RequiredString(j, "restartState");
      var count := DecimalField(j, "operationCount");
      var applyError, rollbackError, restartError :=
        ErrorField(j, "applyError"), ErrorField(j, "rollbackError"), ErrorField(j, "restartError");
      if transactionId.None? || planDigest.None? || fileText.None? || restartText.None? || count.None?
        || applyError.None? || rollbackError.None? || restartError.None? then None
      else
        var fileState, restartState := FileStateFromName(fileText.value), RestartStateFromName(restartText.value);
        var time := if schema.value == Number(3) then TimeField(j, "completedAt") else None;
        if fileState.None? || restartState.None? || (schema.value == Number(3) && time.None?) then None
        else
          var s := Summary(transactionId.value, planDigest.value, fileState.value, time, count.value, applyError.value,
                           rollbackError.value, restartState.value, restartError.value);
          if ValidSummaryRecord(s, schema.value == Number(2)) then Some(s) else None
  }

  lemma SummaryLookups(s: Summary)
    ensures var m := SummaryBase(s);
            && Holds(m, "schemaVersion", Number(if s.completedAt.Some? then 3 else 2))
            && Holds(m, "transactionId", Str(s.transactionId)) && Holds(m, "planDigest", Str(s.planDigest))
            && Holds(m, "fileState", Str(FileStateName(s.fileState)))
            && Holds(m, "operationCount", Str(Text(s.operationCount)))
  {
    hide ErrorJson, Text, FileStateName, RestartStateName;
  }

  lemma SummaryRestart(s: Summary)
    ensures var m := SummaryBase(s);
            && Holds(m, "restartState", Str(RestartStateName(s.restartState)))
            && Holds(m, "applyError", ErrorJson(s.applyError))
            && Holds(m, "rollbackError", ErrorJson(s.rollbackError))
            && Holds(m, "restartError", ErrorJson(s.restartError))
            && m.Keys <= SUMMARY_KEYS
  {
    hide ErrorJson, Text, FileStateName, RestartStateName;
  }

  /** The completion time disturbs no other field of a summary. */
  lemma SummaryField(s: Summary, key: string, value: Json)
    requires s.completedAt.Some? ==> InRange(s.completedAt.value)
    requires Holds(SummaryBase(s), key, value) && key != "completedAt"
    ensures Get(SummaryJson(s), key) == Some(value)
  {
    hide FormatSpec, InRange, SummaryBase;
  }

  lemma SummaryIdentity(s: Summary)
    requires s.completedAt.Some? ==> InRange(s.completedAt.value)
    ensures var j := SummaryJson(s);
            && Get(j, "schemaVersion") == Some(Number(if s.completedAt.Some? then 3 else 2))
            && RequiredString(j, "transactionId") == Some(s.transactionId)
            && RequiredString(j, "planDigest") == Some(s.planDigest)
  {
    hide SummaryJson, SummaryBase, Holds, InRange, Get;
    SummaryLookups(s);
    SummaryField(s, "schemaVersion", Number(if s.completedAt.Some? then 3 else 2));
    SummaryField(s, "transactionId", Str(s.transactionId));
    SummaryField(s, "planDigest", Str(s.planDigest));
  }

  lemma SummaryStates(s: Summary)
    requires s.completedAt.Some? ==> InRange(s.completedAt.value)
    ensures var j := SummaryJson(s);
            && RequiredString(j, "fileState") == Some(FileStateName(s.fileState))
            && RequiredString(j, "restartState") == Some(RestartStateName(s.restartState))
            && Get(j, "operationCount") == Some(Str(Text(s.operationCount)))
  {
    hide SummaryJson, SummaryBase, Holds, InRange, Get, Text, FileStateName, RestartStateName;
    SummaryLookups(s);
    SummaryRestart(s);
    SummaryField(s, "fileState", Str(FileStateName(s.fileState)));
    SummaryField(s, "restartState", Str(RestartStateName(s.restartState)));
    SummaryField(s, "operationCount", Str(Text(s.operationCount)));
  }

  lemma SummaryErrors(s: Summary)
    requires s.completedAt.Some? ==> InRange(s.completedAt.value)
    requires s.applyError.Whole() && s.rollbackError.Whole() && s.restartError.Whole()
    ensures var j := SummaryJson(s);
            && ErrorField(j, "applyError") == Some(s.applyError)
            && ErrorField(j, "rollbackError") == Some(s.rollbackError)
            && ErrorField(j, "restartError") == Some(s.restartError)
  {
    hide SummaryJson, SummaryBase, Holds, InRange, Get, ErrorJson, ErrorField;
    SummaryRestart(s);
    SummaryField(s, "applyError", ErrorJson(s.applyError));
    SummaryField(s, "rollbackError", ErrorJson(s.rollbackError));
    SummaryField(s, "restartError", ErrorJson(s.restartError));
    ErrorRoundTrip(SummaryJson(s), "applyError", s.applyError);
    ErrorRoundTrip(SummaryJson(s), "rollbackError", s.rollbackError);
    ErrorRoundTrip(SummaryJson(s), "restartError", s.restartError);
  }

  lemma SummaryTime(s: Summary)
    requires s.completedAt.Some? ==> InRange(s.completedAt.value)
    ensures var j := SummaryJson(s);
            && (s.completedAt.Some? ==> Get(j, "completedAt") == Some(Str(FormatSpec(s.completedAt.value))))
            && OnlyKeys(j, if s.completedAt.Some? then SUMMARY_KEYS + {"completedAt"} else SUMMARY_KEYS)
  {
    SummaryRestart(s);
    hide FormatSpec, InRange, SummaryBase, Holds, ErrorJson;
  }

  lemma ValidTime(s: Summary, legacy: bool)
    requires ValidSummaryRecord(s, legacy)
    ensures s.completedAt.Some? ==> InRange(s.completedAt.value)
  {
  }

  /**
    parse(serialize(s)) = s for every summary the journal writes, with the
    operation count exact below 2^64 and refused from there on.
  */
  lemma SummaryRoundTrip(s: Summary)
    requires ValidSummaryRecord(s, false)
    ensures s.completedAt.Some? ==> InRange(s.completedAt.value)
    ensures ParseSummary(SummaryJson(s)) == if s.operationCount < UINT64_LIMIT then Some(s) else None
  {
    ValidTime(s, false);
    hide FormatSpec, InRange, SummaryBase, FileStateName;
    hide FileStateFromName, RestartStateName, RestartStateFromName, IsLowerHexSha256;
    var j := SummaryJson(s);
    SummaryIdentity(s);
    SummaryStates(s);
    SummaryErrors(s);
    SummaryTime(s);
    StateNames(s.fileState, s.restartState, BackupPending, ApplyPending, RollbackNotStarted);
    DecimalRoundTrip(j, "operationCount", s.operationCount);
    if s.completedAt.Some? { TimeRoundTrip(j, "completedAt", s.completedAt.value); }
    hide SummaryJson, Text, DecimalField, ErrorField, TimeField, RequiredString, Get, OnlyKeys;
  }

  // ---------- operation records ----------

  const OPERATION_KEYS := {"schemaVersion", "transactionId", "index", "operationId", "intent", "originalExists",
                           "originalIdentity", "originalSize", "originalSha256", "originalPermissionsKnown",
                           "originalPermissions", "backupState", "applyState", "installedIdentity", "rollbackState",
                           "error"}

  function OperationHead(r: OperationRecord): map<string, Json> {
    map["schemaVersion" := Number(2), "transactionId" := Str(r.transactionId), "index" := Str(Text(r.index)),
        "operationId" := Str(r.operationId), "intent" := Str(if r.intent == Replace then "replace" else "remove")]
  }

  function OperationOriginal(r: OperationRecord): map<string, Json> {
    map["originalExists" := Bool(r.originalExists), "originalIdentity" := Str(r.originalIdentity),
        "originalSize" := Str(Text(r.originalSize)), "originalSha256" := Str(r.originalSha256),
        "originalPermissionsKnown" := Bool(r.originalPermissionsKnown),
        "originalPermissions" := Str(Text(r.originalPermissions))]
  }

  function OperationProgress(r: OperationRecord): map<string, Json> {
    map["backupState" := Str(BackupStateName(r.backupState)), "applyState" := Str(ApplyStateName(r.applyState)),
        "installedIdentity" := Str(r.installedIdentity), "rollbackState" := Str(RollbackStateName(r.rollbackState)),
        "error" := ErrorJson(r.error)]
  }

  function RecordJson(r: OperationRecord): Json {
    Object(OperationHead(r) + OperationOriginal(r) + OperationProgress(r))
  }

  function ParseRecord(j: Json): Option<OperationRecord> {
    if Get(j, "schemaVersion") != Some(Number(2)) || !OnlyKeys(j, OPERATION_KEYS) then None
    else
      var transactionId, operationId := RequiredString(j, "transactionId"), RequiredString(j, "operationId");
      var intentText, index := RequiredString(j, "intent"), DecimalField(j, "index");
      var exists_, known := RequiredBool(j, "originalExists"), RequiredBool(j, "originalPermissionsKnown");
      var identity, sha256 := RequiredString(j, "originalIdentity"), RequiredString(j, "originalSha256");
      var size, permissions := DecimalField(j, "originalSize"), DecimalField(j, "originalPermissions");
      var backupText, applyText := RequiredString(j, "backupState"), RequiredString(j, "applyState");
      var installed, rollbackText := RequiredString(j, "installedIdentity"), RequiredString(j, "rollbackState");
      var error := ErrorField(j, "error");
      if transactionId.None? || operationId.None? || intentText.None? || index.None? || exists_.None? || known.None?
        || identity.None? || sha256.None? || size.None? || permissions.None? || backupText.None? || applyText.None?
        || installed.None? || rollbackText.None? || error.None? || permissions.value >= 0x1_0000_0000 then None
      else
        var intent, backup := ParseType(intentText.value), BackupStateFromName(backupText.value);
        var apply, rollback := ApplyStateFromName(applyText.value), RollbackStateFromName(rollbackText.value);
        if intent.None? || backup.None? || apply.None? || rollback.None? then None
        else
          var r := OperationRecord(
            transactionId.value, index.value, operationId.value, intent.value, exists_.value, identity.value,
            size.value,
            sha256.value, known.value, permissions.value, backup.value, apply.value, installed.value, rollback.value,
            error.value);
          if ValidOperationRecord(r) then Some(r) else None
  }

  /** A field is found in the part that holds it. */
  lemma PartOf(r: OperationRecord)
    ensures var j := RecordJson(r);
            && (forall k :: k in OperationHead(r) ==> Get(j, k) == Some(OperationHead(r)[k]))
            && (forall k :: k in OperationOriginal(r) ==> Get(j, k) == Some(OperationOriginal(r)[k]))
            && (forall k :: k in OperationProgress(r) ==> Get(j, k) == Some(OperationProgress(r)[k]))
            && OnlyKeys(j, OperationHead(r).Keys + OperationOriginal(r).Keys + OperationProgress(r).Keys)
  {
    HeadApart(r);
    ProgressApart(r);
    OriginalApart(r);
    hide OperationHead, OperationOriginal, OperationProgress;
  }

  lemma HeadApart(r: OperationRecord)
    ensures OperationHead(r).Keys !! OperationOriginal(r).Keys
  {
    hide ErrorJson, Text, BackupStateName, ApplyStateName, RollbackStateName;
  }

  lemma ProgressApart(r: OperationRecord)
    ensures OperationHead(r).Keys !! OperationProgress(r).Keys
  {
    hide ErrorJson, Text, BackupStateName, ApplyStateName, RollbackStateName;
  }

  lemma OriginalApart(r: OperationRecord)
    ensures OperationOriginal(r).Keys !! OperationProgress(r).Keys
  {
    hide ErrorJson, Text, BackupStateName, ApplyStateName, RollbackStateName;
  }

  lemma HeadLookups(r: OperationRecord)
    ensures var m := OperationHead(r);
            && Holds(m, "schemaVersion", Number(2)) && Holds(m, "transactionId", Str(r.transactionId))
            && Holds(m, "index", Str(Text(r.index))) && Holds(m, "operationId", Str(r.operationId))
            && Holds(m, "intent", Str(if r.intent == Replace then "replace" else "remove"))
  {
    hide Text;
  }

  lemma OriginalLookups(r: OperationRecord)
    ensures var m := OperationOriginal(r);
            && Holds(m, "originalExists", Bool(r.originalExists))
            && Holds(m, "originalIdentity", Str(r.originalIdentity))
            && Holds(m, "originalSize", Str(Text(r.originalSize))) && Holds(m, "originalSha256", Str(r.originalSha256))
            && Holds(m, "originalPermissionsKnown", Bool(r.originalPermissionsKnown))
            && Holds(m, "originalPermissions", Str(Text(r.originalPermissions)))
  {
    hide Text;
  }

  lemma ProgressLookups(r: OperationRecord)
    ensures var m := OperationProgress(r);
            && Holds(m, "backupState", Str(BackupStateName(r.backupState)))
            && Holds(m, "applyState", Str(ApplyStateName(r.applyState)))
            && Holds(m, "installedIdentity", Str(r.installedIdentity))
            && Holds(m, "rollbackState", Str(RollbackStateName(r.rollbackState)))
            && Holds(m, "error", ErrorJson(r.error))
  {
    hide ErrorJson, BackupStateName, ApplyStateName, RollbackStateName;
  }

  lemma HeadFields(r: OperationRecord)
    ensures var j := RecordJson(r);
            && Get(j, "schemaVersion") == Some(Number(2)) && RequiredString(j, "transactionId") == Some(r.transactionId)
            && Get(j, "index") == Some(Str(Text(r.index))) && RequiredString(j, "operationId") == Some(r.operationId)
            && RequiredString(j, "intent") == Some(if r.intent == Replace then "replace" else "remove")
  {
    hide Text, RecordJson, OperationHead, OperationOriginal, OperationProgress;
    PartOf(r);
    HeadLookups(r);
  }

  lemma OriginalFields(r: OperationRecord)
    ensures var j := RecordJson(r);
            && RequiredBool(j, "originalExists") == Some(r.originalExists)
            && RequiredString(j, "originalIdentity") == Some(r.originalIdentity)
            && Get(j, "originalSize") == Some(Str(Text(r.originalSize)))
            && RequiredString(j, "originalSha256") == Some(r.originalSha256)
            && RequiredBool(j, "originalPermissionsKnown") == Some(r.originalPermissionsKnown)
            && Get(j, "originalPermissions") == Some(Str(Text(r.originalPermissions)))
  {
    hide Text, RecordJson, OperationHead, OperationOriginal, OperationProgress;
    PartOf(r);
    OriginalLookups(r);
  }

  lemma ProgressFields(r: OperationRecord)
    ensures var j := RecordJson(r);
            && RequiredString(j, "backupState") == Some(BackupStateName(r.backupState))
            && RequiredString(j, "applyState") == Some(ApplyStateName(r.applyState))
            && RequiredString(j, "installedIdentity") == Some(r.installedIdentity)
            && RequiredString(j, "rollbackState") == Some(RollbackStateName(r.rollbackState))
            && Get(j, "error") == Some(ErrorJson(r.error))
  {
    hide RecordJson, OperationHead, OperationOriginal, OperationProgress;
    hide ErrorJson, BackupStateName, ApplyStateName, RollbackStateName;
    PartOf(r);
    ProgressLookups(r);
  }

  lemma RecordKeys(r: OperationRecord)
    ensures OnlyKeys(RecordJson(r), OPERATION_KEYS)
  {
    PartOf(r);
    hide RecordJson, Text, ErrorJson, BackupStateName, ApplyStateName, RollbackStateName;
  }

  lemma IntentNames(intent: OperationType)
    ensures ParseType(if intent == Replace then "replace" else "remove") == Some(intent)
  {
  }

  /**
    parse(serialize(r)) = r for every valid operation record, with index and
    size exact below 2^64 and refused from there on.
  */
  lemma RecordRoundTrip(r: OperationRecord)
    requires ValidOperationRecord(r)
    ensures ParseRecord(RecordJson(r)) ==
              if r.index < UINT64_LIMIT && r.originalSize < UINT64_LIMIT then Some(r) else None
  {
    hide ErrorJson, BackupStateName, BackupStateFromName, ApplyStateName;
    hide ApplyStateFromName, RollbackStateName, RollbackStateFromName;
    hide IsLowerHexSha256, RecordJson, ParseType;
    var j := RecordJson(r);
    HeadFields(r);
    OriginalFields(r);
    ProgressFields(r);
    RecordKeys(r);
    IntentNames(r.intent);
    StateNames(Prepared, NotRequested, r.backupState, r.applyState, r.rollbackState);
    DecimalRoundTrip(j, "index", r.index);
    DecimalRoundTrip(j, "originalSize", r.originalSize);
    DecimalRoundTrip(j, "originalPermissions", r.originalPermissions);
    ErrorRoundTrip(j, "error", r.error);
    SmallPermissions(r);
    hide Text, DecimalField, ErrorField, RequiredString, RequiredBool, Get, OnlyKeys, ValidOperationRecord;
  }

  lemma SmallPermissions(r: OperationRecord)
    requires ValidOperationRecord(r)
    ensures r.originalPermissions <= PERMISSION_MASK && r.error.Whole()
  {
  }
}
