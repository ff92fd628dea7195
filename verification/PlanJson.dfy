/**
  Reading and writing apply plans as JSON trees (src/ApplyPlan.cpp), and the
  executor's own check of a plan (updater/ApplyExecutor.cpp,
  validateApplyPlanResources).
*/
module PlanJson {
  import opened Wrappers
  import opened Topology
  import opened Plans
  import opened Decimal

  /** A parsed JSON value; numbers with a fraction or an exponent are only `Real`. */
  datatype Json = Null | Bool(b: bool) | Number(n: int) | Real | Str(s: string)
                | Object(fields: map<string, Json>) | Array(items: seq<Json>)

  function Get(j: Json, key: string): Option<Json> {
    if j.Object? && key in j.fields then Some(j.fields[key]) else None
  }

  predicate OnlyKeys(j: Json, keys: set<string>) { j.Object? && j.fields.Keys <= keys }

  function RequiredString(j: Json, key: string): Option<string> {
    match Get(j, key) case Some(Str(s)) => Some(s) case _ => None
  }

  function OptionalString(j: Json, key: string): Option<string> {
    match Get(j, key) case None => Some("") case Some(Str(s)) => Some(s) case _ => None
  }

  function NonNegative(j: Json): Option<nat> { if j.Number? && j.n >= 0 then Some(j.n) else None }

  // ---------- operations ----------

  function ParseType(text: string): Option<OperationType> {
    if text == "replace" then Some(Replace) else if text == "remove" then Some(Remove) else None
  }

  function ParseSize(item: Json, limits: Limits, required: bool): Option<nat> {
    match Get(item, "size")
    case None => if required then None else Some(0)
    case Some(value) =>
      var size := NonNegative(value);
      if size.Some? && size.value <= limits.maxArtifactBytes then size else None
  }

  function ParsePermissions(item: Json, schemaVersion: nat): Option<Option<nat>> {
    match Get(item, "permissions")
    case None => Some(None)
    case Some(value) =>
      var bits := NonNegative(value);
      if schemaVersion >= 2 && bits.Some? && bits.value <= PERMISSION_MASK then Some(bits) else None
  }

  function ParsePrecondition(item: Json, schemaVersion: nat, limits: Limits): Option<Option<Precondition>> {
    match Get(item, "precondition")
    case None => Some(None)
    case Some(value) =>
      if schemaVersion < 2 || !OnlyKeys(value, {"exists", "size", "sha256", "permissions"}) then None
      else
        match Get(value, "exists")
        case Some(Bool(false)) =>
          if value.fields.Keys == {"exists"} then Some(Some(Precondition(false, 0, "", None))) else None
        case Some(Bool(true)) =>
          var size, sha256 := ParseSize(value, limits, true), RequiredString(value, "sha256");
          var permissions := ParsePermissions(value, schemaVersion);
          if size.None? || sha256.None? || !IsLowerHexSha256(sha256.value) || permissions.None? then None
          else Some(Some(Precondition(true, size.value, sha256.value, permissions.value)))
        case _ => None
  }

  function ParseOperation(item: Json, schemaVersion: nat, limits: Limits): (r: Option<Operation>)
    ensures r.Some? ==> ValidOperation(r.value, schemaVersion, limits)
  {
    var keys := {"type", "source", "target", "sha256", "size"};
    if !OnlyKeys(item, if schemaVersion == 1 then keys else keys + {"permissions", "precondition"}) then None
    else
      var typeText, target := RequiredString(item, "type"), RequiredString(item, "target");
      if typeText.None? || ParseType(typeText.value).None? || target.None? then None
      else
        var kind := ParseType(typeText.value).value;
        var size := ParseSize(item, limits, kind == Replace);
        var permissions := ParsePermissions(item, schemaVersion);
        var precondition := ParsePrecondition(item, schemaVersion, limits);
        if size.None? || permissions.None? || precondition.None? || !ValidManagedTargetPath(target.value) then None
        else if kind == Replace then
          var source, sha256 := RequiredString(item, "source"), RequiredString(item, "sha256");
          if source.None? || sha256.None?
            || !IsLowerHexSha256(sha256.value) || !ValidManagedPath(source.value) then None
          else Some(Operation(kind, source.value, target.value, sha256.value, size.value, permissions.value,
                              precondition.value))
        else if Get(item, "source").Some? || Get(item, "sha256").Some?
          || size.value != 0 || permissions.value.Some? then None
        else Some(Operation(kind, "", target.value, "", 0, None, precondition.value))
  }

  function ParseOperations(items: seq<Json>, schemaVersion: nat, limits: Limits): (r: Option<seq<Operation>>)
    ensures r.Some? ==> |r.value| == |items|
    ensures r.Some? ==>
              forall i :: 0 <= i < |items| ==> ParseOperation(items[i], schemaVersion, limits) == Some(r.value[i])
  {
    if |items| == 0 then Some([])
    else
      var front := ParseOperations(items[..|items| - 1], schemaVersion, limits);
      var last := ParseOperation(items[|items| - 1], schemaVersion, limits);
      if front.None? || last.None? then None else Some(front.value + [last.value])
  }

  // ---------- header ----------

  function ParseReference(j: Json): Option<Reference> {
    var transactionId, planDigest := RequiredString(j, "transactionId"), RequiredString(j, "planDigest");
    if !OnlyKeys(j, {"transactionId", "planDigest"}) || transactionId.None? || planDigest.None?
      || !IsLowerHexSha256(transactionId.value) || !IsLowerHexSha256(planDigest.value) then None
    else Some(Reference(transactionId.value, planDigest.value))
  }

  function ParseIntent(j: Json, schemaVersion: nat): Option<(Intent, Option<Reference>)> {
    if schemaVersion == 1 then
      if Get(j, "intent").Some? || Get(j, "rollbackOf").Some? then None else Some((Install, None))
    else
      match RequiredString(j, "intent")
      case None => None
      case Some(text) =>
        if text == "install" then (if Get(j, "rollbackOf").Some? then None else Some((Install, None)))
        else if text == "rollback" then
          match Get(j, "rollbackOf")
          case None => None
          case Some(value) =>
            var reference := ParseReference(value);
            if reference.None? then None else Some((Rollback, reference))
        else None
  }

  /** An array of NUL-free strings, whose first is not empty; absent means none. */
  function ParseCommand(j: Json): Option<seq<string>> {
    match Get(j, "restartCommand")
    case None => Some([])
    case Some(Array(items)) =>
      if (forall i :: 0 <= i < |items| ==> items[i].Str? && NulFree(items[i].s))
         && (|items| > 0 ==> items[0].s != "")
      then Some(Texts(items)) else None
    case _ => None
  }

  function Texts(items: seq<Json>): (texts: seq<string>)
    requires forall i :: 0 <= i < |items| ==> items[i].Str?
    ensures |texts| == |items| && forall i :: 0 <= i < |items| ==> texts[i] == items[i].s
  {
    seq(|items|, i requires 0 <= i < |items| => items[i].s)
  }

  const HEADER_KEYS := {"schemaVersion", "appId", "fromVersion", "toVersion", "releaseId", "manifestSha256",
                        "installDir", "stagingDir", "backupDir", "restartCommand", "operations"}

  function ParseSchema(j: Json): Option<nat> {
    match Get(j, "schemaVersion")
    case None => None
    case Some(value) => if value == Number(1) then Some(1) else if value == Number(2) then Some(2) else None
  }

  /** Everything but the operations. */
  function ParseHeader(j: Json): (r: Option<Plan>)
    ensures r.Some? ==> ValidHeader(r.value) && r.value.operations == []
  {
    var schema := ParseSchema(j);
    if schema.None?
      || !OnlyKeys(j, if schema.value == 1 then HEADER_KEYS else HEADER_KEYS + {"intent", "rollbackOf"}) then None
    else
      var intent := ParseIntent(j, schema.value);
      var appId, fromVersion, toVersion :=
        OptionalString(j, "appId"), OptionalString(j, "fromVersion"), OptionalString(j, "toVersion");
      var releaseId, manifestSha256 := OptionalString(j, "releaseId"), OptionalString(j, "manifestSha256");
      var installDir, stagingDir, backupDir :=
        RequiredString(j, "installDir"), RequiredString(j, "stagingDir"), RequiredString(j, "backupDir");
      var command := ParseCommand(j);
      if intent.None? || appId.None? || fromVersion.None? || toVersion.None? || releaseId.None? || manifestSha256.None?
        || installDir.None? || stagingDir.None? || backupDir.None? || command.None? then None
      else if !ValidVersionText(fromVersion.value) || !ValidVersionText(toVersion.value)
        || !(manifestSha256.value == "" || IsLowerHexSha256(manifestSha256.value))
        || !ValidDirectory(installDir.value) || !ValidDirectory(stagingDir.value)
        || !ValidDirectory(backupDir.value) then None
      else
        Some(Plan(schema.value, intent.value.0, intent.value.1, appId.value, fromVersion.value, toVersion.value,
                  releaseId.value, manifestSha256.value, installDir.value, stagingDir.value, backupDir.value,
                  command.value, []))
  }

  // ---------- the whole plan ----------

  /** The plan a tree spells out, each field and each operation valid by itself. */
  function Spelled(j: Json, limits: Limits): Option<Plan> {
    var header := ParseHeader(j);
    match Get(j, "operations")
    case Some(Array(items)) =>
      if header.None? || ParseOperations(items, header.value.schemaVersion, limits).None? then None
      else Some(header.value.(operations := ParseOperations(items, header.value.schemaVersion, limits).value))
    case _ => None
  }

  /** parse: a spelled-out plan whose operations also fit together. */
  ghost function ParseSpec(j: Json, limits: Limits): Option<Plan> {
    var plan := Spelled(j, limits);
    if plan.Some? && Accepted(plan.value, limits) then plan else None
  }

  // ---------- writing ----------

  function WithText(fields: map<string, Json>, key: string, text: string): map<string, Json> {
    if text == "" then fields else fields[key := Str(text)]
  }

  function PreconditionJson(p: Precondition): Json {
    var fields := map["exists" := Bool(p.exists_)];
    if !p.exists_ then Object(fields)
    else
      var evidence := fields["size" := Number(p.size)]["sha256" := Str(p.sha256)];
      Object(if p.permissions.Some? then evidence["permissions" := Number(p.permissions.value)] else evidence)
  }

  function OperationJson(o: Operation, schemaVersion: nat): Json {
    var named := map["type" := Str(if o.kind == Replace then "replace" else "remove"),
                     "target" := Str(o.target), "size" := Number(o.size)];
    var sourced := WithText(WithText(named, "source", o.source), "sha256", o.sha256);
    var permitted := if schemaVersion >= 2 && o.permissions.Some?
                     then sourced["permissions" := Number(o.permissions.value)] else sourced;
    Object(if schemaVersion >= 2 && o.precondition.Some?
           then permitted["precondition" := PreconditionJson(o.precondition.value)] else permitted)
  }

  function IntentFields(p: Plan): map<string, Json> {
    if p.schemaVersion < 2 then map[]
    else
      var intent := map["intent" := Str(if p.intent == Rollback then "rollback" else "install")];
      if p.rollbackOf.None? then intent
      else intent["rollbackOf" := Object(map["transactionId" := Str(p.rollbackOf.value.transactionId),
                                             "planDigest" := Str(p.rollbackOf.value.planDigest)])]
  }

  function TextArray(texts: seq<string>): Json {
    Array(seq(|texts|, i requires 0 <= i < |texts| => Str(texts[i])))
  }

  function OperationArray(p: Plan): Json {
    Array(seq(|p.operations|, i requires 0 <= i < |p.operations| => OperationJson(p.operations[i], p.schemaVersion)))
  }

  function TextFields(p: Plan): map<string, Json> {
    WithText(WithText(WithText(WithText(WithText(
      IntentFields(p), "appId", p.appId), "fromVersion", p.fromVersion), "toVersion", p.toVersion),
      "releaseId", p.releaseId), "manifestSha256", p.manifestSha256)
  }

  function ToJson(p: Plan): Json {
    Object(TextFields(p)["schemaVersion" := Number(p.schemaVersion)]
                ["installDir" := Str(p.installDir)]["stagingDir" := Str(p.stagingDir)]["backupDir" := Str(p.backupDir)]
                ["restartCommand" := TextArray(p.restartCommand)]["operations" := OperationArray(p)])
  }

  // ---------- round trips ----------

  /** What validateApplyPlanResources checks before it writes the plan out. */
  predicate WritableOperation(o: Operation, schemaVersion: nat) {
    && (schemaVersion == 1 ==> o.permissions.None? && o.precondition.None?)
    && (o.precondition.Some? && !o.precondition.value.exists_ ==>
          o.precondition.value == Precondition(false, 0, "", None))
  }

  lemma PreconditionRoundTrip(p: Precondition, item: Json, schemaVersion: nat, limits: Limits)
    requires schemaVersion == 2 && (!p.exists_ ==> p == Precondition(false, 0, "", None))
    requires Get(item, "precondition") == Some(PreconditionJson(p))
    ensures ParsePrecondition(item, schemaVersion, limits) == Some(Some(p))
            <==> ValidPrecondition(p, limits)
    ensures !ValidPrecondition(p, limits) ==> ParsePrecondition(item, schemaVersion, limits).None?
  {
  }

  function TextField(text: string): Option<Json> { if text == "" then None else Some(Str(text)) }

  function NumberField(n: Option<nat>): Option<Json> { if n.None? then None else Some(Number(n.value)) }

  lemma OperationFields(o: Operation, schemaVersion: nat)
    requires schemaVersion in {1, 2} && WritableOperation(o, schemaVersion)
    ensures var item := OperationJson(o, schemaVersion);
            && Get(item, "type") == Some(Str(if o.kind == Replace then "replace" else "remove"))
            && Get(item, "target") == Some(Str(o.target)) && Get(item, "size") == Some(Number(o.size))
            && Get(item, "source") == TextField(o.source) && Get(item, "sha256") == TextField(o.sha256)
            && Get(item, "permissions") == NumberField(o.permissions)
            && Get(item, "precondition") ==
              if o.precondition.Some? then Some(PreconditionJson(o.precondition.value)) else None
  {
    hide PreconditionJson;
  }

  lemma OperationKeys(o: Operation, schemaVersion: nat)
    requires schemaVersion in {1, 2} && WritableOperation(o, schemaVersion)
    ensures var keys := {"type", "source", "target", "sha256", "size"};
            OnlyKeys(OperationJson(o, schemaVersion),
                     if schemaVersion == 1 then keys else keys + {"permissions", "precondition"})
  {
    hide PreconditionJson;
  }

  lemma OperationRoundTrip(o: Operation, schemaVersion: nat, limits: Limits)
    requires schemaVersion in {1, 2} && WritableOperation(o, schemaVersion)
    ensures ParseOperation(OperationJson(o, schemaVersion), schemaVersion, limits)
            == if ValidOperation(o, schemaVersion, limits) then Some(o) else None
  {
    OperationKeys(o, schemaVersion);
    OperationPartsRoundTrip(o, schemaVersion, limits);
    hide OperationJson, PreconditionJson, ValidManagedPath, ValidManagedTargetPath;
    hide IsLowerHexSha256, OnlyKeys, ValidPrecondition;
    hide ParsePrecondition, ParsePermissions, ParseSize, ParseType, RequiredString, Get;
  }

  lemma OperationPartsRoundTrip(o: Operation, schemaVersion: nat, limits: Limits)
    requires schemaVersion in {1, 2} && WritableOperation(o, schemaVersion)
    ensures var item := OperationJson(o, schemaVersion);
            && RequiredString(item, "type").Some? && ParseType(RequiredString(item, "type").value) == Some(o.kind)
            && RequiredString(item, "target") == Some(o.target)
            && Get(item, "source").Some? == (o.source != "") && Get(item, "sha256").Some? == (o.sha256 != "")
            && RequiredString(item, "source") == (if o.source == "" then None else Some(o.source))
            && RequiredString(item, "sha256") == (if o.sha256 == "" then None else Some(o.sha256))
            && !ValidManagedPath("") && !IsLowerHexSha256("")
            && ParseSize(item, limits, o.kind == Replace)
               == (if o.size <= limits.maxArtifactBytes then Some(o.size) else None)
            && ParsePermissions(item, schemaVersion)
               == (if o.permissions.None? || o.permissions.value <= PERMISSION_MASK then Some(o.permissions) else None)
            && ParsePrecondition(item, schemaVersion, limits)
               == if o.precondition.None? || ValidPrecondition(o.precondition.value, limits) then Some(o.precondition)
               else None
  {
    var item := OperationJson(o, schemaVersion);
    OperationFields(o, schemaVersion);
    hide OperationJson, PreconditionJson, ValidPrecondition;
    if o.precondition.Some? {
      PreconditionRoundTrip(o.precondition.value, item, schemaVersion, limits);
      hide ParsePrecondition;
    }
  }

  function ReferenceJson(r: Reference): Json {
    Object(map["transactionId" := Str(r.transactionId), "planDigest" := Str(r.planDigest)])
  }

  lemma TextLookups(p: Plan)
    requires ValidIntent(p)
    ensures var j := Object(TextFields(p));
            && Get(j, "appId") == TextField(p.appId) && Get(j, "fromVersion") == TextField(p.fromVersion)
            && Get(j, "toVersion") == TextField(p.toVersion) && Get(j, "releaseId") == TextField(p.releaseId)
            && Get(j, "manifestSha256") == TextField(p.manifestSha256)
  {
    var f0 := IntentFields(p);
    assert f0.Keys <= {"intent", "rollbackOf"};
    hide IntentFields, ValidIntent;
  }

  lemma PlainField(p: Plan, key: string)
    requires key !in {"schemaVersion", "installDir", "stagingDir", "backupDir", "restartCommand", "operations"}
    ensures Get(ToJson(p), key) == Get(Object(TextFields(p)), key)
  {
    hide TextArray, OperationArray, TextFields;
  }

  lemma HeaderTexts(p: Plan)
    requires ValidIntent(p)
    ensures var j := ToJson(p);
            && OptionalString(j, "appId") == Some(p.appId) && OptionalString(j, "fromVersion") == Some(p.fromVersion)
            && OptionalString(j, "toVersion") == Some(p.toVersion)
            && OptionalString(j, "releaseId") == Some(p.releaseId)
            && OptionalString(j, "manifestSha256") == Some(p.manifestSha256)
  {
    TextLookups(p);
    PlainField(p, "appId");
    PlainField(p, "fromVersion");
    PlainField(p, "toVersion");
    PlainField(p, "releaseId");
    PlainField(p, "manifestSha256");
    hide ToJson, ValidIntent, TextFields, Get;
  }

  lemma HeaderValues(p: Plan)
    ensures var j := ToJson(p);
            && Get(j, "schemaVersion") == Some(Number(p.schemaVersion))
            && RequiredString(j, "installDir") == Some(p.installDir)
            && RequiredString(j, "stagingDir") == Some(p.stagingDir)
            && RequiredString(j, "backupDir") == Some(p.backupDir)
            && Get(j, "restartCommand") == Some(TextArray(p.restartCommand))
            && Get(j, "operations") == Some(OperationArray(p))
  {
    hide TextArray, OperationArray, TextFields;
  }

  lemma HeaderIntent(p: Plan)
    requires ValidIntent(p)
    ensures var j := ToJson(p);
            && Get(j, "intent") == (if p.schemaVersion == 1 then None
                                    else Some(Str(if p.intent == Rollback then "rollback" else "install")))
            && Get(j, "rollbackOf") == if p.rollbackOf.None? then None else Some(ReferenceJson(p.rollbackOf.value))
  {
    hide TextArray, OperationArray, IsLowerHexSha256;
  }

  lemma HeaderKeys(p: Plan)
    requires ValidIntent(p)
    ensures OnlyKeys(ToJson(p), if p.schemaVersion == 1 then HEADER_KEYS else HEADER_KEYS + {"intent", "rollbackOf"})
  {
    hide TextArray, OperationArray, IsLowerHexSha256;
  }

  lemma IntentRoundTrip(p: Plan)
    requires ValidIntent(p)
    ensures ParseIntent(ToJson(p), p.schemaVersion) == Some((p.intent, p.rollbackOf))
  {
    HeaderIntent(p);
    hide ToJson, IsLowerHexSha256;
    if p.rollbackOf.Some? { ReferenceRoundTrip(p.rollbackOf.value); }
    hide ParseReference, ReferenceJson;
  }

  lemma ReferenceRoundTrip(r: Reference)
    requires IsLowerHexSha256(r.transactionId) && IsLowerHexSha256(r.planDigest)
    ensures ParseReference(ReferenceJson(r)) == Some(r)
  {
    hide IsLowerHexSha256;
  }

  lemma CommandRoundTrip(p: Plan)
    requires Get(ToJson(p), "restartCommand") == Some(TextArray(p.restartCommand))
    ensures ParseCommand(ToJson(p)) == if NulFreeCommand(p.restartCommand) then Some(p.restartCommand) else None
  {
    hide ToJson, NulFree;
    var items := TextArray(p.restartCommand).items;
    assert forall i :: 0 <= i < |items| ==> items[i].Str?;
    assert Texts(items) == p.restartCommand;
    assert forall i :: 0 <= i < |items| ==> NulFree(items[i].s) == NulFree(p.restartCommand[i]);
  }

  lemma HeaderRoundTrip(p: Plan)
    requires ValidIntent(p)
    ensures ParseHeader(ToJson(p)) == if ValidHeader(p) then Some(p.(operations := [])) else None
  {
    HeaderTexts(p);
    HeaderValues(p);
    HeaderKeys(p);
    IntentRoundTrip(p);
    CommandRoundTrip(p);
    hide ToJson, ParseIntent, ParseCommand, TextArray, OperationArray, OnlyKeys, IsLowerHexSha256, ValidVersionText;
    hide ValidDirectory, NulFreeCommand, RequiredString, OptionalString;
    assert ParseSchema(ToJson(p)) == Some(p.schemaVersion);
    hide ParseSchema, Get;
  }

  predicate Writable(p: Plan) {
    && ValidIntent(p)
    && forall i :: 0 <= i < |p.operations| ==> WritableOperation(p.operations[i], p.schemaVersion)
  }

  predicate ValidOperations(p: Plan, limits: Limits) {
    forall i :: 0 <= i < |p.operations| ==> ValidOperation(p.operations[i], p.schemaVersion, limits)
  }

  lemma {:induction false} OperationsRoundTrip(
    items: seq<Json>, ops: seq<Operation>, schemaVersion: nat, limits: Limits)
    requires schemaVersion in {1, 2} && |items| == |ops|
    requires forall i :: 0 <= i < |ops| ==> WritableOperation(ops[i], schemaVersion)
    requires forall i :: 0 <= i < |ops| ==> items[i] == OperationJson(ops[i], schemaVersion)
    ensures ParseOperations(items, schemaVersion, limits)
            == if forall i :: 0 <= i < |ops| ==> ValidOperation(ops[i], schemaVersion, limits) then Some(ops) else None
  {
    hide OperationJson, ParseOperation, ValidOperation, WritableOperation;
    if |items| > 0 {
      var n := |items| - 1;
      OperationsRoundTrip(items[..n], ops[..n], schemaVersion, limits);
      OperationRoundTrip(ops[n], schemaVersion, limits);
      assert ops == ops[..n] + [ops[n]];
    }
  }

  lemma SpelledRoundTrip(p: Plan, limits: Limits)
    requires Writable(p)
    ensures Spelled(ToJson(p), limits) == if ValidHeader(p) && ValidOperations(p, limits) then Some(p) else None
  {
    HeaderValues(p);
    HeaderRoundTrip(p);
    hide ToJson, ParseHeader, OperationJson, ValidHeader, ValidIntent, WritableOperation;
    assert p.schemaVersion in {1, 2} by { WritableSchema(p); }
    OperationsRoundTrip(OperationArray(p).items, p.operations, p.schemaVersion, limits);
    hide ParseOperations, ValidOperation, OperationArray;
    assert p == p.(operations := []).(operations := p.operations);
  }

  lemma WritableSchema(p: Plan)
    requires ValidIntent(p)
    ensures p.schemaVersion in {1, 2}
  {
  }

  lemma AcceptedIsWritable(p: Plan, limits: Limits)
    requires Accepted(p, limits)
    ensures Writable(p) && ValidHeader(p) && ValidOperations(p, limits)
  {
    hide IsLowerHexSha256, Disjoint, SourcesAgree, ValidVersionText, NulFreeCommand, ValidDirectory;
  }

  /** parse(toJson(p)) = p for every plan parse accepts. */
  lemma PlanRoundTrip(p: Plan, limits: Limits)
    requires Accepted(p, limits)
    ensures ParseSpec(ToJson(p), limits) == Some(p)
  {
    AcceptedIsWritable(p, limits);
    SpelledRoundTrip(p, limits);
    hide ToJson, Spelled, Accepted, Writable, ValidHeader, ValidOperations;
  }

  /** Whatever tree a plan was read from, writing it and reading it again gives the same plan. */
  lemma ParsedPlansRoundTrip(j: Json, limits: Limits)
    requires ParseSpec(j, limits).Some?
    ensures ParseSpec(ToJson(ParseSpec(j, limits).value), limits) == ParseSpec(j, limits)
  {
    hide ToJson, Spelled, Accepted;
    PlanRoundTrip(ParseSpec(j, limits).value, limits);
  }

  // ---------- the parse loop ----------

  lemma {:induction false} ParsePrefix(items: seq<Json>, schemaVersion: nat, limits: Limits, k: nat)
    requires k <= |items|
    ensures var all := ParseOperations(items, schemaVersion, limits);
            var front := ParseOperations(items[..k], schemaVersion, limits);
            all.Some? ==> front == Some(all.value[..k])
  {
    hide ParseOperation;
    var all := ParseOperations(items, schemaVersion, limits);
    if k == |items| {
      assert items[..k] == items;
      if all.Some? { assert all.value[..k] == all.value; }
    } else {
      var n := |items| - 1;
      ParsePrefix(items[..n], schemaVersion, limits, k);
      assert items[..n][..k] == items[..k];
      if all.Some? {
        assert all.value[..n] == ParseOperations(items[..n], schemaVersion, limits).value;
        assert all.value[..k] == all.value[..n][..k];
      }
    }
  }

  lemma {:induction false} ReplaceBytesMonotone(ops: seq<Operation>, k: nat)
    requires k <= |ops|
    ensures ReplaceBytes(ops[..k]) <= ReplaceBytes(ops)
  {
    if k == |ops| {
      assert ops[..k] == ops;
    } else {
      ReplaceBytesMonotone(ops[..|ops| - 1], k);
      assert ops[..|ops| - 1][..k] == ops[..k];
    }
  }

  type Evidence = map<string, (string, nat)>

  /** The evidence map after the operations so far. */
  predicate EvidenceOf(ops: seq<Operation>, evidence: Evidence) {
    && (forall i :: 0 <= i < |ops| && ops[i].kind == Replace ==>
          && LookupKey(ops[i].source) in evidence
          && evidence[LookupKey(ops[i].source)] == (ops[i].sha256, ops[i].size))
    && (forall k :: k in evidence ==>
          exists i :: 0 <= i < |ops| && ops[i].kind == Replace && LookupKey(ops[i].source) == k)
  }

  lemma ConflictingEvidence(ops: seq<Operation>, evidence: Evidence, all: seq<Operation>, n: nat)
    requires n < |all| && ops == all[..n] && EvidenceOf(ops, evidence)
    requires all[n].kind == Replace && LookupKey(all[n].source) in evidence
    requires evidence[LookupKey(all[n].source)] != (all[n].sha256, all[n].size)
    ensures !SourcesAgree(all)
  {
    var i :| 0 <= i < |ops| && ops[i].kind == Replace && LookupKey(ops[i].source) == LookupKey(all[n].source);
    assert all[i] == ops[i];
  }

  lemma EvidenceGrows(ops: seq<Operation>, evidence: Evidence, o: Operation)
    requires EvidenceOf(ops, evidence)
    requires o.kind == Replace && LookupKey(o.source) in evidence ==>
               evidence[LookupKey(o.source)] == (o.sha256, o.size)
    ensures EvidenceOf(
              ops + [o],
              if o.kind == Replace then evidence[LookupKey(o.source) := (o.sha256, o.size)] else evidence)
  {
    var all := ops + [o];
    var e := if o.kind == Replace then evidence[LookupKey(o.source) := (o.sha256, o.size)] else evidence;
    forall k | k in e ensures exists i :: 0 <= i < |all| && all[i].kind == Replace && LookupKey(all[i].source) == k {
      if k in evidence {
        var i :| 0 <= i < |ops| && ops[i].kind == Replace && LookupKey(ops[i].source) == k;
        assert all[i] == ops[i];
      } else {
        assert all[|ops|] == o;
      }
    }
  }

  /** With consistent evidence only the topology of the keys is left to decide. */
  lemma EvidenceDecides(ops: seq<Operation>, evidence: Evidence, keys: seq<string>)
    requires EvidenceOf(ops, evidence) && forall k :: k in keys <==> k in evidence
    ensures SourcesAgree(ops) <==> !HasConflict(keys)
  {
    hide LookupKey, Below;
    if HasConflict(keys) {
      var p, c :| p in keys && c in keys && Below(p, c);
      var i :| 0 <= i < |ops| && ops[i].kind == Replace && LookupKey(ops[i].source) == p;
      var j :| 0 <= j < |ops| && ops[j].kind == Replace && LookupKey(ops[j].source) == c;
      assert !SourcesAgree(ops);
    } else {
      forall i, j | 0 <= i < |ops| && 0 <= j < |ops| && ops[i].kind == Replace && ops[j].kind == Replace
        ensures LookupKey(ops[i].source) == LookupKey(ops[j].source) ==>
                  ops[i].sha256 == ops[j].sha256 && ops[i].size == ops[j].size
        ensures !Below(LookupKey(ops[i].source), LookupKey(ops[j].source))
      {
        assert LookupKey(ops[i].source) in keys && LookupKey(ops[j].source) in keys;
      }
    }
  }

  /** Operations that fit together: shared sources agree, the byte budget holds, targets do not collide. */
  ghost predicate FitTogether(ops: seq<Operation>, limits: Limits) {
    SourcesAgree(ops) && ReplaceBytes(ops) <= limits.maxTotalArtifactBytes && Disjoint(Keys(Targets(ops)))
  }

  method CheckedAdd(left: nat, right: nat) returns (ok: bool, sum: nat)
    requires left < UINT64_LIMIT && right < UINT64_LIMIT
    ensures ok <==> left + right < UINT64_LIMIT
    ensures ok ==> sum == left + right
  {
    ok, sum := right <= UINT64_LIMIT - 1 - left, 0;
    if ok { sum := left + right; }
  }

  /** One step of the loop over the items. */
  lemma NextOperation(items: seq<Json>, schemaVersion: nat, limits: Limits, i: nat, ops: seq<Operation>)
    requires i < |items| && ParseOperations(items[..i], schemaVersion, limits) == Some(ops)
    ensures var all := ParseOperations(items, schemaVersion, limits);
            var op := ParseOperation(items[i], schemaVersion, limits);
            && (op.None? ==> all.None?)
            && (op.Some? ==>
                  && ParseOperations(items[..i + 1], schemaVersion, limits) == Some(ops + [op.value])
                  && op.value.size <= limits.maxArtifactBytes
                  && ReplaceBytes(ops + [op.value])
                     == ReplaceBytes(ops) + (if op.value.kind == Replace then op.value.size else 0))
            && (all.Some? ==>
                  && all.value[..i] == ops && all.value[i] == op.value
                  && ReplaceBytes(ops + [op.value]) <= ReplaceBytes(all.value))
  {
    hide ParseOperation, ValidOperation;
    assert items[..i + 1][..i] == items[..i];
    ParsePrefix(items, schemaVersion, limits, i + 1);
    OperationSize(items[i], schemaVersion, limits);
    var all, op := ParseOperations(items, schemaVersion, limits), ParseOperation(items[i], schemaVersion, limits);
    if op.Some? { assert (ops + [op.value])[..i] == ops; }
    if all.Some? {
      assert all.value[..i + 1] == ops + [op.value];
      assert all.value[..i] == all.value[..i + 1][..i];
      ReplaceBytesMonotone(all.value, i + 1);
    }
  }

  /** The loop of parse: evidence map, running total and target list grow operation by operation. */
  method ReadOperations(items: seq<Json>, schemaVersion: nat, limits: Limits) returns (r: Option<seq<Operation>>)
    ensures var all := ParseOperations(items, schemaVersion, limits);
            r == if all.Some? && FitTogether(all.value, limits) then all else None
  {
    hide ParseOperation, ValidOperation, LookupKey, SourcesAgree, Disjoint;
    hide EvidenceOf, ParseOperations, ReplaceBytes, Keys, Targets;
    ghost var all := ParseOperations(items, schemaVersion, limits);
    var ops: seq<Operation> := [];
    var evidence: Evidence := map[];
    var keys: seq<string> := [];
    var total: nat := 0;
    var i := 0;
    NoOperations(items, schemaVersion, limits);
    while i < |items|
      invariant 0 <= i <= |items| && ParseOperations(items[..i], schemaVersion, limits) == Some(ops)
      invariant EvidenceOf(ops, evidence)
      invariant Distinct(keys) && forall k :: k in keys <==> k in evidence
      invariant total == ReplaceBytes(ops) <= limits.maxTotalArtifactBytes
    {
      NextOperation(items, schemaVersion, limits, i, ops);
      var parsed := ParseOperation(items[i], schemaVersion, limits);
      if parsed.None? { return None; }
      var op := parsed.value;
      if op.kind == Replace {
        var key := LookupKey(op.source);
        if key in evidence && evidence[key] != (op.sha256, op.size) {
          if all.Some? { ConflictingEvidence(ops, evidence, all.value, i); }
          return None;
        }
        var fits, updated := CheckedAdd(total, op.size);
        if !fits || updated > limits.maxTotalArtifactBytes { return None; }
        total := updated;
        if key !in evidence { keys := keys + [key]; }
      }
      EvidenceGrows(ops, evidence, op);
      if op.kind == Replace { evidence := evidence[LookupKey(op.source) := (op.sha256, op.size)]; }
      ops := ops + [op];
      i := i + 1;
    }
    assert items[..i] == items;
    var fit := CheckTopology(ops, evidence, keys);
    r := if fit then Some(ops) else None;
  }

  lemma NoOperations(items: seq<Json>, schemaVersion: nat, limits: Limits)
    ensures ParseOperations(items[..0], schemaVersion, limits) == Some([])
    ensures EvidenceOf([], map[]) && ReplaceBytes([]) == 0
  {
  }

  /** Both topology checks at the end of parse; `keys` are the keys of the evidence map. */
  method CheckTopology(ops: seq<Operation>, evidence: Evidence, keys: seq<string>) returns (ok: bool)
    requires EvidenceOf(ops, evidence) && Distinct(keys) && forall k :: k in keys <==> k in evidence
    ensures ok <==> SourcesAgree(ops) && Disjoint(Keys(Targets(ops)))
  {
    var sorted := Sort(keys);
    SortedKeys(keys, sorted);
    ok := ValidateSourceTopology(sorted);
    EvidenceDecides(ops, evidence, sorted);
    hide SourcesAgree, EvidenceOf, HasConflict, Disjoint;
    if ok { ok := ValidateDisjointTargets(Targets(ops)); }
  }

  lemma SortedKeys(keys: seq<string>, sorted: seq<string>)
    requires Distinct(keys) && multiset(keys) == multiset(sorted)
    ensures Distinct(sorted) && forall k :: k in keys <==> k in sorted
  {
    DistinctIsCounting(keys);
    DistinctIsCounting(sorted);
    assert forall k :: k in keys <==> k in multiset(keys);
    assert forall k :: k in sorted <==> k in multiset(sorted);
  }

  lemma OperationSize(item: Json, schemaVersion: nat, limits: Limits)
    ensures ParseOperation(item, schemaVersion, limits).Some? ==>
              ParseOperation(item, schemaVersion, limits).value.size <= limits.maxArtifactBytes
  {
  }

  /** ApplyPlan::parse on a tree; the container limit is the lexer's. */
  method Parse(j: Json, limits: Limits) returns (plan: Option<Plan>)
    ensures plan == ParseSpec(j, limits)
  {
    hide ParseHeader, ParseOperation, SourcesAgree, Disjoint, ValidHeader;
    var header := ParseHeader(j);
    match Get(j, "operations") {
      case Some(Array(items)) =>
        if header.None? { return None; }
        SpelledAccepted(j, limits);
        if |items| > limits.maxContainerEntries || |header.value.restartCommand| > limits.maxContainerEntries {
          return None;
        }
        var operations := ReadOperations(items, header.value.schemaVersion, limits);
        if operations.None? { return None; }
        return Some(header.value.(operations := operations.value));
      case _ => return None;
    }
  }

  lemma SpelledAccepted(j: Json, limits: Limits)
    ensures var p := Spelled(j, limits);
            p.Some? ==>
              (Accepted(p.value, limits) <==>
                 && |p.value.operations| <= limits.maxContainerEntries
                 && |p.value.restartCommand| <= limits.maxContainerEntries
                 && FitTogether(p.value.operations, limits))
  {
    hide ParseOperation, SourcesAgree, Disjoint, ValidOperation;
  }

  // ---------- the executor's check ----------

  /** What validateApplyPlanResources demands of one operation. */
  predicate OperationResourcesOk(o: Operation, schemaVersion: nat, limits: Limits) {
    && (schemaVersion == 1 ==> o.permissions.None? && o.precondition.None?)
    && ValidManagedTargetPath(o.target) && (o.kind == Replace ==> ValidManagedPath(o.source))
    && o.size <= limits.maxArtifactBytes
    && (o.permissions.Some? ==> o.kind == Replace && o.permissions.value <= PERMISSION_MASK)
    && (o.precondition.Some? ==> ValidPrecondition(o.precondition.value, limits))
  }

  lemma ValidOperationResources(o: Operation, schemaVersion: nat, limits: Limits)
    ensures ValidOperation(o, schemaVersion, limits) ==> OperationResourcesOk(o, schemaVersion, limits)
    ensures OperationResourcesOk(o, schemaVersion, limits) ==> WritableOperation(o, schemaVersion)
  {
  }

  method ValidateOperationResources(plan: Plan, limits: Limits) returns (ok: bool)
    ensures ok <==> && (forall i :: 0 <= i < |plan.operations| ==>
                          OperationResourcesOk(plan.operations[i], plan.schemaVersion, limits))
                    && ReplaceBytes(plan.operations) <= limits.maxTotalArtifactBytes
  {
    hide OperationResourcesOk;
    var ops := plan.operations;
    var total := 0;
    var i := 0;
    while i < |ops|
      invariant 0 <= i <= |ops| && total == ReplaceBytes(ops[..i]) <= limits.maxTotalArtifactBytes
      invariant forall j :: 0 <= j < i ==> OperationResourcesOk(ops[j], plan.schemaVersion, limits)
    {
      if !OperationResourcesOk(ops[i], plan.schemaVersion, limits) { return false; }
      assert ops[..i + 1][..i] == ops[..i];
      ReplaceBytesMonotone(ops, i + 1);
      if ops[i].kind == Replace {
        if ops[i].size > limits.maxTotalArtifactBytes - total { return false; }
        total := total + ops[i].size;
      }
      i := i + 1;
    }
    assert ops[..i] == ops;
    ok := true;
  }

  /** validateApplyPlanResources accepts exactly the plans parse can produce (text byte budgets aside). */
  method ValidateApplyPlanResources(plan: Plan, limits: Limits) returns (ok: bool)
    ensures ok <==> Accepted(plan, limits)
  {
    AcceptedPassesResources(plan, limits);
    hide Accepted, Disjoint, ValidHeader, OperationResourcesOk, ToJson, ValidIntent, Spelled;
    ok := ValidIntent(plan) && |plan.operations| <= limits.maxContainerEntries
          && |plan.restartCommand| <= limits.maxContainerEntries;
    if !ok { return; }
    ok := ValidateDisjointTargets(Targets(plan.operations));
    if !ok { return; }
    ok := ValidateOperationResources(plan, limits);
    if !ok { return; }
    var parsed := Parse(ToJson(plan), limits);
    ResourcesMakeWritable(plan, limits);
    SpelledRoundTrip(plan, limits);
    hide ValidOperations, Writable;
    ok := parsed.Some?;
  }

  lemma AcceptedPassesResources(plan: Plan, limits: Limits)
    ensures Accepted(plan, limits) ==>
              && ValidIntent(plan) && |plan.operations| <= limits.maxContainerEntries
              && |plan.restartCommand| <= limits.maxContainerEntries
              && Disjoint(Keys(Targets(plan.operations)))
              && ReplaceBytes(plan.operations) <= limits.maxTotalArtifactBytes
              && ValidHeader(plan) && ValidOperations(plan, limits)
              && forall i :: 0 <= i < |plan.operations| ==>
                   OperationResourcesOk(plan.operations[i], plan.schemaVersion, limits)
  {
    hide OperationResourcesOk, ValidOperation, IsLowerHexSha256, Disjoint;
    hide SourcesAgree, NulFreeCommand, ValidDirectory, ValidVersionText;
    if Accepted(plan, limits) {
      forall i | 0 <= i < |plan.operations|
        ensures OperationResourcesOk(plan.operations[i], plan.schemaVersion, limits)
      {
        ValidOperationResources(plan.operations[i], plan.schemaVersion, limits);
      }
    }
  }

  lemma ResourcesMakeWritable(plan: Plan, limits: Limits)
    requires ValidIntent(plan)
    requires forall i :: 0 <= i < |plan.operations| ==>
               OperationResourcesOk(plan.operations[i], plan.schemaVersion, limits)
    ensures Writable(plan)
  {
    hide OperationResourcesOk, WritableOperation, ValidIntent;
    forall i | 0 <= i < |plan.operations| ensures WritableOperation(plan.operations[i], plan.schemaVersion) {
      ValidOperationResources(plan.operations[i], plan.schemaVersion, limits);
    }
  }
}
