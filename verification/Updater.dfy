/**
  The updater's generations and its worker queue (src/Updater.cpp), as
  interleaved steps: the worker's place in its task is kept in `pc` between
  steps, and anybody may come between two of them.

  A step is one section under a mutex together with the posts that follow it
  (which lock again) and the look at the shutdown flag after them.  Nothing that
  matters can come between those parts: only the worker begins, checks, commits
  or applies a generation, so a post finds the generation its section found,
  and a shutdown in between only drops the post.
*/
module Updaters {
  import opened Wrappers

  datatype State = Idle | Checking | UpdateAvailable | UpToDate | Downloading | ReadyToApply | Applying | Failed

  datatype Pending = Pending(
    version: string, releaseId: string, backupDir: string, planPath: string, planDigest: string)

  datatype Checked = Checked(id: nat, available: bool, reinstall: bool) {
    predicate Downloadable() { available && !reinstall }
  }

  datatype Ready = Ready(checked: Checked, pending: Pending, guard: nat)

  // ---------- tasks and the worker's place in them ----------

  datatype Task =
    | CheckTask(periodic: bool, download: bool)
    | DownloadTask(requested: Option<nat>)
    | ApplyTask(requested: Option<nat>)

  /** What follows a check. */
  datatype Purpose = OnlyCheck | ThenDownload | ImplicitDownload

  datatype Pc =
    | NoWorker | Fetch | Popped(task: Task)
    | BeginCheck(purpose: Purpose) | StartCheck(generation: nat, purpose: Purpose)
    | Fetching(generation: nat, purpose: Purpose)
    | Decided(checked: Checked, purpose: Purpose)
    | Choose(checked: Checked) | StartDownload(checked: Checked) | Transferring(checked: Checked)
    | Saved(checked: Checked, pending: Pending)
    | ApplyLoaded(ready: Ready) | ApplyMatched(ready: Ready) | ApplyLaunching(ready: Ready)
    | Report(generation: nat) | ReportCurrent

  /** The generation a check or download is working for. */
  function InFlight(pc: Pc): Option<nat> {
    match pc
    case StartCheck(g, _) => Some(g)
    case Fetching(g, _) => Some(g)
    case Decided(c, _) => Some(c.id)
    case StartDownload(c) => Some(c.id)
    case Transferring(c) => Some(c.id)
    case Saved(c, _) => Some(c.id)
    case _ => None
  }

  /** Holding operationMutex. */
  predicate Running(pc: Pc) { !pc.NoWorker? && !pc.Fetch? && !pc.Popped? }

  /** How calls out of the code under a step turn out. */
  datatype Outcome = Outcome(
    ok: bool, stopped: bool, available: bool, reinstall: bool, reconciled: bool, persistedAnyway: bool,
    pending: Pending)

  // ---------- what can be seen from outside ----------

  /** A posted callback carries the flag of its generation, and of the ready record it announces. */
  datatype Callback = Callback(generation: nat, readyGuard: Option<nat>)

  datatype Started = Started(callback: Callback, current: Option<nat>, ready: Option<Ready>)
  datatype Launch = Launch(generation: nat, pending: Pending, persisted: Option<Pending>)

  datatype Event =
    | AskCheck(periodic: bool, download: bool) | AskDownload | AskApply
    | Late(task: Task)
    | SpawnWorker(created: bool)
    | WorkerStep(outcome: Outcome) | TaskThrows
    | Deliver(index: nat)
    | StateStoreChanged(pending: Option<Pending>)
    | BeginShutdown | ClearQueue

  const MAX_PENDING_TASKS: nat := 64

  predicate Launched(launches: seq<Launch>, g: nat) { exists i :: 0 <= i < |launches| && launches[i].generation == g }

  /** Every start was of the generation current at that moment; a ready callback's record was still the ready one. */
  predicate NoSupersededStart(started: seq<Started>) {
    forall i :: 0 <= i < |started| ==>
      && started[i].current == Some(started[i].callback.generation)
      && (started[i].callback.readyGuard.Some? ==>
            started[i].ready.Some? && started[i].ready.value.guard == started[i].callback.readyGuard.value)
  }

  /** At most one launch per generation, each with the pending update that was persisted. */
  predicate LaunchedOnce(launches: seq<Launch>) {
    && (forall i, j :: 0 <= i < j < |launches| ==> launches[i].generation != launches[j].generation)
    && (forall i :: 0 <= i < |launches| ==> launches[i].persisted == Some(launches[i].pending))
  }

  class Updater {
    // guarded by `mutex`
    var current: Option<nat>
    var nextGeneration: nat
    var checked: Option<Checked>
    var ready: Option<Ready>
    var state: State
    // the shared flags
    var generationGuards: map<nat, bool>
    var readyGuards: map<nat, bool>
    var nextGuard: nat
    // guarded by `workerMutex`
    var queue: seq<Task>
    var busy: bool
    var starting: bool
    var pc: Pc
    var shuttingDown: bool
    // the state store, the dispatcher, and what was seen
    var persisted: Option<Pending>
    var posted: seq<Callback>
    ghost var started: seq<Started>
    ghost var launches: seq<Launch>

    constructor ()
      ensures Valid() && launches == [] && started == []
    {
      current, nextGeneration, checked, ready, state := None, 1, None, None, Idle;
      generationGuards, readyGuards, nextGuard := map[], map[], 0;
      queue, busy, starting, pc, shuttingDown := [], false, false, NoWorker, false;
      persisted, posted, started, launches := None, [], [], [];
    }

    // ---------- the invariant ----------

    /** A ready record belongs to the checked record of the current generation, in state ReadyToApply. */
    ghost predicate GenerationsAgree()
      reads this`current, this`nextGeneration, this`checked, this`ready, this`state
    {
      && (current.Some? ==> current.value < nextGeneration)
      && (checked.Some? ==> current == Some(checked.value.id))
      && (ready.Some? ==> checked.Some? && checked.value.id == ready.value.checked.id && state == ReadyToApply)
    }

    ghost predicate GuardsAgree()
      reads this`nextGeneration, this`generationGuards, this`current
      reads this`readyGuards, this`nextGuard, this`ready, this`posted
    {
      && (forall g :: g in generationGuards ==> g < nextGeneration && (generationGuards[g] <==> current == Some(g)))
      && (current.Some? ==> current.value in generationGuards)
      && (forall k :: k in readyGuards ==> k < nextGuard && (readyGuards[k] <==> ready.Some? && ready.value.guard == k))
      && (ready.Some? ==> ready.value.guard in readyGuards)
      && (forall i :: 0 <= i < |posted| ==> posted[i].generation in generationGuards)
      && (forall i :: 0 <= i < |posted| && posted[i].readyGuard.Some? ==> posted[i].readyGuard.value in readyGuards)
    }

    /** A queued task has somebody who will drain it, and only one. */
    ghost predicate WorkerAgrees()
      reads this`queue, this`busy, this`starting, this`pc, this`shuttingDown
    {
      && |queue| <= MAX_PENDING_TASKS
      && (busy <==> starting || pc != NoWorker)
      && !(starting && pc != NoWorker)
      && (queue != [] && !shuttingDown ==> busy)
    }

    ghost predicate LaunchesAgree()
      reads this`launches, this`started, this`nextGeneration, this`current, this`state, this`ready
    {
      && LaunchedOnce(launches) && NoSupersededStart(started)
      && (forall i :: 0 <= i < |launches| ==> launches[i].generation < nextGeneration)
      && (current.Some? && Launched(launches, current.value) ==> state in {Applying, Failed})
      && (ready.Some? ==> !Launched(launches, ready.value.checked.id))
    }

    ghost predicate PlaceAgrees()
      reads this`pc, this`nextGeneration, this`ready, this`launches, this`persisted, this`current, this`state
    {
      && (InFlight(pc).Some? ==>
            InFlight(pc).value < nextGeneration && ready.None? && !Launched(launches, InFlight(pc).value))
      && (pc.ApplyMatched? || pc.ApplyLaunching? ==> persisted == Some(pc.ready.pending))
      && (pc.ApplyLaunching? ==>
            && current == Some(pc.ready.checked.id) && state == Applying && ready.None?
            && !Launched(launches, pc.ready.checked.id))
    }

    ghost predicate Valid() reads this {
      GenerationsAgree() && GuardsAgree() && WorkerAgrees() && LaunchesAgree() && PlaceAgrees()
    }

    // ---------- generations ----------

    method InvalidateReady()
      modifies this`readyGuards, this`ready
      ensures ready.None?
      ensures readyGuards ==
                if old(ready).Some? then old(readyGuards)[old(ready).value.guard := false] else old(readyGuards)
    {
      if ready.Some? { readyGuards := readyGuards[ready.value.guard := false]; }
      ready := None;
    }

    method BeginGeneration() returns (generation: nat)
      requires Valid()
      modifies this`readyGuards, this`ready, this`generationGuards, this`nextGeneration, this`current, this`checked
      ensures GenerationsAgree() && GuardsAgree() && LaunchesAgree()
      ensures generation == old(nextGeneration) && nextGeneration == generation + 1 && current == Some(generation)
      ensures checked.None? && ready.None? && !Launched(launches, generation)
    {
      hide LaunchedOnce, NoSupersededStart, WorkerAgrees, PlaceAgrees;
      if current.Some? { generationGuards := generationGuards[current.value := false]; }
      InvalidateReady();
      generation := nextGeneration;
      nextGeneration := nextGeneration + 1;
      current := Some(generation);
      generationGuards := generationGuards[generation := true];
      checked := None;
    }

    method PostForGeneration(generation: nat, readyGuard: Option<nat>)
      requires GuardsAgree() && (readyGuard.Some? ==> readyGuard.value in readyGuards)
      modifies this`posted
      ensures GuardsAgree()
      ensures posted == if current == Some(generation) && !shuttingDown
                        then old(posted) + [Callback(generation, readyGuard)] else old(posted)
    {
      if current == Some(generation) && !shuttingDown { posted := posted + [Callback(generation, readyGuard)]; }
    }

    method SetGenerationState(generation: nat, next: State) returns (ok: bool)
      requires Valid() && ready.None? && !Launched(launches, generation)
      modifies this`state, this`posted
      ensures GenerationsAgree() && GuardsAgree() && LaunchesAgree()
      ensures state == if current == Some(generation) then next else old(state)
      ensures ok <==> current == Some(generation) && !shuttingDown
    {
      hide Launched, LaunchedOnce, NoSupersededStart, WorkerAgrees, PlaceAgrees;
      if current != Some(generation) { return false; }
      state := next;
      PostForGeneration(generation, None);
      ok := !shuttingDown;
    }

    method StoreChecked(c: Checked) returns (ok: bool)
      requires Valid()
      modifies this`checked, this`readyGuards, this`ready
      ensures GenerationsAgree() && GuardsAgree() && LaunchesAgree()
      ensures ok <==> current == Some(c.id)
      ensures ok ==> checked == Some(c) && ready.None?
      ensures !ok ==> checked == old(checked) && ready == old(ready)
    {
      hide Launched, LaunchedOnce, NoSupersededStart, WorkerAgrees, PlaceAgrees;
      if current != Some(c.id) { return false; }
      checked := Some(c);
      InvalidateReady();
      ok := true;
    }

    method CommitReady(c: Checked, pending: Pending) returns (ok: bool)
      requires Valid() && ready.None? && !Launched(launches, c.id)
      modifies this`readyGuards, this`nextGuard, this`ready, this`state, this`posted
      ensures GenerationsAgree() && GuardsAgree() && LaunchesAgree()
      ensures ready.Some? <==> current == Some(c.id) && checked.Some? && checked.value.id == c.id
      ensures ready.Some? ==> ready.value.checked == c && ready.value.pending == pending
    {
      hide Launched, LaunchedOnce, NoSupersededStart, WorkerAgrees, PlaceAgrees;
      if current != Some(c.id) || checked.None? || checked.value.id != c.id { return false; }
      var guard := nextGuard;
      nextGuard := nextGuard + 1;
      readyGuards := readyGuards[guard := true];
      ready := Some(Ready(c, pending, guard));
      state := ReadyToApply;
      PostForGeneration(c.id, None);
      PostForGeneration(c.id, Some(guard));
      ok := !shuttingDown;
    }

    /** The ready record is consumed, exactly once, when apply begins. */
    method BeginApplying(generation: nat) returns (begun: bool)
      requires Valid()
      modifies this`readyGuards, this`ready, this`state
      ensures GenerationsAgree() && GuardsAgree() && LaunchesAgree()
      ensures begun <==> && old(current) == Some(generation) && old(ready).Some?
                         && old(ready).value.checked.id == generation && old(state) == ReadyToApply
      ensures begun ==> ready.None? && state == Applying && !Launched(launches, generation)
      ensures !begun ==> ready == old(ready) && state == old(state)
    {
      hide Launched, LaunchedOnce, NoSupersededStart, WorkerAgrees, PlaceAgrees;
      begun :=
        current == Some(generation) && ready.Some? && ready.value.checked.id == generation && state == ReadyToApply;
      if begun {
        InvalidateReady();
        state := Applying;
      }
    }

    method ReportGenerationError(generation: nat)
      requires Valid()
      modifies this`checked, this`readyGuards, this`ready, this`state, this`posted
      ensures GenerationsAgree() && GuardsAgree() && LaunchesAgree()
      ensures current == Some(generation) && !shuttingDown ==> checked.None? && ready.None? && state == Failed
    {
      hide Launched, LaunchedOnce, NoSupersededStart, WorkerAgrees, PlaceAgrees;
      if current != Some(generation) || shuttingDown { return; }
      checked := None;
      InvalidateReady();
      state := Failed;
      PostForGeneration(generation, None);
      PostForGeneration(generation, None);
    }

    // ---------- requests and the queue ----------

    method CaptureDownload() returns (task: Task)
    {
      task := DownloadTask(if current.Some? && state != Idle && state != Failed then current else None);
    }

    method CaptureApply() returns (task: Task)
      ensures task.ApplyTask?
      ensures task.requested.Some? ==>
                && task.requested == current && state == ReadyToApply
                && checked.Some? && ready.Some? && checked.value.id == ready.value.checked.id == current.value
    {
      task := ApplyTask(
        if current.Some? && checked.Some? && ready.Some? && checked.value.id == current.value
           && ready.value.checked.id == current.value && state == ReadyToApply then current else None);
    }

    /** start: queue the task, and become the one who starts a worker if nobody drains the queue. */
    method Start(task: Task) returns (queueFull: bool)
      requires Valid()
      modifies this`queue, this`busy, this`starting
      ensures Valid()
      ensures queueFull <==> !shuttingDown && |old(queue)| == MAX_PENDING_TASKS
      ensures queue == if shuttingDown || queueFull then old(queue) else old(queue) + [task]
    {
      hide GuardsAgree, GenerationsAgree, LaunchesAgree;
      queueFull := false;
      if shuttingDown { return; }
      if |queue| >= MAX_PENDING_TASKS { return true; }
      queue := queue + [task];
      if !busy { busy, starting := true, true; }
    }

    /** The rest of start, once the previous worker has been joined. */
    method SpawnWorker(created: bool)
      requires Valid()
      modifies this`queue, this`busy, this`starting, this`pc
      ensures Valid()
      ensures old(starting) ==> !starting && (busy <==> created && !shuttingDown) && (!busy ==> queue == [])
      ensures !old(starting) || busy ==> queue == old(queue)
    {
      hide GuardsAgree, GenerationsAgree, LaunchesAgree;
      if !starting { return; }
      starting := false;
      if shuttingDown || !created {
        queue, busy := [], false;
      } else {
        pc := Fetch;
      }
    }

    method BeginShutdown()
      requires Valid()
      modifies this`shuttingDown
      ensures Valid() && shuttingDown
    {
      hide GuardsAgree, GenerationsAgree, LaunchesAgree;
      shuttingDown := true;
    }

    method ClearQueue()
      requires Valid()
      modifies this`queue
      ensures Valid()
    {
      hide GuardsAgree, GenerationsAgree, LaunchesAgree;
      if shuttingDown { queue := []; }
    }

    /** runPendingTasks, between tasks. */
    method FetchTask()
      requires Valid() && pc == Fetch
      modifies this`queue, this`busy, this`pc
      ensures Valid()
      ensures if shuttingDown || old(queue) == [] then pc == NoWorker && !busy && queue == old(queue)
              else pc == Popped(old(queue)[0]) && queue == old(queue)[1..]
    {
      hide GuardsAgree, GenerationsAgree, LaunchesAgree;
      if shuttingDown || queue == [] {
        busy, pc := false, NoWorker;
      } else {
        pc := Popped(queue[0]);
        queue := queue[1..];
      }
    }

    // ---------- the worker, section by section ----------

    /** The first section of each task. */
    method BeginTask(o: Outcome)
      requires Valid() && pc.Popped?
      modifies this
      ensures Valid() && !pc.NoWorker?
      ensures launches == old(launches) && ready == old(ready) && started == old(started) && persisted == old(persisted)
      ensures current == old(current) && checked == old(checked) && state == old(state) && queue == old(queue)
      // no check begins while an update is applied, and none on a timer over a ready one
      ensures pc.BeginCheck? ==>
                state != Applying && !(old(pc).task.CheckTask? && old(pc).task.periodic && state == ReadyToApply)
      ensures old(pc).task.CheckTask? && !old(pc).task.periodic && state != Applying ==>
                pc == BeginCheck(if old(pc).task.download then ThenDownload else OnlyCheck)
      ensures pc.Choose? <==>
                && old(pc).task.DownloadTask? && old(pc).task.requested.Some? && current == old(pc).task.requested
                              && checked.Some? && checked.value.id == current.value && checked.value.Downloadable()
      ensures pc.ApplyLoaded? <==>
                && old(pc).task.ApplyTask? && old(pc).task.requested.Some? && current == old(pc).task.requested
                                   && ready.Some? && ready.value.checked.id == current.value
      ensures pc.ApplyLoaded? ==> ready == Some(pc.ready)
    {
      hide GuardsAgree, Launched, LaunchedOnce, NoSupersededStart;
      match pc.task {
        case CheckTask(periodic, download) =>
          if (periodic && o.stopped) || state == Applying || (periodic && state == ReadyToApply) {
            pc := Fetch;
          } else {
            pc := BeginCheck(if download then ThenDownload else OnlyCheck);
          }
        case DownloadTask(None) =>
          pc := if state in {State.Checking, Downloading, ReadyToApply, Applying} then Fetch
          else BeginCheck(ImplicitDownload);
        case DownloadTask(Some(generation)) =>
          if current == Some(generation) && checked.Some? && checked.value.id == generation {
            pc := if checked.value.Downloadable() then Choose(checked.value) else Fetch;
          } else {
            PostForGeneration(generation, None);
            pc := Fetch;
          }
        case ApplyTask(requested) =>
          if requested.Some? && current == requested && checked.Some? && ready.Some?
             && checked.value.id == requested.value
             && ready.value.checked.id == requested.value
             && state == ReadyToApply
          {
            pc := ApplyLoaded(ready.value);
          } else {
            pc := Fetch;
          }
      }
    }

    method CheckStep(o: Outcome)
      requires Valid() && (pc.BeginCheck? || pc.StartCheck? || pc.Fetching?)
      modifies this
      ensures Valid() && !pc.NoWorker?
      ensures launches == old(launches) && started == old(started)
      // a check may find that the pending update was rolled back, and clears it
      ensures persisted == if old(pc).StartCheck? && o.reconciled then None else old(persisted)
      ensures old(pc).BeginCheck? ==>
                && current == Some(old(nextGeneration)) && checked.None? && ready.None?
                && pc == StartCheck(old(nextGeneration), old(pc).purpose)
      ensures old(pc).StartCheck? ==>
                pc == if o.ok && current == Some(old(pc).generation) && !shuttingDown
                      then Fetching(old(pc).generation, old(pc).purpose) else Report(old(pc).generation)
      ensures pc.Fetching? ==> state == State.Checking
      ensures old(pc).Fetching? && !o.ok ==> pc == Report(old(pc).generation)
      ensures old(pc).Fetching? && o.ok ==>
                var c := Checked(old(pc).generation, o.available, o.reinstall);
                if current == Some(c.id) then checked == Some(c) && pc == Decided(c, old(pc).purpose) else pc == Fetch
    {
      hide GuardsAgree, Launched, LaunchedOnce, NoSupersededStart;
      match pc {
        case BeginCheck(purpose) =>
          var generation := BeginGeneration();
          pc := StartCheck(generation, purpose);
        case StartCheck(generation, purpose) =>
          if o.reconciled { persisted := None; }
          var going := false;
          if o.ok { going := SetGenerationState(generation, State.Checking); }
          pc := if going then Fetching(generation, purpose) else Report(generation);
        case Fetching(generation, purpose) =>
          if o.ok {
            var c := Checked(generation, o.available, o.reinstall);
            var stored := StoreChecked(c);
            pc := if stored then Decided(c, purpose) else Fetch;
          } else {
            pc := Report(generation);
          }
      }
    }

    /** A decided check: announce it, and go on to the download when one is wanted and possible. */
    method DecideStep()
      requires Valid() && pc.Decided?
      modifies this
      ensures Valid() && !pc.NoWorker?
      ensures launches == old(launches) && started == old(started) && persisted == old(persisted)
      ensures pc.StartDownload? <==> old(pc).purpose != OnlyCheck && old(pc).checked.Downloadable()
      ensures pc.StartDownload? ==> pc.checked == old(pc).checked && state == old(state)
      ensures !pc.StartDownload? ==>
                && pc == Fetch
                && (current == Some(old(pc).checked.id) ==>
                      state == if old(pc).checked.available then UpdateAvailable else UpToDate)
    {
      hide GuardsAgree, Launched, LaunchedOnce, NoSupersededStart;
      var c, purpose := pc.checked, pc.purpose;
      if purpose != OnlyCheck && c.Downloadable() {
        PostForGeneration(c.id, None);
        pc := StartDownload(c);
      } else {
        var going := SetGenerationState(c.id, if c.available then UpdateAvailable else UpToDate);
        PostForGeneration(c.id, None);
        pc := Fetch;
      }
    }

    /** checkedForDownload: only the current checked generation, and only from state UpdateAvailable. */
    method ChooseStep()
      requires Valid() && pc.Choose?
      modifies this`pc, this`posted
      ensures Valid() && !pc.NoWorker?
      ensures pc == if current == Some(old(pc).checked.id) && checked.Some? && checked.value.id == current.value
                       && ready.None? && state == UpdateAvailable then StartDownload(checked.value) else Fetch
    {
      hide GuardsAgree, LaunchedOnce, NoSupersededStart;
      var c := pc.checked;
      if current == Some(c.id) && checked.Some? && checked.value.id == c.id && ready.None? && state == UpdateAvailable {
        pc := StartDownload(checked.value);
      } else {
        PostForGeneration(c.id, None);
        pc := Fetch;
      }
    }

    method StartDownloadStep(o: Outcome)
      requires Valid() && pc.StartDownload?
      modifies this`pc, this`posted, this`state
      ensures Valid() && !pc.NoWorker?
      ensures pc == if o.ok && current == Some(old(pc).checked.id) && !shuttingDown
                    then Transferring(old(pc).checked) else Report(old(pc).checked.id)
      ensures pc.Transferring? ==> state == Downloading
    {
      hide GuardsAgree, Launched, LaunchedOnce, NoSupersededStart;
      var c := pc.checked;
      var going := false;
      if o.ok { going := SetGenerationState(c.id, Downloading); }
      pc := if going then Transferring(c) else Report(c.id);
    }

    /** Downloads, the written plan, and the pending update made durable. */
    method TransferStep(o: Outcome)
      requires Valid() && pc.Transferring?
      modifies this`pc, this`posted, this`persisted
      ensures Valid() && !pc.NoWorker?
      ensures pc == if o.ok then Saved(old(pc).checked, o.pending) else Report(old(pc).checked.id)
      ensures pc.Saved? ==> persisted == Some(pc.pending)
    {
      hide GuardsAgree, Launched, LaunchedOnce, NoSupersededStart;
      var c := pc.checked;
      PostForGeneration(c.id, None);
      if o.ok || o.persistedAnyway { persisted := Some(o.pending); }
      pc := if o.ok then Saved(c, o.pending) else Report(c.id);
    }

    method CommitStep()
      requires Valid() && pc.Saved?
      modifies this
      ensures Valid() && !pc.NoWorker?
      ensures launches == old(launches) && started == old(started) && persisted == old(persisted)
      ensures old(current) == Some(old(pc).checked.id) && old(checked).Some? ==>
                old(checked).value.id == old(pc).checked.id ==>
                ready.Some? && ready.value.checked == old(pc).checked && ready.value.pending == old(pc).pending
    {
      hide GuardsAgree, Launched, LaunchedOnce, NoSupersededStart;
      var c := pc.checked;
      var committed := CommitReady(c, pc.pending);
      pc := if committed then Fetch else Report(c.id);
    }

    /** The persisted pending update must still be the ready one. */
    method MatchStep(o: Outcome)
      requires Valid() && pc.ApplyLoaded?
      modifies this`pc
      ensures Valid() && !pc.NoWorker?
      ensures pc == if o.ok && persisted == Some(old(pc).ready.pending) then ApplyMatched(old(pc).ready)
                    else Report(old(pc).ready.checked.id)
    {
      hide GuardsAgree, GenerationsAgree, LaunchesAgree, Launched;
      pc := if o.ok && persisted == Some(pc.ready.pending) then ApplyMatched(pc.ready) else Report(pc.ready.checked.id);
    }

    method BeginApplyStep()
      requires Valid() && pc.ApplyMatched?
      modifies this
      ensures Valid() && !pc.NoWorker?
      ensures launches == old(launches) && started == old(started) && persisted == old(persisted)
      ensures pc == ApplyLaunching(old(pc).ready) || pc == Fetch
      ensures pc.ApplyLaunching? <==> && old(current) == Some(old(pc).ready.checked.id) && old(ready).Some?
                                      && old(ready).value.checked.id == old(pc).ready.checked.id
                                      && old(state) == ReadyToApply
    {
      hide GuardsAgree, Launched, LaunchedOnce, NoSupersededStart;
      var r := pc.ready;
      var begun := BeginApplying(r.checked.id);
      PostForGeneration(r.checked.id, None);
      pc := if begun then ApplyLaunching(r) else Fetch;
    }

    method LaunchStep(o: Outcome)
      requires Valid() && pc.ApplyLaunching?
      modifies this
      ensures Valid() && !pc.NoWorker? && started == old(started) && persisted == old(persisted)
      ensures launches == if shuttingDown then old(launches)
                          else old(launches) + [Launch(old(pc).ready.checked.id, old(pc).ready.pending, persisted)]
    {
      hide GuardsAgree;
      var r := pc.ready;
      if shuttingDown {
        pc := Fetch;
      } else {
        launches := launches + [Launch(r.checked.id, r.pending, persisted)];
        pc := if o.ok then Fetch else Report(r.checked.id);
      }
    }

    method ReportStep()
      requires Valid() && (pc.Report? || pc.ReportCurrent?)
      modifies this
      ensures Valid() && !pc.NoWorker?
      ensures launches == old(launches) && started == old(started) && persisted == old(persisted)
      ensures old(pc).Report? && current == Some(old(pc).generation) && !shuttingDown ==>
                checked.None? && ready.None? && state == Failed && pc == Fetch
      ensures old(pc).ReportCurrent? ==> pc == if current.Some? then Report(current.value) else Fetch
    {
      hide GuardsAgree, Launched, LaunchedOnce, NoSupersededStart;
      match pc {
        case Report(generation) =>
          ReportGenerationError(generation);
          pc := Fetch;
        case ReportCurrent =>
          if current.Some? {
            pc := Report(current.value);
          } else {
            state := Failed;
            pc := Fetch;
          }
      }
    }

    method WorkerStep(o: Outcome)
      requires Valid()
      modifies this
      ensures Valid()
    {
      match pc {
        case NoWorker =>
        case Fetch => FetchTask();
        case Popped(_) => BeginTask(o);
        case BeginCheck(_) => CheckStep(o);
        case StartCheck(_, _) => CheckStep(o);
        case Fetching(_, _) => CheckStep(o);
        case Decided(_, _) => DecideStep();
        case Choose(_) => ChooseStep();
        case StartDownload(_) => StartDownloadStep(o);
        case Transferring(_) => TransferStep(o);
        case Saved(_, _) => CommitStep();
        case ApplyLoaded(_) => MatchStep(o);
        case ApplyMatched(_) => BeginApplyStep();
        case ApplyLaunching(_) => LaunchStep(o);
        case Report(_) => ReportStep();
        case ReportCurrent => ReportStep();
      }
    }

    /** An exception leaves the task wherever it is. */
    method TaskThrows()
      requires Valid()
      modifies this`pc
      ensures Valid()
    {
      hide GuardsAgree, GenerationsAgree, LaunchesAgree;
      if Running(pc) { pc := ReportCurrent; }
    }

    // ---------- the dispatcher and the state store ----------

    /** A posted callback starts only if its flags are still set. */
    method Deliver(index: nat)
      requires Valid()
      modifies this`posted, this`started
      ensures Valid()
      ensures old(started) <= started
      ensures index < |old(posted)| && old(posted)[index].generation in generationGuards
              && generationGuards[old(posted)[index].generation]
              && (old(posted)[index].readyGuard.Some? ==>
                    && old(posted)[index].readyGuard.value in readyGuards
                    && readyGuards[old(posted)[index].readyGuard.value])
              <==> started != old(started)
    {
      hide Launched, LaunchedOnce, WorkerAgrees, PlaceAgrees, GenerationsAgree;
      if index >= |posted| { return; }
      var callback := posted[index];
      posted := posted[..index] + posted[index + 1..];
      if generationGuards[callback.generation]
         && (callback.readyGuard.Some? ==> readyGuards[callback.readyGuard.value])
      {
        started := started + [Started(callback, current, ready)];
      }
    }

    /** Health confirmation and rollback requests change the pending update, but only while no task runs. */
    method StateStoreChanged(pending: Option<Pending>)
      requires Valid()
      modifies this`persisted
      ensures Valid()
    {
      hide GuardsAgree, GenerationsAgree, LaunchesAgree;
      if !Running(pc) { persisted := pending; }
    }

    // ---------- every interleaving ----------

    /**
      Any interleaving of requests, worker sections, callbacks and shutdown:
      a ready record always belongs to the checked record of the current
      generation in state ReadyToApply, no generation launches the helper
      twice or with another pending update than the persisted one, no
      superseded callback starts, and a non-empty queue has one drainer.
    */
    method Interleave(events: seq<Event>)
      requires Valid()
      modifies this
      ensures Valid()
      ensures ready.Some? ==> checked.Some? && current == Some(checked.value.id)
                              && checked.value.id == ready.value.checked.id && state == ReadyToApply
      ensures LaunchedOnce(launches) && NoSupersededStart(started)
      ensures queue != [] && !shuttingDown ==> busy && (starting <==> pc == NoWorker)
      ensures |queue| <= MAX_PENDING_TASKS
    {
      var i := 0;
      while i < |events|
        invariant Valid()
      {
        match events[i] {
          case AskCheck(periodic, download) => var full := Start(CheckTask(periodic, download));
          case AskDownload => var task := CaptureDownload(); var full := Start(task);
          case AskApply => var task := CaptureApply(); var full := Start(task);
          case Late(task) => var full := Start(task);
          case SpawnWorker(created) => SpawnWorker(created);
          case WorkerStep(o) => WorkerStep(o);
          case TaskThrows => TaskThrows();
          case Deliver(index) => Deliver(index);
          case StateStoreChanged(pending) => StateStoreChanged(pending);
          case BeginShutdown => BeginShutdown();
          case ClearQueue => ClearQueue();
        }
        i := i + 1;
      }
    }
  }
}
