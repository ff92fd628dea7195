/**
  The locked install root as the executor uses it: durable state, a process
  that may die at any operation, and operations that may fail.

  A write publishes or does not, and may report failure in both cases
  (updater/ApplyJournal.cpp:824-858).  Death is modelled by `alive`: after it
  every operation does nothing and fails, so whatever the code goes on to do,
  the disk is the one the crash left.  With `faulty` false nothing fails.
*/
module InstallRoots {
  import opened Wrappers
  import opened Plans
  import opened Timestamps
  import opened Journal
  import opened InstallState

  class InstallRoot {
    const s: Setting
    var d: Durable
    var alive: bool
    var faulty: bool
    ghost var h: History

    constructor (s: Setting, tree: Tree, store: map<(string, string), File>)
      requires GoodSetting(s)
      ensures this.s == s && d.tree == tree && d.store == store && Valid()
      ensures d.active.None? && d.terminal.None? && d.plans == map[] && h.last.None?
      ensures h.launches == multiset{}
    {
      this.s := s;
      d := Durable(tree, store, map[], map[], map[], None, None);
      h := History(map[], map[], multiset{}, None);
      alive, faulty := true, true;
    }

    ghost predicate Valid() reads this { Inv(s, d, h) }

    /** A running process that no operation fails for. */
    predicate Healthy() reads this { alive && !faulty }

    // ---------- the environment ----------

    /** The fate of one durable write. */
    method Attempt() returns (published: bool, reported: bool)
      modifies this`alive
      ensures reported ==> published && alive
      ensures alive ==> old(alive)
      ensures !old(alive) ==> !published
      ensures old(Healthy()) ==> reported && alive
    {
      published, reported := false, false;
      if alive {
        if !faulty {
          published, reported := true, true;
        } else {
          published := *;
          alive := *;
          reported := *;
          reported := reported && published && alive;
        }
      }
    }

    /** The fate of a read, a checkpoint hook, or preparing a temporary file. */
    method Probe() returns (ok: bool)
      modifies this`alive
      ensures ok ==> alive
      ensures alive ==> old(alive)
      ensures old(Healthy()) ==> ok && alive
    {
      var published, reported := Attempt();
      ok := reported;
    }

    /** currentUtcInstant: a conversion may fail; what it gives lies in years 1 to 9999. */
    method Clock() returns (ok: bool, now: Instant)
      modifies this`alive
      ensures ok ==> InRange(now)
      ensures alive ==> old(alive)
      ensures old(Healthy()) ==> ok && alive
    {
      ok := Probe();
      now := *;
      if !InRange(now) { now := Instant(0, 0); }
    }

    /** The identity the file system gives a new file. */
    method NewIdentity() returns (identity: string)
      ensures identity != ""
    {
      identity := *;
      if identity == "" { identity := "file"; }
    }

    /** A new process: volatile state is gone, the disk is not. */
    method Reboot(faulty: bool)
      requires Valid()
      modifies this`alive, this`faulty
      ensures Valid() && alive && this.faulty == faulty
    {
      hide Inv;
      this.alive, this.faulty := true, faulty;
    }

    /** Downloads add, replace and remove files in staging directories; they leave the backups in use alone. */
    method Stage(files: map<(string, string), File>, removed: set<(string, string)>)
      requires Valid()
      modifies this`d
      ensures Valid() && d == old(d).(store := d.store)
      ensures forall k :: Lookup(d.store, k)
                          == if k in BackupsInUse(old(d)) then Lookup(old(d.store), k)
                          else if k in files then Some(files[k])
                          else if k in removed then None else Lookup(old(d.store), k)
    {
      hide Inv, BackupsInUse;
      var used := BackupsInUse(d);
      var store := (d.store - (removed - used)) + map k | k in files && k !in used :: files[k];
      StoreStep(s, d, d.(store := store), h);
      d := d.(store := store);
    }

    // ---------- journal writes for the active transaction ----------

    method WriteSummary(sum: Summary) returns (ok: bool)
      requires Valid() && CanWriteSummary(s, d, h, sum)
      modifies this`d, this`h, this`alive
      ensures Valid() && (alive ==> old(alive))
      ensures (d == old(d) && h == old(h)) || (d == PutSummary(old(d), sum) && h == NoteIntent(old(d), old(h), sum))
      ensures ok ==> alive && d == PutSummary(old(d), sum) && h == NoteIntent(old(d), old(h), sum)
      ensures old(Healthy()) ==> ok && alive
    {
      hide Inv;
      var published;
      published, ok := Attempt();
      if published {
        SummaryStep(s, d, h, sum);
        h := NoteIntent(d, h, sum);
        d := PutSummary(d, sum);
      }
    }

    method WriteOperation(ghost i: nat, r: OperationRecord) returns (ok: bool)
      requires Valid() && CanWriteRecord(s, d, h, i, r)
      modifies this`d, this`alive
      ensures Valid() && (alive ==> old(alive))
      ensures d == old(d) || d == PutRecord(old(d), r)
      ensures ok ==> alive && d == PutRecord(old(d), r)
      ensures old(Healthy()) ==> ok && alive
    {
      hide Inv;
      var published;
      published, ok := Attempt();
      if published {
        RecordStep(s, d, h, i, r);
        d := PutRecord(d, r);
      }
    }

    method WriteTerminal(rc: Receipt) returns (ok: bool)
      requires Valid() && CanWriteTerminal(d, h, rc)
      modifies this`d, this`alive
      ensures Valid() && (alive ==> old(alive))
      ensures d == old(d) || d == old(d).(terminal := Some(rc))
      ensures ok ==> alive && d == old(d).(terminal := Some(rc))
      ensures old(Healthy()) ==> ok && alive
    {
      hide Inv;
      var published;
      published, ok := Attempt();
      if published {
        TerminalStep(s, d, h, rc);
        d := d.(terminal := Some(rc));
      }
    }

    method ClearActive() returns (ok: bool)
      requires Valid() && CanClear(d)
      modifies this`d, this`alive
      ensures Valid() && (alive ==> old(alive))
      ensures d == old(d) || d == old(d).(active := None)
      ensures ok ==> alive && d == old(d).(active := None)
      ensures old(Healthy()) ==> ok && alive
    {
      hide Inv;
      var published;
      published, ok := Attempt();
      if published {
        ClearStep(s, d, h);
        d := d.(active := None);
      }
    }

    // ---------- target mutations ----------

    /**
      Commit of a prepared replacement: the old file, the new one, or (over an
      existing file) for a moment neither.  A failure that published may be
      reconciled into success, so the caller has to look at the target again.
    */
    method CommitTarget(ghost i: nat, path: string, f: File, overExisting: bool) returns (ok: bool)
      requires Valid() && CanSetTarget(s, d, h, i, Some(f))
      requires path == d.plans[d.active.value.transactionId].operations[i].target
      requires overExisting ==> CanSetTarget(s, d, h, i, None)
      modifies this`d, this`alive
      ensures Valid() && (alive ==> old(alive))
      ensures d == old(d) || d == PutTarget(old(d), path, Some(f))
              || (overExisting && d == PutTarget(old(d), path, None))
      ensures ok ==> alive
      ensures old(Healthy()) ==> ok && alive && d == PutTarget(old(d), path, Some(f))
    {
      hide Inv;
      var published;
      published, ok := Attempt();
      if published {
        var gap: bool := *;
        if gap && overExisting && faulty {
          TargetStep(s, d, h, i, None);
          d := PutTarget(d, path, None);
        } else {
          TargetStep(s, d, h, i, Some(f));
          d := PutTarget(d, path, Some(f));
        }
      }
    }

    method RemoveTarget(ghost i: nat, path: string) returns (ok: bool)
      requires Valid() && CanSetTarget(s, d, h, i, None)
      requires path == d.plans[d.active.value.transactionId].operations[i].target
      modifies this`d, this`alive
      ensures Valid() && (alive ==> old(alive))
      ensures d == old(d) || d == PutTarget(old(d), path, None)
      ensures ok ==> alive && d == PutTarget(old(d), path, None)
      ensures old(Healthy()) ==> ok && alive
    {
      hide Inv;
      var published;
      published, ok := Attempt();
      if published {
        TargetStep(s, d, h, i, None);
        d := PutTarget(d, path, None);
      }
    }

    // ---------- preparation ----------

    method WritePlanSnapshot(t: string, plan: Plan) returns (ok: bool)
      requires Valid() && d.active.None?
      modifies this`d, this`h, this`alive
      ensures Valid() && (alive ==> old(alive))
      ensures h == (if t in old(d.plans) then old(h) else old(h).(bases := old(h.bases)[t := old(d.tree)]))
      ensures d == old(d) || (t !in old(d.plans) && d == old(d).(plans := old(d.plans)[t := plan]))
      ensures ok ==> && alive && t !in old(d.plans) && Preparing(d, h, t, plan)
                     && d == old(d).(plans := old(d.plans)[t := plan])
      ensures old(Healthy()) && t !in old(d.plans) ==> ok
      ensures old(Healthy()) ==> alive
    {
      hide Inv;
      var seen := Probe();
      if t !in d.plans {
        BaseStep(s, d, h, t);
        h := h.(bases := h.bases[t := d.tree]);
      }
      if !seen || t in d.plans { return false; }
      var published;
      published, ok := Attempt();
      PlanStep(s, d, h, t, plan);
      if published { d := d.(plans := d.plans[t := plan]); }
    }

    method WritePreparedSummary(ghost plan: Plan, sum: Summary) returns (ok: bool)
      requires Valid() && Preparing(d, h, sum.transactionId, plan)
      requires SummaryOk(s, sum, sum.transactionId, plan) && !RestartBegun(sum.restartState)
      modifies this`d, this`alive
      ensures Valid() && (alive ==> old(alive)) && Preparing(d, h, sum.transactionId, plan)
      ensures d == old(d) || d == PutSummary(old(d), sum)
      ensures ok ==> alive && d == PutSummary(old(d), sum)
      ensures old(Healthy()) ==> ok && alive
    {
      hide Inv;
      var published;
      published, ok := Attempt();
      OrphanSummaryStep(s, d, h, sum.transactionId, plan, sum);
      if published { d := PutSummary(d, sum); }
    }

    method WritePreparedOperation(ghost plan: Plan, r: OperationRecord) returns (ok: bool)
      requires Valid() && Preparing(d, h, r.transactionId, plan)
      modifies this`d, this`alive
      ensures Valid() && (alive ==> old(alive)) && Preparing(d, h, r.transactionId, plan)
      ensures d == old(d) || d == PutRecord(old(d), r)
      ensures ok ==> alive && d == PutRecord(old(d), r)
      ensures old(Healthy()) ==> ok && alive
    {
      hide Inv;
      var published;
      published, ok := Attempt();
      OrphanRecordStep(s, d, h, r.transactionId, plan, r);
      if published { d := PutRecord(d, r); }
    }

    /** A backup is committed only where none exists. */
    method WriteBackup(directory: string, path: string, f: File) returns (ok: bool)
      requires Valid() && (directory, path) !in d.store
      modifies this`d, this`alive
      ensures Valid() && (alive ==> old(alive))
      ensures d == old(d) || d == old(d).(store := old(d.store)[(directory, path) := f])
      ensures ok ==> alive && d == old(d).(store := old(d.store)[(directory, path) := f])
      ensures old(Healthy()) ==> ok && alive
    {
      hide Inv;
      var published;
      published, ok := Attempt();
      StoreStep(s, d, d.(store := d.store[(directory, path) := f]), h);
      if published { d := d.(store := d.store[(directory, path) := f]); }
    }

    method WriteActive(t: string, ghost plan: Plan, rc: Receipt) returns (ok: bool)
      requires Valid() && CanActivate(s, d, h, t, plan) && rc == ReceiptOf(s, t, plan)
      modifies this`d, this`h, this`alive
      ensures Valid() && (alive ==> old(alive))
      ensures (d == old(d) && h == old(h)) || (d == old(d).(active := Some(rc)) && h == old(h).(last := Some(t)))
      ensures ok ==> alive && d == old(d).(active := Some(rc)) && h == old(h).(last := Some(t))
      ensures old(Healthy()) ==> ok && alive
    {
      hide Inv;
      var published;
      published, ok := Attempt();
      if published {
        ActivateStep(s, d, h, t, plan);
        d := d.(active := Some(rc));
        h := h.(last := Some(t));
      }
    }

    // ---------- restart ----------

    /** Asks the launcher once; a dead process asks nobody. */
    method Launch(t: string) returns (ok: bool)
      requires Valid() && t in h.intents && t !in h.launches
      modifies this`h, this`alive
      ensures Valid() && (alive ==> old(alive))
      ensures h == if old(alive) then old(h).(launches := old(h.launches) + multiset{t}) else old(h)
      ensures old(Healthy()) ==> alive
    {
      hide Inv;
      ok := false;
      if alive {
        LaunchStep(s, d, h, t);
        h := h.(launches := h.launches + multiset{t});
        ok := *;
        if faulty {
          alive := *;
          ok := ok && alive;
        }
      }
    }
  }
}
