/**
  The write-back coordinator for download resume records
  (src/DownloadExecutor.cpp, DownloadResumeCoordinator) over the batch store it
  writes to (src/DownloadResumeStore.h).
*/
module DownloadResume {
  import opened Wrappers

  datatype ResumeState = ResumeState(key: string, offset: nat, etag: string, lastModified: string, sha256: string)

  /** What the store keeps beside a record: its release and when it was written. */
  datatype Entry = Entry(state: ResumeState, releaseKey: string, writtenAt: nat)

  datatype Scope = Scope(releaseKey: string, now: nat, maxAge: nat)

  predicate InScope(e: Entry, scope: Scope) {
    && e.releaseKey == scope.releaseKey
    && (if e.writtenAt > scope.now then e.writtenAt - scope.now else scope.now - e.writtenAt) <= scope.maxAge
  }

  /** What a load under the scope sees. */
  function Visible(entries: map<string, Entry>, scope: Scope, key: string): Option<ResumeState> {
    if key in entries && InScope(entries[key], scope) then Some(entries[key].state) else None
  }

  function Find(m: map<string, ResumeState>, key: string): Option<ResumeState> {
    if key in m then Some(m[key]) else None
  }

  predicate Keyed(m: map<string, ResumeState>) { forall k :: k in m ==> m[k].key == k }

  /** Where it is not faulty no operation fails. */
  class BatchStore {
    const faulty: bool
    var entries: map<string, Entry>

    predicate Valid() reads this { forall k :: k in entries ==> entries[k].state.key == k }

    constructor (entries: map<string, Entry>, faulty: bool)
      requires forall k :: k in entries ==> entries[k].state.key == k
      ensures Valid() && this.entries == entries && this.faulty == faulty
    {
      this.entries, this.faulty := entries, faulty;
    }

    /** Requested records of this scope, each once; reading may fail. */
    method LoadBatch(scope: Scope, keys: seq<string>) returns (loaded: Option<seq<ResumeState>>)
      requires Valid()
      ensures loaded.Some? ==>
                && (forall i :: 0 <= i < |loaded.value| ==>
                      && loaded.value[i].key in keys
                      && Visible(entries, scope, loaded.value[i].key) == Some(loaded.value[i]))
                && (forall i, j :: 0 <= i < j < |loaded.value| ==> loaded.value[i].key != loaded.value[j].key)
                && (forall k :: k in keys && Visible(entries, scope, k).Some? ==>
                      exists i :: 0 <= i < |loaded.value| && loaded.value[i].key == k)
      ensures !faulty ==> loaded.Some?
    {
      var fails: bool := *;
      if fails && faulty { return None; }
      var states: seq<ResumeState> := [];
      var seen: set<string> := {};
      var n := 0;
      while n < |keys|
        invariant 0 <= n <= |keys|
        invariant forall k :: k in seen <==> k in keys[..n]
        invariant forall i :: 0 <= i < |states| ==>
                    && states[i].key in seen && states[i].key in keys
                    && Visible(entries, scope, states[i].key) == Some(states[i])
        invariant forall i, j :: 0 <= i < j < |states| ==> states[i].key != states[j].key
        invariant forall k :: k in seen && Visible(entries, scope, k).Some? ==>
                    exists i :: 0 <= i < |states| && states[i].key == k
      {
        var key := keys[n];
        assert keys[..n + 1] == keys[..n] + [key];
        if key !in seen && Visible(entries, scope, key).Some? {
          ghost var earlier := states;
          states := states + [Visible(entries, scope, key).value];
          assert states[|earlier|].key == key;
          forall k | k in seen && Visible(entries, scope, k).Some?
            ensures exists i :: 0 <= i < |states| && states[i].key == k
          {
            var i :| 0 <= i < |earlier| && earlier[i].key == k;
            assert states[i] == earlier[i];
          }
        }
        seen := seen + {key};
        n := n + 1;
      }
      assert keys[..n] == keys;
      loaded := Some(states);
    }

    /** Prune, clear, upsert, publish: all of it or nothing, and success only if published. */
    method ApplyBatch(scope: Scope, upserts: map<string, ResumeState>, clears: set<string>) returns (ok: bool)
      requires Valid() && Keyed(upserts)
      modifies this
      ensures Valid()
      ensures entries == old(entries) || entries == Applied(old(entries), scope, upserts, clears)
      ensures ok ==> entries == Applied(old(entries), scope, upserts, clears)
      ensures !faulty ==> ok
    {
      ok := *;
      ok := ok || !faulty;
      var published: bool := *;
      if ok || published { entries := Applied(entries, scope, upserts, clears); }
    }
  }

  function Applied(
    entries: map<string, Entry>, scope: Scope, upserts: map<string, ResumeState>, clears: set<string>)
    : map<string, Entry> {
    var kept := map k | k in entries && InScope(entries[k], scope) && k !in clears :: entries[k];
    kept + map k | k in upserts :: Entry(upserts[k], scope.releaseKey, scope.now)
  }

  lemma AppliedIsVisible(
    entries: map<string, Entry>, scope: Scope, upserts: map<string, ResumeState>, clears: set<string>,
    key: string)
    ensures Visible(Applied(entries, scope, upserts, clears), scope, key)
            == if key in upserts then Some(upserts[key]) else if key in clears then None
            else Visible(entries, scope, key)
  {
  }

  // ---------- the reference: every call goes to the store at once ----------

  datatype Op = Load(key: string) | Save(state: ResumeState) | Clear(key: string)

  function KeyOf(op: Op): string { match op case Load(k) => k case Save(s) => s.key case Clear(k) => k }

  function Direct(m: map<string, ResumeState>, op: Op): map<string, ResumeState> {
    match op
    case Load(_) => m
    case Save(s) => m[s.key := s]
    case Clear(k) => m - {k}
  }

  function DirectState(m: map<string, ResumeState>, ops: seq<Op>): map<string, ResumeState> {
    if |ops| == 0 then m else Direct(DirectState(m, ops[..|ops| - 1]), ops[|ops| - 1])
  }

  function DirectLoads(m: map<string, ResumeState>, ops: seq<Op>): seq<Option<ResumeState>> {
    if |ops| == 0 then []
    else
      DirectLoads(m, ops[..|ops| - 1])
      + (if ops[|ops| - 1].Load? then [Find(DirectState(m, ops[..|ops| - 1]), ops[|ops| - 1].key)] else [])
  }

  // ---------- the coordinator ----------

  class Coordinator {
    const store: BatchStore
    const scope: Scope
    var cached: map<string, ResumeState>
    var upserts: map<string, ResumeState>
    var clears: set<string>
    ghost var keys: set<string>
    /** The reference store, updated call by call. */
    ghost var direct: map<string, ResumeState>

    constructor (store: BatchStore, scope: Scope)
      requires store.Valid()
      ensures this.store == store && this.scope == scope && Valid() && keys == {} && cached == map[]
      ensures upserts == map[] && clears == {}
    {
      this.store, this.scope := store, scope;
      cached, upserts, clears, keys, direct := map[], map[], {}, {}, map[];
    }

    /** Pending upserts and clears are disjoint, and together with the store they give the reference contents. */
    ghost predicate Valid() reads this, store {
      && store.Valid() && Keyed(upserts) && Keyed(cached)
      && upserts.Keys !! clears
      && (forall k :: k in upserts ==> k in cached && cached[k] == upserts[k])
      && (forall k :: k in clears ==> k !in cached)
      && (forall k :: k in keys ==> Find(cached, k) == Find(direct, k))
      && (forall k :: k in keys && k !in upserts && k !in clears ==>
            Visible(store.entries, scope, k) == Find(direct, k))
    }

    method Initialize(requested: seq<string>) returns (ok: bool)
      requires Valid() && keys == {} && cached == map[] && upserts == map[] && clears == {}
      modifies this
      ensures ok ==> Valid() && keys == (set k | k in requested)
      ensures ok ==> forall k :: k in requested ==> Find(direct, k) == Visible(store.entries, scope, k)
      ensures ok ==> upserts == map[] && clears == {}
      ensures !store.faulty ==> ok
    {
      var loaded := store.LoadBatch(scope, requested);
      if loaded.None? { return false; }
      var states := loaded.value;
      var i := 0;
      while i < |states|
        invariant 0 <= i <= |states| && Keyed(cached) && upserts == map[] && clears == {}
        invariant forall k :: k in cached ==> Visible(store.entries, scope, k) == Some(cached[k])
        invariant forall j :: 0 <= j < i ==> states[j].key in cached
        invariant forall k :: k in cached ==> exists j :: 0 <= j < i && states[j].key == k
      {
        if states[i].key !in requested || states[i].key in cached { return false; }
        cached := cached[states[i].key := states[i]];
        i := i + 1;
      }
      keys := set k | k in requested;
      direct := cached;
      forall k | k in requested ensures Find(direct, k) == Visible(store.entries, scope, k) {
        if Visible(store.entries, scope, k).Some? {
          var j :| 0 <= j < |states| && states[j].key == k;
          assert states[j].key in cached;
        }
      }
      ok := true;
    }

    method Load(key: string) returns (state: Option<ResumeState>)
      requires Valid() && key in keys
      ensures state == Find(direct, key)
    {
      if key in upserts { return Some(upserts[key]); }
      if key in clears { return None; }
      state := Find(cached, key);
    }

    method Save(state: ResumeState)
      requires Valid()
      modifies this`clears, this`cached, this`upserts, this`direct
      ensures Valid() && direct == Direct(old(direct), Op.Save(state)) && clears == old(clears) - {state.key}
    {
      clears := clears - {state.key};
      cached := cached[state.key := state];
      upserts := upserts[state.key := state];
      direct := direct[state.key := state];
    }

    method Clear(key: string)
      requires Valid()
      modifies this`clears, this`cached, this`upserts, this`direct
      ensures Valid() && direct == Direct(old(direct), Op.Clear(key)) && clears == old(clears) + {key}
    {
      cached := cached - {key};
      upserts := upserts - {key};
      clears := clears + {key};
      direct := direct - {key};
    }

    /** After a successful flush the store itself shows the reference contents; a failed one keeps what is pending. */
    method Flush() returns (ok: bool)
      requires Valid()
      modifies this`upserts, this`clears, store
      ensures Valid() && direct == old(direct)
      ensures ok ==> upserts == map[] && clears == {} && forall k :: k in keys ==>
                Visible(store.entries, scope, k) == Find(direct, k)
      ensures ok ==> forall k :: k in old(clears) ==> Visible(store.entries, scope, k).None?
      ensures !ok ==> upserts == old(upserts) && clears == old(clears)
      ensures !store.faulty ==> ok
    {
      ghost var entries := store.entries;
      ok := store.ApplyBatch(scope, upserts, clears);
      forall k | k in keys
        ensures Visible(Applied(entries, scope, upserts, clears), scope, k) == Find(direct, k)
      {
        AppliedIsVisible(entries, scope, upserts, clears, k);
      }
      forall k | k in clears ensures Visible(Applied(entries, scope, upserts, clears), scope, k).None? {
        AppliedIsVisible(entries, scope, upserts, clears, k);
      }
      if ok { upserts, clears := map[], {}; }
    }
  }

  /** Any sequence of calls on initialized keys reads what the reference reads, and a flush leaves what it holds. */
  method RunOperations(coordinator: Coordinator, ops: seq<Op>) returns (loads: seq<Option<ResumeState>>, flushed: bool)
    requires coordinator.Valid() && forall i :: 0 <= i < |ops| ==> KeyOf(ops[i]) in coordinator.keys
    modifies coordinator, coordinator.store
    ensures coordinator.Valid() && coordinator.keys == old(coordinator.keys)
    ensures loads == DirectLoads(old(coordinator.direct), ops)
    ensures coordinator.direct == DirectState(old(coordinator.direct), ops)
    ensures flushed ==> forall k :: k in coordinator.keys ==>
              Visible(coordinator.store.entries, coordinator.scope, k)
              == Find(DirectState(old(coordinator.direct), ops), k)
  {
    loads := [];
    ghost var start := coordinator.direct;
    var i := 0;
    while i < |ops|
      invariant 0 <= i <= |ops| && coordinator.Valid() && coordinator.keys == old(coordinator.keys)
      invariant coordinator.direct == DirectState(start, ops[..i]) && loads == DirectLoads(start, ops[..i])
    {
      assert ops[..i + 1][..i] == ops[..i];
      match ops[i] {
        case Load(key) =>
          var state := coordinator.Load(key);
          loads := loads + [state];
        case Save(state) => coordinator.Save(state);
        case Clear(key) => coordinator.Clear(key);
      }
      i := i + 1;
    }
    assert ops[..i] == ops;
    flushed := coordinator.Flush();
  }
}
