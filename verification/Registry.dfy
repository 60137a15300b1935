/** The tunnel registry: an in-memory map cleaned lazily of expired records, saved through a temporary
    file and an atomic rename, one request at a time. */
module Registry {
  import opened Bytes

  type Key = string

  /** `details` stands for everything in a record but its expiry. */
  datatype Record = Record(expires: Option<nat>, details: string)

  type Records = map<Key, Record>

  predicate Expired(r: Record, now: nat) {
    r.expires.Some? && r.expires.value <= now
  }

  function Live(m: Records, now: nat): Records {
    map key | key in m && !Expired(m[key], now) :: m[key]
  }

  // ---------- the disk ----------

  datatype Temp = Absent | Partial | Whole(content: Records)

  datatype Disk = Disk(file: Option<Records>, temp: Temp)

  /** How far one save got. */
  datatype Reached = NotStarted | WritingTemp | TempWritten | Renamed

  function SaveUpTo(disk: Disk, memory: Records, reached: Reached): Disk {
    match reached
    case NotStarted => disk
    case WritingTemp => disk.(temp := Partial)
    case TempWritten => disk.(temp := Whole(memory))
    case Renamed => Disk(Some(memory), Absent)
  }

  /** Start-up: only the renamed file is read, and records that have expired meanwhile are dropped. */
  function Load(disk: Disk, now: nat): Records {
    if disk.file.None? then map[] else Live(disk.file.value, now)
  }

  // ---------- the gateway ----------

  /** `persistent` is whether a state file is configured. The last three fields are the reference: a map
      that is never cleaned, its value at the last successful save, and whether a launch or close has
      gone unsaved since. */
  datatype Gateway = Gateway(
    persistent: bool, memory: Records, disk: Disk, now: nat,
    reference: Records, saved: Records, unsaved: bool)

  datatype Request =
    | Launch(key: Key, record: Record, valid: bool)
    | CloseTunnel(key: Key)
    | Lookup(key: Key)
    | Cleanup

  /** What happens to the save a request performs, if it performs one. */
  datatype Outcome = Outcome(reached: Reached, crash: bool)

  datatype Step = Tick(seconds: nat) | Serve(request: Request, outcome: Outcome)

  datatype Response = Ok | Created | BadRequest | NotFound | Gone | SaveFailed

  function Init(persistent: bool, now: nat): Gateway {
    Gateway(persistent, map[], Disk(None, Absent), now, map[], map[], false)
  }

  /** The registry after the request has changed it in memory. */
  function Changed(g: Gateway, request: Request): Records {
    match request
    case Launch(key, record, valid) =>
      if valid && !Expired(record, g.now) then g.memory[key := record] else g.memory
    case CloseTunnel(key) => g.memory - {key}
    case Lookup(key) => if key in g.memory && Expired(g.memory[key], g.now) then g.memory - {key} else g.memory
    case Cleanup => Live(g.memory, g.now)
  }

  /** Whether the request goes on to save the registry. */
  predicate Saves(g: Gateway, request: Request) {
    match request
    case Launch(key, record, valid) => valid && !Expired(record, g.now)
    case CloseTunnel(key) => key in g.memory
    case Lookup(key) => key in g.memory && Expired(g.memory[key], g.now)
    case Cleanup => |Live(g.memory, g.now)| != |g.memory|
  }

  function Referenced(g: Gateway, request: Request): Records {
    if !Saves(g, request) then g.reference
    else match request
      case Launch(key, record, _) => g.reference[key := record]
      case CloseTunnel(key) => g.reference - {key}
      case _ => g.reference
  }

  function Respond(g: Gateway, request: Request, outcome: Outcome): Response {
    var failed := Saves(g, request) && g.persistent && outcome.reached != Renamed;
    match request
    case Launch(_, _, _) => if !Saves(g, request) then BadRequest else if failed then SaveFailed else Created
    case CloseTunnel(_) => if !Saves(g, request) then NotFound else if failed then SaveFailed else Ok
    case Lookup(key) => if Saves(g, request) then Gone else if key in g.memory then Ok else NotFound
    case Cleanup => Ok
  }

  /** Serves one request up to the point its save reached. */
  function Served(g: Gateway, request: Request, reached: Reached): Gateway {
    var memory, reference := Changed(g, request), Referenced(g, request);
    if !Saves(g, request) then g.(memory := memory)
    else if g.persistent && reached == Renamed then
      g.(memory := memory, reference := reference, disk := SaveUpTo(g.disk, memory, Renamed),
         saved := reference, unsaved := false)
    else
      g.(memory := memory, reference := reference,
         disk := if g.persistent then SaveUpTo(g.disk, memory, reached) else g.disk,
         unsaved := g.unsaved || request.Launch? || request.CloseTunnel?)
  }

  /** A crash loses the memory; what the reference stands for from then on is what was saved. */
  function Restarted(g: Gateway): Gateway {
    g.(memory := Load(g.disk, g.now), reference := g.saved, unsaved := false)
  }

  function Next(g: Gateway, step: Step): Gateway {
    match step
    case Tick(seconds) => g.(now := g.now + seconds)
    case Serve(request, outcome) =>
      var served := Served(g, request, outcome.reached);
      if outcome.crash then Restarted(served) else served
  }

  function Exec(g: Gateway, steps: seq<Step>): Gateway {
    if steps == [] then g else Next(Exec(g, steps[..|steps| - 1]), steps[|steps| - 1])
  }

  // ---------- the registry as the handlers change it ----------

  /** The shared state a request leaves behind. */
  function Handled(g: Gateway, request: Request, reached: Reached): (Records, Disk) {
    (Served(g, request, reached).memory, Served(g, request, reached).disk)
  }

  class TunnelRegistry {
    const persistent: bool
    var memory: Records
    var disk: Disk

    constructor (persistent: bool, disk: Disk, now: nat)
      ensures this.persistent == persistent && this.disk == disk
      ensures memory == if persistent then Load(disk, now) else map[]
    {
      this.persistent := persistent;
      this.disk := disk;
      memory := if persistent then Load(disk, now) else map[];
    }

    ghost function At(now: nat): Gateway
      reads this
    {
      Gateway(persistent, memory, disk, now, map[], map[], false)
    }

    /** Temporary file first, then the rename; `reached` says where it stopped. */
    method Persist(reached: Reached) returns (ok: bool)
      modifies this`disk
      ensures ok == (!persistent || reached == Renamed)
      ensures disk == if persistent then SaveUpTo(old(disk), memory, reached) else old(disk)
    {
      if !persistent {
        return true;
      }
      match reached {
        case NotStarted => return false;
        case WritingTemp =>
          disk := disk.(temp := Partial);
          return false;
        case TempWritten =>
          disk := disk.(temp := Whole(memory));
          return false;
        case Renamed =>
          disk := disk.(temp := Whole(memory));
          disk := Disk(Some(disk.temp.content), Absent);
          return true;
      }
    }

    method LaunchTunnel(key: Key, record: Record, valid: bool, now: nat, reached: Reached) returns (r: Response)
      modifies this
      ensures (memory, disk) == Handled(old(At(now)), Launch(key, record, valid), reached)
      ensures r == Respond(old(At(now)), Launch(key, record, valid), Outcome(reached, false))
    {
      if !valid || Expired(record, now) {
        return BadRequest;
      }
      memory := memory[key := record];
      var ok := Persist(reached);
      r := if ok then Created else SaveFailed;
    }

    method CloseTunnel(key: Key, now: nat, reached: Reached) returns (r: Response)
      modifies this
      ensures (memory, disk) == Handled(old(At(now)), Request.CloseTunnel(key), reached)
      ensures r == Respond(old(At(now)), Request.CloseTunnel(key), Outcome(reached, false))
    {
      if key !in memory {
        assert memory - {key} == memory;
        return NotFound;
      }
      memory := memory - {key};
      var ok := Persist(reached);
      r := if ok then Ok else SaveFailed;
    }

    /** A failed save of an expiry removal is only logged. */
    method ActiveRecord(key: Key, now: nat, reached: Reached) returns (r: Response)
      modifies this
      ensures (memory, disk) == Handled(old(At(now)), Lookup(key), reached)
      ensures r == Respond(old(At(now)), Lookup(key), Outcome(reached, false))
    {
      if key !in memory {
        return NotFound;
      }
      if !Expired(memory[key], now) {
        return Ok;
      }
      memory := memory - {key};
      var _ := Persist(reached);
      r := Gone;
    }

    method RemoveExpired(now: nat, reached: Reached)
      modifies this
      ensures (memory, disk) == Handled(old(At(now)), Cleanup, reached)
    {
      var before := |memory|;
      memory := map key | key in memory && !Expired(memory[key], now) :: memory[key];
      if |memory| != before {
        var _ := Persist(reached);
      }
    }
  }

  // ---------- the invariant ----------

  function OnDisk(g: Gateway): Records {
    if g.disk.file.None? then map[] else g.disk.file.value
  }

  /** Two registries that nobody can tell apart from `now` on. */
  predicate Same(a: Records, b: Records, now: nat) {
    Live(a, now) == Live(b, now)
  }

  predicate Inv(g: Gateway) {
    && Same(g.memory, g.reference, g.now)
    && Same(OnDisk(g), g.saved, g.now)
    && (!g.unsaved ==> Same(g.saved, g.reference, g.now))
  }

  lemma LiveAt(m: Records, now: nat, key: Key)
    ensures key in Live(m, now) <==> key in m && !Expired(m[key], now)
    ensures key in Live(m, now) ==> Live(m, now)[key] == m[key]
  {
  }

  /** Once indistinguishable, always indistinguishable: expiry is for good. */
  lemma SameLater(a: Records, b: Records, now: nat, later: nat)
    requires Same(a, b, now) && now <= later
    ensures Same(a, b, later)
  {
    forall key
      ensures key in Live(a, later) <==> key in Live(b, later)
      ensures key in Live(a, later) ==> a[key] == b[key]
    {
      LiveAt(a, now, key);
      LiveAt(b, now, key);
    }
  }

  lemma LiveTwice(m: Records, now: nat)
    ensures Live(Live(m, now), now) == Live(m, now)
  {
  }

  lemma SameAfterSet(a: Records, b: Records, now: nat, key: Key, r: Record)
    requires Same(a, b, now)
    ensures Same(a[key := r], b[key := r], now)
  {
    var a', b' := a[key := r], b[key := r];
    forall k
      ensures k in Live(a', now) <==> k in Live(b', now)
      ensures k in Live(a', now) ==> a'[k] == b'[k]
    {
      LiveAt(a, now, k);
      LiveAt(b, now, k);
    }
  }

  lemma SameAfterRemove(a: Records, b: Records, now: nat, key: Key)
    requires Same(a, b, now)
    ensures Same(a - {key}, b - {key}, now)
  {
    var a', b' := a - {key}, b - {key};
    forall k
      ensures k in Live(a', now) <==> k in Live(b', now)
      ensures k in Live(a', now) ==> a'[k] == b'[k]
    {
      LiveAt(a, now, k);
      LiveAt(b, now, k);
    }
  }

  lemma RemoveExpiredIsSame(a: Records, now: nat, key: Key)
    requires key in a ==> Expired(a[key], now)
    ensures Same(a - {key}, a, now)
  {
  }

  /** The in-memory change of any request and its effect on the reference agree. */
  lemma ChangesAgree(g: Gateway, request: Request)
    requires Inv(g)
    ensures Same(Changed(g, request), Referenced(g, request), g.now)
  {
    match request
    case Launch(key, record, valid) =>
      if Saves(g, request) {
        SameAfterSet(g.memory, g.reference, g.now, key, record);
      }
    case CloseTunnel(key) =>
      if Saves(g, request) {
        SameAfterRemove(g.memory, g.reference, g.now, key);
      } else {
        assert g.memory - {key} == g.memory;
      }
    case Lookup(key) =>
      if Saves(g, request) {
        RemoveExpiredIsSame(g.memory, g.now, key);
      }
    case Cleanup => LiveTwice(g.memory, g.now);
  }

  lemma ServedKeepsInv(g: Gateway, request: Request, reached: Reached)
    requires Inv(g)
    ensures Inv(Served(g, request, reached))
  {
    ChangesAgree(g, request);
    CleanupWithoutSave(g, request);
  }

  lemma CleanupWithoutSave(g: Gateway, request: Request)
    ensures !Saves(g, request) ==> Same(Changed(g, request), g.memory, g.now)
  {
  }

  lemma RestartKeepsInv(g: Gateway)
    requires Inv(g)
    ensures Inv(Restarted(g))
  {
  }

  lemma StepKeepsInv(g: Gateway, step: Step)
    requires Inv(g)
    ensures Inv(Next(g, step))
  {
    match step
    case Tick(seconds) =>
      SameLater(g.memory, g.reference, g.now, g.now + seconds);
      SameLater(OnDisk(g), g.saved, g.now, g.now + seconds);
      if !g.unsaved {
        SameLater(g.saved, g.reference, g.now, g.now + seconds);
      }
    case Serve(request, outcome) =>
      ServedKeepsInv(g, request, outcome.reached);
      if outcome.crash {
        RestartKeepsInv(Served(g, request, outcome.reached));
      }
  }

  lemma {:induction false} RunsKeepInv(persistent: bool, start: nat, steps: seq<Step>)
    ensures Inv(Exec(Init(persistent, start), steps))
  {
    if steps != [] {
      RunsKeepInv(persistent, start, steps[..|steps| - 1]);
      StepKeepsInv(Exec(Init(persistent, start), steps[..|steps| - 1]), steps[|steps| - 1]);
    }
  }

  // ---------- results ----------

  function SecondsOf(step: Step): nat {
    if step.Tick? then step.seconds else 0
  }

  /** The clock moves by the ticks alone, and no crash sets it back. */
  lemma {:induction false} ClockIsTicks(g: Gateway, steps: seq<Step>)
    ensures Exec(g, steps).now == g.now + Sum(SecondsOf, steps)
  {
    if steps != [] {
      ClockIsTicks(g, steps[..|steps| - 1]);
    }
  }

  /** Over every run, crashes included: a tunnel answers exactly when the never-cleaned reference still
      has an unexpired record for it, with that record, and a listing is that reference filtered. */
  lemma LookupsAreExact(persistent: bool, start: nat, steps: seq<Step>, key: Key, outcome: Outcome)
    ensures var g := Exec(Init(persistent, start), steps);
            && (Respond(g, Lookup(key), outcome) == Ok <==> key in g.reference && !Expired(g.reference[key], g.now))
            && (Respond(g, Lookup(key), outcome) == Ok ==> g.memory[key] == g.reference[key])
            && Changed(g, Cleanup) == Live(g.reference, g.now)
  {
    RunsKeepInv(persistent, start, steps);
    LookupByReference(Exec(Init(persistent, start), steps), key, outcome);
  }

  /** The state file, read now, holds what is in memory. */
  predicate DiskAgrees(g: Gateway) {
    Load(g.disk, g.now) == Live(g.memory, g.now)
  }

  /** A lookup that finds an expired record says so once and drops it; afterwards, as for a key that was never
      there, there is nothing to be found. */
  lemma ExpiredIsGoneOnce(g: Gateway, key: Key, reached: Reached, outcome: Outcome)
    ensures Respond(g, Lookup(key), outcome) == NotFound <==> key !in g.memory
    ensures Respond(g, Lookup(key), outcome) == Gone
       <==> key in g.memory && g.memory[key].expires.Some? && g.memory[key].expires.value <= g.now
    ensures Respond(g, Lookup(key), outcome) == Gone ==>
              var after := Served(g, Lookup(key), reached);
              after.memory == g.memory - {key} && Respond(after, Lookup(key), outcome) == NotFound
  {
  }

  /** A crash after the rename restores the reference of just after the request. A crash that comes earlier,
      or in a request that saves nothing, restores the reference of just before it exactly when the state file
      agreed with the memory then, and that of just after it exactly when it agrees with the memory by then.
      The file agrees whenever no launch or close has gone unsaved. */
  lemma CrashRestoresBeforeOrAfter(start: nat, steps: seq<Step>, request: Request, reached: Reached)
    ensures var g := Exec(Init(true, start), steps);
            var restored := Next(g, Serve(request, Outcome(reached, true))).memory;
            && (if reached == Renamed && Saves(g, request) then restored == Live(Referenced(g, request), g.now)
                else
                  && (restored == Live(g.reference, g.now) <==> DiskAgrees(g))
                  && (restored == Live(Referenced(g, request), g.now) <==>
                        Load(g.disk, g.now) == Live(Changed(g, request), g.now)))
            && (!g.unsaved ==> DiskAgrees(g))
  {
    RunsKeepInv(true, start, steps);
    var g := Exec(Init(true, start), steps);
    AlwaysPersistent(Init(true, start), steps);
    ServedKeepsInv(g, request, reached);
    ChangesAgree(g, request);
    LoadIsLive(g);
  }

  lemma LoadIsLive(g: Gateway)
    ensures Load(g.disk, g.now) == Live(OnDisk(g), g.now)
  {
    assert Live(map[], g.now) == map[];
  }

  /** A launch or close answered with a save error, in a step without a crash. */
  predicate FailedAt(g: Gateway, step: Step) {
    step.Serve? && !step.outcome.crash && Respond(g, step.request, step.outcome) == SaveFailed
  }

  predicate SavedAt(g: Gateway, step: Step) {
    step.Serve? && Saves(g, step.request) && step.outcome.reached == Renamed
  }

  predicate SettledAt(g: Gateway, step: Step) {
    SavedAt(g, step) || (step.Serve? && step.outcome.crash)
  }

  /** The state the k-th step finds. */
  function Before(start: nat, steps: seq<Step>, k: nat): Gateway
    requires k <= |steps|
  {
    Exec(Init(true, start), steps[..k])
  }

  /** Step k failed to save, and nothing has been saved and no restart has come since. */
  predicate LastFailure(start: nat, steps: seq<Step>, k: nat)
    requires k < |steps|
  {
    && FailedAt(Before(start, steps, k), steps[k])
    && forall j :: k < j < |steps| ==> !SettledAt(Before(start, steps, j), steps[j])
  }

  lemma UnsavedStep(g: Gateway, step: Step)
    requires g.persistent
    ensures Next(g, step).unsaved <==> FailedAt(g, step) || (g.unsaved && !SettledAt(g, step))
  {
  }

  lemma LastFailureSnoc(start: nat, steps: seq<Step>, k: nat)
    requires k < |steps| - 1
    ensures var last := |steps| - 1;
            LastFailure(start, steps, k)
            <==> LastFailure(start, steps[..last], k) && !SettledAt(Before(start, steps, last), steps[last])
  {
    var init := steps[..|steps| - 1];
    assert forall j :: 0 <= j < |init| ==> init[j] == steps[j] && init[..j] == steps[..j];
    assert forall j :: 0 <= j < |init| ==> Before(start, init, j) == Before(start, steps, j);
  }

  /** What "unsaved" means to somebody who watches the answers: some launch or close was answered with a save
      error, and neither a successful save nor a restart has come since. */
  lemma {:induction false} UnsavedIff(start: nat, steps: seq<Step>)
    ensures Exec(Init(true, start), steps).unsaved <==> exists k :: 0 <= k < |steps| && LastFailure(start, steps, k)
  {
    if steps != [] {
      var last := |steps| - 1;
      var init := steps[..last];
      UnsavedIff(start, init);
      AlwaysPersistent(Init(true, start), init);
      UnsavedStep(Before(start, steps, last), steps[last]);
      assert LastFailure(start, steps, last) <==> FailedAt(Before(start, steps, last), steps[last]);
      forall k | 0 <= k < last
        ensures LastFailure(start, steps, k)
           <==> LastFailure(start, init, k) && !SettledAt(Before(start, steps, last), steps[last])
      {
        LastFailureSnoc(start, steps, k);
      }
    }
  }

  /** In general a crash restores the reference as of the last successful save. */
  lemma CrashRestoresSaved(start: nat, steps: seq<Step>, request: Request, reached: Reached)
    ensures var g := Exec(Init(true, start), steps);
            var served := Served(g, request, reached);
            && Restarted(served).memory == Live(served.saved, g.now)
            && (reached != Renamed || !Saves(g, request) ==> served.saved == g.saved)
  {
    RunsKeepInv(true, start, steps);
    var g := Exec(Init(true, start), steps);
    ServedKeepsInv(g, request, reached);
    assert Live(map[], g.now) == map[];
  }

  /** Saving the removal of an expired record, or failing to, changes no answer. It changes what a restart
      finds exactly when it saves while the state file disagrees with the memory. */
  lemma ExpirySavesAreInvisible(start: nat, steps: seq<Step>, request: Request, reached: Reached)
    requires request.Lookup? || request.Cleanup?
    ensures var g := Exec(Init(true, start), steps);
            var served := Served(g, request, reached);
            && Same(served.memory, g.memory, g.now)
            && (Load(served.disk, g.now) == Load(g.disk, g.now) <==>
                  reached != Renamed || !Saves(g, request) || DiskAgrees(g))
  {
    RunsKeepInv(true, start, steps);
    var g := Exec(Init(true, start), steps);
    AlwaysPersistent(Init(true, start), steps);
    ServedKeepsInv(g, request, reached);
    LoadIsLive(g);
    LoadIsLive(Served(g, request, reached));
    assert Referenced(g, request) == g.reference;
  }

  lemma {:induction false} AlwaysPersistent(g: Gateway, steps: seq<Step>)
    ensures Exec(g, steps).persistent == g.persistent
  {
    if steps != [] {
      AlwaysPersistent(g, steps[..|steps| - 1]);
    }
  }

  // ---------- launches and closes whose save failed ----------

  /** A launch answered with a save error is in memory and serves traffic, a close answered with one is out
      of service, and the state file is as it was. */
  lemma FailedSaveStaysInMemory(start: nat, steps: seq<Step>, request: Request, reached: Reached, outcome: Outcome)
    requires Respond(Exec(Init(true, start), steps), request, Outcome(reached, false)) == SaveFailed
    ensures var g := Exec(Init(true, start), steps);
            var after := Served(g, request, reached);
            && (request.Launch? || request.CloseTunnel?)
            && (request.Launch? ==> after.memory == g.memory[request.key := request.record]
                                    && Respond(after, Lookup(request.key), outcome) == Ok)
            && (request.CloseTunnel? ==> after.memory == g.memory - {request.key}
                                         && Respond(after, Lookup(request.key), outcome) == NotFound)
            && Load(after.disk, g.now) == Load(g.disk, g.now)
  {
  }

  /** What a key stands for: its record, if it has one and that has not expired. */
  function Entry(m: Records, key: Key, now: nat): Option<Record> {
    if key in m && !Expired(m[key], now) then Some(m[key]) else None
  }

  /** No restart, and no launch or close of this key. */
  predicate LeavesAlone(step: Step, key: Key) {
    step.Serve? ==>
      && !step.outcome.crash
      && (step.request.Launch? || step.request.CloseTunnel? ==> step.request.key != key)
  }

  predicate SavedSince(g: Gateway, steps: seq<Step>) {
    exists k :: 0 <= k < |steps| && SavedAt(Exec(g, steps[..k]), steps[k])
  }

  lemma SavedSinceSnoc(g: Gateway, steps: seq<Step>)
    requires steps != []
    ensures var last := |steps| - 1;
            SavedSince(g, steps) <==> SavedSince(g, steps[..last]) || SavedAt(Exec(g, steps[..last]), steps[last])
  {
    var init := steps[..|steps| - 1];
    assert forall k :: 0 <= k < |init| ==> init[..k] == steps[..k];
    if SavedSince(g, init) {
      var k :| 0 <= k < |init| && SavedAt(Exec(g, init[..k]), init[k]);
      assert SavedAt(Exec(g, steps[..k]), steps[k]);
    }
  }

  /** Two maps with the same record, or none, at this key. */
  predicate AgreeAt(a: Records, b: Records, key: Key) {
    (key in a <==> key in b) && (key in a ==> a[key] == b[key])
  }

  lemma ReferenceLeftAlone(g: Gateway, request: Request, key: Key)
    requires request.Launch? || request.CloseTunnel? ==> request.key != key
    ensures AgreeAt(Referenced(g, request), g.reference, key)
  {
  }

  /** What serving does to the clock, the reference and its saved value. */
  lemma ServedFrame(g: Gateway, request: Request, reached: Reached)
    requires g.persistent
    ensures var next := Served(g, request, reached);
            && next.persistent && next.now == g.now && next.reference == Referenced(g, request)
            && next.saved == if Saves(g, request) && reached == Renamed then Referenced(g, request) else g.saved
  {
  }

  lemma StepLeavesAlone(g: Gateway, step: Step, key: Key)
    requires g.persistent && LeavesAlone(step, key)
    ensures var next := Next(g, step);
            && next.persistent && next.now >= g.now
            && AgreeAt(next.reference, g.reference, key)
            && AgreeAt(next.saved, if SavedAt(g, step) then g.reference else g.saved, key)
  {
    if step.Serve? {
      ReferenceLeftAlone(g, step.request, key);
      ServedFrame(g, step.request, step.outcome.reached);
    }
  }

  /** The reference keeps the key as it is, and the saved map takes it over with the first successful save. */
  lemma {:induction false} KeyUntilRestart(g: Gateway, later: seq<Step>, key: Key)
    requires g.persistent && forall step :: step in later ==> LeavesAlone(step, key)
    ensures var end := Exec(g, later);
            && end.persistent && end.now >= g.now
            && AgreeAt(end.reference, g.reference, key)
            && AgreeAt(end.saved, if SavedSince(g, later) then g.reference else g.saved, key)
  {
    if later != [] {
      var init, last := later[..|later| - 1], later[|later| - 1];
      KeyUntilRestart(g, init, key);
      StepLeavesAlone(Exec(g, init), last, key);
      SavedSinceSnoc(g, later);
    }
  }

  lemma {:induction false} InvLater(g: Gateway, later: seq<Step>)
    requires Inv(g)
    ensures Inv(Exec(g, later))
  {
    if later != [] {
      InvLater(g, later[..|later| - 1]);
      StepKeepsInv(Exec(g, later[..|later| - 1]), later[|later| - 1]);
    }
  }

  lemma SameEntry(a: Records, b: Records, now: nat, later: nat, key: Key)
    requires Same(a, b, now) && now <= later
    ensures Entry(a, key, later) == Entry(b, key, later)
  {
    LiveAt(a, now, key);
    LiveAt(b, now, key);
  }

  lemma RestartEntry(g: Gateway, key: Key)
    requires Inv(g)
    ensures Entry(Restarted(g).memory, key, g.now) == Entry(g.saved, key, g.now)
    ensures Entry(g.memory, key, g.now) == Entry(g.reference, key, g.now)
  {
    LoadIsLive(g);
    LiveAt(OnDisk(g), g.now, key);
    SameEntry(OnDisk(g), g.saved, g.now, g.now, key);
    SameEntry(g.memory, g.reference, g.now, g.now, key);
  }

  /** After a launch or close of a key was answered with a save error, and as long as the key is left alone,
      the memory stands by the request until the record expires. A restart brings that back if a save has
      succeeded since, whatever it was for; otherwise it brings back what the state file held before. So it
      undoes the request exactly when no save succeeded and the file said something else. */
  lemma RestartAfterFailedSave(start: nat, steps: seq<Step>, request: Request, reached: Reached, later: seq<Step>)
    requires Respond(Exec(Init(true, start), steps), request, Outcome(reached, false)) == SaveFailed
    requires request.Launch? || request.CloseTunnel?
    requires forall step :: step in later ==> LeavesAlone(step, request.key)
    ensures var g := Exec(Init(true, start), steps);
            var after := Served(g, request, reached);
            var end := Exec(after, later);
            var memory := Entry(end.memory, request.key, end.now);
            var restored := Entry(Restarted(end).memory, request.key, end.now);
            var before := Entry(Load(g.disk, g.now), request.key, end.now);
            && memory == (if request.Launch? && !Expired(request.record, end.now) then Some(request.record) else None)
            && restored == (if SavedSince(after, later) then memory else before)
            && (restored != memory <==> !SavedSince(after, later) && before != memory)
  {
    var g := Exec(Init(true, start), steps);
    var after := Served(g, request, reached);
    var end := Exec(after, later);
    var key := request.key;
    RunsKeepInv(true, start, steps);
    AlwaysPersistent(Init(true, start), steps);
    ServedKeepsInv(g, request, reached);
    InvLater(after, later);
    KeyUntilRestart(after, later, key);
    RestartEntry(end, key);
    LoadIsLive(g);
    LiveTwice(OnDisk(g), g.now);
    SameEntry(Load(g.disk, g.now), g.saved, g.now, end.now, key);
  }

  // ---------- how long a launch or close lasts ----------

  lemma {:induction false} ReferenceUntilRestart(g: Gateway, later: seq<Step>, key: Key)
    requires forall step :: step in later ==> LeavesAlone(step, key)
    ensures Exec(g, later).now >= g.now && AgreeAt(Exec(g, later).reference, g.reference, key)
  {
    if later != [] {
      var init, last := later[..|later| - 1], later[|later| - 1];
      ReferenceUntilRestart(g, init, key);
      ReferenceAfterStep(Exec(g, init), last, key);
    }
  }

  lemma ReferenceAfterStep(g: Gateway, step: Step, key: Key)
    requires LeavesAlone(step, key)
    ensures Next(g, step).now >= g.now && AgreeAt(Next(g, step).reference, g.reference, key)
  {
    if step.Serve? {
      ReferenceLeftAlone(g, step.request, key);
    }
  }

  lemma LookupByReference(g: Gateway, key: Key, outcome: Outcome)
    requires Inv(g)
    ensures Respond(g, Lookup(key), outcome) == Ok <==> key in g.reference && !Expired(g.reference[key], g.now)
    ensures Respond(g, Lookup(key), outcome) == Ok ==> g.memory[key] == g.reference[key]
  {
    LiveAt(g.memory, g.now, key);
    LiveAt(g.reference, g.now, key);
  }

  /** A launch is refused, without any effect, exactly when it is invalid or its expiry is not in the future.
      Otherwise, saved or not, the tunnel answers with this record exactly until its expiry, whatever else is
      requested, until its key is launched or closed again or the gateway restarts. */
  lemma LaunchAnswersUntilExpiry(persistent: bool, start: nat, steps: seq<Step>, key: Key, record: Record,
                                 valid: bool, reached: Reached, later: seq<Step>, outcome: Outcome)
    requires forall step :: step in later ==> LeavesAlone(step, key)
    ensures var g := Exec(Init(persistent, start), steps);
            var after := Served(g, Launch(key, record, valid), reached);
            var end := Exec(after, later);
            if !valid || (record.expires.Some? && record.expires.value <= g.now)
            then Respond(g, Launch(key, record, valid), outcome) == BadRequest && after == g
            else
              && Respond(g, Launch(key, record, valid), outcome) != BadRequest
              && (Respond(end, Lookup(key), outcome) == Ok
                  <==> record.expires.None? || end.now < record.expires.value)
              && (Respond(end, Lookup(key), outcome) == Ok ==> end.memory[key] == record)
  {
    RunsKeepInv(persistent, start, steps);
    var g := Exec(Init(persistent, start), steps);
    var request := Launch(key, record, valid);
    if Saves(g, request) {
      var after := Served(g, request, reached);
      ServedKeepsInv(g, request, reached);
      InvLater(after, later);
      ReferenceUntilRestart(after, later, key);
      LookupByReference(Exec(after, later), key, outcome);
    }
  }

  /** A close is turned down exactly when the key is not in the registry. After it the tunnel does not answer,
      until its key is launched again or the gateway restarts. */
  lemma CloseSilences(persistent: bool, start: nat, steps: seq<Step>, key: Key, reached: Reached, later: seq<Step>,
                      outcome: Outcome)
    requires forall step :: step in later ==> LeavesAlone(step, key)
    ensures var g := Exec(Init(persistent, start), steps);
            var end := Exec(Served(g, CloseTunnel(key), reached), later);
            && (Respond(g, CloseTunnel(key), outcome) == NotFound <==> key !in g.memory)
            && Respond(end, Lookup(key), outcome) != Ok
  {
    RunsKeepInv(persistent, start, steps);
    var g := Exec(Init(persistent, start), steps);
    var after := Served(g, CloseTunnel(key), reached);
    ServedKeepsInv(g, CloseTunnel(key), reached);
    InvLater(after, later);
    ReferenceUntilRestart(after, later, key);
    LookupByReference(Exec(after, later), key, outcome);
    LookupByReference(g, key, outcome);
  }

  /** No launch or close of this key; the gateway may restart. */
  predicate KeepsKey(step: Step, key: Key) {
    step.Serve? && (step.request.Launch? || step.request.CloseTunnel?) ==> step.request.key != key
  }

  lemma SavedKeyStays(g: Gateway, step: Step, key: Key)
    requires g.persistent && AgreeAt(g.saved, g.reference, key) && KeepsKey(step, key)
    ensures var next := Next(g, step);
            && next.persistent && next.now >= g.now
            && AgreeAt(next.reference, g.reference, key) && AgreeAt(next.saved, g.reference, key)
  {
    if step.Serve? {
      ReferenceLeftAlone(g, step.request, key);
      ServedFrame(g, step.request, step.outcome.reached);
    }
  }

  lemma {:induction false} SavedKeyLasts(g: Gateway, later: seq<Step>, key: Key)
    requires g.persistent && AgreeAt(g.saved, g.reference, key)
    requires forall step :: step in later ==> KeepsKey(step, key)
    ensures var end := Exec(g, later);
            && end.persistent && end.now >= g.now
            && AgreeAt(end.reference, g.reference, key) && AgreeAt(end.saved, g.reference, key)
  {
    if later != [] {
      SavedKeyLasts(g, later[..|later| - 1], key);
      SavedKeyStays(Exec(g, later[..|later| - 1]), later[|later| - 1], key);
    }
  }

  /** What was answered with success is durable: through any number of restarts, crashes in the middle of other
      requests and failed saves, a launched tunnel answers exactly until its expiry, and a closed one does not
      answer, until its key is launched or closed again. */
  lemma SuccessIsDurable(start: nat, steps: seq<Step>, request: Request, later: seq<Step>, outcome: Outcome)
    requires request.Launch? || request.CloseTunnel?
    requires Respond(Exec(Init(true, start), steps), request, Outcome(Renamed, false)) in {Created, Ok}
    requires forall step :: step in later ==> KeepsKey(step, request.key)
    ensures var g := Exec(Init(true, start), steps);
            var end := Exec(Served(g, request, Renamed), later);
            Respond(end, Lookup(request.key), outcome) == Ok
            <==> request.Launch? && (request.record.expires.None? || end.now < request.record.expires.value)
  {
    RunsKeepInv(true, start, steps);
    AlwaysPersistent(Init(true, start), steps);
    var g := Exec(Init(true, start), steps);
    var after := Served(g, request, Renamed);
    ServedKeepsInv(g, request, Renamed);
    ServedFrame(g, request, Renamed);
    InvLater(after, later);
    SavedKeyLasts(after, later, request.key);
    LookupByReference(Exec(after, later), request.key, outcome);
  }

  /** A failed launch and an immediate restart, then the same with a successful launch in between. */
  lemma FailedLaunchServesUntilCrash(key: Key, other: Key, details: string)
    requires key != other
    ensures var record := Record(None, details);
            var failed := Next(Init(true, 0), Serve(Launch(key, record, true), Outcome(TempWritten, false)));
            var saved := Next(failed, Serve(Launch(other, record, true), Outcome(Renamed, false)));
            && Respond(Init(true, 0), Launch(key, record, true), Outcome(TempWritten, false)) == SaveFailed
            && Respond(failed, Lookup(key), Outcome(NotStarted, false)) == Ok
            && failed.unsaved
            && key !in Next(failed, Serve(Cleanup, Outcome(NotStarted, true))).memory
            && key in Next(saved, Serve(Cleanup, Outcome(NotStarted, true))).memory
  {
  }
}
