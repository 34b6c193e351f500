/** Importing into a bundle file with a checkpoint beside it: the step order of
    ImportChatlog/ImportOTel, checkpoint.go and checkpoint_integration.go. */
module Import {
  import opened Wrappers
  import opened Utf8
  import opened Json
  import opened HashChain
  import opened Manifest
  import opened Bundle
  import opened BundleFile
  import opened Reconcile

  const SNAPSHOT_TYPE := "atb.snapshot"
  const PROVENANCE_KEY := "bundle_provenance"
  const PROVENANCE := "retrospective-import"

  datatype Source = Source(system: string, stream: string, adapter: string, adapterVersion: string, incarnation: string)

  /** The parts of `Checkpoint` that are checked or bound. */
  datatype Checkpoint = Checkpoint(source: Source, position: string, processed: nat, headHash: string, recordCount: nat)

  predicate Agree(a: string, b: string)
  {
    a == "" || b == "" || a == b
  }

  /** `Checkpoint.Validate` */
  predicate SourceMatches(c: Checkpoint, s: Source)
  {
    c.source.system == s.system && c.source.stream == s.stream && c.source.adapter == s.adapter &&
    Agree(s.adapterVersion, c.source.adapterVersion) && Agree(s.incarnation, c.source.incarnation)
  }

  /** Which sources a checkpoint is refused for: another system, stream or adapter, or an adapter
      version or source incarnation that both name and that differ. */
  lemma SourceRefused(c: Checkpoint, s: Source)
    ensures !SourceMatches(c, s) <==>
            c.source.system != s.system || c.source.stream != s.stream || c.source.adapter != s.adapter ||
            (c.source.adapterVersion != s.adapterVersion && c.source.adapterVersion != "" && s.adapterVersion != "") ||
            (c.source.incarnation != s.incarnation && c.source.incarnation != "" && s.incarnation != "")
  {
  }

  /** `Checkpoint.ValidateBundle`: a bound checkpoint must name this head and count. */
  predicate BundleMatches(c: Checkpoint, records: seq<Record>)
  {
    c.headHash == "" || (c.headHash == Head(records) && c.recordCount == |records|)
  }

  /** `BindBundle` */
  function Bind(c: Checkpoint, records: seq<Record>): Checkpoint
  {
    c.(headHash := Head(records), recordCount := |records|)
  }

  // ----- disk -----

  /** A checkpoint file that loads, or one that does not. */
  datatype CheckpointFile = Stored(checkpoint: Checkpoint) | Damaged

  /** The bytes of the bundle file, if there is one, and the checkpoint files. */
  datatype Disk = Disk(bundle: Option<Bytes>, checkpoints: map<string, CheckpointFile>)

  /** One import: where its checkpoint is, what it claims to continue, and its events. The
      creation values and clock come from outside, and whether the bundle file can be read at all. */
  datatype Request = Request(
    checkpointPath: string, source: Source, continuing: bool, reconcile: bool,
    events: seq<ImportEvent>, position: string,
    createdAt: string, bundleId: string, now: nat -> string, readOk: bool)
  {
    predicate Reconciling() { continuing || reconcile }
  }

  datatype ImportError =
    | CheckpointUnreadable | SourceMismatch | BundleUnreadable | CannotCreate | Tampered | BindingMismatch
    | ProfileRefused | AppendRefused | Interrupted

  /** `LoadOrCreate`; nothing if the checkpoint file does not load. */
  function CheckpointFor(d: Disk, q: Request): Option<Checkpoint>
  {
    if q.checkpointPath !in d.checkpoints then Some(Checkpoint(q.source, "start", 0, "", 0))
    else
      match d.checkpoints[q.checkpointPath]
      case Damaged => None
      case Stored(c) => Some(c)
  }

  /** `loadSnapshotBundle` and the provenance stamp: the records to work on, and whether they are new. */
  function Opened(env: Env, d: Disk, q: Request): Result<(seq<Record>, bool), ImportError>
  {
    match d.bundle
    case Some(data) =>
      (match Load(env.host, env.codec, DEFAULT_LIMITS, data)
       case Err(_) => Err(BundleUnreadable)
       case Ok(ls) => if q.readOk then Ok((Records(ls), false)) else Err(BundleUnreadable))
    case None =>
      var made := NewRecords(env.host, 3, q.createdAt, q.bundleId, "");
      if made.Err? then Err(CannotCreate)
      else
        var stamped := Stamped(env.host, made.value, PROVENANCE_KEY, PROVENANCE);
        if stamped.Err? then Err(CannotCreate) else Ok((stamped.value, true))
  }

  /** The records an import works on once every check before planning has passed. */
  ghost function Ready(env: Env, d: Disk, q: Request): Result<(seq<Record>, bool), ImportError>
  {
    var found := CheckpointFor(d, q);
    if found.None? then Err(CheckpointUnreadable)
    else if q.Reconciling() && !SourceMatches(found.value, q.source) then Err(SourceMismatch)
    else
      var o := Opened(env, d, q);
      if o.Err? then Err(o.error)
      else
        var (records, created) := o.value;
        if q.Reconciling() && !created && !Verifies(env.host.sha, records) then Err(Tampered)
        else if q.Reconciling() && !BundleMatches(found.value, records) then Err(BindingMismatch)
        else Ok((records, created))
  }

  /** `writesAcquisition` */
  predicate WritesAcquisition(actions: seq<Action>)
  {
    exists i | 0 <= i < |actions| :: !actions[i].skip && actions[i].event.acquisition.Some?
  }

  function PlanFor(q: Request, records: seq<Record>): seq<Action>
  {
    Plan(if q.Reconciling() then LoadKnown(records) else map[], q.Reconciling(), q.events)
  }

  predicate ProfileOk(h: Host, records: seq<Record>, created: bool)
  {
    created || (HasManifest(records) && DeclaresV3(h, records[0]))
  }

  /** The bundle and checkpoint an import saves, in that order, or why it saves nothing. */
  ghost function Imported(env: Env, d: Disk, q: Request): Result<(seq<Record>, Checkpoint), ImportError>
  {
    var ready := Ready(env, d, q);
    if ready.Err? then Err(ready.error)
    else
      var (records, created) := ready.value;
      var actions := PlanFor(q, records);
      if WritesAcquisition(actions) && !ProfileOk(env.host, records, created) then Err(ProfileRefused)
      else
        var applied := ApplyAll(env.host, records, CallsOf(actions, q.now, |actions|));
        if applied.Err? then Err(AppendRefused)
        else
          var cp := CheckpointFor(d, q).value.(position := q.position, processed := CountWritten(actions, |actions|));
          Ok((applied.value, Bind(cp, applied.value)))
  }

  // ----- writing -----

  /** One write to the directory; each replaces a whole file. */
  datatype Effect = WriteBundle(records: seq<Record>) | WriteCheckpoint(path: string, checkpoint: Checkpoint)

  /** The directory, and every bundle this program has saved into it. */
  datatype State = State(disk: Disk, committed: set<seq<Record>>)

  ghost function PerformOne(env: Env, s: State, e: Effect): State
  {
    match e
    case WriteBundle(records) => State(s.disk.(bundle := Some(SaveBytes(env.codec, records))), s.committed + {records})
    case WriteCheckpoint(path, c) => State(s.disk.(checkpoints := s.disk.checkpoints[path := Stored(c)]), s.committed)
  }

  ghost function Perform(env: Env, s: State, effects: seq<Effect>): State
    decreases |effects|
  {
    if effects == [] then s else Perform(env, PerformOne(env, s, effects[0]), effects[1..])
  }

  /** What is done of `effects` when only `left` more writes happen: a run may die or a write may
      fail, before or after taking effect, and nothing is written after that. */
  function Done(effects: seq<Effect>, left: nat): seq<Effect>
  {
    if left < |effects| then effects[..left] else effects
  }

  /** The writes of an import, in their order. */
  ghost function ImportEffects(env: Env, d: Disk, q: Request): seq<Effect>
  {
    match Imported(env, d, q)
    case Err(_) => []
    case Ok((records, c)) => [WriteBundle(records), WriteCheckpoint(q.checkpointPath, c)]
  }

  function SnapshotRecords(env: Env, d: Disk, data: Value, at: string): Option<seq<Record>>
  {
    if d.bundle.None? then None
    else
      match Load(env.host, env.codec, DEFAULT_LIMITS, d.bundle.value)
      case Err(_) => None
      case Ok(ls) =>
        match Appended(env.host, Records(ls), SNAPSHOT_TYPE, data, Some(NO_OPTIONS.(timestamp := at)))
        case Err(_) => None
        case Ok(longer) => Some(longer)
  }

  /** The writes of a snapshot: a record appended out of band, then `RebindBundleCheckpoint`, which
      writes nothing where no checkpoint loads. */
  function SnapshotEffects(env: Env, d: Disk, path: string, data: Value, at: string): seq<Effect>
  {
    match SnapshotRecords(env, d, data, at)
    case None => []
    case Some(longer) =>
      if path in d.checkpoints && d.checkpoints[path].Stored?
      then [WriteBundle(longer), WriteCheckpoint(path, Bind(d.checkpoints[path].checkpoint, longer))]
      else [WriteBundle(longer)]
  }

  // ----- the import, step by step -----

  /** The directory holding the bundle and its checkpoints, in which `left` more writes happen. */
  class Store {
    var disk: Disk
    var left: nat
    ghost var committed: set<seq<Record>>

    ghost function Contents(): State
      reads this
    {
      State(disk, committed)
    }

    constructor (d: Disk, left: nat)
      ensures Contents() == State(d, {}) && this.left == left
    {
      this.disk, this.left, this.committed := d, left, {};
    }

    method SaveBundle(env: Env, records: seq<Record>) returns (done: bool)
      modifies this
      ensures done == (old(left) > 0)
      ensures if done then Contents() == PerformOne(env, old(Contents()), WriteBundle(records)) && left == old(left) - 1
              else Contents() == old(Contents()) && left == 0
    {
      var data := EncodeRecords(env.codec, records);
      if left == 0 {
        return false;
      }
      disk, committed, left := disk.(bundle := Some(data)), committed + {records}, left - 1;
      return true;
    }

    method SaveCheckpoint(ghost env: Env, path: string, c: Checkpoint) returns (done: bool)
      modifies this
      ensures done == (old(left) > 0)
      ensures if done
              then Contents() == PerformOne(env, old(Contents()), WriteCheckpoint(path, c)) && left == old(left) - 1
              else Contents() == old(Contents()) && left == 0
    {
      if left == 0 {
        return false;
      }
      disk, left := disk.(checkpoints := disk.checkpoints[path := Stored(c)]), left - 1;
      return true;
    }

    /** `RebindBundleCheckpoint` */
    method Rebind(ghost env: Env, path: string, records: seq<Record>)
      modifies this
      ensures var found := old(disk).checkpoints;
              Contents() ==
                if path in found && found[path].Stored? && old(left) > 0
                then PerformOne(env, old(Contents()), WriteCheckpoint(path, Bind(found[path].checkpoint, records)))
                else old(Contents())
    {
      if path !in disk.checkpoints || disk.checkpoints[path].Damaged? {
        return;
      }
      var done := SaveCheckpoint(env, path, Bind(disk.checkpoints[path].checkpoint, records));
    }
  }

  /** Doing two writes while writes are left. */
  lemma PerformTwo(env: Env, s: State, a: Effect, b: Effect)
    ensures Perform(env, s, []) == s && Perform(env, s, [a]) == PerformOne(env, s, a)
    ensures Perform(env, s, [a, b]) == PerformOne(env, PerformOne(env, s, a), b)
    ensures Done([a, b], 0) == [] && Done([a, b], 1) == [a] && Done([a], 0) == []
  {
    hide PerformOne;
    assert [a, b][1..] == [b] && [a][1..] == [] && [b][1..] == [];
    assert Perform(env, PerformOne(env, s, a), [b]) == PerformOne(env, PerformOne(env, s, a), b);
  }

  /** `loadSnapshotBundle` and `stampManifestProvenance` */
  method OpenBundle(env: Env, d: Disk, q: Request) returns (r: Result<(seq<Record>, bool), ImportError>)
    ensures r == Opened(env, d, q)
  {
    hide Load, NewRecords, Stamped;
    if d.bundle.Some? {
      var loaded := LoadReader(env.host, env.codec, DEFAULT_LIMITS, d.bundle.value);
      if loaded.Err? || !q.readOk {
        return Err(BundleUnreadable);
      }
      return Ok((Records(loaded.value), false));
    }
    var made := NewRecords(env.host, 3, q.createdAt, q.bundleId, "");
    if made.Err? {
      return Err(CannotCreate);
    }
    var b := new Bundle.Empty();
    b.records := made.value;
    var refused := b.StampManifestProvenance(env.host, PROVENANCE_KEY, PROVENANCE);
    if refused.Some? {
      return Err(CannotCreate);
    }
    return Ok((b.records, true));
  }

  /** The checks before planning: the checkpoint's source, the bundle, its chain, and the binding. */
  method CheckBeforePlan(env: Env, d: Disk, q: Request) returns (r: Result<(seq<Record>, bool), ImportError>)
    ensures r == Ready(env, d, q)
    ensures r.Ok? ==> CheckpointFor(d, q).Some?
  {
    hide Verifies, Opened;
    var found := CheckpointFor(d, q);
    if found.None? {
      return Err(CheckpointUnreadable);
    }
    var cp := found.value;
    if q.continuing || q.reconcile {
      if !SourceMatches(cp, q.source) {
        return Err(SourceMismatch);
      }
    }
    var o := OpenBundle(env, d, q);
    if o.Err? {
      return Err(o.error);
    }
    var (records, created) := o.value;
    if q.continuing || q.reconcile {
      if !created {
        var b := new Bundle.Empty();
        b.records := records;
        var fault := b.Verify(env.host.sha);
        if fault.Some? {
          return Err(Tampered);
        }
      }
      if !BundleMatches(cp, records) {
        return Err(BindingMismatch);
      }
    }
    return Ok((records, created));
  }

  /** Reconciliation against what the bundle holds, or against nothing. */
  method PlanImport(q: Request, records: seq<Record>) returns (actions: seq<Action>)
    ensures actions == PlanFor(q, records)
  {
    hide LoadKnown, Plan;
    var reconciler := new Reconciler();
    if q.continuing || q.reconcile {
      reconciler.LoadFromBundle(records);
    }
    var counts;
    actions, counts := PlanReconciliation(q.events, reconciler, q.reconcile || q.continuing);
  }

  /** `ImportChatlog` from its mapped events up to its first write: check, plan, apply, bind. */
  method PrepareImport(env: Env, d: Disk, q: Request) returns (r: Result<(seq<Record>, Checkpoint), ImportError>)
    ensures r == Imported(env, d, q)
  {
    hide Ready, ApplyAll, CallsOf, PlanFor, ProfileOk, WritesAcquisition, BundleOk;
    var ready := CheckBeforePlan(env, d, q);
    if ready.Err? {
      return Err(ready.error);
    }
    var (records, created) := ready.value;
    var b := new Bundle.Empty();
    b.records := records;
    var actions := PlanImport(q, records);
    if WritesAcquisition(actions) && !ProfileOk(env.host, b.records, created) {
      return Err(ProfileRefused);
    }
    var written, refused := ApplyReconciliation(env.host, b, actions, q.now);
    if refused.Some? {
      return Err(AppendRefused);
    }
    var cp := CheckpointFor(d, q).value.(position := q.position, processed := written);
    return Ok((b.records, Bind(cp, b.records)));
  }

  /** An existing bundle whose manifest does not declare version 3 takes no event with acquisition:
      the import is refused and writes nothing. */
  lemma OldProfileRefused(env: Env, d: Disk, q: Request, i: nat)
    requires Ready(env, d, q).Ok? && !Ready(env, d, q).value.1
    requires var was := Ready(env, d, q).value.0;
             was == [] || ParseManifest(env.host, was[0]).Err? || ParseManifest(env.host, was[0]).value.version != "3"
    requires i < |q.events| && q.events[i].acquisition.Some?
    requires !PlanFor(q, Ready(env, d, q).value.0)[i].skip
    ensures Imported(env, d, q) == Err(ProfileRefused) && ImportEffects(env, d, q) == []
  {
    hide Ready, ApplyAll, CallsOf, LoadKnown, ParseManifest, DecisionAt;
    var actions := PlanFor(q, Ready(env, d, q).value.0);
    assert actions[i].event == q.events[i];
  }

  /** `ImportChatlog`: prepare, save the bundle, then save the checkpoint bound to it. However many
      writes still happen, those that do are the first ones of `ImportEffects`. */
  method RunImport(env: Env, store: Store, q: Request) returns (err: Option<ImportError>)
    modifies store
    ensures store.Contents() ==
            Perform(env, old(store.Contents()), Done(ImportEffects(env, old(store.disk), q), old(store.left)))
    ensures err == (match Imported(env, old(store.disk), q)
                    case Ok(_) => if old(store.left) >= 2 then None else Some(Interrupted)
                    case Err(e) => Some(e))
  {
    hide Imported, PerformOne, Perform, Done;
    ghost var s := store.Contents();
    NoneDone(env, s, store.left);
    var prepared := PrepareImport(env, store.disk, q);
    if prepared.Err? {
      return Some(prepared.error);
    }
    var (records, cp) := prepared.value;
    PerformTwo(env, s, WriteBundle(records), WriteCheckpoint(q.checkpointPath, cp));
    AllDone(WriteBundle(records), WriteCheckpoint(q.checkpointPath, cp), store.left);
    var saved := store.SaveBundle(env, records);
    if !saved {
      return Some(Interrupted);
    }
    saved := store.SaveCheckpoint(env, q.checkpointPath, cp);
    if !saved {
      return Some(Interrupted);
    }
    return None;
  }

  lemma NoneDone(env: Env, s: State, left: nat)
    ensures Perform(env, s, Done([], left)) == s
  {
  }

  lemma AllDone(a: Effect, b: Effect, left: nat)
    ensures left >= 2 ==> Done([a, b], left) == [a, b]
    ensures left >= 1 ==> Done([a], left) == [a]
  {
  }

  /** A snapshot: load, append, save, rebind. */
  method RunSnapshot(env: Env, store: Store, path: string, data: Value, at: string)
    modifies store
    ensures store.Contents() ==
            Perform(env, old(store.Contents()),
              Done(SnapshotEffects(env, old(store.disk), path, data, at), old(store.left)))
  {
    hide PerformOne, Perform, Done, Appended, BundleOk, Load;
    ghost var s := store.Contents();
    NoneDone(env, s, store.left);
    if store.disk.bundle.None? {
      return;
    }
    var loaded := LoadReader(env.host, env.codec, DEFAULT_LIMITS, store.disk.bundle.value);
    if loaded.Err? {
      return;
    }
    var b := new Bundle.Empty();
    b.records := Records(loaded.value);
    var refused := b.AppendWithOptions(env.host, SNAPSHOT_TYPE, data, Some(NO_OPTIONS.(timestamp := at)));
    if refused.Some? {
      return;
    }
    ghost var effects := SnapshotEffects(env, store.disk, path, data, at);
    assert effects[0] == WriteBundle(b.records);
    ghost var last := if |effects| == 2 then effects[1] else effects[0];
    PerformTwo(env, s, effects[0], last);
    AllDone(effects[0], last, store.left);
    BundleAlone(env, s, b.records);
    var saved := store.SaveBundle(env, b.records);
    if !saved {
      return;
    }
    store.Rebind(env, path, b.records);
  }

  lemma BundleAlone(env: Env, s: State, records: seq<Record>)
    ensures PerformOne(env, s, WriteBundle(records)).disk.checkpoints == s.disk.checkpoints
  {
  }

  // ----- runs -----

  /** What can happen to the directory, `Swap` and `Damage` being anything else that replaces the
      bundle file or spoils a checkpoint file. */
  datatype Step =
    | DoImport(q: Request, left: nat)
    | DoSnapshot(path: string, data: Value, at: string, left: nat)
    | Swap(b: Option<Bytes>)
    | Damage(path: string)

  ghost function Next(env: Env, s: State, step: Step): State
  {
    match step
    case DoImport(q, left) => Perform(env, s, Done(ImportEffects(env, s.disk, q), left))
    case DoSnapshot(path, data, at, left) => Perform(env, s, Done(SnapshotEffects(env, s.disk, path, data, at), left))
    case Swap(b) => s.(disk := s.disk.(bundle := b))
    case Damage(path) => s.(disk := s.disk.(checkpoints := s.disk.checkpoints[path := Damaged]))
  }

  ghost function Run(env: Env, s: State, steps: seq<Step>): State
    decreases |steps|
  {
    if steps == [] then s else Run(env, Next(env, s, steps[0]), steps[1..])
  }

  /** The checkpoint names the head and count of a bundle that was saved. */
  ghost predicate NamesCommitted(c: Checkpoint, committed: set<seq<Record>>)
  {
    c.headHash != "" ==> exists b | b in committed :: b != [] && Head(b) == c.headHash && |b| == c.recordCount
  }

  ghost predicate Inv(s: State)
  {
    forall p | p in s.disk.checkpoints && s.disk.checkpoints[p].Stored? ::
      NamesCommitted(s.disk.checkpoints[p].checkpoint, s.committed)
  }

  lemma {:induction false} MoreCommitted(c: Checkpoint, committed: set<seq<Record>>, b: seq<Record>)
    requires NamesCommitted(c, committed)
    ensures NamesCommitted(c, committed + {b})
  {
    if c.headHash != "" {
      var b' :| b' in committed && b' != [] && Head(b') == c.headHash && |b'| == c.recordCount;
      assert b' in committed + {b};
    }
  }

  lemma BundleKeeps(env: Env, s: State, records: seq<Record>)
    requires Inv(s)
    ensures Inv(PerformOne(env, s, WriteBundle(records)))
  {
    forall p | p in s.disk.checkpoints && s.disk.checkpoints[p].Stored?
      ensures NamesCommitted(s.disk.checkpoints[p].checkpoint, s.committed + {records})
    {
      MoreCommitted(s.disk.checkpoints[p].checkpoint, s.committed, records);
    }
  }

  /** A checkpoint may be written once its bundle has been. */
  lemma CheckpointKeeps(env: Env, s: State, records: seq<Record>, path: string, c: Checkpoint)
    requires Inv(s) && records in s.committed && c.headHash == Head(records) && c.recordCount == |records|
    ensures Inv(PerformOne(env, s, WriteCheckpoint(path, c)))
  {
  }

  /** Any number of the two writes in this order keep it: the bundle, then a checkpoint bound to it. */
  lemma WritesKeep(env: Env, s: State, records: seq<Record>, path: string, c: Checkpoint, left: nat)
    requires Inv(s) && c.headHash == Head(records) && c.recordCount == |records|
    ensures Inv(Perform(env, s, Done([WriteBundle(records), WriteCheckpoint(path, c)], left)))
    ensures Inv(Perform(env, s, Done([WriteBundle(records)], left)))
  {
    hide Inv, Perform, Done, Head;
    var a, b := WriteBundle(records), WriteCheckpoint(path, c);
    PerformTwo(env, s, a, b);
    AllDone(a, b, left);
    BundleKeeps(env, s, records);
    CheckpointKeeps(env, PerformOne(env, s, a), records, path, c);
  }

  lemma StepKeeps(env: Env, s: State, step: Step)
    requires Inv(s)
    ensures Inv(Next(env, s, step))
  {
    hide Inv, Perform, Done, Imported, NamesCommitted, SnapshotRecords, Head;
    match step
    case DoImport(q, left) =>
      NoneDone(env, s, left);
      if Imported(env, s.disk, q).Ok? {
        ImportBinds(env, s.disk, q);
        var (records, c) := Imported(env, s.disk, q).value;
        WritesKeep(env, s, records, q.checkpointPath, c, left);
      }
    case DoSnapshot(path, data, at, left) =>
      NoneDone(env, s, left);
      if SnapshotRecords(env, s.disk, data, at).Some? {
        var longer := SnapshotRecords(env, s.disk, data, at).value;
        var stored := path in s.disk.checkpoints && s.disk.checkpoints[path].Stored?;
        var c := if stored then s.disk.checkpoints[path].checkpoint
                 else Checkpoint(Source("", "", "", "", ""), "", 0, "", 0);
        WritesKeep(env, s, longer, path, Bind(c, longer), left);
      }
    case Swap(b) => SwapKeeps(s, b);
    case Damage(p) => DamageKeeps(s, p);
  }

  lemma SwapKeeps(s: State, b: Option<Bytes>)
    requires Inv(s)
    ensures Inv(s.(disk := s.disk.(bundle := b)))
  {
  }

  lemma DamageKeeps(s: State, path: string)
    requires Inv(s)
    ensures Inv(s.(disk := s.disk.(checkpoints := s.disk.checkpoints[path := Damaged])))
  {
  }

  lemma ImportBinds(env: Env, d: Disk, q: Request)
    requires Imported(env, d, q).Ok?
    ensures var (records, c) := Imported(env, d, q).value; c.headHash == Head(records) && c.recordCount == |records|
  {
    hide Ready, PlanFor, ApplyAll, CallsOf, ProfileOk, Head;
  }

  /** In any run of imports, snapshots, swaps and damage, each cut off before any of its writes, every bound
      checkpoint on disk names the head and record count of a bundle that had been saved. */
  lemma {:induction false} CheckpointsNameCommitted(env: Env, s: State, steps: seq<Step>)
    requires Inv(s)
    ensures Inv(Run(env, s, steps))
    decreases |steps|
  {
    hide Inv, Next;
    if steps != [] {
      StepKeeps(env, s, steps[0]);
      CheckpointsNameCommitted(env, Next(env, s, steps[0]), steps[1..]);
    }
  }

  /** The provenance a manifest was stamped with. */
  function Provenance(r: Record): Option<Value>
  {
    if r.event.data.Object? && "metadata" in r.event.data.fields && r.event.data.fields["metadata"].Object?
    then Get(r.event.data.fields["metadata"].fields, PROVENANCE_KEY) else None
  }

  /** Where there is no bundle, an import starts on one manifest record that declares version 3, is
      stamped as retrospective, and is a sound bundle. */
  lemma FreshVerifies(env: Env, d: Disk, q: Request)
    requires HostOk(env.host) && q.createdAt != "" && q.bundleId != "" && d.bundle.None?
    ensures Opened(env, d, q).Ok? && Opened(env, d, q).value.1
    ensures var records := Opened(env, d, q).value.0;
            |records| == 1 && BundleOk(env.host, records) && HasManifest(records) && DeclaresV3(env.host, records[0]) &&
            Provenance(records[0]) == Some(String(PROVENANCE))
  {
    hide BundleOk, Appended, ParseManifest, Compute, HostOk;
    var made := NewRecords(env.host, 3, q.createdAt, q.bundleId, "");
    NewKeeps(env.host, 3, q.createdAt, q.bundleId, "");
    FirstRecord(env.host, Object(ManifestFields(Number(TOKEN_3), q.createdAt, q.bundleId, "")), q.createdAt);
    assert !AllBlank(PROVENANCE_KEY) by { assert !IsBlank(PROVENANCE_KEY[0]); }
    StampKeeps(env.host, made.value, PROVENANCE_KEY, PROVENANCE);
  }

  /** A continuing import that gets past its checks on a bound checkpoint works, record for
      record, on the saved bundle `b` the checkpoint was bound to - whatever has happened to the
      file since - if `b` verifies; or `x` and `y` are a SHA-256 collision. */
  lemma ContinuesOnSameEvidence(env: Env, s: State, q: Request) returns (b: seq<Record>, x: Bytes, y: Bytes)
    requires HostOk(env.host) && q.createdAt != "" && q.bundleId != ""
    requires Inv(s) && q.Reconciling() && Ready(env, s.disk, q).Ok?
    requires CheckpointFor(s.disk, q).Some? && CheckpointFor(s.disk, q).value.headHash != ""
    ensures var c := CheckpointFor(s.disk, q).value;
            b in s.committed && Head(b) == c.headHash && |b| == c.recordCount
    ensures Verifies(env.host.sha, b) ==> Ready(env, s.disk, q).value.0 == b || Collision(env.host.sha, x, y)
  {
    hide Verifies, Opened, Head;
    var c := CheckpointFor(s.disk, q).value;
    assert NamesCommitted(s.disk.checkpoints[q.checkpointPath].checkpoint, s.committed);
    b :| b in s.committed && b != [] && Head(b) == c.headHash && |b| == c.recordCount;
    var records := Ready(env, s.disk, q).value.0;
    x, y := [], [];
    OpenedVerifies(env, s.disk, q);
    if Verifies(env.host.sha, b) {
      x, y := SameBundle(env.host.sha, records, b);
    }
  }

  lemma OpenedVerifies(env: Env, d: Disk, q: Request)
    requires HostOk(env.host) && q.createdAt != "" && q.bundleId != "" && q.Reconciling() && Ready(env, d, q).Ok?
    ensures Verifies(env.host.sha, Ready(env, d, q).value.0)
  {
    hide NewRecords, Stamped, Verifies;
    if d.bundle.None? {
      FreshVerifies(env, d, q);
    }
  }

  // ----- importing the same records again -----

  /** Importing the same source records again in a continuing or reconciling run, after an import
      that reached its bundle save and whether or not it reached its checkpoint save. It is refused
      exactly if the checkpoint then on disk does not load or is for another source, the saved
      bundle is beyond the limits of loading or cannot be read, it does not verify - as it did not
      before - or the checkpoint is bound to another bundle; that of a complete import does
      load and is not. Otherwise the second import writes the same bytes again. */
  lemma Reimport(env: Env, s: State, q: Request, left: nat, again: Request)
    requires EnvOk(env) && q.createdAt != "" && q.bundleId != "" && Imported(env, s.disk, q).Ok? && left >= 1
    requires CleanInput(q.events) && forall i | 0 <= i < |q.events| :: Identified(q.events[i])
    requires again.Reconciling() && SameSources(q.events, again.events)
    ensures var d, records := Next(env, s, DoImport(q, left)).disk, Imported(env, s.disk, q).value.0;
            var found, second := CheckpointFor(d, again), Imported(env, d, again);
            d.bundle == Some(SaveBytes(env.codec, records)) &&
            if found.None? then second == Err(CheckpointUnreadable)
            else if !SourceMatches(found.value, again.source) then second == Err(SourceMismatch)
            else if !again.readOk || !Fits(env.codec, records) then second == Err(BundleUnreadable)
            else if !Verifies(env.host.sha, records) then second == Err(Tampered)
            else if !BundleMatches(found.value, records) then second == Err(BindingMismatch)
            else second.Ok? && second.value.0 == records
    ensures var found := CheckpointFor(Next(env, s, DoImport(q, left)).disk, again);
            left >= 2 && again.checkpointPath == q.checkpointPath ==>
              found.Some? && BundleMatches(found.value, Imported(env, s.disk, q).value.0)
    ensures Ready(env, s.disk, q).Ok? &&
            (Verifies(env.host.sha, Imported(env, s.disk, q).value.0) <==>
              Verifies(env.host.sha, Ready(env, s.disk, q).value.0))
  {
    hide HostOk, CodecOk, CleanInput, Identified, SameSources, SourceMatches, Verifies, Imported, Perform, Done, Head,
         BundleMatches, SaveBytes, Fits, Ready, PlanFor, ApplyAll, CallsOf, WritesAcquisition;
    var d := Next(env, s, DoImport(q, left)).disk;
    var (records, c) := Imported(env, s.disk, q).value;
    AfterImport(env, s, q, left);
    SameVerdict(env, s.disk, q);
    ImportBinds(env, s.disk, q);
    BoundMatches(c, records);
    SavedOpens(env, s.disk, q, d, again);
    if Verifies(env.host.sha, records) {
      SecondPlan(env, s.disk, q, again);
    }
    SecondImport(env, d, again, records);
  }

  /** What a complete import leaves in its checkpoint file: the source it had or was created with, the
      position asked for, the number of events written - all appends but the findings - and the
      head and count of the bundle saved. */
  lemma CheckpointAfter(env: Env, s: State, q: Request, left: nat)
    requires Imported(env, s.disk, q).Ok? && left >= 2
    ensures Ready(env, s.disk, q).Ok? && CheckpointFor(s.disk, q).Some?
    ensures var d, records := Next(env, s, DoImport(q, left)).disk, Imported(env, s.disk, q).value.0;
            var was := Ready(env, s.disk, q).value.0;
            var changed := if q.Reconciling() then CountsOf(LoadKnown(was), true, q.events, |q.events|).changed else 0;
            q.checkpointPath in d.checkpoints && d.checkpoints[q.checkpointPath].Stored? &&
            var c := d.checkpoints[q.checkpointPath].checkpoint;
            c.source == CheckpointFor(s.disk, q).value.source && c.position == q.position &&
            c.processed + changed == |records| - |was| && c.headHash == Head(records) && c.recordCount == |records|
  {
    hide Imported, Perform, Done, Head, Ready, ApplyAll, CallsOf, LoadKnown, CountsOf, CountWritten;
    AfterImport(env, s, q, left);
    ImportedFrom(env, s.disk, q);
    ImportBinds(env, s.disk, q);
    ReadyFound(env, s.disk, q);
    ProcessedCount(env, s.disk, q);
    var was := Ready(env, s.disk, q).value.0;
    var actions := PlanFor(q, was);
    ApplyShape(env.host, was, CallsOf(actions, q.now, |q.events|));
    if q.Reconciling() {
      Accounting(LoadKnown(was), q.events, q.now, |q.events|);
    } else {
      PlainCount(map[], q.events, q.now, |q.events|);
    }
  }

  lemma ReadyFound(env: Env, d: Disk, q: Request)
    requires Ready(env, d, q).Ok?
    ensures CheckpointFor(d, q).Some?
  {
    hide Opened, Verifies;
  }

  lemma ProcessedCount(env: Env, d: Disk, q: Request)
    requires Imported(env, d, q).Ok?
    ensures Ready(env, d, q).Ok? && CheckpointFor(d, q).Some?
    ensures var c, actions := Imported(env, d, q).value.1, PlanFor(q, Ready(env, d, q).value.0);
            c.source == CheckpointFor(d, q).value.source && c.position == q.position &&
            c.processed == CountWritten(actions, |actions|)
  {
    hide Ready, ApplyAll, CallsOf, PlanFor, ProfileOk, WritesAcquisition, CountWritten, Head;
    ReadyFound(env, d, q);
  }

  lemma BoundMatches(c: Checkpoint, records: seq<Record>)
    requires c.headHash == Head(records) && c.recordCount == |records|
    ensures BundleMatches(c, records)
  {
  }

  /** The directory after an import that reached its bundle save. */
  lemma AfterImport(env: Env, s: State, q: Request, left: nat)
    requires Imported(env, s.disk, q).Ok? && left >= 1
    ensures var d, (records, c) := Next(env, s, DoImport(q, left)).disk, Imported(env, s.disk, q).value;
            d.bundle == Some(SaveBytes(env.codec, records)) &&
            d.checkpoints ==
              (if left >= 2 then s.disk.checkpoints[q.checkpointPath := Stored(c)] else s.disk.checkpoints)
  {
    hide Imported, Perform, Done;
    var (records, c) := Imported(env, s.disk, q).value;
    PerformTwo(env, s, WriteBundle(records), WriteCheckpoint(q.checkpointPath, c));
    AllDone(WriteBundle(records), WriteCheckpoint(q.checkpointPath, c), left);
  }

  /** What an import saves: what its plan appends to the records it was ready to work on. */
  lemma ImportedFrom(env: Env, d: Disk, q: Request)
    requires Imported(env, d, q).Ok?
    ensures Ready(env, d, q).Ok?
    ensures var was, actions := Ready(env, d, q).value.0, PlanFor(q, Ready(env, d, q).value.0);
            |actions| == |q.events| &&
            ApplyAll(env.host, was, CallsOf(actions, q.now, |q.events|)) == Ok(Imported(env, d, q).value.0) &&
            (WritesAcquisition(actions) ==> ProfileOk(env.host, was, Ready(env, d, q).value.1))
  {
    hide Ready, ApplyAll, CallsOf, LoadKnown, ProfileOk, WritesAcquisition, DecisionAt;
  }

  /** The records an import is ready to work on are a fresh bundle, or loaded; their manifest reads. */
  lemma ReadyFrom(env: Env, d: Disk, q: Request)
    requires HostOk(env.host) && q.createdAt != "" && q.bundleId != "" && Ready(env, d, q).Ok?
    ensures var (was, created) := Ready(env, d, q).value;
            (created ==> was != [] && Verifies(env.host.sha, was)) &&
            (HasManifest(was) ==> ParseManifest(env.host, was[0]).Ok?)
  {
    hide HostOk, NewRecords, Stamped, Verifies, LoadFrom, ParseManifest;
    if d.bundle.None? {
      FreshVerifies(env, d, q);
    }
  }

  /** Appending neither makes nor breaks a chain that verifies. */
  lemma SameVerdict(env: Env, d: Disk, q: Request)
    requires Imported(env, d, q).Ok?
    ensures Ready(env, d, q).Ok?
    ensures Verifies(env.host.sha, Imported(env, d, q).value.0) <==> Verifies(env.host.sha, Ready(env, d, q).value.0)
    ensures Ready(env, d, q).value.0 <= Imported(env, d, q).value.0
  {
    hide Ready, Imported, ApplyAll, CallsOf, Verifies, PlanFor;
    ImportedFrom(env, d, q);
    var was, records := Ready(env, d, q).value.0, Imported(env, d, q).value.0;
    ApplyShape(env.host, was, CallsOf(PlanFor(q, was), q.now, |q.events|));
    if Verifies(env.host.sha, records) {
      PrefixVerifies(env.host.sha, records, |was|);
      assert records[..|was|] == was;
    }
  }

  /** What an import saved opens again exactly if it can be read and fits, and then as what was saved. */
  lemma SavedOpens(env: Env, d: Disk, q: Request, d': Disk, again: Request)
    requires EnvOk(env) && q.createdAt != "" && q.bundleId != "" && Imported(env, d, q).Ok?
    requires forall i | 0 <= i < |q.events| :: Identified(q.events[i])
    requires d'.bundle == Some(SaveBytes(env.codec, Imported(env, d, q).value.0))
    ensures var records := Imported(env, d, q).value.0;
            Opened(env, d', again) ==
              if again.readOk && Fits(env.codec, records) then Ok((records, false)) else Err(BundleUnreadable)
  {
    hide HostOk, CodecOk, Identified, Ready, Imported, ApplyAll, CallsOf, PlanFor, ProfileOk, WritesAcquisition, Load,
         ParseManifest, SaveBytes, Fits, Verifies;
    ImportedFrom(env, d, q);
    ReadyFrom(env, d, q);
    SameVerdict(env, d, q);
    var was, records := Ready(env, d, q).value.0, Imported(env, d, q).value.0;
    if was == [] {
      EmptyProfile(env.host);
      if q.events != [] { NothingKnown(q); }
      EmptyPlan(env.host, q, []);
    }
    SavedLoads(env, records);
  }

  /** Of a bundle without records nothing is known, so any identified event is written. */
  lemma NothingKnown(q: Request)
    requires q.events != [] && Identified(q.events[0])
    ensures WritesAcquisition(PlanFor(q, []))
  {
    hide Join;
    var a := PlanFor(q, [])[0];
    assert a.event == q.events[0] && !a.skip;
  }

  /** The plan of the second import writes nothing, and so does applying it. */
  lemma SecondPlan(env: Env, d: Disk, q: Request, again: Request)
    requires EnvOk(env) && q.createdAt != "" && q.bundleId != "" && Imported(env, d, q).Ok?
    requires Verifies(env.host.sha, Imported(env, d, q).value.0)
    requires CleanInput(q.events) && forall i | 0 <= i < |q.events| :: Identified(q.events[i])
    requires again.Reconciling() && SameSources(q.events, again.events)
    ensures var records := Imported(env, d, q).value.0; var actions := PlanFor(again, records);
            !WritesAcquisition(actions) && |actions| == |again.events| &&
            ApplyAll(env.host, records, CallsOf(actions, again.now, |actions|)) == Ok(records)
  {
    hide HostOk, CleanInput, Identified, Ready, Imported, Verifies, ApplyAll, CallsOf, LoadKnown, ProfileOk,
         WritesAcquisition, DecisionAt;
    ImportedFrom(env, d, q);
    ReadyFrom(env, d, q);
    SameVerdict(env, d, q);
    var was, records := Ready(env, d, q).value.0, Imported(env, d, q).value.0;
    if was == [] {
      EmptyProfile(env.host);
      if q.events != [] { NothingKnown(q); }
      EmptyPlan(env.host, again, records);
    } else {
      SecondImportIsEmpty(env.host, was, q.Reconciling(), q.events, q.now, records, again.events, again.now);
      SecondImportWritesNothing(env.host, was, q.Reconciling(), q.events, q.now, records, again.events);
    }
  }

  lemma EmptyProfile(h: Host)
    ensures !ProfileOk(h, [], false)
  {
  }

  lemma EmptyPlan(h: Host, q: Request, records: seq<Record>)
    requires q.events == []
    ensures PlanFor(q, records) == [] && !WritesAcquisition([])
    ensures ApplyAll(h, records, CallsOf([], q.now, 0)) == Ok(records)
  {
    hide LoadKnown, DecisionAt;
  }

  /** An import that finds `records` and whose plan writes nothing, check by check. */
  lemma SecondImport(env: Env, d: Disk, q: Request, records: seq<Record>)
    requires q.Reconciling() &&
             (Opened(env, d, q) == Ok((records, false)) || Opened(env, d, q) == Err(BundleUnreadable))
    requires Verifies(env.host.sha, records) ==>
               var actions := PlanFor(q, records);
               !WritesAcquisition(actions) &&
               ApplyAll(env.host, records, CallsOf(actions, q.now, |actions|)) == Ok(records)
    ensures var found, r := CheckpointFor(d, q), Imported(env, d, q);
            if found.None? then r == Err(CheckpointUnreadable)
            else if !SourceMatches(found.value, q.source) then r == Err(SourceMismatch)
            else if Opened(env, d, q).Err? then r == Err(BundleUnreadable)
            else if !Verifies(env.host.sha, records) then r == Err(Tampered)
            else if !BundleMatches(found.value, records) then r == Err(BindingMismatch)
            else r.Ok? && r.value.0 == records
  {
    hide Verifies, ApplyAll, CallsOf, PlanFor, ProfileOk, WritesAcquisition, SourceMatches, BundleMatches, Opened;
  }

  lemma SecondImportWritesNothing(h: Host, records: seq<Record>, reconcile: bool, events: seq<ImportEvent>,
                                  now: nat -> string, longer: seq<Record>, again: seq<ImportEvent>)
    requires Verifies(h.sha, records) && records != [] && CleanInput(events) && SameSources(events, again)
    requires forall i | 0 <= i < |events| :: Identified(events[i])
    requires var known := if reconcile then LoadKnown(records) else map[];
             ApplyAll(h, records, CallsOf(Plan(known, reconcile, events), now, |events|)) == Ok(longer)
    ensures !WritesAcquisition(Plan(LoadKnown(longer), true, again))
  {
    hide ApplyAll, CallsOf, LoadKnown, ActionAt, Verifies, CleanInput, Identified;
    forall k | 0 <= k < |again| ensures ActionAt(LoadKnown(longer), true, again, k).skip {
      ImportTwice(h, records, reconcile, events, now, longer, again, k);
    }
  }
}
