/** The agent's disk-backed sessions: internal/agent/bundle_file_manager.go over
    LoadRooted and SaveRooted. Files are bytes. */
module Agent {
  import opened Wrappers
  import opened Utf8
  import opened Json
  import opened HashChain
  import opened Manifest
  import opened Bundle
  import opened BundleFile

  type Id = nat

  const AGENT_TYPE := "ai.agent.event.recorded"

  datatype AgentError =
    | SessionNotFound | SessionClosed | RootUnavailable | BadPath | StatFailed | LoadFailed | SaveFailed
    | AppendFailed | MetaFailed

  /** `fileSessionRecord` */
  datatype Session = Session(path: string, actorId: string, bundle: seq<Loaded>, eventCount: nat, closed: bool)

  /** The manager's fields, and the files under its root. */
  datatype Mgr = Mgr(sessions: map<Id, Session>, disk: map<string, Bytes>, lastErr: Option<AgentError>)

  // ----- files -----

  /** How `SaveRooted` ends: it fails before its rename, after it, or not at all. */
  datatype Save = Saved | NotSaved | SavedButFailed

  function Put(disk: map<string, Bytes>, path: string, data: Bytes, save: Save): map<string, Bytes>
  {
    if save.NotSaved? then disk else disk[path := data]
  }

  /** A bundle after a save that succeeded: its signatures tied to the bytes written. */
  function AfterSave(env: Env, records: seq<Record>): seq<Loaded>
  {
    Rebound(env.host.sha, [], SaveBytes(env.codec, records), records)
  }

  /** `LoadRooted`: what a file's bytes load as, if they are a manifest-first, verifying bundle. */
  ghost function Reread(env: Env, data: Bytes): Option<seq<Loaded>>
  {
    match Load(env.host, env.codec, DEFAULT_LIMITS, data)
    case Err(_) => None
    case Ok(ls) => if HasManifest(Records(ls)) && Verifies(env.host.sha, Records(ls)) then Some(ls) else None
  }

  /** What every session's records are: a verifying bundle whose manifest reads. */
  ghost predicate Sound(env: Env, records: seq<Record>)
  {
    Verifies(env.host.sha, records) && HasManifest(records) && ParseManifest(env.host, records[0]).Ok?
  }

  /** The exact condition for a saved bundle to load: it fits. It then loads as the bundle in memory. */
  lemma SavedRereads(env: Env, records: seq<Record>)
    requires CodecOk(env.codec) && Sound(env, records)
    ensures Reread(env, SaveBytes(env.codec, records)) ==
            if Fits(env.codec, records) then Some(AfterSave(env, records)) else None
    ensures Records(AfterSave(env, records)) == records
  {
    hide CodecOk, Load, Rebound, SaveBytes, Verifies, ParseManifest, Fits;
    SavedLoads(env, records);
    ReboundKeeps(env.host.sha, [], SaveBytes(env.codec, records), records);
  }

  lemma RereadSound(env: Env, data: Bytes)
    requires Reread(env, data).Some?
    ensures Sound(env, Records(Reread(env, data).value))
  {
    hide LoadFrom, Verifies, ParseManifest;
  }

  // ----- the operations -----

  /** `nonManifestRecordCount` */
  function NonManifest(records: seq<Record>): nat
  {
    if records == [] then 0
    else NonManifest(records[..|records| - 1]) + if records[|records| - 1].event.typ != MANIFEST_TYPE then 1 else 0
  }

  /** `recordHealthLocked`: session-state errors say nothing about durability. */
  function Health(last: Option<AgentError>, err: Option<AgentError>): Option<AgentError>
  {
    if err == Some(SessionNotFound) || err == Some(SessionClosed) then last else err
  }

  /** Outside values of one OpenSession. */
  datatype OpenCall = OpenCall(id: Id, path: Option<string>, actorId: string, rootOk: bool, statOk: bool, readOk: bool,
    save: Save, createdAt: string, bundleId: string)

  /** `OpenSession` */
  ghost function OpenEffect(env: Env, m: Mgr, c: OpenCall): (Mgr, Option<AgentError>)
  {
    if !c.rootOk then (m, Some(RootUnavailable))
    else if c.path.None? then (m, Some(BadPath))
    else
      var p := c.path.value;
      if !c.statOk then (m, Some(StatFailed))
      else if p in m.disk then
        if !c.readOk || Reread(env, m.disk[p]).None? then (m, Some(LoadFailed))
        else
          var ls := Reread(env, m.disk[p]).value;
          (m.(sessions := m.sessions[c.id := Session(p, c.actorId, ls, NonManifest(Records(ls)), false)]), None)
      else
        var made := NewRecords(env.host, 2, c.createdAt, c.bundleId, "");
        if made.Err? then (m, Some(AppendFailed))
        else
          var m' := m.(disk := Put(m.disk, p, SaveBytes(env.codec, made.value), c.save));
          if !c.save.Saved? then (m', Some(SaveFailed))
          else (m'.(sessions := m.sessions[c.id := Session(p, c.actorId, AfterSave(env, made.value), 0, false)]), None)
  }

  /** `appendOptionsForSession`: the actor id without the space around it, if any is left. */
  function AgentOptions(s: Session): Option<AppendOptions>
  {
    var actorId := Trim(s.actorId);
    if actorId == "" then None else Some(NO_OPTIONS.(actorId := Some(actorId)))
  }

  function NextRecords(env: Env, s: Session, data: Value): Result<seq<Record>, Error>
  {
    Appended(env.host, Records(s.bundle), AGENT_TYPE, data, AgentOptions(s))
  }

  /** `AppendEvent`: append to a copy, save the copy, then adopt it. */
  function AppendEffect(env: Env, m: Mgr, id: Id, data: Value, save: Save): (Mgr, Option<AgentError>)
  {
    if id !in m.sessions then (m, Some(SessionNotFound))
    else
      var s := m.sessions[id];
      if s.closed then (m, Some(SessionClosed))
      else
        var next := NextRecords(env, s, data);
        if next.Err? then (m, Some(AppendFailed))
        else
          var m' := m.(disk := Put(m.disk, s.path, SaveBytes(env.codec, next.value), save));
          if !save.Saved? then (m', Some(SaveFailed))
          else
            var s' := s.(bundle := AfterSave(env, next.value), eventCount := s.eventCount + 1);
            (m'.(sessions := m.sessions[id := s']), None)
  }

  /** `CloseSession`: save, load back and verify, mark closed, write the metadata file. `readOk` is
      whether the saved file can be opened and read at all. */
  ghost function CloseEffect(env: Env, m: Mgr, id: Id, save: Save, readOk: bool, metaOk: bool)
    : (Mgr, Option<AgentError>)
  {
    if id !in m.sessions then (m, Some(SessionNotFound))
    else
      var s := m.sessions[id];
      if s.closed then (m, Some(SessionClosed))
      else
        var records := Records(s.bundle);
        var data := SaveBytes(env.codec, records);
        var m' := m.(disk := Put(m.disk, s.path, data, save));
        if !save.Saved? then (m', Some(SaveFailed))
        else if !readOk || Reread(env, data).None? then
          (m'.(sessions := m.sessions[id := s.(bundle := AfterSave(env, records))]), Some(LoadFailed))
        else
          (m'.(sessions := m.sessions[id := s.(bundle := Reread(env, data).value, closed := true)]),
           if metaOk then None else Some(MetaFailed))
  }

  datatype Step =
    | Open(c: OpenCall)
    | Append(id: Id, data: Value, save: Save)
    | Close(id: Id, save: Save, readOk: bool, metaOk: bool)
    | Shutdown

  /** The manager after a step, and what the step returned. */
  ghost function Effect(env: Env, m: Mgr, step: Step): (Mgr, Option<AgentError>)
  {
    match step
    case Open(c) => OpenEffect(env, m, c)
    case Append(id, data, save) => AppendEffect(env, m, id, data, save)
    case Close(id, save, readOk, metaOk) => CloseEffect(env, m, id, save, readOk, metaOk)
    case Shutdown => (m.(sessions := map[]), None)
  }

  ghost function Next(env: Env, m: Mgr, step: Step): Mgr
  {
    var (m', err) := Effect(env, m, step);
    if step.Shutdown? then m' else m'.(lastErr := Health(m.lastErr, err))
  }

  ghost function Run(env: Env, m: Mgr, steps: seq<Step>): Mgr
    decreases |steps|
  {
    if steps == [] then m else Next(env, Run(env, m, steps[..|steps| - 1]), steps[|steps| - 1])
  }

  // ----- what every run keeps -----

  /** The file is the saved records and one event whose append reported failure. */
  ghost predicate OneMore(env: Env, data: Bytes, records: seq<Record>, e: Record)
  {
    data == SaveBytes(env.codec, records + [e]) && Sound(env, records + [e]) && e.event.typ == AGENT_TYPE
  }

  /** The file loads as the session's bundle, or is that bundle saved, or one failed append further. */
  ghost predicate OnDisk(env: Env, data: Bytes, bundle: seq<Loaded>)
  {
    Reread(env, data) == Some(bundle) ||
    data == SaveBytes(env.codec, Records(bundle)) ||
    exists e :: OneMore(env, data, Records(bundle), e)
  }

  ghost predicate SessionOk(env: Env, m: Mgr, s: Session)
  {
    Sound(env, Records(s.bundle)) && s.eventCount == NonManifest(Records(s.bundle)) &&
    (!s.closed ==> s.path in m.disk && OnDisk(env, m.disk[s.path], s.bundle))
  }

  ghost predicate DistinctPaths(m: Mgr)
  {
    forall a, b | a in m.sessions && b in m.sessions && a != b && !m.sessions[a].closed && !m.sessions[b].closed ::
      m.sessions[a].path != m.sessions[b].path
  }

  ghost predicate SessionsOk(env: Env, m: Mgr)
  {
    forall id | id in m.sessions :: SessionOk(env, m, m.sessions[id])
  }

  ghost predicate Inv(env: Env, m: Mgr)
  {
    DistinctPaths(m) && SessionsOk(env, m)
  }

  /** A new session has a new id and a path no live session uses. */
  ghost predicate Proper(m: Mgr, step: Step)
  {
    step.Open? ==>
      step.c.id !in m.sessions && step.c.createdAt != "" && step.c.bundleId != "" &&
      (step.c.path.Some? ==>
        forall id | id in m.sessions && !m.sessions[id].closed :: m.sessions[id].path != step.c.path.value)
  }

  ghost predicate ProperRun(env: Env, m: Mgr, steps: seq<Step>)
    decreases |steps|
  {
    steps == [] ||
    (ProperRun(env, m, steps[..|steps| - 1]) && Proper(Run(env, m, steps[..|steps| - 1]), steps[|steps| - 1]))
  }

  lemma AgentTypeNotManifest()
    ensures AGENT_TYPE != MANIFEST_TYPE
  {
    assert AGENT_TYPE[0] != MANIFEST_TYPE[0] || AGENT_TYPE[1] != MANIFEST_TYPE[1];
  }

  /** The type of agent events is one `Append` takes. */
  lemma AgentTypeValid()
    ensures ValidType(AGENT_TYPE)
  {
    var s := AGENT_TYPE;
    assert |s| == 23;
    assert TypeFrom(s, 21, true, true);
    assert TypeFrom(s, 19, true, true);
    assert TypeFrom(s, 17, true, true);
    assert TypeFrom(s, 15, false, true);
    assert TypeFrom(s, 13, true, true);
    assert TypeFrom(s, 11, true, true);
    assert TypeFrom(s, 9, false, true);
    assert TypeFrom(s, 7, true, true);
    assert TypeFrom(s, 5, true, true);
    assert TypeFrom(s, 3, false, true);
    assert TypeFrom(s, 1, true, false);
  }

  /** No event is refused, so an append to a live session succeeds when its save does. */
  lemma NextAccepted(env: Env, s: Session, data: Value)
    ensures NextRecords(env, s, data).Ok?
  {
    hide Compute, ValidType, ParseManifest, Trim;
    AgentTypeNotManifest();
    AgentTypeValid();
  }

  /** The record is an agent's event: its data, and the session's actor unless that is all space. */
  ghost predicate SaysEvent(r: Record, actorId: string, data: Value)
  {
    r.event.typ == "ai.agent.event.recorded" && r.event.data == data && r.event.acquisition.None? &&
    r.event.actorId == (if Trim(actorId) == "" then None else Some(Trim(actorId))) &&
    r.event.orgId.None? && r.event.workspaceId.None?
  }

  /** The next bundle of a session: one more record, sound, counted. */
  lemma NextSound(env: Env, s: Session, data: Value)
    requires Sound(env, Records(s.bundle)) && NextRecords(env, s, data).Ok?
    ensures var was, next := Records(s.bundle), NextRecords(env, s, data).value;
            Sound(env, next) && |next| == |was| + 1 && next == was + [next[|was|]] &&
            next[|was|].event.typ == AGENT_TYPE && NonManifest(next) == NonManifest(was) + 1 &&
            SaysEvent(next[|was|], s.actorId, data)
  {
    hide Appended, Verifies, ParseManifest;
    AgentTypeNotManifest();
    var was, next := Records(s.bundle), NextRecords(env, s, data).value;
    AppendShape(env.host, was, AGENT_TYPE, data, AgentOptions(s));
    assert next[..|next| - 1] == was;
    assert next[0] == was[0];
  }

  /** A session whose bundle has just been saved. */
  lemma JustSaved(env: Env, m: Mgr, s: Session, records: seq<Record>)
    requires CodecOk(env.codec) && Sound(env, records) && s.bundle == AfterSave(env, records)
    requires s.eventCount == NonManifest(records) && s.path in m.disk && m.disk[s.path] == SaveBytes(env.codec, records)
    ensures SessionOk(env, m, s)
  {
    hide CodecOk, Sound, AfterSave, SaveBytes, Reread, OneMore;
    SavedRereads(env, records);
  }

  /** A session whose file an append has replaced and then failed. */
  lemma OneAhead(env: Env, m: Mgr, s: Session, next: seq<Record>)
    requires SessionOk(env, m, s) && Sound(env, next) && |next| == |s.bundle| + 1
    requires next == Records(s.bundle) + [next[|s.bundle|]] && next[|s.bundle|].event.typ == AGENT_TYPE
    ensures SessionOk(env, m.(disk := m.disk[s.path := SaveBytes(env.codec, next)]), s)
  {
    hide Sound, SaveBytes, Reread;
    assert OneMore(env, SaveBytes(env.codec, next), Records(s.bundle), next[|s.bundle|]);
  }

  /** A session whose file a close has replaced and then failed. */
  lemma SavedAgain(env: Env, m: Mgr, s: Session)
    requires SessionOk(env, m, s)
    ensures SessionOk(env, m.(disk := m.disk[s.path := SaveBytes(env.codec, Records(s.bundle))]), s)
  {
    hide Sound, SaveBytes, Reread;
  }

  /** What a session is depends on its own file only. */
  lemma OtherFile(env: Env, m: Mgr, m': Mgr, s: Session)
    requires SessionOk(env, m, s)
    requires !s.closed ==> s.path in m'.disk && m'.disk[s.path] == m.disk[s.path]
    ensures SessionOk(env, m', s)
  {
    hide Sound, OnDisk;
  }

  /** A step for one live session touches that session and its file only. */
  lemma OneChanged(env: Env, m: Mgr, m': Mgr, id: Id)
    requires Inv(env, m) && id in m.sessions && !m.sessions[id].closed && id in m'.sessions &&
             SessionOk(env, m', m'.sessions[id])
    requires m'.sessions == m.sessions[id := m'.sessions[id]] && m'.sessions[id].path == m.sessions[id].path
    requires forall p | p in m.disk && p != m.sessions[id].path :: p in m'.disk && m'.disk[p] == m.disk[p]
    ensures Inv(env, m')
  {
    hide SessionOk;
    forall a | a in m'.sessions ensures SessionOk(env, m', m'.sessions[a]) {
      if a != id {
        SessionSound(env, m, m.sessions[a]);
        OtherFile(env, m, m', m.sessions[a]);
      }
    }
  }

  lemma AppendKeepsInv(env: Env, m: Mgr, id: Id, data: Value, save: Save)
    requires CodecOk(env.codec) && Inv(env, m)
    ensures Inv(env, Next(env, m, Append(id, data, save)))
  {
    hide CodecOk, NextRecords, SessionOk, SaveBytes, AfterSave, Sound, NonManifest, DistinctPaths, OnDisk;
    var m' := Next(env, m, Append(id, data, save));
    if id in m.sessions && !m.sessions[id].closed && NextRecords(env, m.sessions[id], data).Ok? && !save.NotSaved? {
      var s, next := m.sessions[id], NextRecords(env, m.sessions[id], data).value;
      SessionSound(env, m, s);
      NextSound(env, s, data);
      if save.Saved? {
        JustSaved(env, m', m'.sessions[id], next);
      } else {
        OneAhead(env, m, s, next);
        OtherFile(env, m.(disk := m'.disk), m', s);
      }
      OneChanged(env, m, m', id);
    } else {
      SameButHealth(env, m, m');
    }
  }

  lemma SameButHealth(env: Env, m: Mgr, m': Mgr)
    requires Inv(env, m) && m'.sessions == m.sessions && m'.disk == m.disk
    ensures Inv(env, m')
  {
    hide Sound, OnDisk;
    forall a | a in m'.sessions ensures SessionOk(env, m', m'.sessions[a]) {
      assert SessionOk(env, m, m.sessions[a]);
    }
  }

  lemma SessionSound(env: Env, m: Mgr, s: Session)
    requires SessionOk(env, m, s)
    ensures Sound(env, Records(s.bundle)) && s.eventCount == NonManifest(Records(s.bundle))
    ensures !s.closed ==> s.path in m.disk && OnDisk(env, m.disk[s.path], s.bundle)
  {
  }

  lemma CloseKeepsInv(env: Env, m: Mgr, id: Id, save: Save, readOk: bool, metaOk: bool)
    requires CodecOk(env.codec) && Inv(env, m)
    ensures Inv(env, Next(env, m, Close(id, save, readOk, metaOk)))
  {
    hide CodecOk, SessionOk, SaveBytes, AfterSave, Sound, Reread, OnDisk, NonManifest, DistinctPaths;
    var m' := Next(env, m, Close(id, save, readOk, metaOk));
    if id in m.sessions && !m.sessions[id].closed && !save.NotSaved? {
      var s := m.sessions[id];
      SessionSound(env, m, s);
      SavedRereads(env, Records(s.bundle));
      if save.Saved? {
        JustSaved(env, m', m'.sessions[id], Records(s.bundle));
      } else {
        SavedAgain(env, m, s);
        OtherFile(env, m.(disk := m'.disk), m', s);
      }
      OneChanged(env, m, m', id);
    } else {
      SameButHealth(env, m, m');
    }
  }

  lemma OpenKeepsInv(env: Env, m: Mgr, c: OpenCall)
    requires EnvOk(env) && Inv(env, m) && Proper(m, Open(c))
    ensures Inv(env, Next(env, m, Open(c)))
  {
    hide CodecOk, HostOk, SessionOk, SaveBytes, AfterSave, Sound, Reread, OnDisk, NewRecords;
    var m' := Next(env, m, Open(c));
    NewSound(env, c);
    forall a | a in m'.sessions ensures SessionOk(env, m', m'.sessions[a]) {
      if a in m.sessions && a != c.id {
        SessionSound(env, m, m.sessions[a]);
        OtherFile(env, m, m', m.sessions[a]);
      } else if c.path.value in m.disk {
        JustLoaded(env, m', m'.sessions[a]);
      } else {
        JustSaved(env, m', m'.sessions[a], NewRecords(env.host, 2, c.createdAt, c.bundleId, "").value);
      }
    }
  }

  lemma JustLoaded(env: Env, m: Mgr, s: Session)
    requires s.path in m.disk && Reread(env, m.disk[s.path]) == Some(s.bundle) &&
             s.eventCount == NonManifest(Records(s.bundle))
    ensures SessionOk(env, m, s)
  {
    hide Sound, Reread;
    RereadSound(env, m.disk[s.path]);
  }

  lemma NewSound(env: Env, c: OpenCall)
    requires HostOk(env.host) && c.createdAt != "" && c.bundleId != ""
    ensures var r := NewRecords(env.host, 2, c.createdAt, c.bundleId, "");
            r.Ok? && Sound(env, r.value) && NonManifest(r.value) == 0
  {
    hide NewRecords, HostOk, ParseManifest;
    NewKeeps(env.host, 2, c.createdAt, c.bundleId, "");
    var records := NewRecords(env.host, 2, c.createdAt, c.bundleId, "").value;
    assert records[..|records| - 1] == [];
  }

  lemma StepKeeps(env: Env, m: Mgr, step: Step)
    requires EnvOk(env) && Inv(env, m) && Proper(m, step)
    ensures Inv(env, Next(env, m, step))
  {
    hide CodecOk, HostOk, SessionOk, Proper;
    match step
    case Open(c) => OpenKeepsInv(env, m, c);
    case Append(id, data, save) => AppendKeepsInv(env, m, id, data, save);
    case Close(id, save, readOk, metaOk) => CloseKeepsInv(env, m, id, save, readOk, metaOk);
    case Shutdown =>
  }

  /** Over any run of open, append, close and shutdown in which live sessions use distinct paths:
      each session's bundle verifies and its event count is right; its file loads as that bundle,
      or is that bundle's bytes, or those of the bundle and one event whose append failed. */
  lemma {:induction false} RunKeeps(env: Env, m: Mgr, steps: seq<Step>)
    requires EnvOk(env) && Inv(env, m) && ProperRun(env, m, steps)
    ensures Inv(env, Run(env, m, steps))
    decreases |steps|
  {
    hide EnvOk, Inv, Next, Proper;
    if steps != [] {
      RunKeeps(env, m, steps[..|steps| - 1]);
      StepKeeps(env, Run(env, m, steps[..|steps| - 1]), steps[|steps| - 1]);
    }
  }

  /** What the file of a live session can be loaded as: `records` are the session's, or those and one
      event whose append failed. If they fit the file loads, and if it loads it is as them. */
  lemma FileLoads(env: Env, m: Mgr, id: Id) returns (records: seq<Record>)
    requires CodecOk(env.codec) && Inv(env, m) && id in m.sessions && !m.sessions[id].closed
    ensures var was := Records(m.sessions[id].bundle);
            records == was || (|records| == |was| + 1 && was <= records && records[|was|].event.typ == AGENT_TYPE)
    ensures m.sessions[id].path in m.disk
    ensures var read := Reread(env, m.disk[m.sessions[id].path]);
            (Fits(env.codec, records) ==> read.Some?) && (read.Some? ==> Records(read.value) == records)
  {
    hide CodecOk, Sound, Fits, SaveBytes, Reread, AfterSave;
    var s := m.sessions[id];
    var f, was := m.disk[s.path], Records(s.bundle);
    records := was;
    if Reread(env, f) != Some(s.bundle) {
      if f != SaveBytes(env.codec, was) {
        var e :| OneMore(env, f, was, e);
        records := was + [e];
      }
      SavedRereads(env, records);
    }
  }

  /** One append. On success memory has the one new event, the file is memory's bytes, and it
      loads as memory, exactly if it fits. On failure memory is as it was and the file is as
      it was or the bytes of memory and that event. */
  lemma AppendOutcome(env: Env, m: Mgr, id: Id, data: Value, save: Save)
    requires CodecOk(env.codec) && Inv(env, m) && id in m.sessions && !m.sessions[id].closed
    ensures var s, next := m.sessions[id], NextRecords(env, m.sessions[id], data);
            var (m', err) := AppendEffect(env, m, id, data, save);
            if err.None? then
              next.Ok? && id in m'.sessions && s.path in m'.disk &&
              Records(m'.sessions[id].bundle) == next.value &&
              |next.value| == |s.bundle| + 1 && Records(s.bundle) <= next.value &&
              SaysEvent(next.value[|s.bundle|], s.actorId, data) &&
              m'.sessions[id].eventCount == NonManifest(next.value) &&
              Reread(env, m'.disk[s.path]) ==
                (if Fits(env.codec, next.value) then Some(m'.sessions[id].bundle) else None)
            else
              m'.sessions == m.sessions &&
              (m'.disk == m.disk || (next.Ok? && m'.disk == m.disk[s.path := SaveBytes(env.codec, next.value)]))
  {
    hide CodecOk, Sound, Fits, SaveBytes, Reread, AfterSave, NextRecords, OnDisk, NonManifest;
    var s := m.sessions[id];
    assert SessionOk(env, m, s);
    if NextRecords(env, s, data).Ok? {
      NextSound(env, s, data);
      SavedRereads(env, NextRecords(env, s, data).value);
    }
  }

  /** Exactly when a close succeeds: the save, the read and the metadata file do, and the session's
      records fit. The records are then those the session had, and the file loads as them. */
  lemma CloseOutcome(env: Env, m: Mgr, id: Id, save: Save, readOk: bool, metaOk: bool)
    requires CodecOk(env.codec) && Inv(env, m) && id in m.sessions && !m.sessions[id].closed
    ensures var s, records := m.sessions[id], Records(m.sessions[id].bundle);
            var (m', err) := CloseEffect(env, m, id, save, readOk, metaOk);
            var loads := save.Saved? && readOk && Fits(env.codec, records);
            id in m'.sessions && Records(m'.sessions[id].bundle) == records &&
            (m'.sessions[id].closed <==> loads) && (err.None? <==> loads && metaOk) &&
            (err == Some(LoadFailed) <==> save.Saved? && !(readOk && Fits(env.codec, records))) &&
            (loads ==> s.path in m'.disk && Reread(env, m'.disk[s.path]) == Some(m'.sessions[id].bundle))
  {
    hide CodecOk, Sound, Fits, SaveBytes, Reread, AfterSave, OnDisk, NonManifest;
    assert SessionOk(env, m, m.sessions[id]);
    SavedRereads(env, Records(m.sessions[id].bundle));
  }

  /** After a step that succeeded, loading the file of the session it was for gives the session's
      bundle, with the hashes that tie its signatures to the file - unless it has outgrown loading. */
  lemma SuccessSynced(env: Env, m: Mgr, step: Step)
    requires EnvOk(env) && Inv(env, m) && Proper(m, step) && !step.Shutdown? && Effect(env, m, step).1.None?
    ensures var id := if step.Open? then step.c.id else step.id; var m' := Next(env, m, step);
            id in m'.sessions && m'.sessions[id].path in m'.disk && m'.sessions[id].closed == step.Close? &&
            var read, s := Reread(env, m'.disk[m'.sessions[id].path]), m'.sessions[id];
            read == Some(s.bundle) || (!Fits(env.codec, Records(s.bundle)) && read == None)
  {
    hide CodecOk, HostOk, Sound, Fits, SaveBytes, Reread, AfterSave, OnDisk, NonManifest, NewRecords, NextRecords;
    match step
    case Open(c) =>
      NewSound(env, c);
      SavedRereads(env, NewRecords(env.host, 2, c.createdAt, c.bundleId, "").value);
    case Append(id, data, save) => AppendOutcome(env, m, id, data, save);
    case Close(id, save, readOk, metaOk) => CloseOutcome(env, m, id, save, readOk, metaOk);
  }

  /** Opening a file that holds saved records succeeds exactly if they fit, with those records. */
  lemma ReopenOutcome(env: Env, m: Mgr, c: OpenCall, records: seq<Record>)
    requires CodecOk(env.codec) && Sound(env, records)
    requires c.path.Some? && c.path.value in m.disk && m.disk[c.path.value] == SaveBytes(env.codec, records)
    requires c.rootOk && c.statOk && c.readOk
    ensures OpenEffect(env, m, c).1.None? <==> Fits(env.codec, records)
    ensures Fits(env.codec, records) ==> Records(OpenEffect(env, m, c).0.sessions[c.id].bundle) == records
  {
    hide CodecOk, Sound, Fits, SaveBytes, Reread, AfterSave;
    SavedRereads(env, records);
  }

  /** More records never fit better. */
  lemma OutgrownStays(env: Env, records: seq<Record>, r: Record)
    requires !Fits(env.codec, records)
    ensures !Fits(env.codec, records + [r])
  {
    hide SaveBytes;
    SaveMore(env.codec, records, r);
    var more := records + [r];
    if LinesFit(env.codec, more) {
      assert forall i | 0 <= i < |records| :: more[i] == records[i];
    }
  }

  /** A session that has outgrown loading is never closed, whatever follows short of a shutdown,
      and yet every append to it succeeds when its save does. */
  lemma {:induction false} OutgrownNeverCloses(env: Env, m: Mgr, steps: seq<Step>, id: Id)
    requires EnvOk(env) && Inv(env, m) && ProperRun(env, m, steps) && Shutdown !in steps
    requires id in m.sessions && !m.sessions[id].closed && !Fits(env.codec, Records(m.sessions[id].bundle))
    ensures var m' := Run(env, m, steps);
            id in m'.sessions && !m'.sessions[id].closed && !Fits(env.codec, Records(m'.sessions[id].bundle)) &&
            forall data :: AppendEffect(env, m', id, data, Saved).1 == None
    decreases |steps|
  {
    hide EnvOk, Inv, Next, Proper, Fits, NextRecords, SaveBytes, AfterSave;
    forall data ensures id in Run(env, m, steps).sessions && !Run(env, m, steps).sessions[id].closed ==>
                        AppendEffect(env, Run(env, m, steps), id, data, Saved).1 == None
    {
      if id in Run(env, m, steps).sessions { NextAccepted(env, Run(env, m, steps).sessions[id], data); }
    }
    if steps != [] {
      var front, last := steps[..|steps| - 1], steps[|steps| - 1];
      assert last in steps && forall x | x in front :: x in steps;
      OutgrownNeverCloses(env, m, front, id);
      RunKeeps(env, m, front);
      OutgrownStep(env, Run(env, m, front), last, id);
    }
  }

  lemma OutgrownStep(env: Env, m: Mgr, step: Step, id: Id)
    requires EnvOk(env) && Inv(env, m) && Proper(m, step) && !step.Shutdown?
    requires id in m.sessions && !m.sessions[id].closed && !Fits(env.codec, Records(m.sessions[id].bundle))
    ensures var m' := Next(env, m, step);
            id in m'.sessions && !m'.sessions[id].closed && !Fits(env.codec, Records(m'.sessions[id].bundle))
  {
    hide CodecOk, HostOk, Sound, Fits, SaveBytes, Reread, AfterSave, OnDisk, NonManifest, NewRecords, NextRecords;
    match step
    case Open(c) =>
    case Append(a, data, save) =>
      if a == id {
        var s := m.sessions[id];
        AppendOutcome(env, m, id, data, save);
        if NextRecords(env, s, data).Ok? {
          assert SessionOk(env, m, s);
          NextSound(env, s, data);
          OutgrownStays(env, Records(s.bundle), NextRecords(env, s, data).value[|s.bundle|]);
        }
      }
    case Close(a, save, readOk, metaOk) =>
      if a == id { CloseOutcome(env, m, id, save, readOk, metaOk); }
  }

  /** A closed session never changes again, short of a shutdown. */
  lemma {:induction false} ClosedStays(env: Env, m: Mgr, steps: seq<Step>, id: Id)
    requires id in m.sessions && m.sessions[id].closed && ProperRun(env, m, steps) && Shutdown !in steps
    ensures id in Run(env, m, steps).sessions && Run(env, m, steps).sessions[id] == m.sessions[id]
    decreases |steps|
  {
    hide NewRecords, Reread, NextRecords, SaveBytes, AfterSave;
    if steps != [] {
      var front, last := steps[..|steps| - 1], steps[|steps| - 1];
      assert last in steps && last != Shutdown && forall x | x in front :: x in steps;
      ClosedStays(env, m, front, id);
    }
  }

  // ----- two sessions on one path -----

  /** `n` appends to one session whose saves succeed. */
  ghost function Appends(id: Id, n: nat): seq<Step>
  {
    if n == 0 then [] else Appends(id, n - 1) + [Append(id, Null, Saved)]
  }

  /** `m'` is `m` with `n` more events in the live session `id`, if any saved to its file. */
  ghost predicate Longer(env: Env, m: Mgr, m': Mgr, id: Id, n: nat)
    requires id in m.sessions
  {
    var s := m.sessions[id];
    m'.sessions.Keys == m.sessions.Keys &&
    (forall a | a in m.sessions && a != id :: m'.sessions[a] == m.sessions[a]) &&
    var s' := m'.sessions[id];
    !s'.closed && s'.path == s.path && |s'.bundle| == |s.bundle| + n && Sound(env, Records(s'.bundle)) &&
    (n > 0 ==> s.path in m'.disk && m'.disk[s.path] == SaveBytes(env.codec, Records(s'.bundle)))
  }

  lemma OneAppend(env: Env, m: Mgr, id: Id)
    requires CodecOk(env.codec) && id in m.sessions && !m.sessions[id].closed &&
             Sound(env, Records(m.sessions[id].bundle))
    ensures Longer(env, m, Next(env, m, Append(id, Null, Saved)), id, 1)
  {
    hide CodecOk, Sound, SaveBytes, AfterSave, NextRecords, NonManifest;
    var s := m.sessions[id];
    NextAccepted(env, s, Null);
    NextSound(env, s, Null);
    SavedRereads(env, NextRecords(env, s, Null).value);
  }

  lemma {:induction false} AppendsRun(env: Env, m: Mgr, id: Id, n: nat)
    requires CodecOk(env.codec) && id in m.sessions && !m.sessions[id].closed &&
             Sound(env, Records(m.sessions[id].bundle))
    ensures ProperRun(env, m, Appends(id, n)) && Longer(env, m, Run(env, m, Appends(id, n)), id, n)
  {
    hide CodecOk, Sound, SaveBytes, Next;
    if n > 0 {
      AppendsRun(env, m, id, n - 1);
      var front := Appends(id, n - 1);
      assert Appends(id, n)[..|Appends(id, n)| - 1] == front;
      OneAppend(env, Run(env, m, front), id);
    }
  }

  /** Of two live sessions on one path, appending to one long enough leaves a file that is not the
      other's bundle, nor that and one event more. */
  lemma SharedPathBreaks(env: Env, m: Mgr, a: Id, b: Id) returns (steps: seq<Step>)
    requires CodecOk(env.codec) && a in m.sessions && b in m.sessions && a != b &&
             m.sessions[a].path == m.sessions[b].path
    requires !m.sessions[a].closed && !m.sessions[b].closed && Sound(env, Records(m.sessions[a].bundle))
    ensures ProperRun(env, m, steps)
    ensures b in Run(env, m, steps).sessions && !SessionOk(env, Run(env, m, steps), Run(env, m, steps).sessions[b])
  {
    hide CodecOk, Sound, SaveBytes, AfterSave, Reread, Run, ProperRun;
    var mine := m.sessions[b].bundle;
    steps := Appends(a, |mine| + 2);
    AppendsRun(env, m, a, |mine| + 2);
    var m' := Run(env, m, steps);
    NotOnDisk(env, Records(m'.sessions[a].bundle), mine);
  }

  lemma NotOnDisk(env: Env, records: seq<Record>, bundle: seq<Loaded>)
    requires CodecOk(env.codec) && Sound(env, records) && |records| > |bundle| + 1
    ensures !OnDisk(env, SaveBytes(env.codec, records), bundle)
  {
    hide CodecOk, Sound, SaveBytes, AfterSave, Reread;
    var data := SaveBytes(env.codec, records);
    SavedRereads(env, records);
    if data == SaveBytes(env.codec, Records(bundle)) {
      SaveInjective(env.codec, records, Records(bundle));
    }
    forall e ensures !OneMore(env, data, Records(bundle), e) {
      if OneMore(env, data, Records(bundle), e) {
        SaveInjective(env.codec, records, Records(bundle) + [e]);
      }
    }
  }

  /** Distinct paths are what the file invariant rests on: it holds over every run if and only if no
      two live sessions use one path. */
  lemma FilesExactlyWhen(env: Env, m: Mgr)
    requires EnvOk(env) && SessionsOk(env, m)
    ensures (forall steps | ProperRun(env, m, steps) :: SessionsOk(env, Run(env, m, steps))) <==> DistinctPaths(m)
  {
    hide EnvOk, SessionOk, ProperRun, Run;
    if DistinctPaths(m) {
      forall steps | ProperRun(env, m, steps) ensures SessionsOk(env, Run(env, m, steps)) {
        RunKeeps(env, m, steps);
      }
    } else {
      var a, b :| a in m.sessions && b in m.sessions && a != b && !m.sessions[a].closed && !m.sessions[b].closed &&
        m.sessions[a].path == m.sessions[b].path;
      SessionSound(env, m, m.sessions[a]);
      assert CodecOk(env.codec) by { EnvCodec(env); }
      var steps := SharedPathBreaks(env, m, a, b);
    }
  }

  lemma EnvCodec(env: Env)
    requires EnvOk(env)
    ensures CodecOk(env.codec)
  {
  }

  /** Two successful appends, to two live sessions on one path: the file is the second session's
      memory, which the first session's event was never part of. */
  lemma SharedPathLoses(env: Env, m: Mgr, a: Id, b: Id, first: Value, second: Value)
    requires CodecOk(env.codec) && SessionsOk(env, m) && a in m.sessions && b in m.sessions && a != b
    requires !m.sessions[a].closed && !m.sessions[b].closed && m.sessions[a].path == m.sessions[b].path
    ensures var (one, e1) := AppendEffect(env, m, a, first, Saved);
            var (two, e2) := AppendEffect(env, one, b, second, Saved);
            e1.None? && e2.None? && a in two.sessions && b in two.sessions && m.sessions[a].path in two.disk &&
            Records(two.sessions[a].bundle) == NextRecords(env, m.sessions[a], first).value &&
            Records(two.sessions[b].bundle) == NextRecords(env, m.sessions[b], second).value &&
            two.disk[m.sessions[a].path] == SaveBytes(env.codec, Records(two.sessions[b].bundle)) &&
            |two.sessions[b].bundle| == |m.sessions[b].bundle| + 1 &&
            Records(m.sessions[b].bundle) <= Records(two.sessions[b].bundle)
  {
    hide CodecOk, Sound, SaveBytes, AfterSave, NextRecords, NonManifest, SessionOk;
    var s, t := m.sessions[a], m.sessions[b];
    SessionSound(env, m, s);
    SessionSound(env, m, t);
    NextAccepted(env, s, first);
    NextAccepted(env, t, second);
    NextSound(env, s, first);
    NextSound(env, t, second);
    SavedRereads(env, NextRecords(env, s, first).value);
    SavedRereads(env, NextRecords(env, t, second).value);
  }

  // ----- health -----

  /** Whether a step's outcome says something about durability. */
  ghost predicate Telling(env: Env, m: Mgr, step: Step)
  {
    !step.Shutdown? && Effect(env, m, step).1 != Some(SessionNotFound) && Effect(env, m, step).1 != Some(SessionClosed)
  }

  /** Over any run, `Health` is the outcome of the last telling step, a success clearing it. */
  lemma {:induction false} HealthIsLast(env: Env, m: Mgr, steps: seq<Step>, k: nat)
    requires k < |steps| && Telling(env, Run(env, m, steps[..k]), steps[k])
    requires forall j | k < j < |steps| :: !Telling(env, Run(env, m, steps[..j]), steps[j])
    ensures Run(env, m, steps).lastErr == Effect(env, Run(env, m, steps[..k]), steps[k]).1
    decreases |steps|
  {
    hide Effect;
    var front := steps[..|steps| - 1];
    EffectKeepsHealth(env, Run(env, m, front), steps[|steps| - 1]);
    if k < |front| {
      assert front[..k] == steps[..k];
      forall j | k < j < |front| ensures !Telling(env, Run(env, m, front[..j]), front[j]) {
        assert front[..j] == steps[..j];
      }
      HealthIsLast(env, m, front, k);
    }
  }

  /** Without a telling step it stays what it was. */
  lemma {:induction false} HealthStays(env: Env, m: Mgr, steps: seq<Step>)
    requires forall j | 0 <= j < |steps| :: !Telling(env, Run(env, m, steps[..j]), steps[j])
    ensures Run(env, m, steps).lastErr == m.lastErr
    decreases |steps|
  {
    hide Effect;
    if steps != [] {
      var front := steps[..|steps| - 1];
      EffectKeepsHealth(env, Run(env, m, front), steps[|steps| - 1]);
      forall j | 0 <= j < |front| ensures !Telling(env, Run(env, m, front[..j]), front[j]) {
        assert front[..j] == steps[..j];
      }
      HealthStays(env, m, front);
    }
  }

  lemma EffectKeepsHealth(env: Env, m: Mgr, step: Step)
    ensures Effect(env, m, step).0.lastErr == m.lastErr
  {
    hide NewRecords, Reread, NextRecords, SaveBytes, AfterSave;
  }

  // ----- the manager object -----

  /** `SaveRooted`: encode, replace the file, tie the records' metadata to the bytes written. */
  method SaveRooted(env: Env, disk: map<string, Bytes>, path: string, bundle: seq<Loaded>, save: Save)
    returns (disk': map<string, Bytes>, saved: seq<Loaded>)
    ensures disk' == Put(disk, path, SaveBytes(env.codec, Records(bundle)), save)
    ensures saved == if save.Saved? then AfterSave(env, Records(bundle)) else bundle
  {
    hide SaveBytes, Rebound;
    var data := EncodeRecords(env.codec, Records(bundle));
    disk' := Put(disk, path, data, save);
    if !save.Saved? {
      return disk', bundle;
    }
    var records := new Loaded[|bundle|](i requires 0 <= i < |bundle| => bundle[i]);
    assert records[..] == bundle;
    SetSourcePrefixHashes(env.host.sha, records, data);
    saved := records[..];
  }

  /** `LoadRooted` */
  method LoadRooted(env: Env, data: Bytes) returns (r: Option<seq<Loaded>>)
    ensures r == Reread(env, data)
  {
    hide Verifies, Load;
    var loaded := LoadReader(env.host, env.codec, DEFAULT_LIMITS, data);
    if loaded.Err? {
      return None;
    }
    var b := new Bundle.Empty();
    b.records := Records(loaded.value);
    if !HasManifest(b.records) {
      return None;
    }
    var fault := b.Verify(env.host.sha);
    if fault.Some? {
      return None;
    }
    return Some(loaded.value);
  }

  function Unbound(records: seq<Record>): (ls: seq<Loaded>)
    ensures |ls| == |records| && forall i | 0 <= i < |ls| :: ls[i] == Loaded(records[i], None)
  {
    seq(|records|, i requires 0 <= i < |records| => Loaded(records[i], None))
  }

  /** `BundleFileManager`; its mutex makes each method one step. */
  class BundleFileManager {
    var sessions: map<Id, Session>
    var disk: map<string, Bytes>
    var lastErr: Option<AgentError>

    function State(): Mgr
      reads this
    {
      Mgr(sessions, disk, lastErr)
    }

    constructor (disk: map<string, Bytes>)
      ensures State() == Mgr(map[], disk, None)
    {
      this.sessions, this.disk, this.lastErr := map[], disk, None;
    }

    method RecordHealth(err: Option<AgentError>)
      modifies this`lastErr
      ensures lastErr == Health(old(lastErr), err)
    {
      if err == Some(SessionNotFound) || err == Some(SessionClosed) {
        return;
      }
      lastErr := err;
    }

    method AppendEvent(env: Env, id: Id, data: Value, save: Save) returns (err: Option<AgentError>)
      modifies this
      ensures State() == Next(env, old(State()), Append(id, data, save))
      ensures err == Effect(env, old(State()), Append(id, data, save)).1
    {
      hide AppendEffect;
      EffectKeepsHealth(env, State(), Append(id, data, save));
      err := DoAppend(env, id, data, save);
      RecordHealth(err);
    }

    method DoAppend(env: Env, id: Id, data: Value, save: Save) returns (err: Option<AgentError>)
      modifies this
      ensures (State(), err) == AppendEffect(env, old(State()), id, data, save)
    {
      hide Appended, BundleOk, SaveBytes, AfterSave;
      if id !in sessions {
        return Some(SessionNotFound);
      }
      var record := sessions[id];
      if record.closed {
        return Some(SessionClosed);
      }
      var next := new Bundle.Empty();
      next.records := Records(record.bundle);
      var refused := next.AppendWithOptions(env.host, AGENT_TYPE, data, AgentOptions(record));
      if refused.Some? {
        return Some(AppendFailed);
      }
      var saved;
      disk, saved := SaveRooted(env, disk, record.path, Unbound(next.records), save);
      assert Records(Unbound(next.records)) == next.records;
      if !save.Saved? {
        return Some(SaveFailed);
      }
      sessions := sessions[id := record.(bundle := saved, eventCount := record.eventCount + 1)];
      return None;
    }

    method CloseSession(env: Env, id: Id, save: Save, readOk: bool, metaOk: bool) returns (err: Option<AgentError>)
      modifies this
      ensures State() == Next(env, old(State()), Close(id, save, readOk, metaOk))
      ensures err == Effect(env, old(State()), Close(id, save, readOk, metaOk)).1
    {
      hide CloseEffect;
      EffectKeepsHealth(env, State(), Close(id, save, readOk, metaOk));
      err := DoClose(env, id, save, readOk, metaOk);
      RecordHealth(err);
    }

    method DoClose(env: Env, id: Id, save: Save, readOk: bool, metaOk: bool) returns (err: Option<AgentError>)
      modifies this
      ensures (State(), err) == CloseEffect(env, old(State()), id, save, readOk, metaOk)
    {
      hide Reread, SaveBytes, AfterSave;
      if id !in sessions {
        return Some(SessionNotFound);
      }
      var record := sessions[id];
      if record.closed {
        return Some(SessionClosed);
      }
      var saved;
      disk, saved := SaveRooted(env, disk, record.path, record.bundle, save);
      if !save.Saved? {
        return Some(SaveFailed);
      }
      sessions := sessions[id := record.(bundle := saved)];
      if !readOk {
        return Some(LoadFailed);
      }
      var verified := LoadRooted(env, disk[record.path]);
      if verified.None? {
        return Some(LoadFailed);
      }
      sessions := sessions[id := record.(bundle := verified.value, closed := true)];
      assert sessions == old(sessions)[id := record.(bundle := verified.value, closed := true)];
      return if metaOk then None else Some(MetaFailed);
    }

    method OpenSession(env: Env, c: OpenCall) returns (err: Option<AgentError>)
      modifies this
      ensures State() == Next(env, old(State()), Open(c))
      ensures err == Effect(env, old(State()), Open(c)).1
    {
      hide OpenEffect;
      EffectKeepsHealth(env, State(), Open(c));
      err := DoOpen(env, c);
      RecordHealth(err);
    }

    method DoOpen(env: Env, c: OpenCall) returns (err: Option<AgentError>)
      modifies this
      ensures (State(), err) == OpenEffect(env, old(State()), c)
    {
      hide Reread, SaveBytes, AfterSave, NewRecords;
      if !c.rootOk {
        return Some(RootUnavailable);
      }
      if c.path.None? {
        return Some(BadPath);
      }
      var path := c.path.value;
      if !c.statOk {
        return Some(StatFailed);
      }
      if path in disk {
        if !c.readOk {
          return Some(LoadFailed);
        }
        var loaded := LoadRooted(env, disk[path]);
        if loaded.None? {
          return Some(LoadFailed);
        }
        sessions := sessions[c.id := Session(path, c.actorId, loaded.value, NonManifest(Records(loaded.value)), false)];
        return None;
      }
      var made := NewRecords(env.host, 2, c.createdAt, c.bundleId, "");
      if made.Err? {
        return Some(AppendFailed);
      }
      var saved;
      disk, saved := SaveRooted(env, disk, path, Unbound(made.value), c.save);
      assert Records(Unbound(made.value)) == made.value;
      if !c.save.Saved? {
        return Some(SaveFailed);
      }
      sessions := sessions[c.id := Session(path, c.actorId, saved, 0, false)];
      return None;
    }
  }
}
