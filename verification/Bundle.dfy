/** The in-memory bundle of internal/bundle/bundle.go: construction, append, verification,
    and the provenance stamp of internal/acquisition. */
module Bundle {
  import opened Wrappers
  import opened Utf8
  import opened Json
  import opened HashChain
  import opened Manifest

  datatype AppendOptions = AppendOptions(
    actorId: Option<string>, orgId: Option<string>, workspaceId: Option<string>,
    timestamp: string, traceId: string, spanId: string, parentSpanId: string,
    acquisition: Option<Acquisition>)

  const NO_OPTIONS := AppendOptions(None, None, None, "", "", "", "", None)

  /** `eventTypeRegexp`: dotted lower-case segments, at least two, read from index `i`. */
  predicate TypeFrom(s: string, i: nat, inSegment: bool, dotted: bool)
    requires i <= |s|
    decreases |s| - i
  {
    if i == |s| then inSegment && dotted
    else if 'a' <= s[i] <= 'z' then TypeFrom(s, i + 1, true, dotted)
    else if !inSegment then false
    else if s[i] == '.' then TypeFrom(s, i + 1, false, true)
    else ('0' <= s[i] <= '9' || s[i] == '_') && TypeFrom(s, i + 1, true, dotted)
  }

  predicate ValidType(s: string) { TypeFrom(s, 0, false, false) }

  predicate HasManifest(records: seq<Record>)
  {
    records != [] && records[0].event.typ == MANIFEST_TYPE
  }

  /** A manifest bundle is numbered from 0, a legacy one from 1. */
  function FirstSequence(records: seq<Record>): int
  {
    if HasManifest(records) then 0 else 1
  }

  /** `Bundle.Verify` succeeds. */
  ghost predicate Verifies(sha: Sha, records: seq<Record>)
  {
    ChainOk(sha, records, FirstSequence(records))
  }

  predicate BearsAcquisition(typ: string, opts: Option<AppendOptions>)
  {
    typ != MANIFEST_TYPE && opts.Some? && opts.value.acquisition.Some?
  }

  function NextSequence(records: seq<Record>, typ: string): int
  {
    if typ == MANIFEST_TYPE then 0
    else if HasManifest(records) then |records|
    else |records| + 1
  }

  function NewEvent(records: seq<Record>, typ: string, data: Value, opts: Option<AppendOptions>): Event
  {
    var o := if opts.Some? then opts.value else NO_OPTIONS;
    Event(NextSequence(records, typ), PrevAt(records, |records|), typ, "sha256", data,
          o.actorId, o.orgId, o.workspaceId, o.timestamp, o.traceId, o.spanId, o.parentSpanId, o.acquisition)
  }

  /** What `AppendWithOptions` leaves, or why it refuses. */
  function Appended(h: Host, records: seq<Record>, typ: string, data: Value, opts: Option<AppendOptions>)
    : Result<seq<Record>, Error>
  {
    if typ == MANIFEST_TYPE && records != [] then Err(ManifestNotFirst)
    else if BearsAcquisition(typ, opts) && !HasManifest(records) then Err(ManifestAbsent)
    else if BearsAcquisition(typ, opts) && ParseManifest(h, records[0]).Err? then
      Err(ParseManifest(h, records[0]).error)
    else if BearsAcquisition(typ, opts) && !DeclaresV3(h, records[0]) then Err(ProfileTooOld)
    else if !ValidType(typ) then Err(BadEventType)
    else
      var e := NewEvent(records, typ, data, opts);
      Ok(records + [Record(e, Compute(h.sha, e))])
  }

  // ----- what every bundle keeps -----

  ghost predicate ManifestOnlyFirst(records: seq<Record>)
  {
    forall i | 0 < i < |records| :: records[i].event.typ != MANIFEST_TYPE
  }

  /** Acquisition outside the manifest needs a manifest that declares version 3. */
  ghost predicate AcquisitionFloor(h: Host, records: seq<Record>)
  {
    forall i | 0 <= i < |records| ::
      records[i].event.typ != MANIFEST_TYPE && records[i].event.acquisition.Some? ==> DeclaresV3(h, records[0])
  }

  ghost predicate BundleOk(h: Host, records: seq<Record>)
  {
    Verifies(h.sha, records) && ManifestOnlyFirst(records) && AcquisitionFloor(h, records)
  }

  datatype AppendCall = AppendCall(typ: string, data: Value, opts: Option<AppendOptions>)

  /** Record `r` is what append call `c` wrote: type and data, and each option in its own field. */
  ghost predicate Wrote(r: Record, c: AppendCall)
  {
    var e := r.event;
    e.typ == c.typ && e.data == c.data && e.hashAlgo == "sha256" &&
    if c.opts.None? then
      e.actorId == e.orgId == e.workspaceId == None && e.acquisition == None &&
      e.timestamp == e.traceId == e.spanId == e.parentSpanId == ""
    else
      var o := c.opts.value;
      e.actorId == o.actorId && e.orgId == o.orgId && e.workspaceId == o.workspaceId &&
      e.timestamp == o.timestamp && e.traceId == o.traceId && e.spanId == o.spanId &&
      e.parentSpanId == o.parentSpanId && e.acquisition == o.acquisition
  }

  /** Appending extends the list by one record, the one asked for; a list that verifies still does. */
  lemma AppendShape(h: Host, records: seq<Record>, typ: string, data: Value, opts: Option<AppendOptions>)
    requires Appended(h, records, typ, data, opts).Ok?
    ensures var longer := Appended(h, records, typ, data, opts).value;
            |longer| == |records| + 1 && longer[..|records|] == records &&
            longer[|records|].event == NewEvent(records, typ, data, opts) &&
            Wrote(longer[|records|], AppendCall(typ, data, opts)) &&
            (Verifies(h.sha, records) ==> Verifies(h.sha, longer))
  {
    hide Compute, ValidType, ParseManifest;
    var e := NewEvent(records, typ, data, opts);
    var r := Record(e, Compute(h.sha, e));
    if Verifies(h.sha, records) {
      ChainGrows(h.sha, records, FirstSequence(records + [r]), r);
    }
  }

  /** Appending keeps the whole invariant. */
  lemma AppendKeeps(h: Host, records: seq<Record>, typ: string, data: Value, opts: Option<AppendOptions>)
    requires BundleOk(h, records) && Appended(h, records, typ, data, opts).Ok?
    ensures var longer := Appended(h, records, typ, data, opts).value;
            BundleOk(h, longer) && |longer| == |records| + 1 && longer[..|records|] == records &&
            longer[|records|].event == NewEvent(records, typ, data, opts)
  {
    hide Compute, ValidType, ParseManifest, Verifies;
    AppendShape(h, records, typ, data, opts);
    var longer := Appended(h, records, typ, data, opts).value;
    forall i | 0 <= i < |longer| && longer[i].event.typ != MANIFEST_TYPE && longer[i].event.acquisition.Some?
      ensures DeclaresV3(h, longer[0])
    {
      if i < |records| {
        assert longer[i] == records[i];
      } else {
        assert BearsAcquisition(typ, opts);
      }
    }
  }

  /** A run of appends; a refused one changes nothing. */
  function AppendAll(h: Host, records: seq<Record>, calls: seq<AppendCall>): seq<Record>
    decreases |calls|
  {
    if calls == [] then records
    else
      var r := Appended(h, records, calls[0].typ, calls[0].data, calls[0].opts);
      AppendAll(h, if r.Ok? then r.value else records, calls[1..])
  }

  /** Any run of appends keeps the invariant and only extends the list. */
  lemma {:induction false} AppendAllKeeps(h: Host, records: seq<Record>, calls: seq<AppendCall>)
    requires BundleOk(h, records)
    ensures BundleOk(h, AppendAll(h, records, calls)) && records <= AppendAll(h, records, calls)
    decreases |calls|
  {
    hide BundleOk, Appended;
    if calls != [] {
      var c := calls[0];
      var r := Appended(h, records, c.typ, c.data, c.opts);
      if r.Ok? {
        AppendKeeps(h, records, c.typ, c.data, c.opts);
        AppendAllKeeps(h, r.value, calls[1..]);
      } else {
        AppendAllKeeps(h, records, calls[1..]);
      }
    }
  }

  // ----- construction -----

  function ManifestFields(version: Value, createdAt: string, bundleId: string, captureRunId: string): map<string, Value>
  {
    var base := map["version" := version, "created_at" := String(createdAt), "bundle_id" := String(bundleId)];
    if captureRunId == "" then base else base["capture_run_id" := String(captureRunId)]
  }

  /** `NewWithOptions`: the creation time and random id come from outside. */
  function NewRecords(h: Host, version: int, createdAt: string, bundleId: string, captureRunId: string)
    : Result<seq<Record>, Error>
  {
    var opts := Some(NO_OPTIONS.(timestamp := createdAt));
    if version == 0 || version == 1 then
      var payload := Object(ManifestFields(String("1"), createdAt, bundleId, captureRunId));
      Appended(h, [], MANIFEST_TYPE, String(h.marshal(payload)), opts)
    else if version == 2 || version == 3 then
      var token := if version == 2 then TOKEN_2 else TOKEN_3;
      Appended(h, [], MANIFEST_TYPE, Object(ManifestFields(Number(token), createdAt, bundleId, captureRunId)), opts)
    else Err(UnsupportedVersion)
  }

  lemma ManifestTypeValid()
    ensures ValidType(MANIFEST_TYPE)
  {
    var s := MANIFEST_TYPE;
    assert |s| == 19;
    assert TypeFrom(s, 18, true, true);
    assert TypeFrom(s, 16, true, true);
    assert TypeFrom(s, 14, true, true);
    assert TypeFrom(s, 12, true, true);
    assert TypeFrom(s, 10, true, true);
    assert TypeFrom(s, 8, true, true);
    assert TypeFrom(s, 6, true, true);
    assert TypeFrom(s, 4, false, true);
    assert TypeFrom(s, 2, true, false);
  }

  /** The version a manifest made for `version` declares. */
  function VersionText(version: int): string
  {
    if version <= 1 then "1" else if version == 2 then "2" else "3"
  }

  /** Every constructor yields one manifest record that reads back the version asked for. */
  lemma NewKeeps(h: Host, version: int, createdAt: string, bundleId: string, captureRunId: string)
    requires HostOk(h) && 0 <= version <= 3 && createdAt != "" && bundleId != ""
    ensures var r := NewRecords(h, version, createdAt, bundleId, captureRunId);
            r.Ok? && |r.value| == 1 && BundleOk(h, r.value) && HasManifest(r.value) &&
            ParseManifest(h, r.value[0]) ==
              Ok(ManifestData(VersionText(version), createdAt, bundleId, captureRunId))
  {
    hide Appended, BundleOk, HostOk;
    var token := if version == 2 then TOKEN_2 else TOKEN_3;
    var payload := Object(ManifestFields(String("1"), createdAt, bundleId, captureRunId));
    var data := if version <= 1 then String(h.marshal(payload))
                else Object(ManifestFields(Number(token), createdAt, bundleId, captureRunId));
    FirstRecord(h, data, createdAt);
    ManifestReads(h, version, createdAt, bundleId, captureRunId,
      NewRecords(h, version, createdAt, bundleId, captureRunId).value[0]);
  }

  lemma FirstRecord(h: Host, data: Value, createdAt: string)
    ensures var r := Appended(h, [], MANIFEST_TYPE, data, Some(NO_OPTIONS.(timestamp := createdAt)));
            r.Ok? && |r.value| == 1 && BundleOk(h, r.value) && r.value[0].event.typ == MANIFEST_TYPE &&
            r.value[0].event.data == data
  {
    ManifestTypeValid();
    hide Compute, ValidType, ParseManifest;
    assert BundleOk(h, []);
    AppendKeeps(h, [], MANIFEST_TYPE, data, Some(NO_OPTIONS.(timestamp := createdAt)));
  }

  lemma ManifestReads(h: Host, version: int, createdAt: string, bundleId: string, captureRunId: string, r: Record)
    requires HostOk(h) && 0 <= version <= 3 && createdAt != "" && bundleId != "" && r.event.typ == MANIFEST_TYPE
    requires var token := if version == 2 then TOKEN_2 else TOKEN_3;
             r.event.data ==
               if version <= 1
               then String(h.marshal(Object(ManifestFields(String("1"), createdAt, bundleId, captureRunId))))
               else Object(ManifestFields(Number(token), createdAt, bundleId, captureRunId))
    ensures ParseManifest(h, r) ==
            Ok(ManifestData(VersionText(version), createdAt, bundleId, captureRunId))
  {
    hide ManifestFields;
    var token := if version == 2 then TOKEN_2 else TOKEN_3;
    FieldsRead(if version <= 1 then String("1") else Number(token), createdAt, bundleId, captureRunId);
  }

  lemma FieldsRead(version: Value, createdAt: string, bundleId: string, captureRunId: string)
    ensures var m := ManifestFields(version, createdAt, bundleId, captureRunId);
            Get(m, "version") == Some(version) && GetText(m, "created_at") == createdAt &&
            GetText(m, "bundle_id") == bundleId && GetText(m, "capture_run_id") == captureRunId &&
            TextOrNull(Get(m, "created_at")) && TextOrNull(Get(m, "bundle_id")) && TextOrNull(Get(m, "capture_run_id"))
  {
  }

  // ----- the provenance stamp -----

  /** `unicode.IsSpace` */
  predicate IsBlank(c: char)
  {
    var r := c as int;
    9 <= r <= 13 || r == 0x20 || r == 0x85 || r == 0xA0 || r == 0x1680 || 0x2000 <= r <= 0x200A ||
    r == 0x2028 || r == 0x2029 || r == 0x202F || r == 0x205F || r == 0x3000
  }

  predicate AllBlank(s: string)
  {
    forall i | 0 <= i < |s| :: IsBlank(s[i])
  }

  function TrimLeft(s: string): string
  {
    if s != "" && IsBlank(s[0]) then TrimLeft(s[1..]) else s
  }

  function TrimRight(s: string): string
  {
    if s != "" && IsBlank(s[|s| - 1]) then TrimRight(s[..|s| - 1]) else s
  }

  /** `strings.TrimSpace` */
  function Trim(s: string): string
  {
    TrimRight(TrimLeft(s))
  }

  lemma {:induction false} TrimmedLeft(s: string) returns (blank: string)
    ensures s == blank + TrimLeft(s) && AllBlank(blank) && (TrimLeft(s) != "" ==> !IsBlank(TrimLeft(s)[0]))
  {
    hide IsBlank;
    blank := "";
    if s != "" && IsBlank(s[0]) {
      var more := TrimmedLeft(s[1..]);
      blank := [s[0]] + more;
    }
  }

  lemma {:induction false} TrimmedRight(s: string) returns (blank: string)
    ensures s == TrimRight(s) + blank && AllBlank(blank)
    ensures TrimRight(s) != "" ==> !IsBlank(TrimRight(s)[|TrimRight(s)| - 1]) && TrimRight(s)[0] == s[0]
  {
    hide IsBlank;
    blank := "";
    if s != "" && IsBlank(s[|s| - 1]) {
      var more := TrimmedRight(s[..|s| - 1]);
      blank := more + [s[|s| - 1]];
    }
  }

  /** Trimming takes away space on both sides and all of it. */
  lemma Trimmed(s: string) returns (left: string, right: string)
    ensures s == left + Trim(s) + right && AllBlank(left) && AllBlank(right)
    ensures Trim(s) != "" ==> !IsBlank(Trim(s)[0]) && !IsBlank(Trim(s)[|Trim(s)| - 1])
  {
    hide IsBlank, AllBlank, TrimLeft, TrimRight;
    left := TrimmedLeft(s);
    right := TrimmedRight(TrimLeft(s));
  }

  function StampFields(m: map<string, Value>, key: string, value: string): map<string, Value>
  {
    var meta := if "metadata" in m && m["metadata"].Object? then m["metadata"].fields else map[];
    m["metadata" := Object(meta[key := String(value)])]
  }

  function StampData(h: Host, data: Value, key: string, value: string): Option<Value>
  {
    match data
    case Object(m) => Some(Object(StampFields(m, key, value)))
    case String(s) =>
      (match h.unmarshal(s)
       case Some(Object(m)) => Some(String(h.marshal(Object(StampFields(m, key, value)))))
       case _ => None)
    case _ => None
  }

  /** `stampManifestProvenance`: edit the manifest's data and rehash record 0. */
  function Stamped(h: Host, records: seq<Record>, key: string, value: string): Result<seq<Record>, Error>
  {
    if !HasManifest(records) || AllBlank(key) then Err(BadStamp)
    else
      match StampData(h, records[0].event.data, key, value)
      case None => Err(BadStamp)
      case Some(data) =>
        var e := records[0].event.(data := data);
        Ok(records[0 := Record(e, Compute(h.sha, e))])
  }

  /** The stamp adds its one entry to the metadata and keeps every other entry and field. */
  lemma StampAdds(m: map<string, Value>, key: string, value: string)
    ensures var stamped := StampFields(m, key, value);
            "metadata" in stamped && stamped["metadata"].Object? &&
            Get(stamped["metadata"].fields, key) == Some(String(value)) &&
            (forall k | k != "metadata" :: Get(stamped, k) == Get(m, k)) &&
            ("metadata" in m && m["metadata"].Object? ==>
              forall k | k != key :: Get(stamped["metadata"].fields, k) == Get(m["metadata"].fields, k))
  {
  }

  lemma StampReads(m: map<string, Value>, key: string, value: string, k: string)
    requires k == "version" || k == "created_at" || k == "bundle_id" || k == "capture_run_id"
    ensures Get(StampFields(m, key, value), k) == Get(m, k) && GetText(StampFields(m, key, value), k) == GetText(m, k)
  {
  }

  /** Stamping leaves what the manifest says as it was. */
  lemma StampParses(h: Host, r: Record, key: string, value: string, stamped: Record)
    requires HostOk(h) && StampData(h, r.event.data, key, value).Some?
    requires stamped.event == r.event.(data := StampData(h, r.event.data, key, value).value)
    ensures ParseManifest(h, stamped) == ParseManifest(h, r)
  {
    var m := if r.event.data.Object? then r.event.data.fields else h.unmarshal(r.event.data.s).value.fields;
    StampReads(m, key, value, "version");
    StampReads(m, key, value, "created_at");
    StampReads(m, key, value, "bundle_id");
    StampReads(m, key, value, "capture_run_id");
  }

  /** A stamped bundle of one record, or one that had the stamp already, keeps the invariant; any
      other does not, unless old and new manifest are a SHA-256 collision. */
  lemma StampKeeps(h: Host, records: seq<Record>, key: string, value: string)
    requires HostOk(h) && BundleOk(h, records) && Stamped(h, records, key, value).Ok?
    ensures var stamped := Stamped(h, records, key, value).value;
            var had := StampData(h, records[0].event.data, key, value) == Some(records[0].event.data);
            |stamped| == |records| && ParseManifest(h, stamped[0]) == ParseManifest(h, records[0]) &&
            (|records| == 1 || had ==> BundleOk(h, stamped)) &&
            (BundleOk(h, stamped) ==>
              |records| == 1 || had || Collision(h.sha, Preimage(records[0].event), Preimage(stamped[0].event)))
  {
    hide Compute, Preimage, ParseManifest, StampData, Verifies;
    var stamped := Stamped(h, records, key, value).value;
    StampParses(h, records[0], key, value, stamped[0]);
    StampRest(h, records, stamped[0]);
    StampChain(h.sha, records, stamped[0]);
  }

  /** Replacing the manifest by one that declares the same changes nothing but the chain. */
  lemma StampRest(h: Host, records: seq<Record>, r: Record)
    requires HasManifest(records) && r.event.typ == MANIFEST_TYPE && ParseManifest(h, r) == ParseManifest(h, records[0])
    requires ManifestOnlyFirst(records) && AcquisitionFloor(h, records)
    ensures ManifestOnlyFirst(records[0 := r]) && AcquisitionFloor(h, records[0 := r])
  {
    hide ParseManifest;
  }

  /** A new first record breaks a longer chain, unless it is the old one or collides with it. */
  lemma StampChain(sha: Sha, records: seq<Record>, r: Record)
    requires HasManifest(records) && Verifies(sha, records) && r.hash == Compute(sha, r.event)
    requires r.event == records[0].event.(data := r.event.data)
    ensures var stamped, was := records[0 := r], records[0].event;
            (|records| == 1 || r.event.data == was.data ==> Verifies(sha, stamped)) &&
            (Verifies(sha, stamped) ==>
              |records| == 1 || r.event.data == was.data || Collision(sha, Preimage(was), Preimage(r.event)))
  {
    hide Compute, Preimage, Collision;
    var stamped := records[0 := r];
    assert LinkOk(sha, records, 0, 0) && LinkOk(sha, stamped, 0, 0);
    if |records| > 1 {
      assert LinkOk(sha, records, 0, 1);
      if r.hash != records[0].hash {
        assert !LinkOk(sha, stamped, 0, 1);
      } else {
        SameHashSameEvent(sha, records[0], r);
        forall i | 0 < i < |stamped| ensures LinkOk(sha, stamped, 0, i) {
          assert LinkOk(sha, records, 0, i);
        }
      }
    }
  }

  lemma SameHashSameEvent(sha: Sha, a: Record, b: Record)
    requires a.hash == b.hash && a.event.prevHash == b.event.prevHash == GENESIS
    requires a.hash == Compute(sha, a.event) && b.hash == Compute(sha, b.event)
    ensures a.event == b.event || Collision(sha, Preimage(a.event), Preimage(b.event))
  {
    hide Preimage;
    if Preimage(a.event) == Preimage(b.event) { PreimageInjective(a.event, b.event); }
  }

  // ----- tampering -----

  /** Two verifying bundles with a manifest and the same head are the same bundle, or `x` and
      `y` are a SHA-256 collision. So are two verifying bundles of any kind with the same head
      and record count. */
  lemma SameBundle(sha: Sha, a: seq<Record>, b: seq<Record>) returns (x: Bytes, y: Bytes)
    requires Verifies(sha, a) && Verifies(sha, b) && a != [] && b != [] && Head(a) == Head(b)
    requires (HasManifest(a) && HasManifest(b)) || |a| == |b|
    ensures a == b || Collision(sha, x, y)
  {
    x, y := SameHead(sha, a, FirstSequence(a), b, FirstSequence(b));
  }

  /** Every prefix of a verifying bundle verifies. */
  lemma PrefixVerifies(sha: Sha, records: seq<Record>, n: nat)
    requires Verifies(sha, records) && n <= |records|
    ensures Verifies(sha, records[..n])
  {
    ChainPrefix(sha, records, FirstSequence(records), n);
  }

  // ----- the bundle object -----

  class Bundle {
    var records: seq<Record>

    constructor Empty()
      ensures records == []
    {
      records := [];
    }

    /** The event `AppendWithOptions` appends: its place in the chain, and the options. */
    method BuildEvent(typ: string, data: Value, opts: Option<AppendOptions>) returns (e: Event)
      ensures e == NewEvent(records, typ, data, opts)
    {
      var prevHash: string := GENESIS;
      if |records| > 0 {
        prevHash := records[|records| - 1].hash;
      }
      var sequence := |records| + 1;
      if typ == MANIFEST_TYPE {
        sequence := 0;
      } else if HasManifest(records) {
        sequence := |records|;
      }
      var o := if opts.Some? then opts.value else NO_OPTIONS;
      e := Event(sequence, prevHash, typ, "sha256", data, o.actorId, o.orgId, o.workspaceId,
                 o.timestamp, o.traceId, o.spanId, o.parentSpanId, o.acquisition);
    }

    /** `AppendWithOptions` */
    method AppendWithOptions(h: Host, typ: string, data: Value, opts: Option<AppendOptions>)
      returns (err: Option<Error>)
      modifies this
      ensures Appended(h, old(records), typ, data, opts) == (if err.None? then Ok(records) else Err(err.value))
      ensures err.Some? ==> records == old(records)
      ensures old(BundleOk(h, records)) ==> BundleOk(h, records)
    {
      hide ParseManifest, Compute, ValidType, BundleOk, NewEvent;
      ghost var before := records;
      if typ == MANIFEST_TYPE && |records| > 0 {
        return Some(ManifestNotFirst);
      }
      if typ != MANIFEST_TYPE && opts.Some? && opts.value.acquisition.Some? {
        if !HasManifest(records) {
          return Some(ManifestAbsent);
        }
        var manifest := ParseManifest(h, records[0]);
        if manifest.Err? {
          return Some(manifest.error);
        }
        if manifest.value.version != "3" {
          return Some(ProfileTooOld);
        }
      }
      if !ValidType(typ) {
        return Some(BadEventType);
      }
      var e := BuildEvent(typ, data, opts);
      records := records + [Record(e, Compute(h.sha, e))];
      if BundleOk(h, before) {
        AppendKeeps(h, before, typ, data, opts);
      }
      return None;
    }

    /** `stampManifestProvenance`: edit record 0 in place. */
    method StampManifestProvenance(h: Host, key: string, value: string) returns (err: Option<Error>)
      modifies this
      ensures Stamped(h, old(records), key, value) == (if err.None? then Ok(records) else Err(err.value))
      ensures err.Some? ==> records == old(records)
    {
      hide Compute, AllBlank;
      if |records| == 0 || records[0].event.typ != MANIFEST_TYPE || AllBlank(key) {
        return Some(BadStamp);
      }
      var e := records[0].event;
      match e.data {
        case Object(data) => e := e.(data := Object(StampFields(data, key, value)));
        case String(text) =>
          var payload := h.unmarshal(text);
          if payload.None? || !payload.value.Object? {
            return Some(BadStamp);
          }
          e := e.(data := String(h.marshal(Object(StampFields(payload.value.fields, key, value)))));
        case _ => return Some(BadStamp);
      }
      records := records[0 := Record(e, Compute(h.sha, e))];
      return None;
    }

    /** `Verify` */
    method Verify(sha: Sha) returns (fault: Option<Fault>)
      ensures fault.None? <==> Verifies(sha, records)
      ensures fault.Some? ==> IsFault(sha, records, FirstSequence(records), fault.value)
    {
      if HasManifest(records) {
        fault := VerifyChain(sha, records, 0);
      } else {
        fault := VerifyChain(sha, records, 1);
      }
    }
  }
}
