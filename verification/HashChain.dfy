/** Events, their canonical hash, and the chain of internal/hash. SHA-256 is a function
    parameter: every result holds for whatever function it is. */
module HashChain {
  import opened Wrappers
  import opened Seqs
  import opened Utf8
  import opened Json
  import opened Canonicalize

  predicate Ascii(s: string)
  {
    forall i | 0 <= i < |s| :: s[i] as int < 0x80
  }

  function Zeros(n: nat): (s: string)
    ensures |s| == n && Ascii(s) && forall i | 0 <= i < n :: s[i] == '0'
  {
    if n == 0 then "" else ['0'] + Zeros(n - 1)
  }

  predicate HexDigits(s: string)
  {
    forall i | 0 <= i < |s| :: '0' <= s[i] <= '9' || 'a' <= s[i] <= 'f'
  }

  /** A hex-encoded SHA-256 digest. */
  type Hex = s: string | |s| == 64 && Ascii(s) && HexDigits(s) witness Zeros(64)
  type Sha = Bytes -> Hex

  /** The previous hash of the first record. */
  const GENESIS: Hex := Zeros(64)

  datatype CheckpointInfo = CheckpointInfo(
    sourceSystem: string, acquisitionStream: string, position: string,
    observedAt: string, adapter: string, adapterVersion: string)

  datatype Acquisition = Acquisition(
    mode: string, sourceSystem: string, sourceRecordId: string, sourceTimestamp: string,
    acquiredAt: string, sourceDigest: string, adapter: string, adapterVersion: string,
    checkpoint: Option<CheckpointInfo>)

  datatype Event = Event(
    sequence: int, prevHash: string, typ: string, hashAlgo: string, data: Value,
    actorId: Option<string>, orgId: Option<string>, workspaceId: Option<string>,
    timestamp: string, traceId: string, spanId: string, parentSpanId: string,
    acquisition: Option<Acquisition>)

  /** A line of a bundle file. */
  datatype Record = Record(event: Event, hash: string)

  // ----- an event as JSON -----

  /** A struct field: its JSON name and its value, None when it is omitted. */
  type Field = (string, Option<Value>)

  function Fields(fs: seq<Field>): map<string, Value>
  {
    if fs == [] then map[]
    else if fs[0].1.None? then Fields(fs[1..])
    else Fields(fs[1..])[fs[0].0 := fs[0].1.value]
  }

  ghost predicate SameNames(fs: seq<Field>, gs: seq<Field>)
  {
    |fs| == |gs| && forall i | 0 <= i < |fs| :: fs[i].0 == gs[i].0
  }

  ghost predicate DistinctNames(fs: seq<Field>)
  {
    forall i, j | 0 <= i < j < |fs| :: fs[i].0 != fs[j].0
  }

  lemma {:induction false} FieldAbsent(fs: seq<Field>, name: string)
    requires forall i | 0 <= i < |fs| :: fs[i].0 != name
    ensures name !in Fields(fs)
  {
    if fs != [] { FieldAbsent(fs[1..], name); }
  }

  /** With distinct names, the object determines every field. */
  lemma {:induction false} FieldsInjective(fs: seq<Field>, gs: seq<Field>)
    requires SameNames(fs, gs) && DistinctNames(fs) && Fields(fs) == Fields(gs)
    ensures fs == gs
  {
    if fs != [] {
      var name := fs[0].0;
      FieldAbsent(fs[1..], name);
      FieldAbsent(gs[1..], name);
      assert fs[0].1 == gs[0].1 by {
        assert name in Fields(fs) <==> fs[0].1.Some?;
        assert name in Fields(gs) <==> gs[0].1.Some?;
      }
      assert Fields(fs[1..]) == Fields(fs) - {name};
      assert Fields(gs[1..]) == Fields(gs) - {name};
      FieldsInjective(fs[1..], gs[1..]);
      HeadTail(fs);
      HeadTail(gs);
    }
  }

  /** With distinct names, each field stands under its own. */
  lemma {:induction false} FieldAt(fs: seq<Field>, i: nat)
    requires DistinctNames(fs) && i < |fs|
    ensures Get(Fields(fs), fs[i].0) == fs[i].1
  {
    if i == 0 {
      FieldAbsent(fs[1..], fs[0].0);
    } else {
      assert fs[1..][i - 1] == fs[i] && fs[0].0 != fs[i].0;
      FieldAt(fs[1..], i - 1);
    }
  }

  lemma {:induction false} FieldsOnly(fs: seq<Field>, k: string)
    requires k in Fields(fs)
    ensures exists i | 0 <= i < |fs| :: fs[i].0 == k
  {
    if fs[0].0 != k {
      FieldsOnly(fs[1..], k);
      var i :| 0 <= i < |fs[1..]| && fs[1..][i].0 == k;
      assert fs[i + 1].0 == k;
    }
  }

  function Text(s: string): Option<Value> { Some(String(s)) }

  /** A string tagged `omitempty`. */
  function NonEmpty(s: string): Option<Value> { if s == "" then None else Some(String(s)) }

  /** A string pointer tagged `omitempty`. */
  function Pointer(s: Option<string>): Option<Value>
  {
    match s
    case None => None
    case Some(t) => Some(String(t))
  }

  /** Decimal digits, as `serializeNumber` prints an integer it can represent. */
  function Decimal(n: nat): (t: Bytes)
    ensures t != [] && forall i | 0 <= i < |t| :: 48 <= t[i] <= 57
  {
    if n < 10 then [(48 + n) as Byte] else Decimal(n / 10) + [(48 + n % 10) as Byte]
  }

  /** The number decimal digits stand for. */
  function ReadDecimal(t: Bytes): int
  {
    if t == [] then 0 else 10 * ReadDecimal(t[..|t| - 1]) + (t[|t| - 1] as int - 48)
  }

  /** The digits stand for the number, without a zero in front. */
  lemma {:induction false} DecimalReads(n: nat)
    ensures ReadDecimal(Decimal(n)) == n && (|Decimal(n)| > 1 ==> Decimal(n)[0] != 48)
  {
    if n < 10 {
      assert ReadDecimal([]) == 0;
    } else {
      DecimalReads(n / 10);
      var front := Decimal(n / 10);
      assert Decimal(n)[..|front|] == front;
      if |front| == 1 { assert ReadDecimal(front[..0]) == 0; }
    }
  }

  function IntToken(n: int): NumberToken
  {
    if n < 0 then [45] + Decimal(-n) else Decimal(n)
  }

  lemma {:induction false} DecimalInjective(m: nat, n: nat)
    requires Decimal(m) == Decimal(n)
    ensures m == n
  {
    var s, t := Decimal(m), Decimal(n);
    assert s[|s| - 1] == t[|t| - 1];
    if m >= 10 && n >= 10 {
      Parts(Decimal(m / 10), [(48 + m % 10) as Byte]);
      Parts(Decimal(n / 10), [(48 + n % 10) as Byte]);
      DecimalInjective(m / 10, n / 10);
    }
  }

  lemma IntTokenInjective(m: int, n: int)
    requires IntToken(m) == IntToken(n)
    ensures m == n
  {
    assert m < 0 <==> IntToken(m)[0] == 45;
    assert n < 0 <==> IntToken(n)[0] == 45;
    if m < 0 {
      Cons(45, Decimal(-m));
      Cons(45, Decimal(-n));
      DecimalInjective(-m, -n);
    } else {
      DecimalInjective(m, n);
    }
  }

  function CheckpointFields(c: CheckpointInfo): seq<Field>
  {
    [("source_system", Text(c.sourceSystem)), ("acquisition_stream", Text(c.acquisitionStream)),
     ("position", Text(c.position)), ("observed_at", Text(c.observedAt)),
     ("adapter", Text(c.adapter)), ("adapter_version", NonEmpty(c.adapterVersion))]
  }

  function CheckpointJson(c: Option<CheckpointInfo>): Option<Value>
  {
    match c
    case None => None
    case Some(x) => Some(Object(Fields(CheckpointFields(x))))
  }

  function AcquisitionFields(a: Acquisition): seq<Field>
  {
    [("mode", NonEmpty(a.mode)), ("source_system", NonEmpty(a.sourceSystem)),
     ("source_record_id", NonEmpty(a.sourceRecordId)), ("source_timestamp", NonEmpty(a.sourceTimestamp)),
     ("acquired_at", NonEmpty(a.acquiredAt)), ("source_digest", NonEmpty(a.sourceDigest)),
     ("adapter", NonEmpty(a.adapter)), ("adapter_version", NonEmpty(a.adapterVersion)),
     ("checkpoint", CheckpointJson(a.checkpoint))]
  }

  function AcquisitionJson(a: Option<Acquisition>): Option<Value>
  {
    match a
    case None => None
    case Some(x) => Some(Object(Fields(AcquisitionFields(x))))
  }

  function EventFields(e: Event): seq<Field>
  {
    [("seq", Some(Number(IntToken(e.sequence)))), ("prev_hash", Text(e.prevHash)), ("type", Text(e.typ)),
     ("hash_algo", NonEmpty(e.hashAlgo)), ("data", Some(e.data)),
     ("actor_id", Pointer(e.actorId)), ("org_id", Pointer(e.orgId)), ("workspace_id", Pointer(e.workspaceId)),
     ("timestamp", NonEmpty(e.timestamp)), ("trace_id", NonEmpty(e.traceId)), ("span_id", NonEmpty(e.spanId)),
     ("parent_span_id", NonEmpty(e.parentSpanId)), ("acquisition", AcquisitionJson(e.acquisition))]
  }

  function EventJson(e: Event): Value
  {
    Object(Fields(EventFields(e)))
  }

  lemma CheckpointInjective(c: CheckpointInfo, d: CheckpointInfo)
    requires Fields(CheckpointFields(c)) == Fields(CheckpointFields(d))
    ensures c == d
  {
    hide Fields;
    var fs, gs := CheckpointFields(c), CheckpointFields(d);
    FieldsInjective(fs, gs);
    assert fs[0] == gs[0] && fs[1] == gs[1] && fs[2] == gs[2] && fs[3] == gs[3] && fs[4] == gs[4] && fs[5] == gs[5];
  }

  lemma AcquisitionNames(a: Acquisition, b: Acquisition)
    ensures DistinctNames(AcquisitionFields(a)) && SameNames(AcquisitionFields(a), AcquisitionFields(b))
  {
    hide NonEmpty, CheckpointJson;
    var fs := AcquisitionFields(a);
    assert fs[0].0[0] == 'm' && fs[6].0[1] == 'd' && fs[4].0[1] == 'c';
  }

  lemma AcquisitionInjective(a: Acquisition, b: Acquisition)
    requires Fields(AcquisitionFields(a)) == Fields(AcquisitionFields(b))
    ensures a == b
  {
    hide Fields, DistinctNames, SameNames;
    var fs, gs := AcquisitionFields(a), AcquisitionFields(b);
    AcquisitionNames(a, b);
    FieldsInjective(fs, gs);
    assert fs[0] == gs[0] && fs[1] == gs[1] && fs[2] == gs[2] && fs[3] == gs[3] && fs[4] == gs[4];
    assert fs[5] == gs[5] && fs[6] == gs[6] && fs[7] == gs[7] && fs[8] == gs[8];
    if a.checkpoint.Some? && b.checkpoint.Some? {
      CheckpointInjective(a.checkpoint.value, b.checkpoint.value);
    }
  }

  lemma EventNames(e: Event, f: Event)
    ensures DistinctNames(EventFields(e)) && SameNames(EventFields(e), EventFields(f))
  {
    hide IntToken, NonEmpty, Pointer, AcquisitionJson, Text;
    var fs := EventFields(e);
    assert fs[1].0[0] == 'p' && fs[3].0[0] == 'h' && fs[8].0[0] == 't';
    assert fs[2].0[0] == 't' && fs[4].0[0] == 'd' && fs[5].0[0] == 'a' && fs[9].0[0] == 't';
  }

  /** No two events share their JSON: the hash covers every field. */
  lemma EventInjective(e: Event, f: Event)
    requires EventJson(e) == EventJson(f)
    ensures e == f
  {
    hide Fields, IntToken, AcquisitionFields, DistinctNames, SameNames;
    var fs, gs := EventFields(e), EventFields(f);
    EventNames(e, f);
    FieldsInjective(fs, gs);
    assert fs[0] == gs[0] && fs[1] == gs[1] && fs[2] == gs[2] && fs[3] == gs[3] && fs[4] == gs[4];
    assert fs[5] == gs[5] && fs[6] == gs[6] && fs[7] == gs[7] && fs[8] == gs[8] && fs[9] == gs[9];
    assert fs[10] == gs[10] && fs[11] == gs[11] && fs[12] == gs[12];
    IntTokenInjective(e.sequence, f.sequence);
    if e.acquisition.Some? && f.acquisition.Some? {
      AcquisitionInjective(e.acquisition.value, f.acquisition.value);
    }
  }

  // ----- what a reader finds in it -----

  /** A string that is left out when empty. */
  ghost predicate StandsUnlessEmpty(m: map<string, Value>, name: string, s: string)
  {
    Get(m, name) == if s == "" then None else Some(String(s))
  }

  ghost predicate StandsIfGiven(m: map<string, Value>, name: string, s: Option<string>)
  {
    Get(m, name) == if s.None? then None else Some(String(s.value))
  }

  const EVENT_NAMES := ["seq", "prev_hash", "type", "hash_algo", "data", "actor_id", "org_id", "workspace_id",
                        "timestamp", "trace_id", "span_id", "parent_span_id", "acquisition"]

  /** Every field of an event stands in its JSON under its own name, and nothing else does. */
  lemma EventReads(e: Event)
    ensures var m := EventJson(e).fields;
            Get(m, "seq") == Some(Number(IntToken(e.sequence))) && Get(m, "prev_hash") == Some(String(e.prevHash)) &&
            Get(m, "type") == Some(String(e.typ)) && Get(m, "data") == Some(e.data) &&
            StandsUnlessEmpty(m, "hash_algo", e.hashAlgo) && StandsIfGiven(m, "actor_id", e.actorId) &&
            StandsIfGiven(m, "org_id", e.orgId) && StandsIfGiven(m, "workspace_id", e.workspaceId) &&
            StandsUnlessEmpty(m, "timestamp", e.timestamp) && StandsUnlessEmpty(m, "trace_id", e.traceId) &&
            StandsUnlessEmpty(m, "span_id", e.spanId) && StandsUnlessEmpty(m, "parent_span_id", e.parentSpanId) &&
            (e.acquisition.None? ==> "acquisition" !in m) &&
            (e.acquisition.Some? ==>
              "acquisition" in m && m["acquisition"].Object? &&
              AcquisitionReads(m["acquisition"].fields, e.acquisition.value))
    ensures forall k | k in EventJson(e).fields :: k in EVENT_NAMES
  {
    hide Fields, IntToken, AcquisitionFields, DistinctNames;
    var fs := EventFields(e);
    EventNames(e, e);
    forall i | 0 <= i < 13 ensures Get(Fields(fs), fs[i].0) == fs[i].1 { FieldAt(fs, i); }
    assert Get(Fields(fs), fs[0].0) == fs[0].1 && Get(Fields(fs), fs[1].0) == fs[1].1;
    assert Get(Fields(fs), fs[2].0) == fs[2].1 && Get(Fields(fs), fs[3].0) == fs[3].1;
    assert Get(Fields(fs), fs[4].0) == fs[4].1 && Get(Fields(fs), fs[5].0) == fs[5].1;
    assert Get(Fields(fs), fs[6].0) == fs[6].1 && Get(Fields(fs), fs[7].0) == fs[7].1;
    assert Get(Fields(fs), fs[8].0) == fs[8].1 && Get(Fields(fs), fs[9].0) == fs[9].1;
    assert Get(Fields(fs), fs[10].0) == fs[10].1 && Get(Fields(fs), fs[11].0) == fs[11].1;
    assert Get(Fields(fs), fs[12].0) == fs[12].1;
    if e.acquisition.Some? { AcquisitionStands(e.acquisition.value); }
    forall k | k in Fields(fs) ensures k in EVENT_NAMES {
      FieldsOnly(fs, k);
      var i :| 0 <= i < |fs| && fs[i].0 == k;
      assert EVENT_NAMES[i] == k;
    }
  }

  /** What a reader finds of an acquisition. */
  ghost predicate AcquisitionReads(m: map<string, Value>, a: Acquisition)
  {
    StandsUnlessEmpty(m, "mode", a.mode) && StandsUnlessEmpty(m, "source_system", a.sourceSystem) &&
    StandsUnlessEmpty(m, "source_record_id", a.sourceRecordId) &&
    StandsUnlessEmpty(m, "source_timestamp", a.sourceTimestamp) &&
    StandsUnlessEmpty(m, "acquired_at", a.acquiredAt) && StandsUnlessEmpty(m, "source_digest", a.sourceDigest) &&
    StandsUnlessEmpty(m, "adapter", a.adapter) && StandsUnlessEmpty(m, "adapter_version", a.adapterVersion) &&
    (a.checkpoint.None? ==> "checkpoint" !in m) &&
    (a.checkpoint.Some? ==>
      "checkpoint" in m && m["checkpoint"].Object? && CheckpointReads(m["checkpoint"].fields, a.checkpoint.value))
  }

  ghost predicate CheckpointReads(m: map<string, Value>, c: CheckpointInfo)
  {
    Get(m, "source_system") == Some(String(c.sourceSystem)) &&
    Get(m, "acquisition_stream") == Some(String(c.acquisitionStream)) &&
    Get(m, "position") == Some(String(c.position)) && Get(m, "observed_at") == Some(String(c.observedAt)) &&
    Get(m, "adapter") == Some(String(c.adapter)) && StandsUnlessEmpty(m, "adapter_version", c.adapterVersion)
  }

  lemma AcquisitionStands(a: Acquisition)
    ensures AcquisitionReads(Fields(AcquisitionFields(a)), a)
  {
    hide Fields, CheckpointFields, DistinctNames;
    var fs := AcquisitionFields(a);
    AcquisitionNames(a, a);
    forall i | 0 <= i < 9 ensures Get(Fields(fs), fs[i].0) == fs[i].1 { FieldAt(fs, i); }
    assert Get(Fields(fs), fs[0].0) == fs[0].1 && Get(Fields(fs), fs[1].0) == fs[1].1;
    assert Get(Fields(fs), fs[2].0) == fs[2].1 && Get(Fields(fs), fs[3].0) == fs[3].1;
    assert Get(Fields(fs), fs[4].0) == fs[4].1 && Get(Fields(fs), fs[5].0) == fs[5].1;
    assert Get(Fields(fs), fs[6].0) == fs[6].1 && Get(Fields(fs), fs[7].0) == fs[7].1;
    assert Get(Fields(fs), fs[8].0) == fs[8].1;
    if a.checkpoint.Some? { CheckpointStands(a.checkpoint.value); }
  }

  lemma CheckpointStands(c: CheckpointInfo)
    ensures CheckpointReads(Fields(CheckpointFields(c)), c)
  {
    hide Fields;
    var fs := CheckpointFields(c);
    assert DistinctNames(fs);
    forall i | 0 <= i < 6 ensures Get(Fields(fs), fs[i].0) == fs[i].1 { FieldAt(fs, i); }
    assert Get(Fields(fs), fs[0].0) == fs[0].1 && Get(Fields(fs), fs[1].0) == fs[1].1;
    assert Get(Fields(fs), fs[2].0) == fs[2].1 && Get(Fields(fs), fs[3].0) == fs[3].1;
    assert Get(Fields(fs), fs[4].0) == fs[4].1 && Get(Fields(fs), fs[5].0) == fs[5].1;
  }

  // ----- hashing -----

  /** What is hashed: the previous hash, then the canonical event. */
  function Preimage(e: Event): Bytes
  {
    Encode(e.prevHash) + Canon(EventJson(e))
  }

  /** `Compute` */
  function Compute(sha: Sha, e: Event): Hex
  {
    sha(Preimage(e))
  }

  /** The hash input is the previous hash and then text that reads as the event's JSON. */
  lemma PreimageReads(e: Event)
    ensures var n := |Encode(e.prevHash)|;
            n <= |Preimage(e)| && Preimage(e)[..n] == Encode(e.prevHash) &&
            ParseValue(Preimage(e)[n..]) == Some((EventJson(e), []))
  {
    hide Canon, Encode, EventJson, ParseValue;
    Parts(Encode(e.prevHash), Canon(EventJson(e)));
    ParseCanon(EventJson(e), []);
    Units(Canon(EventJson(e)));
  }

  /** Two inputs with one digest. */
  ghost predicate Collision(sha: Sha, x: Bytes, y: Bytes)
  {
    x != y && sha(x) == sha(y)
  }

  lemma {:induction false} EncodeAscii(s: string)
    requires Ascii(s)
    ensures |Encode(s)| == |s|
  {
    if s != "" { EncodeAscii(s[1..]); }
  }

  /** After two previous hashes of full width, equal preimages are equal events. */
  lemma PreimageInjective(e: Event, f: Event)
    requires Preimage(e) == Preimage(f)
    requires |e.prevHash| == 64 && Ascii(e.prevHash) && |f.prevHash| == 64 && Ascii(f.prevHash)
    ensures e == f
  {
    hide Canon, Encode, EventJson;
    EncodeAscii(e.prevHash);
    EncodeAscii(f.prevHash);
    Parts(Encode(e.prevHash), Canon(EventJson(e)));
    Parts(Encode(f.prevHash), Canon(EventJson(f)));
    CanonInjective(EventJson(e), EventJson(f));
    EventInjective(e, f);
  }

  // ----- the chain -----

  /** The previous hash record `i` must carry. */
  function PrevAt(records: seq<Record>, i: nat): string
    requires i <= |records|
  {
    if i == 0 then GENESIS else records[i - 1].hash
  }

  /** Record `i` has its place in a chain numbered from `start`. */
  ghost predicate LinkOk(sha: Sha, records: seq<Record>, start: int, i: nat)
    requires i < |records|
  {
    var r := records[i];
    r.event.sequence == start + i && r.event.prevHash == PrevAt(records, i) && r.hash == Compute(sha, r.event)
  }

  ghost predicate ChainOk(sha: Sha, records: seq<Record>, start: int)
  {
    forall i | 0 <= i < |records| :: LinkOk(sha, records, start, i)
  }

  function Head(records: seq<Record>): string
  {
    if records == [] then "" else records[|records| - 1].hash
  }

  datatype Fault = SequenceMismatch(at: nat) | PrevHashMismatch(at: nat) | HashMismatch(at: nat)

  /** What is wrong at the first record that does not fit. */
  ghost predicate IsFault(sha: Sha, records: seq<Record>, start: int, f: Fault)
  {
    f.at < |records| && ChainOk(sha, records[..f.at], start) &&
    match f
    case SequenceMismatch(i) => records[i].event.sequence != start + i
    case PrevHashMismatch(i) =>
      records[i].event.sequence == start + i && records[i].event.prevHash != PrevAt(records, i)
    case HashMismatch(i) =>
      records[i].event.sequence == start + i && records[i].event.prevHash == PrevAt(records, i) &&
      records[i].hash != Compute(sha, records[i].event)
  }

  lemma ChainGrows(sha: Sha, records: seq<Record>, start: int, r: Record)
    requires ChainOk(sha, records, start)
    requires r.event.sequence == start + |records| && r.event.prevHash == PrevAt(records, |records|)
    requires r.hash == Compute(sha, r.event)
    ensures ChainOk(sha, records + [r], start)
  {
    hide Compute;
    var longer := records + [r];
    forall i | 0 <= i < |longer| ensures LinkOk(sha, longer, start, i) {
      if i < |records| { assert LinkOk(sha, records, start, i); }
    }
  }

  lemma ChainPrefix(sha: Sha, records: seq<Record>, start: int, n: nat)
    requires ChainOk(sha, records, start) && n <= |records|
    ensures ChainOk(sha, records[..n], start)
  {
    hide Compute;
    forall i | 0 <= i < n ensures LinkOk(sha, records[..n], start, i) {
      assert LinkOk(sha, records, start, i);
    }
  }

  /** The loop of `hash.Verify` (numbering from 1) and of `verifyManifestBundle` (from 0). */
  method VerifyChain(sha: Sha, records: seq<Record>, start: int) returns (fault: Option<Fault>)
    ensures fault.None? <==> ChainOk(sha, records, start)
    ensures fault.Some? ==> IsFault(sha, records, start, fault.value)
  {
    hide Compute;
    var prev := GENESIS;
    for i := 0 to |records|
      invariant ChainOk(sha, records[..i], start) && prev == PrevAt(records, i)
    {
      var e := records[i].event;
      var computed := Compute(sha, e.(prevHash := prev, sequence := start + i));
      if e.sequence != start + i {
        assert !LinkOk(sha, records, start, i);
        return Some(SequenceMismatch(i));
      }
      if e.prevHash != prev {
        assert !LinkOk(sha, records, start, i);
        return Some(PrevHashMismatch(i));
      }
      assert e == e.(prevHash := prev, sequence := start + i);
      if computed != records[i].hash {
        assert !LinkOk(sha, records, start, i);
        return Some(HashMismatch(i));
      }
      ChainGrows(sha, records[..i], start, records[i]);
      assert records[..i + 1] == records[..i] + [records[i]];
      prev := computed;
    }
    assert records[..|records|] == records;
    return None;
  }

  /** Events with the hashes they have. */
  function Sealed(sha: Sha, events: seq<Event>): (records: seq<Record>)
    ensures |records| == |events| &&
            forall i | 0 <= i < |events| :: records[i] == Record(events[i], Compute(sha, events[i]))
  {
    seq(|events|, i requires 0 <= i < |events| => Record(events[i], Compute(sha, events[i])))
  }

  /** `Chain`: number and link the events in place, from 1, and return the last hash. `VerifyChain`
      accepts the result; nothing but number and previous hash changes. */
  method Chain(sha: Sha, events: array<Event>) returns (head: string)
    modifies events
    ensures ChainOk(sha, Sealed(sha, events[..]), 1)
    ensures head == PrevAt(Sealed(sha, events[..]), events.Length)
    ensures forall i | 0 <= i < events.Length ::
      events[i] == old(events[i]).(sequence := events[i].sequence, prevHash := events[i].prevHash)
  {
    hide Compute;
    head := GENESIS;
    for i := 0 to events.Length
      invariant ChainOk(sha, Sealed(sha, events[..i]), 1) && head == PrevAt(Sealed(sha, events[..i]), i)
      invariant forall k | 0 <= k < events.Length ::
        events[k] == old(events[k]).(sequence := events[k].sequence, prevHash := events[k].prevHash)
    {
      ghost var before := events[..i];
      events[i] := events[i].(prevHash := head, sequence := i + 1);
      var h := Compute(sha, events[i]);
      assert events[..i + 1] == before + [events[i]];
      assert Sealed(sha, events[..i + 1]) == Sealed(sha, before) + [Record(events[i], h)];
      ChainGrows(sha, Sealed(sha, before), 1, Record(events[i], h));
      head := h;
    }
    assert events[..events.Length] == events[..];
  }

  /** One head hash fixes the whole record list. Two chains that verify and end in the same
      hash are the same list, or `x` and `y` collide, or - only when one is numbered from 0,
      the other from 1, and their lengths differ - `x` hashes to the genesis constant. */
  lemma {:induction false} SameHead(sha: Sha, a: seq<Record>, startA: int, b: seq<Record>, startB: int)
    returns (x: Bytes, y: Bytes)
    requires a != [] && b != [] && ChainOk(sha, a, startA) && ChainOk(sha, b, startB)
    requires Head(a) == Head(b)
    ensures startA == startB || |a| == |b| ==> (a == b && startA == startB) || Collision(sha, x, y)
    ensures a == b || Collision(sha, x, y) || sha(x) == GENESIS
    decreases |a|
  {
    hide Preimage;
    var i, j := |a| - 1, |b| - 1;
    var e, f := a[i].event, b[j].event;
    assert LinkOk(sha, a, startA, i) && LinkOk(sha, b, startB, j);
    x, y := Preimage(e), Preimage(f);
    if x == y {
      PrevWide(sha, a, startA, i);
      PrevWide(sha, b, startB, j);
      PreimageInjective(e, f);
      assert a[i] == b[j];
      if i == 0 && j == 0 {
        assert a == [a[0]] && b == [b[0]];
      } else if i == 0 {
        x := PrevPreimage(sha, b, startB, j);
      } else if j == 0 {
        x := PrevPreimage(sha, a, startA, i);
      } else {
        ChainPrefix(sha, a, startA, i);
        ChainPrefix(sha, b, startB, j);
        x, y := SameHead(sha, a[..i], startA, b[..j], startB);
        assert a == a[..i] + [a[i]] && b == b[..j] + [b[j]];
      }
    }
  }

  lemma PrevWide(sha: Sha, a: seq<Record>, start: int, i: nat)
    requires i < |a| && ChainOk(sha, a, start)
    ensures |a[i].event.prevHash| == 64 && Ascii(a[i].event.prevHash)
  {
    hide Compute;
    assert LinkOk(sha, a, start, i);
    if i > 0 { assert LinkOk(sha, a, start, i - 1); }
  }

  lemma PrevPreimage(sha: Sha, a: seq<Record>, start: int, i: nat) returns (x: Bytes)
    requires 0 < i < |a| && ChainOk(sha, a, start)
    ensures sha(x) == a[i].event.prevHash
  {
    hide Preimage;
    assert LinkOk(sha, a, start, i) && LinkOk(sha, a, start, i - 1);
    x := Preimage(a[i - 1].event);
  }
}
