/** Reconciling an import with a bundle: internal/acquisition/reconcile.go and the planning
    and applying half of import_integration.go. */
module Reconcile {
  import opened Wrappers
  import opened Seqs
  import opened Json
  import opened HashChain
  import opened Manifest
  import opened Bundle

  const FINDING_TYPE := "atb.acquisition.finding"

  /** `importEvent` */
  datatype ImportEvent = ImportEvent(
    typ: string, data: Value, timestamp: string, traceId: string, spanId: string, parentSpanId: string,
    acquisition: Option<Acquisition>)

  // ----- source identities -----

  /** `identityKey`: a plain join. */
  function Join(system: string, id: string): string
  {
    system + ":" + id
  }

  /** A number as `%d` prints it. */
  function Digits(n: nat): (s: string)
    ensures ':' !in s && s != ""
  {
    if n < 10 then [('0' as int + n) as char] else Digits(n / 10) + [('0' as int + n % 10) as char]
  }

  const UNKNOWN_SYSTEM := "__unknown__"

  predicate HasRecordId(ev: ImportEvent)
  {
    ev.acquisition.Some? && ev.acquisition.value.sourceRecordId != ""
  }

  /** A source record with a stable identity. */
  predicate Identified(ev: ImportEvent)
  {
    HasRecordId(ev) && ev.acquisition.value.sourceSystem != ""
  }

  /** The key under which event `i` shares a decision. */
  function KeyAt(events: seq<ImportEvent>, i: nat): string
    requires i < |events|
  {
    if HasRecordId(events[i])
    then Join(events[i].acquisition.value.sourceSystem, events[i].acquisition.value.sourceRecordId)
    else Join(UNKNOWN_SYSTEM, Digits(i))
  }

  /** A system name the join keeps apart from every other. */
  predicate WellNamed(ev: ImportEvent)
  {
    HasRecordId(ev) ==> ':' !in ev.acquisition.value.sourceSystem && ev.acquisition.value.sourceSystem != UNKNOWN_SYSTEM
  }

  /** Without ':' in the system, a key determines system and record id. */
  lemma {:induction false} JoinInjective(s: string, a: string, t: string, b: string)
    requires ':' !in s && ':' !in t && Join(s, a) == Join(t, b)
    ensures s == t && a == b
  {
    var x, y := Join(s, a), Join(t, b);
    assert x[|s|] == ':' && y[|t|] == ':';
    assert forall i | 0 <= i < |s| :: x[i] == s[i];
    assert forall i | 0 <= i < |t| :: y[i] == t[i];
    assert x[..|s|] == s && y[..|t|] == t;
    assert x[|s| + 1..] == a && y[|t| + 1..] == b;
  }

  /** Events of one source record share their key with no other event. */
  lemma SameKey(events: seq<ImportEvent>, i: nat, j: nat)
    requires i < |events| && j < |events| && KeyAt(events, i) == KeyAt(events, j)
    requires WellNamed(events[i]) && WellNamed(events[j]) && HasRecordId(events[i])
    ensures HasRecordId(events[j])
    ensures events[i].acquisition.value.sourceSystem == events[j].acquisition.value.sourceSystem
    ensures events[i].acquisition.value.sourceRecordId == events[j].acquisition.value.sourceRecordId
  {
    hide Join;
    var a := events[i].acquisition.value;
    if HasRecordId(events[j]) {
      JoinInjective(a.sourceSystem, a.sourceRecordId, events[j].acquisition.value.sourceSystem,
        events[j].acquisition.value.sourceRecordId);
    } else {
      UnknownHasNoColon();
      JoinInjective(a.sourceSystem, a.sourceRecordId, UNKNOWN_SYSTEM, Digits(j));
    }
  }

  lemma {:induction false} DigitsInjective(m: nat, n: nat)
    requires Digits(m) == Digits(n)
    ensures m == n
  {
    var s, t := Digits(m), Digits(n);
    assert s[|s| - 1] == t[|t| - 1];
    if m >= 10 && n >= 10 {
      Parts(Digits(m / 10), [('0' as int + m % 10) as char]);
      Parts(Digits(n / 10), [('0' as int + n % 10) as char]);
      DigitsInjective(m / 10, n / 10);
    }
  }

  /** An event without a record id shares its key with no other event. */
  lemma UnknownApart(events: seq<ImportEvent>, i: nat, j: nat)
    requires i < |events| && j < |events| && KeyAt(events, i) == KeyAt(events, j)
    requires WellNamed(events[j]) && !HasRecordId(events[i])
    ensures i == j
  {
    hide Join;
    UnknownHasNoColon();
    if HasRecordId(events[j]) {
      var a := events[j].acquisition.value;
      JoinInjective(a.sourceSystem, a.sourceRecordId, UNKNOWN_SYSTEM, Digits(i));
    } else {
      JoinInjective(UNKNOWN_SYSTEM, Digits(i), UNKNOWN_SYSTEM, Digits(j));
      DigitsInjective(i, j);
    }
  }

  lemma UnknownHasNoColon()
    ensures ':' !in UNKNOWN_SYSTEM
  {
  }

  // ----- known records -----

  /** `KnownRecord` */
  datatype Known = Known(digest: string, acquiredAt: string, sequence: int)

  datatype Kind = New | Unchanged | Changed | Unknown

  /** `FindingInfo`, as far as it is recorded. */
  datatype Finding = Finding(
    sourceRecordId: string, previousDigest: string, currentDigest: string, acquiredAt: string,
    acquiredAtPrevious: string)

  datatype Outcome = Outcome(kind: Kind, finding: Option<Finding>)

  /** The record's source identity when `LoadFromBundle` takes note of it. */
  function SourceKey(r: Record): Option<string>
  {
    if r.event.typ == MANIFEST_TYPE || r.event.acquisition.None? then None
    else
      var a := r.event.acquisition.value;
      if a.sourceSystem == "" || a.sourceRecordId == "" then None else Some(Join(a.sourceSystem, a.sourceRecordId))
  }

  function Noted(known: map<string, Known>, r: Record): map<string, Known>
  {
    var k := SourceKey(r);
    if k.None? then known
    else if k.value in known && r.event.sequence <= known[k.value].sequence then known
    else
      var a := r.event.acquisition.value;
      known[k.value := Known(a.sourceDigest, a.acquiredAt, r.event.sequence)]
  }

  function LoadKnown(records: seq<Record>): map<string, Known>
  {
    if records == [] then map[] else Noted(LoadKnown(records[..|records| - 1]), records[|records| - 1])
  }

  /** The acquisition of the last record with this source identity. */
  function LastAcquisition(records: seq<Record>, key: string): Option<Acquisition>
  {
    if records == [] then None
    else
      var r := records[|records| - 1];
      if SourceKey(r) == Some(key) then r.event.acquisition else LastAcquisition(records[..|records| - 1], key)
  }

  function LastDigest(records: seq<Record>, key: string): Option<string>
  {
    match LastAcquisition(records, key)
    case None => None
    case Some(a) => Some(a.sourceDigest)
  }

  /** In a numbered list, what `LoadFromBundle` knows of an identity is its last record. */
  lemma {:induction false} KnowsLast(records: seq<Record>, start: int, key: string)
    requires forall i | 0 <= i < |records| :: records[i].event.sequence == start + i
    ensures var known, last := LoadKnown(records), LastAcquisition(records, key);
            (key in known <==> last.Some?) &&
            (key in known ==>
              known[key].digest == last.value.sourceDigest && known[key].acquiredAt == last.value.acquiredAt &&
              known[key].sequence < start + |records|)
    decreases |records|
  {
    hide SourceKey;
    if records != [] {
      KnowsLast(records[..|records| - 1], start, key);
      SourceKeyHas(records[|records| - 1]);
    }
  }

  lemma SourceKeyHas(r: Record)
    ensures SourceKey(r).Some? ==> r.event.acquisition.Some?
  {
  }

  // ----- decisions -----

  /** How one source record compares with what is known. */
  function Compare(known: map<string, Known>, system: string, id: string, digest: string, acquiredAt: string): Outcome
  {
    if system == "" || id == "" then Outcome(Unknown, None)
    else if Join(system, id) !in known then Outcome(New, None)
    else if known[Join(system, id)].digest == digest then Outcome(Unchanged, None)
    else
      var last := known[Join(system, id)];
      Outcome(Changed, Some(Finding(id, last.digest, digest, acquiredAt, last.acquiredAt)))
  }

  /** What a comparison with a numbered bundle answers: NEW exactly if the identity is not there,
      UNCHANGED exactly if its last record has this digest, CHANGED otherwise, with the one finding that
      names the record, both digests and both times; UNKNOWN exactly without an identity. */
  lemma Classified(records: seq<Record>, start: int, system: string, id: string, digest: string, acquiredAt: string)
    requires forall i | 0 <= i < |records| :: records[i].event.sequence == start + i
    ensures var last := LastAcquisition(records, Join(system, id));
            var o := Compare(LoadKnown(records), system, id, digest, acquiredAt);
            (o.kind == Unknown <==> system == "" || id == "") &&
            (o.kind == New <==> system != "" && id != "" && last.None?) &&
            (o.kind == Unchanged <==> system != "" && id != "" && last.Some? && last.value.sourceDigest == digest) &&
            (o.kind == Changed <==> system != "" && id != "" && last.Some? && last.value.sourceDigest != digest) &&
            (o.finding.Some? <==> o.kind == Changed) &&
            (o.kind == Changed ==>
              o.finding.value.sourceRecordId == id && o.finding.value.currentDigest == digest &&
              o.finding.value.acquiredAt == acquiredAt &&
              o.finding.value.previousDigest == last.value.sourceDigest &&
              o.finding.value.acquiredAtPrevious == last.value.acquiredAt)
  {
    hide LoadKnown, LastAcquisition, Join;
    KnowsLast(records, start, Join(system, id));
  }

  /** `Reconciler` */
  class Reconciler {
    var known: map<string, Known>

    constructor ()
      ensures known == map[]
    {
      known := map[];
    }

    /** `Reconcile`: compare, then remember the new representation. */
    method Reconcile(system: string, id: string, digest: string, acquiredAt: string) returns (o: Outcome)
      modifies this
      ensures o == Compare(old(known), system, id, digest, acquiredAt)
      ensures forall k | k != Join(system, id) ::
              (k in known <==> k in old(known)) && (k in known ==> known[k] == old(known)[k])
      ensures o.kind == New || o.kind == Changed ==>
              Join(system, id) in known && known[Join(system, id)].digest == digest &&
              known[Join(system, id)].acquiredAt == acquiredAt
      ensures o.kind == Unchanged || o.kind == Unknown ==> known == old(known)
    {
      if system == "" || id == "" {
        return Outcome(Unknown, None);
      }
      var key := Join(system, id);
      if key !in known {
        known := known[key := Known(digest, acquiredAt, 0)];
        return Outcome(New, None);
      }
      var previous := known[key];
      if previous.digest == digest {
        return Outcome(Unchanged, None);
      }
      known := known[key := Known(digest, acquiredAt, 0)];
      return Outcome(Changed, Some(Finding(id, previous.digest, digest, acquiredAt, previous.acquiredAt)));
    }

    /** `LoadFromBundle` on a fresh reconciler. */
    method LoadFromBundle(records: seq<Record>)
      requires known == map[]
      modifies this
      ensures known == LoadKnown(records)
    {
      for i := 0 to |records|
        invariant known == LoadKnown(records[..i])
      {
        var record := records[i];
        assert records[..i + 1][..i] == records[..i] && records[..i + 1][i] == record;
        if record.event.typ == MANIFEST_TYPE || record.event.acquisition.None? {
          continue;
        }
        var acq := record.event.acquisition.value;
        if acq.sourceSystem == "" || acq.sourceRecordId == "" {
          continue;
        }
        var key := Join(acq.sourceSystem, acq.sourceRecordId);
        if key !in known || record.event.sequence > known[key].sequence {
          known := known[key := Known(acq.sourceDigest, acq.acquiredAt, record.event.sequence)];
        }
      }
      assert records[..|records|] == records;
    }
  }

  /** The decision for a source record, from its first event; no kind in a plain import. */
  datatype Decision = Decision(kind: Option<Kind>, finding: Option<Finding>)
  {
    predicate Skip() { kind == Some(Unchanged) }
  }

  function Decide(known: map<string, Known>, reconcile: bool, ev: ImportEvent): Decision
  {
    if !reconcile then Decision(None, None)
    else if !HasRecordId(ev) then Decision(Some(Unknown), None)
    else
      var a := ev.acquisition.value;
      var o := Compare(known, a.sourceSystem, a.sourceRecordId, a.sourceDigest, a.acquiredAt);
      Decision(Some(o.kind), o.finding)
  }

  function FirstIn(keys: seq<string>, key: string, j: nat): (f: nat)
    requires j < |keys| && key in keys[j..]
    ensures j <= f < |keys| && keys[f] == key && forall k | j <= k < f :: keys[k] != key
    decreases |keys| - j
  {
    if keys[j] == key then j else FirstIn(keys, key, j + 1)
  }

  function AllKeys(events: seq<ImportEvent>): (keys: seq<string>)
    ensures |keys| == |events| && forall i | 0 <= i < |events| :: keys[i] == KeyAt(events, i)
  {
    hide KeyAt;
    seq(|events|, i requires 0 <= i < |events| => KeyAt(events, i))
  }

  /** The first event with the key of event `i`. */
  function FirstIndex(events: seq<ImportEvent>, i: nat): (f: nat)
    requires i < |events|
    ensures f <= i && KeyAt(events, f) == KeyAt(events, i)
    ensures forall k | 0 <= k < f :: KeyAt(events, k) != KeyAt(events, i)
  {
    hide KeyAt, FirstIn;
    var keys := AllKeys(events);
    assert keys[0..][i] == keys[i];
    FirstIn(keys, keys[i], 0)
  }

  predicate IsFirst(events: seq<ImportEvent>, i: nat)
    requires i < |events|
  {
    forall k | 0 <= k < i :: KeyAt(events, k) != KeyAt(events, i)
  }

  function DecisionAt(known: map<string, Known>, reconcile: bool, events: seq<ImportEvent>, i: nat): Decision
    requires i < |events|
  {
    Decide(known, reconcile, events[FirstIndex(events, i)])
  }

  /** `reconcileAction` */
  datatype Action = Action(event: ImportEvent, finding: Option<Finding>, skip: bool)

  /** Every event follows its source record's decision; the finding goes with the first. */
  function ActionAt(known: map<string, Known>, reconcile: bool, events: seq<ImportEvent>, i: nat): Action
    requires i < |events|
  {
    var d := DecisionAt(known, reconcile, events, i);
    Action(events[i], if IsFirst(events, i) then d.finding else None, d.Skip())
  }

  function Plan(known: map<string, Known>, reconcile: bool, events: seq<ImportEvent>): (actions: seq<Action>)
    ensures |actions| == |events| && forall i | 0 <= i < |events| :: actions[i] == ActionAt(known, reconcile, events, i)
  {
    seq(|events|, i requires 0 <= i < |events| => ActionAt(known, reconcile, events, i))
  }

  /** Source records of one kind among the first `n` events. */
  function CountKind(known: map<string, Known>, reconcile: bool, events: seq<ImportEvent>, n: nat, kind: Kind): nat
    requires n <= |events|
  {
    if n == 0 then 0
    else
      CountKind(known, reconcile, events, n - 1, kind) +
      if IsFirst(events, n - 1) && Decide(known, reconcile, events[n - 1]).kind == Some(kind) then 1 else 0
  }

  /** `reconcileCounts` */
  datatype Counts = Counts(newCount: nat, changed: nat, same: nat, unknown: nat)

  function CountsOf(known: map<string, Known>, reconcile: bool, events: seq<ImportEvent>, n: nat): Counts
    requires n <= |events|
  {
    Counts(CountKind(known, reconcile, events, n, New), CountKind(known, reconcile, events, n, Changed),
           CountKind(known, reconcile, events, n, Unchanged), CountKind(known, reconcile, events, n, Unknown))
  }

  function Bump(c: Counts, kind: Option<Kind>): Counts
  {
    match kind
    case None => c
    case Some(New) => c.(newCount := c.newCount + 1)
    case Some(Changed) => c.(changed := c.changed + 1)
    case Some(Unchanged) => c.(same := c.same + 1)
    case Some(Unknown) => c.(unknown := c.unknown + 1)
  }

  lemma CountsStep(known: map<string, Known>, reconcile: bool, events: seq<ImportEvent>, n: nat)
    requires n < |events|
    ensures CountsOf(known, reconcile, events, n + 1) ==
            if IsFirst(events, n)
            then Bump(CountsOf(known, reconcile, events, n), Decide(known, reconcile, events[n]).kind)
            else CountsOf(known, reconcile, events, n)
  {
    hide Decide, IsFirst;
  }

  /** What the decision map and the reconciler hold after the first `n` events. */
  ghost predicate Planning(known: map<string, Known>, reconcile: bool, events: seq<ImportEvent>, n: nat,
                           decisions: map<string, Decision>, now: map<string, Known>)
  {
    n <= |events| &&
    (forall i | 0 <= i < n ::
      KeyAt(events, i) in decisions &&
      decisions[KeyAt(events, i)] == DecisionAt(known, reconcile, events, i).(finding := None)) &&
    (forall k | k in decisions :: exists i | 0 <= i < n :: KeyAt(events, i) == k) &&
    (forall k | k !in decisions :: (k in now <==> k in known) && (k in now ==> now[k] == known[k]))
  }

  /** `planReconciliation`: one memoised decision per source record. */
  method PlanReconciliation(events: seq<ImportEvent>, r: Reconciler, reconcile: bool)
    returns (actions: seq<Action>, counts: Counts)
    modifies r
    ensures actions == Plan(old(r.known), reconcile, events)
    ensures counts == CountsOf(old(r.known), reconcile, events, |events|)
  {
    hide DecisionAt, KeyAt, CountKind, Compare, Planning, Bump, Join, IsFirst;
    ghost var known := r.known;
    var decisions: map<string, Decision> := map[];
    actions, counts := [], Counts(0, 0, 0, 0);
    PlanningStart(known, reconcile, events);
    for i := 0 to |events|
      invariant |actions| == i && forall k | 0 <= k < i :: actions[k] == ActionAt(known, reconcile, events, k)
      invariant counts == CountsOf(known, reconcile, events, i)
      invariant Planning(known, reconcile, events, i, decisions, r.known)
    {
      var ev := events[i];
      var key := KeyAt(events, i);
      ghost var knownBefore, decisionsBefore := r.known, decisions;
      CountsStep(known, reconcile, events, i);
      KeySeen(known, reconcile, events, i, decisions, r.known);
      var finding: Option<Finding> := None;
      if key !in decisions {
        var d := Decision(None, None);
        if reconcile && HasRecordId(ev) {
          var a := ev.acquisition.value;
          KeyOfIdentified(events, i);
          CompareLocal(r.known, known, a.sourceSystem, a.sourceRecordId, a.sourceDigest, a.acquiredAt);
          var o := r.Reconcile(a.sourceSystem, a.sourceRecordId, a.sourceDigest, a.acquiredAt);
          d := Decision(Some(o.kind), o.finding);
        } else if reconcile {
          d := Decision(Some(Unknown), None);
        }
        assert d == Decide(known, reconcile, ev);
        counts := Bump(counts, d.kind);
        finding := d.finding;
        decisions := decisions[key := d.(finding := None)];
      }
      actions := actions + [Action(ev, finding, decisions[key].Skip())];
      PlanningStep(known, reconcile, events, i, decisionsBefore, knownBefore, decisions, r.known);
    }
  }

  lemma KeyOfIdentified(events: seq<ImportEvent>, i: nat)
    requires i < |events| && HasRecordId(events[i])
    ensures KeyAt(events, i) ==
            Join(events[i].acquisition.value.sourceSystem, events[i].acquisition.value.sourceRecordId)
  {
  }

  /** A comparison reads only its own key. */
  lemma CompareLocal(a: map<string, Known>, b: map<string, Known>, system: string, id: string, digest: string,
      acquiredAt: string)
    requires var k := Join(system, id); (k in a <==> k in b) && (k in a ==> a[k] == b[k])
    ensures Compare(a, system, id, digest, acquiredAt) == Compare(b, system, id, digest, acquiredAt)
  {
  }

  /** A key is in the decision map once its first event has been seen. */
  lemma KeySeen(known: map<string, Known>, reconcile: bool, events: seq<ImportEvent>, n: nat,
                decisions: map<string, Decision>, now: map<string, Known>)
    requires n < |events| && Planning(known, reconcile, events, n, decisions, now)
    ensures var key := KeyAt(events, n);
            (key !in decisions <==> IsFirst(events, n)) &&
            (key in decisions ==> decisions[key] == DecisionAt(known, reconcile, events, n).(finding := None)) &&
            (key !in decisions ==> DecisionAt(known, reconcile, events, n) == Decide(known, reconcile, events[n]) &&
                                   (key in now <==> key in known) && (key in now ==> now[key] == known[key]))
  {
    hide KeyAt, Decide;
    var f := FirstIndex(events, n);
    if f < n {
      assert KeyAt(events, f) in decisions;
      FirstSame(events, f, n);
    }
  }

  lemma FirstSame(events: seq<ImportEvent>, i: nat, j: nat)
    requires i <= j < |events| && KeyAt(events, i) == KeyAt(events, j)
    ensures FirstIndex(events, i) == FirstIndex(events, j)
  {
    hide KeyAt;
    var f, g := FirstIndex(events, i), FirstIndex(events, j);
    assert IsFirst(events, f) && IsFirst(events, g);
  }

  lemma PlanningStep(known: map<string, Known>, reconcile: bool, events: seq<ImportEvent>, n: nat,
                     decisions: map<string, Decision>, now: map<string, Known>,
                     decisions': map<string, Decision>, now': map<string, Known>)
    requires n < |events| && Planning(known, reconcile, events, n, decisions, now)
    requires var key := KeyAt(events, n);
             decisions' == (if key in decisions then decisions
                            else decisions[key := DecisionAt(known, reconcile, events, n).(finding := None)])
    requires forall k | k !in decisions' :: (k in now' <==> k in now) && (k in now' ==> now'[k] == now[k])
    ensures Planning(known, reconcile, events, n + 1, decisions', now')
  {
    hide KeyAt, DecisionAt;
    KeySeen(known, reconcile, events, n, decisions, now);
    forall i | 0 <= i < n + 1
      ensures KeyAt(events, i) in decisions' &&
              decisions'[KeyAt(events, i)] == DecisionAt(known, reconcile, events, i).(finding := None)
    {
      if i < n && KeyAt(events, i) == KeyAt(events, n) {
        assert KeyAt(events, i) in decisions;
      }
    }
    forall k | k in decisions' ensures exists i | 0 <= i < n + 1 :: KeyAt(events, i) == k {
      if k in decisions {
        var i :| 0 <= i < n && KeyAt(events, i) == k;
      } else {
        assert KeyAt(events, n) == k;
      }
    }
  }

  lemma PlanningStart(known: map<string, Known>, reconcile: bool, events: seq<ImportEvent>)
    ensures Planning(known, reconcile, events, 0, map[], known)
    ensures CountsOf(known, reconcile, events, 0) == Counts(0, 0, 0, 0)
  {
  }

  // ----- applying a plan -----

  /** The finding record of `appendAcquisitionFinding`. */
  function FindingCall(f: Finding, acq: Option<Acquisition>, now: string): AppendCall
  {
    var (system, adapter, version) :=
      if acq.Some? then (acq.value.sourceSystem, acq.value.adapter, acq.value.adapterVersion) else ("", "", "");
    AppendCall(FINDING_TYPE,
      Object(map[
        "finding_type" := String("source_record_changed"), "source_system" := String(system),
        "source_record_id" := String(f.sourceRecordId), "previous_digest" := String(f.previousDigest),
        "current_digest" := String(f.currentDigest), "previous_acquired_at" := String(f.acquiredAtPrevious),
        "current_acquired_at" := String(f.acquiredAt), "adapter" := String(adapter),
        "adapter_version" := String(version)]),
      Some(NO_OPTIONS.(timestamp := now)))
  }

  function EventCall(ev: ImportEvent): AppendCall
  {
    AppendCall(ev.typ, ev.data,
      Some(AppendOptions(None, None, None, ev.timestamp, ev.traceId, ev.spanId, ev.parentSpanId, ev.acquisition)))
  }

  /** The appends of one action: nothing, the event, or a finding just before the event. */
  function ActionCalls(a: Action, now: string): seq<AppendCall>
  {
    if a.skip then []
    else if a.finding.None? then [EventCall(a.event)]
    else [FindingCall(a.finding.value, a.event.acquisition, now), EventCall(a.event)]
  }

  function CallsOf(actions: seq<Action>, now: nat -> string, n: nat): seq<AppendCall>
    requires n <= |actions|
  {
    if n == 0 then [] else CallsOf(actions, now, n - 1) + ActionCalls(actions[n - 1], now(n - 1))
  }

  /** A run of appends that stops at the first refusal. */
  function ApplyAll(h: Host, records: seq<Record>, calls: seq<AppendCall>): Result<seq<Record>, Error>
  {
    if calls == [] then Ok(records)
    else
      var last := calls[|calls| - 1];
      match ApplyAll(h, records, calls[..|calls| - 1])
      case Err(e) => Err(e)
      case Ok(rs) => Appended(h, rs, last.typ, last.data, last.opts)
  }

  function CountWritten(actions: seq<Action>, n: nat): nat
    requires n <= |actions|
  {
    if n == 0 then 0 else CountWritten(actions, n - 1) + if actions[n - 1].skip then 0 else 1
  }

  lemma ApplyMore(h: Host, records: seq<Record>, calls: seq<AppendCall>, c: AppendCall)
    ensures ApplyAll(h, records, calls + [c]) ==
            match ApplyAll(h, records, calls)
            case Err(e) => Err(e)
            case Ok(rs) => Appended(h, rs, c.typ, c.data, c.opts)
  {
    hide Appended;
    assert (calls + [c])[..|calls|] == calls;
  }

  /** Once refused, always refused. */
  lemma {:induction false} ApplyStuck(h: Host, records: seq<Record>, calls: seq<AppendCall>, n: nat)
    requires n <= |calls| && ApplyAll(h, records, calls[..n]).Err?
    ensures ApplyAll(h, records, calls).Err?
    decreases |calls|
  {
    hide Appended;
    if n < |calls| {
      assert calls[..|calls| - 1][..n] == calls[..n];
      ApplyStuck(h, records, calls[..|calls| - 1], n);
    } else {
      Units(calls);
    }
  }

  lemma {:induction false} CallsPrefix(actions: seq<Action>, now: nat -> string, m: nat, n: nat)
    requires m <= n <= |actions|
    ensures CallsOf(actions, now, m) <= CallsOf(actions, now, n)
  {
    hide ActionCalls;
    if m < n { CallsPrefix(actions, now, m, n - 1); }
  }

  /** `applyReconciliation`: append what the plan selects; stop at the first refusal. */
  method ApplyReconciliation(h: Host, b: Bundle, actions: seq<Action>, now: nat -> string)
    returns (written: nat, err: Option<Error>)
    modifies b
    ensures err.None? ==> ApplyAll(h, old(b.records), CallsOf(actions, now, |actions|)) == Ok(b.records)
    ensures err.None? ==> written == CountWritten(actions, |actions|)
    ensures err.Some? ==> ApplyAll(h, old(b.records), CallsOf(actions, now, |actions|)).Err?
  {
    hide Appended, ApplyAll, FindingCall, EventCall, BundleOk, CallsOf;
    written := 0;
    ApplyNothing(h, b.records);
    assert CallsOf(actions, now, 0) == [] by { NoCalls(actions, now, 0); }
    for i := 0 to |actions|
      invariant ApplyAll(h, old(b.records), CallsOf(actions, now, i)) == Ok(b.records)
      invariant written == CountWritten(actions, i)
    {
      var action := actions[i];
      ghost var calls := CallsOf(actions, now, i);
      CallsStep(actions, now, i);
      if action.skip {
        continue;
      }
      if action.finding.Some? {
        var c := FindingCall(action.finding.value, action.event.acquisition, now(i));
        err := b.AppendWithOptions(h, c.typ, c.data, c.opts);
        ApplyMore(h, old(b.records), calls, c);
        calls := calls + [c];
        if err.Some? {
          Refused(h, old(b.records), actions, now, i, calls);
          return;
        }
      }
      var c := EventCall(action.event);
      err := b.AppendWithOptions(h, c.typ, c.data, c.opts);
      ApplyMore(h, old(b.records), calls, c);
      calls := calls + [c];
      if err.Some? {
        Refused(h, old(b.records), actions, now, i, calls);
        return;
      }
      written := written + 1;
    }
    err := None;
  }

  lemma CallsStep(actions: seq<Action>, now: nat -> string, i: nat)
    requires i < |actions|
    ensures var a := actions[i]; var calls, next := CallsOf(actions, now, i), CallsOf(actions, now, i + 1);
            if a.skip then next == calls
            else if a.finding.None? then next == calls + [EventCall(a.event)]
            else next == calls + [FindingCall(a.finding.value, a.event.acquisition, now(i))] + [EventCall(a.event)]
  {
    hide EventCall, FindingCall;
    var a, calls := actions[i], CallsOf(actions, now, i);
    Units(calls);
    if !a.skip && a.finding.Some? {
      Assoc(calls, [FindingCall(a.finding.value, a.event.acquisition, now(i))], [EventCall(a.event)]);
    }
  }

  lemma ApplyNothing(h: Host, records: seq<Record>)
    ensures ApplyAll(h, records, []) == Ok(records)
  {
  }

  lemma Refused(h: Host, records: seq<Record>, actions: seq<Action>, now: nat -> string, i: nat, calls: seq<AppendCall>)
    requires i < |actions| && calls <= CallsOf(actions, now, i + 1) && ApplyAll(h, records, calls).Err?
    ensures ApplyAll(h, records, CallsOf(actions, now, |actions|)).Err?
  {
    hide ApplyAll, ActionCalls;
    CallsPrefix(actions, now, i + 1, |actions|);
    var all := CallsOf(actions, now, |actions|);
    assert all[..|calls|] == calls;
    ApplyStuck(h, records, all, |calls|);
  }

  // ----- what an import leaves -----

  /** A successful run of appends extends the bundle by one record per call, in order; a bundle
      that verifies still does. */
  lemma {:induction false} ApplyShape(h: Host, records: seq<Record>, calls: seq<AppendCall>)
    requires ApplyAll(h, records, calls).Ok?
    ensures var longer := ApplyAll(h, records, calls).value;
            |longer| == |records| + |calls| && records <= longer &&
            (forall i | 0 <= i < |calls| :: Wrote(longer[|records| + i], calls[i])) &&
            (Verifies(h.sha, records) ==> Verifies(h.sha, longer))
    decreases |calls|
  {
    hide Appended, Verifies;
    if calls != [] {
      var front, c := calls[..|calls| - 1], calls[|calls| - 1];
      ApplyShape(h, records, front);
      AppendShape(h, ApplyAll(h, records, front).value, c.typ, c.data, c.opts);
    }
  }

  /** It keeps the whole bundle invariant too. */
  lemma {:induction false} ApplySound(h: Host, records: seq<Record>, calls: seq<AppendCall>)
    requires BundleOk(h, records) && ApplyAll(h, records, calls).Ok?
    ensures BundleOk(h, ApplyAll(h, records, calls).value)
    decreases |calls|
  {
    hide Appended, BundleOk;
    if calls != [] {
      var front, c := calls[..|calls| - 1], calls[|calls| - 1];
      ApplySound(h, records, front);
      AppendKeeps(h, ApplyAll(h, records, front).value, c.typ, c.data, c.opts);
    }
  }

  /** What a bundle that has records takes after them. */
  predicate Acceptable(h: Host, records: seq<Record>, c: AppendCall)
  {
    c.typ != MANIFEST_TYPE && ValidType(c.typ) &&
    (BearsAcquisition(c.typ, c.opts) ==> HasManifest(records) && DeclaresV3(h, records[0]))
  }

  /** The exact condition for a run of appends to succeed: the bundle as it was before the run
      takes every one of them. */
  lemma {:induction false} ApplySucceeds(h: Host, records: seq<Record>, calls: seq<AppendCall>)
    requires records != []
    ensures ApplyAll(h, records, calls).Ok? <==> forall i | 0 <= i < |calls| :: Acceptable(h, records, calls[i])
    decreases |calls|
  {
    hide Acceptable, Appended;
    if calls != [] {
      var front, c := calls[..|calls| - 1], calls[|calls| - 1];
      ApplySucceeds(h, records, front);
      if ApplyAll(h, records, front).Ok? {
        ApplyShape(h, records, front);
        OneAccepted(h, records, ApplyAll(h, records, front).value, c);
        assert forall i | 0 <= i < |front| :: calls[i] == front[i];
      } else {
        var i :| 0 <= i < |front| && !Acceptable(h, records, front[i]);
        assert calls[i] == front[i];
      }
    }
  }

  lemma OneAccepted(h: Host, records: seq<Record>, longer: seq<Record>, c: AppendCall)
    requires records != [] && records <= longer
    ensures Appended(h, longer, c.typ, c.data, c.opts).Ok? <==> Acceptable(h, records, c)
  {
    hide ParseManifest, ValidType, Compute;
    assert longer[0] == records[0];
  }

  /** What each action appends stands in the bundle where the actions before it end: events keep
      their input order and a finding is directly before its event. */
  lemma {:induction false} CallsPlaced(actions: seq<Action>, now: nat -> string, i: nat, n: nat)
    requires i < n <= |actions|
    ensures var all := CallsOf(actions, now, n);
            var from, to := |CallsOf(actions, now, i)|, |CallsOf(actions, now, i + 1)|;
            from <= to <= |all| && all[from..to] == ActionCalls(actions[i], now(i))
  {
    hide ActionCalls;
    var all, here := CallsOf(actions, now, n), CallsOf(actions, now, i + 1);
    CallsPrefix(actions, now, i + 1, n);
    Parts(CallsOf(actions, now, i), ActionCalls(actions[i], now(i)));
    assert all[..|here|] == here;
    assert all[|CallsOf(actions, now, i)|..|here|] == here[|CallsOf(actions, now, i)|..];
  }

  function Keys(events: seq<ImportEvent>, n: nat): set<string>
    requires n <= |events|
  {
    set i | 0 <= i < n :: KeyAt(events, i)
  }

  /** A plain import appends one record per event. */
  lemma {:induction false} PlainCount(known: map<string, Known>, events: seq<ImportEvent>, now: nat -> string, n: nat)
    requires n <= |events|
    ensures var actions := Plan(known, false, events);
            |CallsOf(actions, now, n)| == n && CountWritten(actions, n) == n
  {
    hide EventCall, ActionAt;
    if n > 0 {
      PlainCount(known, events, now, n - 1);
      PlainAction(known, events, n - 1);
    }
  }

  lemma PlainAction(known: map<string, Known>, events: seq<ImportEvent>, i: nat)
    requires i < |events|
    ensures var a := ActionAt(known, false, events, i); !a.skip && a.finding.None? && a.event == events[i]
  {
    hide FirstIndex, IsFirst;
  }

  // ----- what the counts mean -----

  /** The first events, among `n`, whose decision is of one kind. */
  ghost function FirstsOf(known: map<string, Known>, events: seq<ImportEvent>, n: nat, kind: Kind): set<nat>
    requires n <= |events|
  {
    set i: nat | i < n && IsFirst(events, i) && Decide(known, true, events[i]).kind == Some(kind)
  }

  lemma {:induction false} KindCount(known: map<string, Known>, events: seq<ImportEvent>, n: nat, kind: Kind)
    requires n <= |events|
    ensures CountKind(known, true, events, n, kind) == |FirstsOf(known, events, n, kind)|
  {
    hide IsFirst, Decide;
    if n == 0 {
      assert FirstsOf(known, events, 0, kind) == {};
    } else {
      KindCount(known, events, n - 1, kind);
      var before, now := FirstsOf(known, events, n - 1, kind), FirstsOf(known, events, n, kind);
      if IsFirst(events, n - 1) && Decide(known, true, events[n - 1]).kind == Some(kind) {
        assert now == before + {n - 1};
      } else {
        assert now == before;
      }
    }
  }

  /** The kind of an event's source record, read off the bundle: what the bundle holds of it last. */
  ghost predicate OfKind(records: seq<Record>, ev: ImportEvent, kind: Kind)
  {
    if !Identified(ev) then kind == Unknown
    else
      var a := ev.acquisition.value;
      var held := LastDigest(records, Join(a.sourceSystem, a.sourceRecordId));
      if held.None? then kind == New else if held.value == a.sourceDigest then kind == Unchanged else kind == Changed
  }

  lemma KindMeans(h: Host, records: seq<Record>, ev: ImportEvent, kind: Kind)
    requires Verifies(h.sha, records)
    ensures Decide(LoadKnown(records), true, ev).kind == Some(kind) <==> OfKind(records, ev, kind)
  {
    hide LoadKnown, LastAcquisition, Join, Verifies, Compare;
    Numbered(h, records);
    if HasRecordId(ev) {
      var a := ev.acquisition.value;
      Classified(records, FirstSequence(records), a.sourceSystem, a.sourceRecordId, a.sourceDigest, a.acquiredAt);
    }
  }

  /** The source records of one kind, each at its first event. */
  ghost function SourcesOf(records: seq<Record>, events: seq<ImportEvent>, kind: Kind): set<nat>
  {
    set i: nat | i < |events| && IsFirst(events, i) && OfKind(records, events[i], kind)
  }

  lemma KindSources(h: Host, records: seq<Record>, events: seq<ImportEvent>, kind: Kind)
    requires Verifies(h.sha, records)
    ensures CountKind(LoadKnown(records), true, events, |events|, kind) == |SourcesOf(records, events, kind)|
  {
    hide IsFirst, Decide, LoadKnown, Verifies, CountKind, OfKind;
    KindCount(LoadKnown(records), events, |events|, kind);
    forall i: nat | i < |events|
      ensures Decide(LoadKnown(records), true, events[i]).kind == Some(kind) <==> OfKind(records, events[i], kind)
    {
      KindMeans(h, records, events[i], kind);
    }
    assert FirstsOf(LoadKnown(records), events, |events|, kind) == SourcesOf(records, events, kind);
  }

  /** Each count is the number of source records that the bundle does not have, has with another
      digest, has with this digest, or that cannot be identified. */
  lemma CountsMean(h: Host, records: seq<Record>, events: seq<ImportEvent>)
    requires Verifies(h.sha, records)
    ensures var c := CountsOf(LoadKnown(records), true, events, |events|);
            c.newCount == |SourcesOf(records, events, New)| && c.changed == |SourcesOf(records, events, Changed)| &&
            c.same == |SourcesOf(records, events, Unchanged)| && c.unknown == |SourcesOf(records, events, Unknown)|
  {
    hide CountKind, LoadKnown, Verifies, SourcesOf;
    KindSources(h, records, events, New);
    KindSources(h, records, events, Changed);
    KindSources(h, records, events, Unchanged);
    KindSources(h, records, events, Unknown);
  }

  // ----- what a reconciling import records -----

  /** In a reconciling import an identified event is skipped exactly if the last record of its source
      record in the bundle has its digest. */
  lemma SkippedExactly(h: Host, records: seq<Record>, events: seq<ImportEvent>, i: nat)
    requires Verifies(h.sha, records) && CleanInput(events) && i < |events| && Identified(events[i])
    ensures var a := events[i].acquisition.value;
            ActionAt(LoadKnown(records), true, events, i).skip <==>
            LastDigest(records, Join(a.sourceSystem, a.sourceRecordId)) == Some(a.sourceDigest)
  {
    hide LoadKnown, LastAcquisition, Join, Verifies, Compare, CleanInput, KeyAt, FirstIndex;
    var f := FirstIndex(events, i);
    CleanNames(events, i);
    CleanNames(events, f);
    SameKey(events, i, f);
    SameDigest(events, i, f);
    var a := events[f].acquisition.value;
    Numbered(h, records);
    Classified(records, FirstSequence(records), a.sourceSystem, a.sourceRecordId, a.sourceDigest, a.acquiredAt);
  }

  lemma CleanNames(events: seq<ImportEvent>, i: nat)
    requires CleanInput(events) && i < |events|
    ensures WellNamed(events[i])
  {
  }

  /** The record says that the source record with acquisition `a` had the acquisition `was` before. */
  ghost predicate SaysChanged(r: Record, was: Acquisition, a: Acquisition, at: string)
  {
    r.event.typ == "atb.acquisition.finding" && r.event.timestamp == at && r.event.acquisition.None? &&
    r.event.data.Object? &&
    var m := r.event.data.fields;
    Get(m, "finding_type") == Some(String("source_record_changed")) &&
    Get(m, "source_system") == Some(String(a.sourceSystem)) &&
    Get(m, "source_record_id") == Some(String(a.sourceRecordId)) &&
    Get(m, "previous_digest") == Some(String(was.sourceDigest)) &&
    Get(m, "current_digest") == Some(String(a.sourceDigest)) &&
    Get(m, "previous_acquired_at") == Some(String(was.acquiredAt)) &&
    Get(m, "current_acquired_at") == Some(String(a.acquiredAt)) &&
    Get(m, "adapter") == Some(String(a.adapter)) && Get(m, "adapter_version") == Some(String(a.adapterVersion))
  }

  /** The record is the event, each part in its place. */
  ghost predicate Carries(r: Record, ev: ImportEvent)
  {
    r.event.typ == ev.typ && r.event.data == ev.data && r.event.timestamp == ev.timestamp &&
    r.event.traceId == ev.traceId && r.event.spanId == ev.spanId && r.event.parentSpanId == ev.parentSpanId &&
    r.event.acquisition == ev.acquisition && r.event.actorId == r.event.orgId == r.event.workspaceId == None
  }

  /** What a reconciling import into a verifying bundle appends for the first event of an identified
      source record, from the place `at` on: if the bundle does not have the identity, the event; if
      its last record there has the event's digest, nothing; otherwise a finding that names both
      digests and then the event. */
  lemma Recorded(h: Host, records: seq<Record>, events: seq<ImportEvent>, now: nat -> string, i: nat,
                 longer: seq<Record>)
    requires Verifies(h.sha, records) && i < |events| && IsFirst(events, i) && Identified(events[i])
    requires ApplyAll(h, records, CallsOf(Plan(LoadKnown(records), true, events), now, |events|)) == Ok(longer)
    ensures var a := events[i].acquisition.value;
            var last := LastAcquisition(records, Join(a.sourceSystem, a.sourceRecordId));
            var actions := Plan(LoadKnown(records), true, events);
            var at, next := |records| + |CallsOf(actions, now, i)|, |records| + |CallsOf(actions, now, i + 1)|;
            if last.None? then next == at + 1 <= |longer| && Carries(longer[at], events[i])
            else if last.value.sourceDigest == a.sourceDigest then next == at
            else
              next == at + 2 <= |longer| && SaysChanged(longer[at], last.value, a, now(i)) &&
              Carries(longer[at + 1], events[i])
  {
    hide ApplyAll, CallsOf, LoadKnown, LastAcquisition, Join, Verifies, Wrote, IsFirst, FindingCall, EventCall,
         ActionAt, Carries, SaysChanged;
    var a := events[i].acquisition.value;
    var actions := Plan(LoadKnown(records), true, events);
    FirstAction(h, records, events, i);
    Placed(h, records, actions, now, i, longer);
    var mine, at := ActionCalls(actions[i], now(i)), |records| + |CallsOf(actions, now, i)|;
    if |mine| == 1 {
      assert Wrote(longer[at + 0], mine[0]) && mine[0] == EventCall(events[i]);
      EventWritten(longer[at], events[i]);
    } else if |mine| == 2 {
      assert Wrote(longer[at + 0], mine[0]) && Wrote(longer[at + 1], mine[1]) && mine[1] == EventCall(events[i]);
      FindingWritten(longer[at], actions[i].finding.value, a, now(i));
      EventWritten(longer[at + 1], events[i]);
    }
  }

  /** What is planned for the first event of an identified source record. */
  lemma FirstAction(h: Host, records: seq<Record>, events: seq<ImportEvent>, i: nat)
    requires Verifies(h.sha, records) && i < |events| && IsFirst(events, i) && Identified(events[i])
    ensures var a, action := events[i].acquisition.value, ActionAt(LoadKnown(records), true, events, i);
            var last := LastAcquisition(records, Join(a.sourceSystem, a.sourceRecordId));
            action.event == events[i] &&
            action.skip == (last.Some? && last.value.sourceDigest == a.sourceDigest) &&
            (action.finding.Some? <==> last.Some? && last.value.sourceDigest != a.sourceDigest) &&
            (action.finding.Some? ==>
              var f := action.finding.value;
              f.sourceRecordId == a.sourceRecordId && f.currentDigest == a.sourceDigest &&
              f.acquiredAt == a.acquiredAt &&
              f.previousDigest == last.value.sourceDigest && f.acquiredAtPrevious == last.value.acquiredAt)
  {
    hide LoadKnown, LastAcquisition, Join, Verifies, IsFirst, Compare;
    var a := events[i].acquisition.value;
    FirstOfItself(events, i);
    Numbered(h, records);
    Classified(records, FirstSequence(records), a.sourceSystem, a.sourceRecordId, a.sourceDigest, a.acquiredAt);
  }

  /** What an action appends stands where the actions before it end. */
  lemma Placed(h: Host, records: seq<Record>, actions: seq<Action>, now: nat -> string, i: nat, longer: seq<Record>)
    requires i < |actions| && ApplyAll(h, records, CallsOf(actions, now, |actions|)) == Ok(longer)
    ensures var mine, at := ActionCalls(actions[i], now(i)), |records| + |CallsOf(actions, now, i)|;
            |records| + |CallsOf(actions, now, i + 1)| == at + |mine| <= |longer| &&
            forall k | 0 <= k < |mine| :: Wrote(longer[at + k], mine[k])
  {
    hide ApplyAll, CallsOf, Verifies, Wrote, ActionCalls;
    var all := CallsOf(actions, now, |actions|);
    CallsPlaced(actions, now, i, |actions|);
    ApplyShape(h, records, all);
    var from, to := |CallsOf(actions, now, i)|, |CallsOf(actions, now, i + 1)|;
    var mine := ActionCalls(actions[i], now(i));
    assert all[from..to] == mine;
    forall k | 0 <= k < |mine| ensures Wrote(longer[|records| + from + k], mine[k]) {
      assert all[from + k] == mine[k] && Wrote(longer[|records| + (from + k)], all[from + k]);
    }
  }

  lemma FirstOfItself(events: seq<ImportEvent>, i: nat)
    requires i < |events| && IsFirst(events, i)
    ensures FirstIndex(events, i) == i
  {
  }

  lemma EventWritten(r: Record, ev: ImportEvent)
    requires Wrote(r, EventCall(ev))
    ensures Carries(r, ev)
  {
  }

  lemma FindingWritten(r: Record, f: Finding, a: Acquisition, at: string)
    requires Wrote(r, FindingCall(f, Some(a), at)) && f.sourceRecordId == a.sourceRecordId
    requires f.currentDigest == a.sourceDigest && f.acquiredAt == a.acquiredAt
    ensures forall was: Acquisition | was.sourceDigest == f.previousDigest && was.acquiredAt == f.acquiredAtPrevious ::
              SaysChanged(r, was, a, at)
  {
  }

  /** Every event that is not skipped, in whatever mode, stands in the bundle after it as its own record. */
  lemma Arrived(h: Host, records: seq<Record>, actions: seq<Action>, now: nat -> string, i: nat, longer: seq<Record>)
    requires i < |actions| && !actions[i].skip
    requires ApplyAll(h, records, CallsOf(actions, now, |actions|)) == Ok(longer)
    ensures var next := |records| + |CallsOf(actions, now, i + 1)|;
            |records| < next <= |longer| && Carries(longer[next - 1], actions[i].event)
  {
    hide ApplyAll, CallsOf, Verifies, Wrote, FindingCall, EventCall;
    Placed(h, records, actions, now, i, longer);
    var mine, at := ActionCalls(actions[i], now(i)), |records| + |CallsOf(actions, now, i)|;
    var last := |mine| - 1;
    assert mine[last] == EventCall(actions[i].event) && Wrote(longer[at + last], mine[last]);
    EventWritten(longer[at + last], actions[i].event);
  }

  /** Accounting of a reconcile-mode plan: every distinct source key is counted once, and the
      appends are one per event written plus one finding per CHANGED key. */
  lemma {:induction false} Accounting(known: map<string, Known>, events: seq<ImportEvent>, now: nat -> string, n: nat)
    requires n <= |events|
    ensures var c := CountsOf(known, true, events, n); var actions := Plan(known, true, events);
            c.newCount + c.changed + c.same + c.unknown == |Keys(events, n)| &&
            |CallsOf(actions, now, n)| == CountWritten(actions, n) + c.changed
  {
    hide KeyAt, Compare, Keys, CountKind, ActionCalls, ActionAt, IsFirst;
    if n == 0 {
      NoKeys(events);
      PlanningStart(known, true, events);
    } else {
      Accounting(known, events, now, n - 1);
      CountsStep(known, true, events, n - 1);
      KeysStep(events, n - 1);
      ActionCount(known, events, n - 1, now(n - 1));
    }
  }

  lemma NoKeys(events: seq<ImportEvent>)
    ensures |Keys(events, 0)| == 0
  {
  }

  lemma KeysStep(events: seq<ImportEvent>, n: nat)
    requires n < |events|
    ensures |Keys(events, n + 1)| == |Keys(events, n)| + if IsFirst(events, n) then 1 else 0
  {
    hide KeyAt;
    assert Keys(events, n + 1) == Keys(events, n) + {KeyAt(events, n)};
    if !IsFirst(events, n) {
      var k :| 0 <= k < n && KeyAt(events, k) == KeyAt(events, n);
      assert KeyAt(events, k) in Keys(events, n);
    }
  }

  lemma ActionCount(known: map<string, Known>, events: seq<ImportEvent>, i: nat, now: string)
    requires i < |events|
    ensures var a := ActionAt(known, true, events, i);
            |ActionCalls(a, now)| == (if a.skip then 0 else 1) +
              if IsFirst(events, i) && Decide(known, true, events[i]).kind == Some(Changed) then 1 else 0
  {
    hide KeyAt;
    var f := FirstIndex(events, i);
    if IsFirst(events, i) { assert f == i; }
  }

  /** A CHANGED source record yields exactly one finding, with the first of its events. */
  lemma OneFinding(known: map<string, Known>, events: seq<ImportEvent>, i: nat)
    requires i < |events|
    ensures ActionAt(known, true, events, i).finding.Some? <==>
            IsFirst(events, i) && DecisionAt(known, true, events, i).kind == Some(Changed)
    ensures DecisionAt(known, true, events, i).kind == Some(Changed) ==> !ActionAt(known, true, events, i).skip
  {
    hide KeyAt;
  }

  // ----- importing twice -----

  /** The source identity an append call writes. */
  function CallKey(c: AppendCall): Option<string>
  {
    if c.typ == MANIFEST_TYPE || c.opts.None? || c.opts.value.acquisition.None? then None
    else
      var a := c.opts.value.acquisition.value;
      if a.sourceSystem == "" || a.sourceRecordId == "" then None else Some(Join(a.sourceSystem, a.sourceRecordId))
  }

  /** The digest of the last call with this source identity. */
  function LastCall(calls: seq<AppendCall>, key: string): Option<string>
  {
    if calls == [] then None
    else
      var c := calls[|calls| - 1];
      if CallKey(c) == Some(key) then Some(c.opts.value.acquisition.value.sourceDigest)
      else LastCall(calls[..|calls| - 1], key)
  }

  lemma {:induction false} LastAfter(h: Host, records: seq<Record>, calls: seq<AppendCall>, key: string)
    requires ApplyAll(h, records, calls).Ok?
    ensures var longer := ApplyAll(h, records, calls).value;
            LastDigest(longer, key) ==
              (if LastCall(calls, key).Some? then LastCall(calls, key) else LastDigest(records, key))
    decreases |calls|
  {
    hide Appended, Verifies, Join;
    if calls != [] {
      var front, c := calls[..|calls| - 1], calls[|calls| - 1];
      var shorter := ApplyAll(h, records, front).value;
      LastAfter(h, records, front, key);
      AppendShape(h, shorter, c.typ, c.data, c.opts);
    }
  }

  ghost predicate DigestPerIdentity(events: seq<ImportEvent>)
  {
    forall i, j | 0 <= i < |events| && 0 <= j < |events| && Identified(events[i]) && Identified(events[j]) &&
      events[i].acquisition.value.sourceSystem == events[j].acquisition.value.sourceSystem &&
      events[i].acquisition.value.sourceRecordId == events[j].acquisition.value.sourceRecordId ::
      events[i].acquisition.value.sourceDigest == events[j].acquisition.value.sourceDigest
  }

  ghost predicate CleanInput(events: seq<ImportEvent>)
  {
    (forall i | 0 <= i < |events| :: WellNamed(events[i])) && DigestPerIdentity(events)
  }

  lemma EventCallKey(events: seq<ImportEvent>, i: nat)
    requires i < |events| && events[i].typ != MANIFEST_TYPE
    ensures CallKey(EventCall(events[i])) == if Identified(events[i]) then Some(KeyAt(events, i)) else None
  {
    hide Join;
  }

  /** Unless its source record is skipped, the last call for event `k`'s key carries its digest. */
  lemma {:induction false} LastPlanned(known: map<string, Known>, reconcile: bool, events: seq<ImportEvent>,
      now: nat -> string, k: nat, n: nat)
    requires CleanInput(events) && k < |events| && n <= |events| && Identified(events[k])
    requires forall i | 0 <= i < |events| && !ActionAt(known, reconcile, events, i).skip ::
             events[i].typ != MANIFEST_TYPE
    ensures var last := LastCall(CallsOf(Plan(known, reconcile, events), now, n), KeyAt(events, k));
            if DecisionAt(known, reconcile, events, k).Skip() then last == None
            else (k < n ==> last.Some?) && (last.Some? ==> last.value == events[k].acquisition.value.sourceDigest)
  {
    hide DecisionAt, ActionCalls, Join, KeyAt, EventCall, CallKey, CleanInput;
    if n > 0 {
      LastPlanned(known, reconcile, events, now, k, n - 1);
      var actions := Plan(known, reconcile, events);
      var calls, a := CallsOf(actions, now, n - 1), ActionAt(known, reconcile, events, n - 1);
      LastOfAction(calls, a, now(n - 1), KeyAt(events, k));
      if !a.skip { EventCallKey(events, n - 1); }
      if KeyAt(events, n - 1) == KeyAt(events, k) && Identified(events[n - 1]) {
        SameDigest(events, k, n - 1);
        SameDecision(known, reconcile, events, k, n - 1);
      }
    }
  }

  lemma SameDigest(events: seq<ImportEvent>, i: nat, j: nat)
    requires CleanInput(events) && i < |events| && j < |events| && Identified(events[i]) && Identified(events[j])
    requires KeyAt(events, i) == KeyAt(events, j)
    ensures events[i].acquisition.value.sourceDigest == events[j].acquisition.value.sourceDigest
  {
    hide KeyAt;
    SameKey(events, i, j);
  }

  /** Nothing of manifest type gets into a bundle that has records. */
  lemma WrittenNotManifest(h: Host, records: seq<Record>, actions: seq<Action>, now: nat -> string, i: nat)
    requires records != [] && i < |actions| && !actions[i].skip
    requires ApplyAll(h, records, CallsOf(actions, now, |actions|)).Ok?
    ensures actions[i].event.typ != MANIFEST_TYPE
  {
    hide ApplyAll, CallsOf, ValidType, DeclaresV3;
    var all := CallsOf(actions, now, |actions|);
    ApplySucceeds(h, records, all);
    CallsPlaced(actions, now, i, |actions|);
    var from, to := |CallsOf(actions, now, i)|, |CallsOf(actions, now, i + 1)|;
    assert all[to - 1] == all[from..to][to - 1 - from] == EventCall(actions[i].event);
    assert Acceptable(h, records, all[to - 1]);
  }

  lemma SameDecision(known: map<string, Known>, reconcile: bool, events: seq<ImportEvent>, i: nat, j: nat)
    requires i < |events| && j < |events| && KeyAt(events, i) == KeyAt(events, j)
    ensures DecisionAt(known, reconcile, events, i) == DecisionAt(known, reconcile, events, j)
  {
    hide KeyAt;
    if i <= j { FirstSame(events, i, j); } else { FirstSame(events, j, i); }
  }

  lemma LastOfAction(calls: seq<AppendCall>, a: Action, now: string, key: string)
    ensures LastCall(calls + ActionCalls(a, now), key) ==
            if !a.skip && CallKey(EventCall(a.event)) == Some(key) then Some(a.event.acquisition.value.sourceDigest)
            else LastCall(calls, key)
  {
    hide Join;
    if a.skip {
      Units(calls);
    } else {
      var e := EventCall(a.event);
      if a.finding.None? {
        LastCallStep(calls, e, key);
      } else {
        var f := FindingCall(a.finding.value, a.event.acquisition, now);
        assert calls + [f, e] == calls + [f] + [e];
        LastCallStep(calls + [f], e, key);
        LastCallStep(calls, f, key);
      }
    }
  }

  lemma LastCallStep(calls: seq<AppendCall>, c: AppendCall, key: string)
    ensures LastCall(calls + [c], key) ==
            if CallKey(c) == Some(key) then Some(c.opts.value.acquisition.value.sourceDigest) else LastCall(calls, key)
  {
    hide CallKey;
    assert (calls + [c])[..|calls|] == calls;
  }

  /** The same source records with the same representations; acquisition times may differ. */
  ghost predicate SameSources(events: seq<ImportEvent>, again: seq<ImportEvent>)
  {
    |events| == |again| &&
    forall i | 0 <= i < |events| ::
      HasRecordId(events[i]) == HasRecordId(again[i]) &&
      (HasRecordId(events[i]) ==>
        events[i].acquisition.value.sourceSystem == again[i].acquisition.value.sourceSystem &&
        events[i].acquisition.value.sourceRecordId == again[i].acquisition.value.sourceRecordId &&
        events[i].acquisition.value.sourceDigest == again[i].acquisition.value.sourceDigest)
  }

  lemma SameKeys(events: seq<ImportEvent>, again: seq<ImportEvent>, i: nat)
    requires SameSources(events, again) && i < |events|
    ensures KeyAt(events, i) == KeyAt(again, i)
  {
    hide Join;
  }

  /** After an import, plain or reconciling, into any bundle that verifies, reconciling the same source
      records again finds every identified one UNCHANGED and appends nothing for it. */
  lemma ImportTwice(h: Host, records: seq<Record>, reconcile: bool, events: seq<ImportEvent>, now: nat -> string,
                    longer: seq<Record>, again: seq<ImportEvent>, k: nat)
    requires Verifies(h.sha, records) && records != [] && CleanInput(events) && SameSources(events, again)
    requires k < |events| && Identified(events[k])
    requires var known := if reconcile then LoadKnown(records) else map[];
             ApplyAll(h, records, CallsOf(Plan(known, reconcile, events), now, |events|)) == Ok(longer)
    ensures DecisionAt(LoadKnown(longer), true, again, k) == Decision(Some(Unchanged), None)
    ensures ActionAt(LoadKnown(longer), true, again, k).skip
  {
    hide Join, ApplyAll, CallsOf, Plan, LoadKnown, LastDigest, LastCall, KeyAt, Verifies, FirstIndex;
    var known := if reconcile then LoadKnown(records) else map[];
    var key, a := KeyAt(events, k), events[k].acquisition.value;
    var calls := CallsOf(Plan(known, reconcile, events), now, |events|);
    var f := FirstIndex(again, k);
    SameKeys(events, again, k);
    SameKeys(events, again, f);
    SameKey(events, k, f);
    KeyOfIdentified(events, k);
    var actions := Plan(known, reconcile, events);
    forall i | 0 <= i < |events| && !ActionAt(known, reconcile, events, i).skip ensures events[i].typ != MANIFEST_TYPE {
      assert actions[i].event == events[i];
      WrittenNotManifest(h, records, actions, now, i);
    }
    LastPlanned(known, reconcile, events, now, k, |events|);
    LastAfter(h, records, calls, key);
    ApplyShape(h, records, calls);
    NumberedKnows(h, longer, key);
    if DecisionAt(known, reconcile, events, k).Skip() {
      SkippedWasKnown(known, reconcile, events, k);
      NumberedKnows(h, records, key);
    }
    assert LastDigest(longer, key) == Some(a.sourceDigest);
  }

  lemma SkippedWasKnown(known: map<string, Known>, reconcile: bool, events: seq<ImportEvent>, k: nat)
    requires CleanInput(events) && k < |events| && Identified(events[k]) &&
             DecisionAt(known, reconcile, events, k).Skip()
    ensures reconcile && KeyAt(events, k) in known &&
            known[KeyAt(events, k)].digest == events[k].acquisition.value.sourceDigest
  {
    hide Join;
    SameKey(events, k, FirstIndex(events, k));
  }

  lemma Numbered(h: Host, records: seq<Record>)
    requires Verifies(h.sha, records)
    ensures forall i | 0 <= i < |records| :: records[i].event.sequence == FirstSequence(records) + i
  {
    hide Compute;
    forall i | 0 <= i < |records| ensures records[i].event.sequence == FirstSequence(records) + i {
      assert LinkOk(h.sha, records, FirstSequence(records), i);
    }
  }

  lemma NumberedKnows(h: Host, records: seq<Record>, key: string)
    requires Verifies(h.sha, records)
    ensures var known := LoadKnown(records);
            LastDigest(records, key) == (if key in known then Some(known[key].digest) else None)
  {
    hide LoadKnown, LastAcquisition, Verifies;
    Numbered(h, records);
    KnowsLast(records, FirstSequence(records), key);
  }

  /** When every event is identified, the second import leaves the bundle as it is. */
  lemma SecondImportIsEmpty(h: Host, records: seq<Record>, reconcile: bool, events: seq<ImportEvent>,
                            now: nat -> string, longer: seq<Record>, again: seq<ImportEvent>, later: nat -> string)
    requires Verifies(h.sha, records) && records != [] && CleanInput(events) && SameSources(events, again)
    requires forall i | 0 <= i < |events| :: Identified(events[i])
    requires var known := if reconcile then LoadKnown(records) else map[];
             ApplyAll(h, records, CallsOf(Plan(known, reconcile, events), now, |events|)) == Ok(longer)
    ensures ApplyAll(h, longer, CallsOf(Plan(LoadKnown(longer), true, again), later, |again|)) == Ok(longer)
  {
    hide ApplyAll, CallsOf, LoadKnown, ActionAt, Verifies, CleanInput;
    forall k | 0 <= k < |again| ensures ActionAt(LoadKnown(longer), true, again, k).skip {
      ImportTwice(h, records, reconcile, events, now, longer, again, k);
    }
    NoCalls(Plan(LoadKnown(longer), true, again), later, |again|);
    ApplyNothing(h, longer);
  }

  lemma {:induction false} NoCalls(actions: seq<Action>, now: nat -> string, n: nat)
    requires n <= |actions| && forall i | 0 <= i < n :: actions[i].skip
    ensures CallsOf(actions, now, n) == []
  {
    if n > 0 { NoCalls(actions, now, n - 1); }
  }
}
