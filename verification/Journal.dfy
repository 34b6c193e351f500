/** The capture journal of internal/capturejournal: an append-only file of hash-chained
    lines that survives a crash at any byte of a write. */
module Journal {
  import opened Wrappers
  import opened Seqs
  import opened Utf8
  import opened Json
  import opened HashChain
  import B = Bundle
  import F = BundleFile

  const FORMAT_VERSION := 1
  const MAX_LINE := F.MAX_LINE
  const LF := F.LF
  const ENTRY_TYPE := "atb.capture.journal.entry"

  datatype Entry = Entry(
    formatVersion: int, position: int, prevHash: string, observationId: string,
    sourceSystem: string, sourceIncarnation: string, representationVersion: string,
    representationDigest: string, observationType: string, payload: Value,
    sourceTimestamp: string, observedAt: string, adapter: string, adapterVersion: string, hash: string)

  /** encoding/json on entries; `blank` is whether trimming a line leaves nothing. */
  datatype Codec = Codec(encode: Entry -> Bytes, decode: Bytes -> Option<Entry>, blank: Bytes -> bool)

  datatype Env = Env(sha: Sha, codec: Codec)

  predicate NoLF(t: Bytes)
  {
    forall i | 0 <= i < |t| :: t[i] != LF
  }

  /** An entry is written as one line and reads back as itself. */
  ghost predicate CodecOk(c: Codec)
  {
    forall e :: NoLF(c.encode(e)) && !c.blank(c.encode(e)) && c.decode(c.encode(e)) == Some(e)
  }

  datatype Error =
    | JournalClosed | JournalFailed | VersionUnsupported | ObservationIdRequired | TooLarge | WriteFailed | Corrupted

  // ----- entries and their chain -----

  /** What the entry's hash covers besides its place. */
  function HashableFields(e: Entry): seq<Field>
  {
    [("position", Some(Number(IntToken(e.position)))), ("observation_id", Text(e.observationId)),
     ("source_system", Text(e.sourceSystem)), ("source_incarnation", NonEmpty(e.sourceIncarnation)),
     ("representation_version", Text(e.representationVersion)),
     ("representation_digest", Text(e.representationDigest)),
     ("observation_type", Text(e.observationType)), ("payload", Some(e.payload)),
     ("source_timestamp", NonEmpty(e.sourceTimestamp)), ("observed_at", Text(e.observedAt)),
     ("adapter", Text(e.adapter)), ("adapter_version", Text(e.adapterVersion))]
  }

  function Hashable(e: Entry): Value
  {
    Object(Fields(HashableFields(e)))
  }

  /** The event `computeHash` hashes. */
  function EntryEvent(e: Entry): Event
  {
    Event(e.position, e.prevHash, ENTRY_TYPE, "", Hashable(e), None, None, None, "", "", "", "", None)
  }

  /** `computeHash`; it reads neither the format version nor the stored hash. */
  function EntryHash(sha: Sha, e: Entry): Hex
  {
    Compute(sha, EntryEvent(e))
  }

  function PrevOf(es: seq<Entry>): string
  {
    if es == [] then GENESIS else es[|es| - 1].hash
  }

  /** `e` has its place after `es` in a journal file, whatever its format version. */
  predicate Follows(sha: Sha, es: seq<Entry>, e: Entry)
  {
    e.position == |es| + 1 && e.prevHash == PrevOf(es) && e.hash == EntryHash(sha, e)
  }

  /** Positions 1..n and a verifying chain. */
  ghost predicate WellChained(sha: Sha, es: seq<Entry>)
  {
    forall i | 0 <= i < |es| :: Follows(sha, es[..i], es[i])
  }

  /** Every entry has the one format version the reader takes. */
  ghost predicate Current(es: seq<Entry>)
  {
    forall i | 0 <= i < |es| :: es[i].formatVersion == FORMAT_VERSION
  }

  function Line(c: Codec, e: Entry): Bytes
  {
    c.encode(e) + [LF]
  }

  function LinesText(c: Codec, es: seq<Entry>): Bytes
  {
    if es == [] then [] else Line(c, es[0]) + LinesText(c, es[1..])
  }

  /** Lines short enough to be read again. */
  ghost predicate Fit(c: Codec, es: seq<Entry>)
  {
    forall i | 0 <= i < |es| :: |Line(c, es[i])| <= MAX_LINE
  }

  // ----- what the chain pins down -----

  lemma HashableNames(e: Entry, f: Entry)
    ensures DistinctNames(HashableFields(e)) && SameNames(HashableFields(e), HashableFields(f))
  {
    hide IntToken, NonEmpty, Text;
    var fs := HashableFields(e);
    assert |fs[1].0| == 14 && |fs[2].0| == 13 && |fs[3].0| == 18 && |fs[4].0| == 22 && |fs[5].0| == 21 &&
           |fs[6].0| == 16;
    assert |fs[0].0| == 8 && |fs[7].0| == 7 && |fs[8].0| == 16 && |fs[9].0| == 11 && |fs[10].0| == 7 &&
           |fs[11].0| == 15;
    assert fs[7].0[0] == 'p' && fs[10].0[0] == 'a' && fs[6].0[0] == 'o' && fs[8].0[0] == 's';
  }

  /** Every field of the observation stands in what is hashed, under its own name. */
  lemma HashableReads(e: Entry)
    ensures var m := Hashable(e).fields;
            Get(m, "position") == Some(Number(IntToken(e.position))) &&
            Get(m, "observation_id") == Some(String(e.observationId)) &&
            Get(m, "source_system") == Some(String(e.sourceSystem)) &&
            StandsUnlessEmpty(m, "source_incarnation", e.sourceIncarnation) &&
            Get(m, "representation_version") == Some(String(e.representationVersion)) &&
            Get(m, "representation_digest") == Some(String(e.representationDigest)) &&
            Get(m, "observation_type") == Some(String(e.observationType)) && Get(m, "payload") == Some(e.payload) &&
            StandsUnlessEmpty(m, "source_timestamp", e.sourceTimestamp) &&
            Get(m, "observed_at") == Some(String(e.observedAt)) && Get(m, "adapter") == Some(String(e.adapter)) &&
            Get(m, "adapter_version") == Some(String(e.adapterVersion))
  {
    hide Fields, IntToken, DistinctNames;
    var fs := HashableFields(e);
    HashableNames(e, e);
    forall i | 0 <= i < 12 ensures Get(Fields(fs), fs[i].0) == fs[i].1 { FieldAt(fs, i); }
    assert Get(Fields(fs), fs[0].0) == fs[0].1 && Get(Fields(fs), fs[1].0) == fs[1].1;
    assert Get(Fields(fs), fs[2].0) == fs[2].1 && Get(Fields(fs), fs[3].0) == fs[3].1;
    assert Get(Fields(fs), fs[4].0) == fs[4].1 && Get(Fields(fs), fs[5].0) == fs[5].1;
    assert Get(Fields(fs), fs[6].0) == fs[6].1 && Get(Fields(fs), fs[7].0) == fs[7].1;
    assert Get(Fields(fs), fs[8].0) == fs[8].1 && Get(Fields(fs), fs[9].0) == fs[9].1;
    assert Get(Fields(fs), fs[10].0) == fs[10].1 && Get(Fields(fs), fs[11].0) == fs[11].1;
  }

  /** Two entries that differ at most in format version and stored hash. */
  predicate SameObservation(e: Entry, f: Entry)
  {
    e == f.(formatVersion := e.formatVersion, hash := e.hash)
  }

  /** The hash covers every field of the observation and its place. */
  lemma EntryInjective(e: Entry, f: Entry)
    requires EntryEvent(e) == EntryEvent(f)
    ensures SameObservation(e, f)
  {
    hide Fields, IntToken;
    var fs, gs := HashableFields(e), HashableFields(f);
    HashableNames(e, f);
    FieldsInjective(fs, gs);
    assert fs[1] == gs[1] && fs[2] == gs[2] && fs[3] == gs[3] && fs[4] == gs[4] && fs[5] == gs[5] && fs[6] == gs[6];
    assert fs[7] == gs[7] && fs[8] == gs[8] && fs[9] == gs[9] && fs[10] == gs[10] && fs[11] == gs[11];
  }

  lemma PrevOfWide(sha: Sha, es: seq<Entry>)
    requires WellChained(sha, es)
    ensures |PrevOf(es)| == 64 && Ascii(PrevOf(es))
  {
    hide EntryHash;
    if es != [] { assert Follows(sha, es[..|es| - 1], es[|es| - 1]); }
  }

  /** One last hash fixes the whole journal: two well-chained lists that end in the same hash are the
      same entries up to their format versions, or `x` and `y` are a SHA-256 collision. */
  lemma {:induction false} SameJournal(sha: Sha, a: seq<Entry>, b: seq<Entry>) returns (x: Bytes, y: Bytes)
    requires a != [] && b != [] && WellChained(sha, a) && WellChained(sha, b) && PrevOf(a) == PrevOf(b)
    ensures Collision(sha, x, y) ||
            (|a| == |b| && forall i | 0 <= i < |a| :: SameObservation(a[i], b[i]) && a[i].hash == b[i].hash)
    decreases |a|
  {
    hide WellChained, Collision, SameObservation, PrevOf;
    var n := |a| - 1;
    x, y := SameLast(sha, a, b);
    if !Collision(sha, x, y) && n > 0 {
      WellChainedPrefix(sha, a, n);
      WellChainedPrefix(sha, b, n);
      x, y := SameJournal(sha, a[..n], b[..n]);
      if !Collision(sha, x, y) {
        forall k | 0 <= k < |a| ensures SameObservation(a[k], b[k]) && a[k].hash == b[k].hash {
          if k < n { assert a[..n][k] == a[k] && b[..n][k] == b[k]; }
        }
      }
    }
  }

  /** The same last hash: the same last entry, after as many others. */
  lemma SameLast(sha: Sha, a: seq<Entry>, b: seq<Entry>) returns (x: Bytes, y: Bytes)
    requires a != [] && b != [] && WellChained(sha, a) && WellChained(sha, b) && PrevOf(a) == PrevOf(b)
    ensures Collision(sha, x, y) ||
            (|a| == |b| && PrevOf(a[..|a| - 1]) == PrevOf(b[..|b| - 1]) &&
             SameObservation(a[|a| - 1], b[|b| - 1]) && a[|a| - 1].hash == b[|b| - 1].hash)
  {
    hide Preimage, EntryEvent, SameObservation;
    var i, j := |a| - 1, |b| - 1;
    var e, f := a[i], b[j];
    assert Follows(sha, a[..i], e) && Follows(sha, b[..j], f);
    x, y := Preimage(EntryEvent(e)), Preimage(EntryEvent(f));
    WellChainedPrefix(sha, a, i);
    WellChainedPrefix(sha, b, j);
    PrevOfWide(sha, a[..i]);
    PrevOfWide(sha, b[..j]);
    if x == y {
      SamePreimage(e, f);
    }
  }

  lemma SamePreimage(e: Entry, f: Entry)
    requires Preimage(EntryEvent(e)) == Preimage(EntryEvent(f))
    requires |e.prevHash| == 64 && Ascii(e.prevHash) && |f.prevHash| == 64 && Ascii(f.prevHash)
    ensures SameObservation(e, f) && e.position == f.position && e.prevHash == f.prevHash
  {
    hide Preimage, EntryEvent;
    EventPlace(e);
    EventPlace(f);
    PreimageInjective(EntryEvent(e), EntryEvent(f));
    EntryInjective(e, f);
  }

  lemma EventPlace(e: Entry)
    ensures EntryEvent(e).prevHash == e.prevHash
  {
  }

  // ----- reading -----

  /** `lastCompleteOffset`: the end of the last line that has its LF. */
  function LastComplete(data: Bytes): (n: nat)
    ensures n <= |data| && (n > 0 ==> data[n - 1] == LF) && NoLF(data[n..])
  {
    if data == [] || data[|data| - 1] == LF then |data|
    else
      var n := LastComplete(data[..|data| - 1]);
      assert data[n..] == data[..|data| - 1][n..] + [data[|data| - 1]];
      n
  }

  /** Entries of whole lines, after those already accepted; any fault in a line is fatal. */
  function ParseFrom(env: Env, acc: seq<Entry>, rest: Bytes): Result<seq<Entry>, Error>
    decreases |rest|
  {
    if rest == [] then Ok(acc)
    else
      var n := F.LineLength(rest);
      var line, more := rest[..n - 1], rest[n..];
      if n > MAX_LINE then Err(Corrupted)
      else if env.codec.blank(line) then ParseFrom(env, acc, more)
      else
        match env.codec.decode(line)
        case None => Err(Corrupted)
        case Some(e) =>
          if e.formatVersion != FORMAT_VERSION then Err(VersionUnsupported)
          else if !Follows(env.sha, acc, e) then Err(Corrupted)
          else ParseFrom(env, acc + [e], more)
  }

  /** `readEntries`: the entries of the whole lines, and whether a torn tail follows them. */
  function ReadFile(env: Env, file: Option<Bytes>): Result<(seq<Entry>, bool), Error>
  {
    match file
    case None => Ok(([], false))
    case Some(data) =>
      var n := LastComplete(data);
      match ParseFrom(env, [], data[..n])
      case Err(e) => Err(e)
      case Ok(es) => Ok((es, n < |data|))
  }

  /** The loop of `readEntries`. */
  method ReadEntries(env: Env, file: Option<Bytes>) returns (r: Result<(seq<Entry>, bool), Error>)
    ensures r == ReadFile(env, file)
  {
    hide Follows, LastComplete, EntryHash, ParseFrom, F.LineLength;
    if file.None? {
      return Ok(([], false));
    }
    var torn := LastComplete(file.value) < |file.value|;
    var data := file.value[..LastComplete(file.value)];
    var entries: seq<Entry> := [];
    var at := 0;
    assert data[0..] == data;
    while at < |data|
      invariant 0 <= at <= |data|
      invariant ParseFrom(env, [], data) == ParseFrom(env, entries, data[at..])
    {
      var n := F.LineLength(data[at..]);
      var line := data[at..][..n - 1];
      assert data[at..][n..] == data[at + n..];
      ParseStep(env, entries, data[at..], line, data[at + n..]);
      if n > MAX_LINE {
        return Err(Corrupted);
      }
      at := at + n;
      if env.codec.blank(line) {
        continue;
      }
      var decoded := env.codec.decode(line);
      if decoded.None? {
        return Err(Corrupted);
      }
      var e := decoded.value;
      if e.formatVersion != FORMAT_VERSION {
        return Err(VersionUnsupported);
      }
      if !Follows(env.sha, entries, e) {
        return Err(Corrupted);
      }
      entries := entries + [e];
    }
    ParseNothing(env, entries);
    assert data[at..] == [];
    return Ok((entries, torn));
  }

  lemma ParseNothing(env: Env, acc: seq<Entry>)
    ensures ParseFrom(env, acc, []) == Ok(acc)
  {
  }

  /** One turn of the read loop. */
  lemma ParseStep(env: Env, acc: seq<Entry>, rest: Bytes, line: Bytes, more: Bytes)
    requires rest != [] && line == rest[..F.LineLength(rest) - 1] && more == rest[F.LineLength(rest)..]
    ensures var d := env.codec.decode(line);
            ParseFrom(env, acc, rest) ==
              if F.LineLength(rest) > MAX_LINE then Err(Corrupted)
              else if env.codec.blank(line) then ParseFrom(env, acc, more)
              else if d.None? then Err(Corrupted)
              else if d.value.formatVersion != FORMAT_VERSION then Err(VersionUnsupported)
              else if !Follows(env.sha, acc, d.value) then Err(Corrupted)
              else ParseFrom(env, acc + [d.value], more)
  {
    hide Follows, F.LineLength;
  }

  // ----- the text of a list of entries -----

  lemma {:induction false} LinesAppend(c: Codec, es: seq<Entry>, e: Entry)
    ensures LinesText(c, es + [e]) == LinesText(c, es) + Line(c, e)
  {
    hide Line;
    if es == [] {
      assert [e][1..] == [] && [] + [e] == [e];
      Units(Line(c, e));
    } else {
      ConsAppend(es, [e]);
      LinesAppend(c, es[1..], e);
      Assoc(Line(c, es[0]), LinesText(c, es[1..]), Line(c, e));
    }
  }

  lemma {:induction false} LinesSplit(c: Codec, es: seq<Entry>, k: nat)
    requires k <= |es|
    ensures LinesText(c, es) == LinesText(c, es[..k]) + LinesText(c, es[k..])
  {
    hide Line;
    if k == 0 {
      Units(es);
      Units(LinesText(c, es));
    } else {
      LinesSplit(c, es[1..], k - 1);
      assert es[1..][..k - 1] == es[..k][1..] && es[1..][k - 1..] == es[k..];
      assert es[..k][0] == es[0];
      Assoc(Line(c, es[0]), LinesText(c, es[..k][1..]), LinesText(c, es[k..]));
    }
  }

  lemma {:induction false} LinesEnd(c: Codec, es: seq<Entry>)
    ensures LinesText(c, es) != [] ==> LinesText(c, es)[|LinesText(c, es)| - 1] == LF
    ensures LinesText(c, es) == [] <==> es == []
  {
    if es != [] {
      LinesEnd(c, es[1..]);
    }
  }

  lemma {:induction false} LastCompleteOf(a: Bytes, torn: Bytes)
    requires (a == [] || a[|a| - 1] == LF) && NoLF(torn)
    ensures LastComplete(a + torn) == |a|
    decreases |torn|
  {
    var t := a + torn;
    if torn == [] {
      Units(a);
    } else {
      var shorter := torn[..|torn| - 1];
      assert t[..|t| - 1] == a + shorter;
      assert t[|t| - 1] == torn[|torn| - 1];
      LastCompleteOf(a, shorter);
    }
  }

  /** Reading one written line. */
  lemma ParseOne(env: Env, acc: seq<Entry>, e: Entry, more: Bytes)
    requires CodecOk(env.codec) && |Line(env.codec, e)| <= MAX_LINE
    ensures ParseFrom(env, acc, Line(env.codec, e) + more) ==
            if e.formatVersion != FORMAT_VERSION then Err(VersionUnsupported)
            else if !Follows(env.sha, acc, e) then Err(Corrupted)
            else ParseFrom(env, acc + [e], more)
  {
    hide Follows, ParseFrom, NoLF, F.LineLength;
    var t := env.codec.encode(e);
    LineWhole(t, more);
    ParseStep(env, acc, t + [LF] + more, t, more);
  }

  lemma LineWhole(t: Bytes, more: Bytes)
    requires NoLF(t)
    ensures var u := t + [LF] + more; F.LineLength(u) == |t| + 1 && u[..|t|] == t && u[|t| + 1..] == more
  {
    hide F.LineLength;
    F.LineOf(t, more);
    Parts(t + [LF], more);
    Assoc(t, [LF], more);
    Parts(t, [LF] + more);
  }

  lemma {:induction false} ParseLines(env: Env, acc: seq<Entry>, es: seq<Entry>)
    requires CodecOk(env.codec) && Fit(env.codec, es) && WellChained(env.sha, acc + es)
    ensures ParseFrom(env, acc, LinesText(env.codec, es)) ==
            if Current(es) then Ok(acc + es) else Err(VersionUnsupported)
    decreases |es|
  {
    hide Follows, ParseFrom, Line, CodecOk;
    if es == [] {
      Units(acc);
      ParseNothing(env, acc);
    } else {
      var e := es[0];
      NextFollows(env, acc, es);
      ParseOne(env, acc, e, LinesText(env.codec, es[1..]));
      ParseLines(env, acc + [e], es[1..]);
      HeadTail(es);
    }
  }

  lemma NextFollows(env: Env, acc: seq<Entry>, es: seq<Entry>)
    requires es != [] && WellChained(env.sha, acc + es)
    ensures Follows(env.sha, acc, es[0]) && acc + es == acc + [es[0]] + es[1..]
  {
    hide Follows;
    assert (acc + es)[..|acc|] == acc && (acc + es)[|acc|] == es[0];
    HeadTail(es);
    Assoc(acc, [es[0]], es[1..]);
  }

  lemma WellChainedAppend(sha: Sha, es: seq<Entry>, e: Entry)
    requires WellChained(sha, es) && Follows(sha, es, e)
    ensures WellChained(sha, es + [e])
  {
    hide Follows;
    var more := es + [e];
    forall i | 0 <= i < |more| ensures Follows(sha, more[..i], more[i]) {
      assert more[..i] == if i < |es| then es[..i] else es;
    }
  }

  lemma WellChainedPrefix(sha: Sha, es: seq<Entry>, k: nat)
    requires WellChained(sha, es) && k <= |es|
    ensures WellChained(sha, es[..k])
  {
    hide Follows;
    forall i | 0 <= i < k ensures Follows(sha, es[..k][..i], es[..k][i]) {
      assert es[..k][..i] == es[..i];
    }
  }

  // ----- what reading guarantees -----

  lemma {:induction false} ParsedIsChained(env: Env, acc: seq<Entry>, rest: Bytes)
    requires WellChained(env.sha, acc) && Current(acc) && ParseFrom(env, acc, rest).Ok?
    ensures var es := ParseFrom(env, acc, rest).value; WellChained(env.sha, es) && Current(es)
    decreases |rest|
  {
    hide Follows;
    if rest != [] {
      var n := F.LineLength(rest);
      var d := env.codec.decode(rest[..n - 1]);
      if env.codec.blank(rest[..n - 1]) {
        ParsedIsChained(env, acc, rest[n..]);
      } else {
        WellChainedAppend(env.sha, acc, d.value);
        ParsedIsChained(env, acc + [d.value], rest[n..]);
      }
    }
  }

  /** Whatever bytes the file holds, entries that read are in place, linked and of the one version. */
  lemma ReadIsChained(env: Env, file: Option<Bytes>)
    requires ReadFile(env, file).Ok?
    ensures var es := ReadFile(env, file).value.0; WellChained(env.sha, es) && Current(es)
  {
    hide ParseFrom, LastComplete;
    if file.Some? {
      ParsedIsChained(env, [], file.value[..LastComplete(file.value)]);
    }
  }

  /** Two journal files that read and end in the same hash hold the same entries, or `x` and `y` are a
      SHA-256 collision: nothing in a journal can be replaced under its last hash. */
  lemma TamperEvident(env: Env, f: Bytes, g: Bytes) returns (x: Bytes, y: Bytes)
    requires ReadFile(env, Some(f)).Ok? && ReadFile(env, Some(g)).Ok?
    requires var a, b := ReadFile(env, Some(f)).value.0, ReadFile(env, Some(g)).value.0;
             a != [] && b != [] && PrevOf(a) == PrevOf(b)
    ensures ReadFile(env, Some(f)).value.0 == ReadFile(env, Some(g)).value.0 || Collision(env.sha, x, y)
  {
    hide ReadFile, WellChained, Collision;
    var a, b := ReadFile(env, Some(f)).value.0, ReadFile(env, Some(g)).value.0;
    ReadIsChained(env, Some(f));
    ReadIsChained(env, Some(g));
    x, y := SameJournal(env.sha, a, b);
    if !Collision(env.sha, x, y) {
      assert forall i | 0 <= i < |a| :: a[i] == b[i];
    }
  }

  // ----- disk, process, history -----

  /** The journal file, how much of it a crash cannot lose, and the two sidecar markers. */
  datatype Disk = Disk(file: Option<Bytes>, synced: nat, repairMarker: bool, degraded: Option<string>)

  /** The `Journal` object of a running process. */
  datatype Proc = Idle | Running(entries: seq<Entry>, failed: bool, repaired: bool)

  datatype Logged = Logged(entry: Entry, acked: bool)

  /** Disk and process, with the history a run is judged by: every complete line on disk and
      whether `Append` returned it, all entries `Append` ever returned, failed appends, and
      whether a torn tail was cut off or a degradation recorded. */
  datatype State = State(
    disk: Disk, proc: Proc,
    log: seq<Logged>, acked: seq<Entry>, faults: nat, truncated: bool, everDegraded: bool)

  function Entries(log: seq<Logged>): (es: seq<Entry>)
    ensures |es| == |log| && forall i | 0 <= i < |log| :: es[i] == log[i].entry
  {
    seq(|log|, i requires 0 <= i < |log| => log[i].entry)
  }

  function AckedOf(log: seq<Logged>): seq<Entry>
  {
    if log == [] then []
    else
      var rest, last := AckedOf(log[..|log| - 1]), log[|log| - 1];
      if last.acked then rest + [last.entry] else rest
  }

  function Unacked(log: seq<Logged>): nat
  {
    if log == [] then 0
    else Unacked(log[..|log| - 1]) + if log[|log| - 1].acked then 0 else 1
  }

  // ----- steps -----

  /** How the write and fsync of one line go. `Died` is a process that never returns. */
  datatype Fault = NoFault | ShortWrite(written: nat) | SyncFailed | Died(written: nat)

  datatype Step =
    | Open(left: nat, removeOk: bool)
    | Append(e: Entry, fault: Fault, markerOk: bool)
    | Exit
    | Crash(keep: nat)
    | MarkDegraded(reason: string, ok: bool)
    | Remove

  /** The entry `Append` stores: version, place and hash filled in. */
  function Prepared(sha: Sha, entries: seq<Entry>, e: Entry): Entry
  {
    var placed := e.(
      formatVersion := if e.formatVersion == 0 then FORMAT_VERSION else e.formatVersion,
      position := (if entries == [] then 0 else entries[|entries| - 1].position) + 1,
      prevHash := PrevOf(entries));
    placed.(hash := EntryHash(sha, placed))
  }

  /** Why `Append` refuses an entry before it touches the file. */
  function Refusal(proc: Proc, e: Entry): Option<Error>
  {
    if proc.Idle? then Some(JournalClosed)
    else if proc.failed then Some(JournalFailed)
    else if e.formatVersion > FORMAT_VERSION then Some(VersionUnsupported)
    else if B.AllBlank(e.observationId) then Some(ObservationIdRequired)
    else None
  }

  function Degrade(d: Disk, reason: string, ok: bool): Disk
  {
    if ok then d.(degraded := Some(reason)) else d
  }

  /** `Append`: what it leaves on disk and in memory, and what it returns. */
  function AppendEffect(env: Env, d: Disk, proc: Proc, e: Entry, fault: Fault, markerOk: bool)
    : (Disk, Proc, Result<Entry, Error>)
  {
    var refusal := Refusal(proc, e);
    if refusal.Some? then (d, proc, Err(refusal.value))
    else
      var stored := Prepared(env.sha, proc.entries, e);
      var line := Line(env.codec, stored);
      var file := if d.file.Some? then d.file.value else [];
      if |line| > MAX_LINE then (Degrade(d, "oversized", markerOk), proc, Err(TooLarge))
      else
        match fault
        case NoFault =>
          (d.(file := Some(file + line), synced := |file + line|),
           proc.(entries := proc.entries + [stored]), Ok(stored))
        case ShortWrite(k) =>
          (Degrade(d.(file := Some(file + line[..Least(k, |line|)])), "write failed", markerOk),
           proc.(failed := true), Err(WriteFailed))
        case SyncFailed =>
          (Degrade(d.(file := Some(file + line)), "fsync failed", markerOk), proc.(failed := true), Err(WriteFailed))
        case Died(k) =>
          (d.(file := Some(file + line[..Least(k, |line|)])), Idle, Err(WriteFailed))
  }

  function Least(a: nat, b: nat): nat { if a < b then a else b }

  /** The history after `Append`: a complete new line is logged, acknowledged or not. */
  function AppendHistory(env: Env, s: State, e: Entry, fault: Fault): State
  {
    if Refusal(s.proc, e).Some? then s
    else
      var stored := Prepared(env.sha, s.proc.entries, e);
      var size := |Line(env.codec, stored)|;
      if size > MAX_LINE then s
      else if fault.NoFault? then s.(log := s.log + [Logged(stored, true)], acked := s.acked + [stored])
      else if fault.SyncFailed? || fault.written >= size then
        s.(log := s.log + [Logged(stored, false)], faults := s.faults + 1)
      else s.(faults := s.faults + 1)
  }

  function TornAt(d: Disk): bool
  {
    d.file.Some? && LastComplete(d.file.value) < |d.file.value|
  }

  /** One effect of `Open` on the directory. */
  datatype OpenOp = DropMarker | WriteMarker | CutTail | OpenFile | SyncDir

  function Do(d: Disk, op: OpenOp): Disk
  {
    match op
    case DropMarker => d.(repairMarker := false)
    case WriteMarker => d.(repairMarker := true)
    case CutTail =>
      if d.file.None? then d
      else
        var n := LastComplete(d.file.value);
        d.(file := Some(d.file.value[..n]), synced := Least(d.synced, n))
    case OpenFile => if d.file.None? then d.(file := Some([]), synced := 0) else d
    case SyncDir => d
  }

  function DoAll(d: Disk, ops: seq<OpenOp>): Disk
    decreases |ops|
  {
    if ops == [] then d else DoAll(Do(d, ops[0]), ops[1..])
  }

  /** The effects of a complete `Open`, in their order. A stale repair marker may resist its removal. */
  function OpenOps(d: Disk, removeOk: bool): seq<OpenOp>
  {
    if d.file.None? then (if removeOk then [DropMarker, OpenFile, SyncDir] else [OpenFile, SyncDir])
    else if TornAt(d) then [WriteMarker, CutTail, OpenFile]
    else [OpenFile]
  }

  /** `Open` when only `left` more effects happen, the process failing or dying before the next one.
      Nothing happens if the file does not read. */
  function OpenEffect(env: Env, d: Disk, left: nat, removeOk: bool): (Disk, Proc)
  {
    match ReadFile(env, d.file)
    case Err(_) => (d, Idle)
    case Ok((es, torn)) =>
      var ops := OpenOps(d, removeOk);
      if left < |ops| then (DoAll(d, ops[..left]), Idle)
      else (DoAll(d, ops), Running(es, false, torn || DoAll(d, ops).repairMarker))
  }

  /** The first of up to three effects. */
  lemma DoThree(d: Disk, a: OpenOp, b: OpenOp, c: OpenOp)
    ensures DoAll(d, []) == d && DoAll(d, [a]) == Do(d, a) && DoAll(d, [a, b]) == Do(Do(d, a), b)
    ensures DoAll(d, [a, b, c]) == Do(Do(Do(d, a), b), c)
    ensures [a][..0] == [] && [a, b][..0] == [] && [a, b][..1] == [a]
    ensures [a, b, c][..0] == [] && [a, b, c][..1] == [a] && [a, b, c][..2] == [a, b]
  {
    hide Do;
    DoLast(d, a);
    DoLast(Do(d, a), b);
    DoLast(Do(Do(d, a), b), c);
    assert [a, b][1..] == [b] && [a, b, c][1..] == [b, c] && [b, c][1..] == [c];
  }

  lemma DoLast(d: Disk, a: OpenOp)
    ensures DoAll(d, [a]) == Do(d, a)
  {
    hide Do;
    assert [a][1..] == [];
  }

  /** `Read`: entries and whether the existing journal was ever repaired. */
  function Read(env: Env, d: Disk): Result<(seq<Entry>, bool), Error>
  {
    match ReadFile(env, d.file)
    case Err(e) => Err(e)
    case Ok((es, torn)) => Ok((es, torn || (d.file.Some? && d.repairMarker)))
  }

  /** How many whole lines of `es` fit in `keep` bytes. */
  function Survivors(c: Codec, es: seq<Entry>, keep: nat): (k: nat)
    ensures k <= |es|
  {
    if es == [] || keep < |Line(c, es[0])| then 0 else 1 + Survivors(c, es[1..], keep - |Line(c, es[0])|)
  }

  function Next(env: Env, s: State, step: Step): State
  {
    match step
    case Open(left, removeOk) =>
      if !s.proc.Idle? then s
      else
        var (d, p) := OpenEffect(env, s.disk, left, removeOk);
        s.(disk := d, proc := p, truncated := s.truncated || (TornAt(s.disk) && !TornAt(d)))
    case Append(e, fault, markerOk) =>
      var (d, p, _) := AppendEffect(env, s.disk, s.proc, e, fault, markerOk);
      AppendHistory(env, s, e, fault).(disk := d, proc := p, everDegraded := s.everDegraded || d.degraded.Some?)
    case Exit => s.(proc := Idle)
    case Crash(keep) =>
      if s.disk.file.None? || !(s.disk.synced <= keep <= |s.disk.file.value|) then s
      else
        s.(disk := s.disk.(file := Some(s.disk.file.value[..keep]), synced := keep), proc := Idle,
           log := s.log[..Survivors(env.codec, Entries(s.log), keep)])
    case MarkDegraded(reason, ok) =>
      s.(disk := Degrade(s.disk, reason, ok), everDegraded := s.everDegraded || ok)
    case Remove =>
      if !s.proc.Idle? then s
      else s.(disk := s.disk.(file := None, synced := 0), log := [], acked := [], faults := 0, truncated := false)
  }

  function Run(env: Env, s: State, steps: seq<Step>): State
    decreases |steps|
  {
    if steps == [] then s else Run(env, Next(env, s, steps[0]), steps[1..])
  }

  const FRESH := State(Disk(None, 0, false, None), Idle, [], [], 0, false, false)

  // ----- the invariant -----

  /** The file is the logged lines and a torn tail without LF. */
  ghost predicate FileOk(env: Env, f: Bytes, es: seq<Entry>)
  {
    WellChained(env.sha, es) && Fit(env.codec, es) &&
    LinesText(env.codec, es) <= f && NoLF(f[|LinesText(env.codec, es)|..])
  }

  /** Every acknowledged line is within the bytes a crash cannot lose. */
  ghost predicate AckedSynced(env: Env, log: seq<Logged>, synced: nat)
  {
    forall i | 0 <= i < |log| && log[i].acked :: |LinesText(env.codec, Entries(log)[..i + 1])| <= synced
  }

  /** A process that may append holds exactly the entries of a file without torn tail. */
  ghost predicate ProcOk(env: Env, s: State)
  {
    s.proc.Running? ==>
      (s.truncated ==> s.proc.repaired) &&
      (!s.proc.failed ==>
        s.disk.file.Some? && s.proc.entries == Entries(s.log) &&
        s.disk.file.value == LinesText(env.codec, s.proc.entries))
  }

  ghost predicate DiskOk(env: Env, s: State)
  {
    if s.disk.file.None? then s.log == [] && s.proc.Idle? && !s.truncated && s.disk.synced == 0
    else
      FileOk(env, s.disk.file.value, Entries(s.log)) && s.disk.synced <= |s.disk.file.value| &&
      AckedSynced(env, s.log, s.disk.synced)
  }

  ghost predicate Inv(env: Env, s: State)
  {
    DiskOk(env, s) && ProcOk(env, s) && s.acked == AckedOf(s.log) && Unacked(s.log) <= s.faults &&
    (s.truncated ==> s.disk.repairMarker) && (s.everDegraded ==> s.disk.degraded.Some?)
  }

  // ----- every step keeps it -----

  lemma ReadOk(env: Env, f: Bytes, es: seq<Entry>)
    requires CodecOk(env.codec) && FileOk(env, f, es)
    ensures ReadFile(env, Some(f)) ==
            if Current(es) then Ok((es, |LinesText(env.codec, es)| < |f|)) else Err(VersionUnsupported)
    ensures LastComplete(f) == |LinesText(env.codec, es)| && f[..LastComplete(f)] == LinesText(env.codec, es)
  {
    hide LastComplete, ParseFrom, CodecOk, Follows, LinesText, Fit, WellChained, NoLF;
    var t := LinesText(env.codec, es);
    SplitAt(f, |t|);
    assert f[..|t|] == t;
    LinesEnd(env.codec, es);
    LastCompleteOf(t, f[|t|..]);
    Units(es);
    ParseLines(env, [], es);
  }

  lemma {:induction false} Cut(env: Env, es: seq<Entry>, f: Bytes, keep: nat)
    requires LinesText(env.codec, es) <= f && NoLF(f[|LinesText(env.codec, es)|..]) && keep <= |f| && CodecOk(env.codec)
    ensures var k := Survivors(env.codec, es, keep); var t := LinesText(env.codec, es[..k]);
            t <= f[..keep] && NoLF(f[..keep][|t|..])
    decreases |es|
  {
    hide Follows;
    var c := env.codec;
    if es == [] {
      assert f[..keep][0..] == f[..keep];
      assert forall i | 0 <= i < keep :: f[..keep][i] == f[0..][i];
    } else {
      var line, rest := Line(c, es[0]), LinesText(c, es[1..]);
      var n := |line|;
      Parts(line, rest);
      assert f[..n] == line;
      if keep < n {
        CutShort(c, es, f, keep);
      } else {
        var f' := f[n..];
        assert f'[..|rest|] == rest;
        assert f'[|rest|..] == f[|LinesText(c, es)|..];
        Cut(env, es[1..], f', keep - n);
        CutCons(c, es, f, keep);
      }
    }
  }

  lemma CutShort(c: Codec, es: seq<Entry>, f: Bytes, keep: nat)
    requires es != [] && Line(c, es[0]) <= f && keep < |Line(c, es[0])| && CodecOk(c)
    ensures LinesText(c, es[..0]) == [] && NoLF(f[..keep]) && f[..keep][0..] == f[..keep]
  {
    assert es[..0] == [];
    assert forall i | 0 <= i < keep :: f[..keep][i] == Line(c, es[0])[i] == c.encode(es[0])[i];
  }

  lemma CutCons(c: Codec, es: seq<Entry>, f: Bytes, keep: nat)
    requires es != [] && Line(c, es[0]) <= f && |Line(c, es[0])| <= keep <= |f|
    requires var n := |Line(c, es[0])|;
             var k := Survivors(c, es[1..], keep - n); var t := LinesText(c, es[1..][..k]);
             t <= f[n..][..keep - n] && NoLF(f[n..][..keep - n][|t|..])
    ensures var k := Survivors(c, es, keep); var t := LinesText(c, es[..k]);
            t <= f[..keep] && NoLF(f[..keep][|t|..])
  {
    var n := |Line(c, es[0])|;
    var j := Survivors(c, es[1..], keep - n);
    assert es[..j + 1][0] == es[0] && es[..j + 1][1..] == es[1..][..j];
    var t := LinesText(c, es[1..][..j]);
    assert f[..keep] == f[..n] + f[n..][..keep - n];
    assert f[..keep][n + |t|..] == f[n..][..keep - n][|t|..];
    assert f[..n] == Line(c, es[0]);
  }

  lemma {:induction false} SurvivorsKeep(c: Codec, es: seq<Entry>, keep: nat, m: nat)
    requires m <= |es| && |LinesText(c, es[..m])| <= keep
    ensures m <= Survivors(c, es, keep)
    decreases |es|
  {
    if m > 0 {
      assert es[..m][0] == es[0] && es[..m][1..] == es[1..][..m - 1];
      SurvivorsKeep(c, es[1..], keep - |Line(c, es[0])|, m - 1);
    }
  }

  lemma {:induction false} AckedPrefix(log: seq<Logged>, k: nat)
    requires k <= |log| && forall i | k <= i < |log| :: !log[i].acked
    ensures AckedOf(log[..k]) == AckedOf(log) && Unacked(log[..k]) <= Unacked(log)
    decreases |log|
  {
    if k == |log| {
      Units(log);
    } else {
      var shorter := log[..|log| - 1];
      assert shorter[..k] == log[..k];
      AckedPrefix(shorter, k);
    }
  }

  lemma LogGrows(log: seq<Logged>, x: Logged)
    ensures AckedOf(log + [x]) == (if x.acked then AckedOf(log) + [x.entry] else AckedOf(log))
    ensures Unacked(log + [x]) == Unacked(log) + (if x.acked then 0 else 1)
    ensures Entries(log + [x]) == Entries(log) + [x.entry]
  {
    assert (log + [x])[..|log|] == log;
  }

  lemma PreparedFollows(sha: Sha, es: seq<Entry>, e: Entry)
    requires WellChained(sha, es)
    ensures Follows(sha, es, Prepared(sha, es, e))
  {
    if es != [] { assert Follows(sha, es[..|es| - 1], es[|es| - 1]); }
    var p := Prepared(sha, es, e);
    SameHash(sha, p.(hash := e.hash), p.hash);
  }

  lemma SameHash(sha: Sha, e: Entry, hash: string)
    ensures EntryHash(sha, e.(hash := hash)) == EntryHash(sha, e)
  {
    hide Compute;
  }

  /** The log and file after a whole line has been added. */
  lemma LineAdded(env: Env, s: State, x: Logged, synced: nat)
    requires CodecOk(env.codec) && FileOk(env, LinesText(env.codec, Entries(s.log)), Entries(s.log)) &&
             AckedSynced(env, s.log, s.disk.synced)
    requires Follows(env.sha, Entries(s.log), x.entry) && |Line(env.codec, x.entry)| <= MAX_LINE
    requires s.disk.synced <= synced &&
             (x.acked ==> synced >= |LinesText(env.codec, Entries(s.log)) + Line(env.codec, x.entry)|)
    ensures var log, f := s.log + [x], LinesText(env.codec, Entries(s.log)) + Line(env.codec, x.entry);
            f == LinesText(env.codec, Entries(log)) && FileOk(env, f, Entries(log)) && AckedSynced(env, log, synced)
  {
    hide Follows, CodecOk, Line, LinesText, WellChained, AckedOf, Unacked, AckedSynced;
    var es := Entries(s.log);
    LogGrows(s.log, x);
    LinesAppend(env.codec, es, x.entry);
    WellChainedAppend(env.sha, es, x.entry);
    SyncedGrows(env, s.log, x, s.disk.synced, synced);
  }

  lemma SyncedGrows(env: Env, log: seq<Logged>, x: Logged, was: nat, synced: nat)
    requires AckedSynced(env, log, was) && was <= synced
    requires x.acked ==> |LinesText(env.codec, Entries(log) + [x.entry])| <= synced
    ensures AckedSynced(env, log + [x], synced)
  {
    hide LinesText, AckedOf, Unacked;
    var more := log + [x];
    LogGrows(log, x);
    var es := Entries(log);
    forall i | 0 <= i < |more| && more[i].acked ensures |LinesText(env.codec, Entries(more)[..i + 1])| <= synced {
      if i < |log| {
        assert log[i].acked;
        assert (es + [x.entry])[..i + 1] == es[..i + 1];
      } else {
        Units(Entries(more));
      }
    }
  }

  lemma AppendKeeps(env: Env, s: State, e: Entry, fault: Fault, markerOk: bool)
    requires CodecOk(env.codec) && Inv(env, s)
    ensures Inv(env, Next(env, s, Append(e, fault, markerOk)))
  {
    hide CodecOk, FileOk, AckedSynced, Prepared, B.AllBlank, Follows, Line, LinesText, WellChained;
    if Refusal(s.proc, e).None? {
      var es := s.proc.entries;
      var stored := Prepared(env.sha, es, e);
      var line := Line(env.codec, stored);
      FileChained(env, s.disk.file.value, es);
      PreparedFollows(env.sha, es, e);
      if |line| <= MAX_LINE {
        if fault.NoFault? || fault.SyncFailed? || fault.written >= |line| {
          WholeLine(env, s, e, fault, markerOk);
        } else {
          TornLine(env, s, e, fault, markerOk);
        }
      }
    }
  }

  lemma FileChained(env: Env, f: Bytes, es: seq<Entry>)
    requires FileOk(env, f, es)
    ensures WellChained(env.sha, es)
  {
  }

  lemma WholeLine(env: Env, s: State, e: Entry, fault: Fault, markerOk: bool)
    requires CodecOk(env.codec) && Inv(env, s) && Refusal(s.proc, e).None?
    requires Follows(env.sha, s.proc.entries, Prepared(env.sha, s.proc.entries, e))
    requires |Line(env.codec, Prepared(env.sha, s.proc.entries, e))| <= MAX_LINE
    requires fault.NoFault? || fault.SyncFailed? ||
             fault.written >= |Line(env.codec, Prepared(env.sha, s.proc.entries, e))|
    ensures Inv(env, Next(env, s, Append(e, fault, markerOk)))
  {
    hide CodecOk, FileOk, AckedSynced, Prepared, B.AllBlank, Follows, Line, LinesText, Next, AckedOf, Unacked;
    var stored := Prepared(env.sha, s.proc.entries, e);
    var x := Logged(stored, fault.NoFault?);
    var n := Next(env, s, Append(e, fault, markerOk));
    WholeEffect(env, s, e, fault, markerOk);
    LineAdded(env, s, x, n.disk.synced);
    LogGrows(s.log, x);
  }

  /** The state after a whole line was written. */
  lemma WholeEffect(env: Env, s: State, e: Entry, fault: Fault, markerOk: bool)
    requires Refusal(s.proc, e).None? && s.disk.file.Some?
    requires |Line(env.codec, Prepared(env.sha, s.proc.entries, e))| <= MAX_LINE
    requires fault.NoFault? || fault.SyncFailed? ||
             fault.written >= |Line(env.codec, Prepared(env.sha, s.proc.entries, e))|
    ensures var stored := Prepared(env.sha, s.proc.entries, e);
            var n := Next(env, s, Append(e, fault, markerOk));
            var f := s.disk.file.value + Line(env.codec, stored);
            n.disk.file == Some(f) && n.log == s.log + [Logged(stored, fault.NoFault?)] &&
            n.disk.synced == (if fault.NoFault? then |f| else s.disk.synced) &&
            n.acked == (if fault.NoFault? then s.acked + [stored] else s.acked) &&
            n.faults == (if fault.NoFault? then s.faults else s.faults + 1) &&
            n.disk.repairMarker == s.disk.repairMarker && n.truncated == s.truncated &&
            (n.everDegraded ==> s.everDegraded || n.disk.degraded.Some?) &&
            (s.disk.degraded.Some? ==> n.disk.degraded.Some?) &&
            (n.proc.Running? ==> n.proc.repaired == s.proc.repaired) &&
            (n.proc.Running? && !n.proc.failed ==> n.proc.entries == s.proc.entries + [stored])
  {
    hide Prepared, B.AllBlank, Line;
    Units(Line(env.codec, Prepared(env.sha, s.proc.entries, e)));
  }

  lemma TornLine(env: Env, s: State, e: Entry, fault: Fault, markerOk: bool)
    requires CodecOk(env.codec) && Inv(env, s) && Refusal(s.proc, e).None?
    requires |Line(env.codec, Prepared(env.sha, s.proc.entries, e))| <= MAX_LINE
    requires (fault.ShortWrite? || fault.Died?) &&
             fault.written < |Line(env.codec, Prepared(env.sha, s.proc.entries, e))|
    ensures Inv(env, Next(env, s, Append(e, fault, markerOk)))
  {
    hide AckedSynced, Prepared, B.AllBlank, Follows, LinesText;
    var stored := Prepared(env.sha, s.proc.entries, e);
    var part := Line(env.codec, stored)[..fault.written];
    var t := s.disk.file.value;
    Parts(t, part);
    assert NoLF(part) by {
      assert NoLF(env.codec.encode(stored));
      assert forall i | 0 <= i < |part| :: part[i] == env.codec.encode(stored)[i];
    }
    assert FileOk(env, t + part, Entries(s.log));
  }

  lemma OpenKeeps(env: Env, s: State, left: nat, removeOk: bool)
    requires CodecOk(env.codec) && Inv(env, s)
    ensures Inv(env, Next(env, s, Open(left, removeOk)))
  {
    hide CodecOk, Follows, ReadFile, LastComplete, LinesText, DoAll;
    if s.proc.Idle? {
      if s.disk.file.None? {
        OpenMissing(env, s, left, removeOk);
      } else {
        ReadOk(env, s.disk.file.value, Entries(s.log));
        if ReadFile(env, s.disk.file).Ok? {
          if TornAt(s.disk) {
            OpenTorn(env, s, left, removeOk);
          } else {
            DoThree(s.disk, OpenFile, OpenFile, OpenFile);
          }
        }
      }
    }
  }

  /** The marker is written before the tail is cut, so a cut journal has its marker. */
  lemma OpenTorn(env: Env, s: State, left: nat, removeOk: bool)
    requires CodecOk(env.codec) && Inv(env, s) && s.proc.Idle? && s.disk.file.Some? && TornAt(s.disk)
    requires ReadFile(env, s.disk.file).Ok?
    ensures Inv(env, Next(env, s, Open(left, removeOk)))
  {
    hide CodecOk, Follows, ReadFile, LastComplete, LinesText, DoAll;
    var f, es := s.disk.file.value, Entries(s.log);
    DoThree(s.disk, WriteMarker, CutTail, OpenFile);
    ReadOk(env, f, es);
    TailCut(env, s);
  }

  lemma TailCut(env: Env, s: State)
    requires DiskOk(env, s) && s.disk.file.Some?
    ensures var t := LinesText(env.codec, Entries(s.log));
            FileOk(env, t, Entries(s.log)) && AckedSynced(env, s.log, Least(s.disk.synced, |t|)) &&
            !TornAt(s.disk.(file := Some(t)))
  {
    hide Follows, Line;
    var es := Entries(s.log);
    var t := LinesText(env.codec, es);
    LinesEnd(env.codec, es);
    forall i | 0 <= i < |s.log| && s.log[i].acked ensures |LinesText(env.codec, es[..i + 1])| <= |t| {
      LinesSplit(env.codec, es, i + 1);
    }
  }

  lemma OpenMissing(env: Env, s: State, left: nat, removeOk: bool)
    requires CodecOk(env.codec) && Inv(env, s) && s.proc.Idle? && s.disk.file.None?
    ensures Inv(env, Next(env, s, Open(left, removeOk)))
  {
    hide CodecOk, Follows, DoAll;
    if removeOk {
      DoThree(s.disk, DropMarker, OpenFile, SyncDir);
    } else {
      DoThree(s.disk, OpenFile, SyncDir, SyncDir);
    }
  }

  lemma CrashKeeps(env: Env, s: State, keep: nat)
    requires CodecOk(env.codec) && Inv(env, s)
    ensures Inv(env, Next(env, s, Crash(keep)))
  {
    hide CodecOk, Follows, LinesText, Line, Survivors;
    if s.disk.file.Some? && s.disk.synced <= keep <= |s.disk.file.value| {
      var c, es, f := env.codec, Entries(s.log), s.disk.file.value;
      var k := Survivors(c, es, keep);
      Cut(env, es, f, keep);
      assert Entries(s.log[..k]) == es[..k];
      WellChainedPrefix(env.sha, es, k);
      assert Fit(c, es[..k]);
      forall i | 0 <= i < |s.log| && s.log[i].acked ensures i < k {
        SurvivorsKeep(c, es, keep, i + 1);
      }
      AckedPrefix(s.log, k);
      forall i | 0 <= i < k && s.log[..k][i].acked ensures |LinesText(c, es[..k][..i + 1])| <= keep {
        assert es[..k][..i + 1] == es[..i + 1];
        assert s.log[i].acked;
      }
      assert AckedSynced(env, s.log[..k], keep);
    }
  }

  /** Whatever happens - appends, failed writes and fsyncs, a crash at any byte, reopening,
      removal of the file - the invariant stays. */
  lemma {:induction false} RunKeeps(env: Env, s: State, steps: seq<Step>)
    requires CodecOk(env.codec) && Inv(env, s)
    ensures Inv(env, Run(env, s, steps))
    decreases |steps|
  {
    hide CodecOk, Inv, Next;
    if steps != [] {
      StepKeeps(env, s, steps[0]);
      RunKeeps(env, Next(env, s, steps[0]), steps[1..]);
    }
  }

  lemma StepKeeps(env: Env, s: State, step: Step)
    requires CodecOk(env.codec) && Inv(env, s)
    ensures Inv(env, Next(env, s, step))
  {
    hide CodecOk, FileOk, AckedSynced;
    match step
    case Open(left, removeOk) => OpenKeeps(env, s, left, removeOk);
    case Append(e, fault, markerOk) => AppendKeeps(env, s, e, fault, markerOk);
    case Exit =>
    case Crash(keep) => CrashKeeps(env, s, keep);
    case MarkDegraded(reason, ok) =>
    case Remove =>
  }

  /** What a reader recovers after any run from an empty directory: exactly the logged lines,
      positions 1..n, a verifying chain; the acknowledged entries are all there, in order, and
      there is at most one other entry per append that failed or died. It is refused exactly if
      some logged entry has another format version. Once a torn tail was cut the journal reads as
      repaired, and a recorded degradation stays recorded. */
  lemma Recovered(env: Env, steps: seq<Step>)
    requires CodecOk(env.codec)
    ensures var s := Run(env, FRESH, steps);
            WellChained(env.sha, Entries(s.log)) &&
            s.acked == AckedOf(s.log) && |s.log| - |s.acked| <= s.faults &&
            (if Current(Entries(s.log))
             then Read(env, s.disk).Ok? && Read(env, s.disk).value.0 == Entries(s.log) &&
                  (s.truncated || TornAt(s.disk) ==> Read(env, s.disk).value.1)
             else Read(env, s.disk) == Err(VersionUnsupported)) &&
            (s.everDegraded ==> s.disk.degraded.Some?) &&
            (s.proc.Running? ==>
              (s.truncated ==> s.proc.repaired) && (!s.proc.failed ==> s.proc.entries == Entries(s.log)))
  {
    hide CodecOk, ReadFile, Run, Follows, Current;
    assert Inv(env, FRESH);
    RunKeeps(env, FRESH, steps);
    var s := Run(env, FRESH, steps);
    CountAcked(s.log);
    ReadMissing(env);
    if s.disk.file.Some? {
      ReadOk(env, s.disk.file.value, Entries(s.log));
    } else {
      NoneCurrent();
      assert Entries(s.log) == [];
    }
  }

  lemma NoneCurrent()
    ensures Current([])
  {
  }

  lemma ReadMissing(env: Env)
    ensures ReadFile(env, None) == Ok(([], false))
  {
  }

  lemma {:induction false} CountAcked(log: seq<Logged>)
    ensures |AckedOf(log)| + Unacked(log) == |log|
  {
    if log != [] { CountAcked(log[..|log| - 1]); }
  }

  /** An entry a caller may hand to `Append`: a version it does not refuse, an id, a line that fits. */
  predicate Accepted(env: Env, entries: seq<Entry>, e: Entry)
  {
    e.formatVersion <= FORMAT_VERSION && !B.AllBlank(e.observationId) &&
    |Line(env.codec, Prepared(env.sha, entries, e))| <= MAX_LINE
  }

  /** `Append` takes exactly the accepted entries, those with a negative version among them, while
      the reader demands version 1: after it the journal reads again if and only if it did
      before and the version was not negative. */
  lemma NegativeVersion(env: Env, s: State, e: Entry)
    requires CodecOk(env.codec) && Inv(env, s) && s.proc.Running? && !s.proc.failed
    ensures AppendEffect(env, s.disk, s.proc, e, NoFault, true).2.Ok? <==> Accepted(env, s.proc.entries, e)
    ensures Accepted(env, s.proc.entries, e) ==>
            (Read(env, Next(env, s, Append(e, NoFault, true)).disk).Ok? <==>
             Read(env, s.disk).Ok? && e.formatVersion >= 0)
  {
    hide CodecOk, ReadFile, Prepared, FileOk, AckedSynced, AppendEffect, Next, AckedOf, Unacked;
    TakesAccepted(env, s, e);
    if Accepted(env, s.proc.entries, e) {
      var n := Next(env, s, Append(e, NoFault, true));
      var es := s.proc.entries;
      AppendKeeps(env, s, e, NoFault, true);
      WholeEffect(env, s, e, NoFault, true);
      ReadOk(env, s.disk.file.value, es);
      ReadOk(env, n.disk.file.value, Entries(n.log));
      LogGrows(s.log, Logged(Prepared(env.sha, es, e), true));
      OneMoreCurrent(env.sha, es, e);
    }
  }

  lemma TakesAccepted(env: Env, s: State, e: Entry)
    requires s.proc.Running? && !s.proc.failed
    ensures AppendEffect(env, s.disk, s.proc, e, NoFault, true).2.Ok? <==> Accepted(env, s.proc.entries, e)
  {
    hide B.AllBlank, Line, Prepared;
  }

  lemma OneMoreCurrent(sha: Sha, es: seq<Entry>, e: Entry)
    requires e.formatVersion <= FORMAT_VERSION
    ensures Current(es + [Prepared(sha, es, e)]) <==> Current(es) && e.formatVersion >= 0
  {
    hide Prepared;
    PreparedVersion(sha, es, e);
    var more := es + [Prepared(sha, es, e)];
    assert more[|es|] == Prepared(sha, es, e) && forall i | 0 <= i < |es| :: more[i] == es[i];
  }

  lemma PreparedVersion(sha: Sha, es: seq<Entry>, e: Entry)
    requires e.formatVersion <= FORMAT_VERSION
    ensures Prepared(sha, es, e).formatVersion == FORMAT_VERSION <==> e.formatVersion >= 0
  {
    hide EntryHash;
  }

  /** A write or fsync that fails is reported, marks the journal as degraded if a marker can be written,
      and ends appending until the journal is opened again. */
  lemma FailedAppend(env: Env, d: Disk, proc: Proc, e: Entry, fault: Fault)
    requires proc.Running? && !proc.failed && Accepted(env, proc.entries, e) && (fault.ShortWrite? || fault.SyncFailed?)
    ensures var (d', proc', r) := AppendEffect(env, d, proc, e, fault, true);
            r == Err(WriteFailed) && d'.degraded.Some? && proc'.Running? && proc'.failed &&
            proc'.entries == proc.entries &&
            forall e', fault', ok :: AppendEffect(env, d', proc', e', fault', ok) == (d', proc', Err(JournalFailed))
  {
    hide B.AllBlank, Line, Prepared;
  }

  /** An entry too long to be read again is refused, marked, and not written. */
  lemma OversizedAppend(env: Env, d: Disk, proc: Proc, e: Entry, fault: Fault)
    requires Refusal(proc, e).None? && |Line(env.codec, Prepared(env.sha, proc.entries, e))| > MAX_LINE
    ensures var (d', proc', r) := AppendEffect(env, d, proc, e, fault, true);
            r == Err(TooLarge) && d'.degraded.Some? && d'.file == d.file && proc' == proc
  {
    hide B.AllBlank, Line, Prepared;
  }

  // ----- the journal object -----

  /** The directory the journal lives in, in which `left` more effects of an `Open` happen. */
  class Store {
    var disk: Disk
    var left: nat

    constructor (d: Disk, left: nat)
      ensures disk == d && this.left == left
    {
      this.disk, this.left := d, left;
    }

    method Perform(op: OpenOp) returns (done: bool)
      modifies this
      ensures done == (old(left) > 0)
      ensures if done then disk == Do(old(disk), op) && left == old(left) - 1 else disk == old(disk) && left == 0
    {
      if left == 0 {
        return false;
      }
      disk, left := Do(disk, op), left - 1;
      return true;
    }
  }

  /** `Journal`, and the file operations of `Append`, `Open` and `Close` one by one. */
  class JournalFile {
    const env: Env
    const store: Store
    var isOpen: bool
    var entries: seq<Entry>
    var failed: bool
    var repaired: bool

    function State(): Proc
      reads this
    {
      if isOpen then Running(entries, failed, repaired) else Idle
    }

    constructor (env: Env, store: Store, entries: seq<Entry>, repaired: bool)
      ensures this.env == env && this.store == store && State() == Running(entries, false, repaired)
    {
      this.env, this.store := env, store;
      this.isOpen, this.entries, this.failed, this.repaired := true, entries, false, repaired;
    }

    /** The entry as it is stored: version, position, chain link and hash filled in. */
    method Prepare(e: Entry) returns (stored: Entry)
      ensures stored == Prepared(env.sha, entries, e)
    {
      hide EntryHash;
      stored := e;
      if stored.formatVersion == 0 {
        stored := stored.(formatVersion := FORMAT_VERSION);
      }
      stored := stored.(position := (if |entries| == 0 then 0 else entries[|entries| - 1].position) + 1);
      stored := stored.(prevHash := GENESIS);
      if |entries| > 0 {
        stored := stored.(prevHash := entries[|entries| - 1].hash);
      }
      stored := stored.(hash := EntryHash(env.sha, stored));
    }

    /** `Append`; `fault` says how its write and fsync go, `markerOk` whether a marker can be written. */
    method Append(e: Entry, fault: Fault, markerOk: bool) returns (r: Result<Entry, Error>)
      requires !fault.Died? && (isOpen ==> store.disk.file.Some?)
      modifies this, store
      ensures (store.disk, State(), r) == AppendEffect(env, old(store.disk), old(State()), e, fault, markerOk)
    {
      hide EntryHash, Line, Prepared, B.AllBlank;
      if !isOpen {
        return Err(JournalClosed);
      }
      if failed {
        return Err(JournalFailed);
      }
      if e.formatVersion > FORMAT_VERSION {
        return Err(VersionUnsupported);
      }
      if B.AllBlank(e.observationId) {
        return Err(ObservationIdRequired);
      }
      var stored := Prepare(e);
      var line := Line(env.codec, stored);
      if |line| > MAX_LINE {
        store.disk := Degrade(store.disk, "oversized", markerOk);
        return Err(TooLarge);
      }
      var written := if fault.ShortWrite? then Least(fault.written, |line|) else |line|;
      Units(line);
      store.disk := store.disk.(file := Some(store.disk.file.value + line[..written]));
      if fault.ShortWrite? {
        failed := true;
        store.disk := Degrade(store.disk, "write failed", markerOk);
        return Err(WriteFailed);
      }
      if fault.SyncFailed? {
        failed := true;
        store.disk := Degrade(store.disk, "fsync failed", markerOk);
        return Err(WriteFailed);
      }
      store.disk := store.disk.(synced := |store.disk.file.value|);
      entries := entries + [stored];
      return Ok(stored);
    }

    /** `Close` */
    method Close()
      modifies this
      ensures State() == Idle
    {
      isOpen := false;
    }
  }

  /** `Open`; `removeOk` says whether a stale repair marker could be removed. However many effects
      still happen, those that do are the first ones of `OpenOps`. */
  method OpenJournal(env: Env, store: Store, removeOk: bool) returns (j: Option<JournalFile>)
    modifies store
    ensures j.Some? ==> fresh(j.value) && j.value.env == env && j.value.store == store
    ensures (store.disk, if j.Some? then j.value.State() else Idle) ==
            OpenEffect(env, old(store.disk), old(store.left), removeOk)
  {
    hide ReadFile, LastComplete, DoAll;
    ghost var d := store.disk;
    var created := store.disk.file.None?;
    ReadMissing(env);
    if created && removeOk {
      DoThree(d, DropMarker, OpenFile, SyncDir);
      var dropped := store.Perform(DropMarker);
      if !dropped {
        return None;
      }
    } else if created {
      DoThree(d, OpenFile, SyncDir, SyncDir);
    }
    var read := ReadEntries(env, store.disk.file);
    if read.Err? {
      return None;
    }
    var (entries, torn) := read.value;
    ReadTorn(env, store.disk);
    var repaired := torn;
    if torn {
      DoThree(d, WriteMarker, CutTail, OpenFile);
      var marked := store.Perform(WriteMarker);
      if !marked {
        return None;
      }
      var truncated := store.Perform(CutTail);
      if !truncated {
        return None;
      }
    } else if !created {
      DoThree(d, OpenFile, OpenFile, OpenFile);
    }
    if store.disk.repairMarker {
      repaired := true;
    }
    var ready := store.Perform(OpenFile);
    if !ready {
      return None;
    }
    if created {
      var durable := store.Perform(SyncDir);
      if !durable {
        return None;
      }
    }
    var journal := new JournalFile(env, store, entries, repaired);
    return Some(journal);
  }

  lemma ReadTorn(env: Env, d: Disk)
    requires ReadFile(env, d.file).Ok?
    ensures ReadFile(env, d.file).value.1 == TornAt(d)
  {
  }
}
