/** Bundle files as bytes: reading lines, writing records, and the hash of the bytes that
    precede each signature record. */
module BundleFile {
  import opened Wrappers
  import opened Seqs
  import opened Utf8
  import opened HashChain
  import opened Manifest
  import opened Bundle

  const LF: Byte := 10
  const CR: Byte := 13
  const MAX_LINE := 16 * 1024 * 1024
  const MAX_BYTES := 512 * 1024 * 1024
  const MAX_RECORDS := 1_000_000
  const SIGNATURE_TYPE := "atb.bundle.signature"

  /** encoding/json on records. */
  datatype Codec = Codec(encode: Record -> Bytes, decode: Bytes -> Option<Record>)

  predicate IsLine(t: Bytes)
  {
    t != [] && t[|t| - 1] != CR && forall i | 0 <= i < |t| :: t[i] != LF
  }

  /** A record is written as one line and reads back as itself. */
  ghost predicate CodecOk(c: Codec)
  {
    forall r :: IsLine(c.encode(r)) && c.decode(c.encode(r)) == Some(r)
  }

  /** JSON manifests and records, and SHA-256. */
  datatype Env = Env(host: Host, codec: Codec)

  ghost predicate EnvOk(env: Env)
  {
    HostOk(env.host) && CodecOk(env.codec)
  }

  // ----- the bytes before a record -----

  /** `SourcePrefixHashes` */
  datatype PrefixHashes = PrefixHashes(withLF: Hex, withoutLF: Option<Hex>)

  /** A record in memory, with the hashes that tie a signature to the bytes before it. */
  datatype Loaded = Loaded(record: Record, prefix: Option<PrefixHashes>)

  /** The hashes of the prefix `p`, with and (after an unrepeated LF) without its last byte. */
  function Snapshot(sha: Sha, p: Bytes): PrefixHashes
  {
    PrefixHashes(sha(p),
      if |p| > 1 && p[|p| - 1] == LF && p[|p| - 2] != LF then Some(sha(p[..|p| - 1])) else None)
  }

  /** What the hashes of a prefix are: of all of it, and of it without its last byte exactly if that
      byte is the LF that closes a line with something in it. */
  lemma SnapshotMeans(sha: Sha, p: Bytes)
    ensures Snapshot(sha, p).withLF == sha(p)
    ensures Snapshot(sha, p).withoutLF.Some? <==> exists q: Bytes :: q != [] && q[|q| - 1] != LF && p == q + [LF]
    ensures forall q: Bytes | q != [] && q[|q| - 1] != LF && p == q + [LF] :: Snapshot(sha, p).withoutLF == Some(sha(q))
  {
    forall q: Bytes | q != [] && q[|q| - 1] != LF && p == q + [LF]
      ensures Snapshot(sha, p).withoutLF == Some(sha(q))
    {
      assert p[..|p| - 1] == q && p[|p| - 2] == q[|q| - 1];
    }
    if Snapshot(sha, p).withoutLF.Some? {
      var q := p[..|p| - 1];
      assert p == q + [LF] && q[|q| - 1] == p[|p| - 2];
    }
  }

  function Load1(sha: Sha, r: Record, before: Bytes): Loaded
  {
    Loaded(r, if r.event.typ == SIGNATURE_TYPE then Some(Snapshot(sha, before)) else None)
  }

  function Records(ls: seq<Loaded>): (rs: seq<Record>)
    ensures |rs| == |ls| && forall i | 0 <= i < |ls| :: rs[i] == ls[i].record
  {
    seq(|ls|, i requires 0 <= i < |ls| => ls[i].record)
  }

  /** `sourcePrefixTracker`: two hash states fed incrementally. A state is the bytes it has
      absorbed; `Sum` hashes them. */
  class Tracker {
    var withLF: Bytes
    var withoutLast: Bytes
    var processed: int
    var previous: Byte
    var beforePrevious: Byte
    ghost var total: Bytes

    /** The states have absorbed the bytes added so far, and those bytes without the last one. */
    ghost predicate Valid()
      reads this
    {
      withLF == total && processed == |total| &&
      (total != [] ==> withoutLast == total[..|total| - 1] && previous == total[|total| - 1]) &&
      (total == [] ==> withoutLast == []) &&
      (|total| > 1 ==> beforePrevious == total[|total| - 2])
    }

    constructor ()
      ensures Valid() && total == []
    {
      withLF, withoutLast, processed, previous, beforePrevious, total := [], [], 0, 0, 0, [];
    }

    method Add(line: Bytes)
      requires Valid()
      modifies this
      ensures Valid() && total == old(total) + line
    {
      if |line| == 0 {
        assert total + line == total;
        return;
      }
      if processed > 0 {
        withoutLast := withoutLast + [previous];
      }
      assert withoutLast == total;
      if |line| > 1 {
        withoutLast := withoutLast + line[..|line| - 1];
      }
      withLF := withLF + line;
      processed := processed + |line|;
      if |line| >= 2 {
        beforePrevious := line[|line| - 2];
        previous := line[|line| - 1];
      } else {
        beforePrevious := previous;
        previous := line[0];
      }
      ghost var grown := total + line;
      assert grown[..|grown| - 1] == total + line[..|line| - 1];
      total := grown;
    }

    method TakeSnapshot(sha: Sha) returns (p: PrefixHashes)
      requires Valid()
      ensures p == Snapshot(sha, total)
    {
      var without: Option<Hex> := None;
      if processed > 1 && previous == LF && beforePrevious != LF {
        without := Some(sha(withoutLast));
      }
      p := PrefixHashes(sha(withLF), without);
    }
  }

  // ----- reading -----

  /** `scanRawLines`: the length of the first line, its LF included. */
  function LineLength(t: Bytes): (n: nat)
    requires t != []
    ensures 1 <= n <= |t| && (forall i | 0 <= i < n - 1 :: t[i] != LF) && (t[n - 1] == LF || n == |t|)
  {
    if t[0] == LF || |t| == 1 then 1 else 1 + LineLength(t[1..])
  }

  function DropLast(t: Bytes, b: Byte): Bytes
  {
    if t != [] && t[|t| - 1] == b then t[..|t| - 1] else t
  }

  /** A line without its LF and one CR before it. */
  function Content(line: Bytes): Bytes
  {
    DropLast(DropLast(line, LF), CR)
  }

  /** A line's content: what is before its LF or CR LF. */
  lemma ContentMeans(t: Bytes)
    requires t == [] || (t[|t| - 1] != LF && t[|t| - 1] != CR)
    ensures Content(t) == t && Content(t + [LF]) == t && Content(t + [CR, LF]) == t
  {
    assert (t + [LF])[..|t|] == t;
    assert (t + [CR, LF])[..|t| + 1] == t + [CR];
    assert (t + [CR])[..|t|] == t;
  }

  datatype LoadError = ResourceLimit | BadLine | BadManifest

  function Prepend(xs: seq<Loaded>, r: Result<seq<Loaded>, LoadError>): Result<seq<Loaded>, LoadError>
  {
    match r
    case Err(e) => Err(e)
    case Ok(ys) => Ok(xs + ys)
  }

  /** Records of `rest`, read after the bytes `before` and `count` records. */
  function LoadFrom(sha: Sha, c: Codec, max: int, before: Bytes, rest: Bytes, count: nat)
    : Result<seq<Loaded>, LoadError>
    decreases |rest|
  {
    if rest == [] then Ok([])
    else
      var n := LineLength(rest);
      var line, more := rest[..n], rest[n..];
      var content := Content(line);
      if |content| > MAX_LINE then Err(ResourceLimit)
      else if content == [] then LoadFrom(sha, c, max, before + line, more, count)
      else if count >= max then Err(ResourceLimit)
      else
        match c.decode(content)
        case None => Err(BadLine)
        case Some(r) => Prepend([Load1(sha, r, before)], LoadFrom(sha, c, max, before + line, more, count + 1))
  }

  datatype Limits = Limits(maxBytes: int, maxRecords: int)

  const DEFAULT_LIMITS := Limits(MAX_BYTES, MAX_RECORDS)

  /** `LoadReaderWithLimits` */
  function Load(h: Host, c: Codec, limits: Limits, raw: Bytes): Result<seq<Loaded>, LoadError>
  {
    if limits.maxBytes <= 0 || limits.maxRecords <= 0 || |raw| > limits.maxBytes then Err(ResourceLimit)
    else
      match LoadFrom(h.sha, c, limits.maxRecords, [], raw, 0)
      case Err(e) => Err(e)
      case Ok(ls) =>
        if HasManifest(Records(ls)) && ParseManifest(h, ls[0].record).Err? then Err(BadManifest) else Ok(ls)
  }

  /** The scan loop, one line at a time with a running tracker. */
  method LoadReader(h: Host, c: Codec, limits: Limits, raw: Bytes) returns (r: Result<seq<Loaded>, LoadError>)
    ensures r == Load(h, c, limits, raw)
  {
    if limits.maxBytes <= 0 || limits.maxRecords <= 0 || |raw| > limits.maxBytes {
      return Err(ResourceLimit);
    }
    var scanned := ScanLines(h.sha, c, limits.maxRecords, raw);
    if scanned.Err? {
      return Err(scanned.error);
    }
    if HasManifest(Records(scanned.value)) {
      var manifest := ParseManifest(h, scanned.value[0].record);
      if manifest.Err? {
        return Err(BadManifest);
      }
    }
    return scanned;
  }

  method ScanLines(sha: Sha, c: Codec, max: int, raw: Bytes) returns (r: Result<seq<Loaded>, LoadError>)
    ensures r == LoadFrom(sha, c, max, [], raw, 0)
  {
    hide LoadFrom, LineLength, Content, Snapshot;
    var tracker := new Tracker();
    var records: seq<Loaded> := [];
    var at := 0;
    PrependNone(LoadFrom(sha, c, max, [], raw, 0));
    assert raw[0..] == raw;
    while at < |raw|
      invariant 0 <= at <= |raw| && tracker.Valid() && fresh(tracker) && tracker.total == raw[..at]
      invariant LoadFrom(sha, c, max, [], raw, 0) ==
                Prepend(records, LoadFrom(sha, c, max, raw[..at], raw[at..], |records|))
    {
      var line := raw[at..][..LineLength(raw[at..])];
      var content := Content(line);
      LoadStep(sha, c, max, raw, at, |records|);
      if |content| > MAX_LINE {
        return Err(ResourceLimit);
      }
      if |content| == 0 {
        tracker.Add(line);
        at := at + |line|;
        continue;
      }
      if |records| >= max {
        return Err(ResourceLimit);
      }
      var decoded := c.decode(content);
      if decoded.None? {
        return Err(BadLine);
      }
      var rec := decoded.value;
      var prefix: Option<PrefixHashes> := None;
      if rec.event.typ == SIGNATURE_TYPE {
        var p := tracker.TakeSnapshot(sha);
        prefix := Some(p);
      }
      PrependTwice(records, Loaded(rec, prefix),
        LoadFrom(sha, c, max, raw[..at + |line|], raw[at + |line|..], |records| + 1));
      records := records + [Loaded(rec, prefix)];
      tracker.Add(line);
      at := at + |line|;
    }
    LoadNothing(sha, c, max, raw[..at], |records|);
    assert raw[at..] == [];
    Units(records);
    return Ok(records);
  }

  lemma PrependNone(r: Result<seq<Loaded>, LoadError>)
    ensures Prepend([], r) == r
  {
    if r.Ok? { Units(r.value); }
  }

  lemma PrependTwice(xs: seq<Loaded>, x: Loaded, r: Result<seq<Loaded>, LoadError>)
    ensures Prepend(xs, Prepend([x], r)) == Prepend(xs + [x], r)
  {
    if r.Ok? { Assoc(xs, [x], r.value); }
  }

  lemma LoadNothing(sha: Sha, c: Codec, max: int, before: Bytes, count: nat)
    ensures LoadFrom(sha, c, max, before, [], count) == Ok([])
  {
  }

  /** One turn of the scan loop at offset `at`. */
  lemma LoadStep(sha: Sha, c: Codec, max: int, raw: Bytes, at: nat, count: nat)
    requires at < |raw|
    ensures var n := LineLength(raw[at..]); var line := raw[at..][..n]; var content := Content(line);
            |line| == n && at + n <= |raw| && raw[..at] + line == raw[..at + n] &&
            LoadFrom(sha, c, max, raw[..at], raw[at..], count) ==
              if |content| > MAX_LINE then Err(ResourceLimit)
              else if content == [] then LoadFrom(sha, c, max, raw[..at + n], raw[at + n..], count)
              else if count >= max then Err(ResourceLimit)
              else if c.decode(content).None? then Err(BadLine)
              else Prepend([Load1(sha, c.decode(content).value, raw[..at])],
                LoadFrom(sha, c, max, raw[..at + n], raw[at + n..], count + 1))
  {
    hide LineLength, Content, Load1;
    var n := LineLength(raw[at..]);
    assert raw[at..][n..] == raw[at + n..];
    assert raw[..at] + raw[at..][..n] == raw[..at + n];
  }

  // ----- writing -----

  /** What `Save` writes: each record on its own line. */
  function SaveBytes(c: Codec, records: seq<Record>): Bytes
  {
    if records == [] then [] else c.encode(records[0]) + [LF] + SaveBytes(c, records[1..])
  }

  /** `setSourcePrefixHashes`: tie `records` to the non-empty lines of `rest`. */
  function Rebound(sha: Sha, before: Bytes, rest: Bytes, records: seq<Record>): (ls: seq<Loaded>)
    ensures |ls| == |records|
    decreases |rest|
  {
    if rest == [] then seq(|records|, i requires 0 <= i < |records| => Loaded(records[i], None))
    else
      var n := LineLength(rest);
      var line, more := rest[..n], rest[n..];
      if Content(line) != [] && records != [] then
        [Load1(sha, records[0], before)] + Rebound(sha, before + line, more, records[1..])
      else Rebound(sha, before + line, more, records)
  }

  method ClearPrefixes(records: array<Loaded>)
    modifies records
    ensures forall k | 0 <= k < records.Length :: records[k] == old(records[k]).(prefix := None)
  {
    for i := 0 to records.Length
      invariant forall k | 0 <= k < i :: records[k] == old(records[k]).(prefix := None)
      invariant forall k | i <= k < records.Length :: records[k] == old(records[k])
    {
      records[i] := records[i].(prefix := None);
    }
  }

  /** How far the in-place pass has come: lines up to `position`, records up to `index`. */
  ghost predicate Rebinding(sha: Sha, raw: Bytes, rs: seq<Record>, ls: seq<Loaded>, position: nat, index: nat)
  {
    position <= |raw| && |ls| == |rs| && index <= |rs| &&
    (forall k | 0 <= k < |ls| :: ls[k].record == rs[k]) &&
    (forall k | index <= k < |ls| :: ls[k].prefix == None) &&
    Rebound(sha, [], raw, rs) == ls[..index] + Rebound(sha, raw[..position], raw[position..], rs[index..])
  }

  /** `setSourcePrefixHashes`, in place over the bundle's records. */
  method SetSourcePrefixHashes(sha: Sha, records: array<Loaded>, raw: Bytes)
    modifies records
    ensures records[..] == Rebound(sha, [], raw, Records(old(records[..])))
  {
    hide LineLength, Content, Load1, Rebound, Snapshot, Rebinding;
    ghost var rs := Records(records[..]);
    ClearPrefixes(records);
    var tracker := new Tracker();
    var position, index := 0, 0;
    RebindingStart(sha, raw, rs, records[..]);
    while position < |raw|
      invariant 0 <= position <= |raw| && 0 <= index <= records.Length
      invariant tracker.Valid() && fresh(tracker) && tracker.total == raw[..position]
      invariant Rebinding(sha, raw, rs, records[..], position, index)
    {
      var line := raw[position..][..LineLength(raw[position..])];
      ghost var before := records[..];
      if Content(line) != [] && index < records.Length {
        if records[index].record.event.typ == SIGNATURE_TYPE {
          var p := tracker.TakeSnapshot(sha);
          records[index] := records[index].(prefix := Some(p));
        }
        RebindingRecord(sha, raw, rs, before, records[..], position, index);
        index := index + 1;
      } else {
        RebindingSkip(sha, raw, rs, before, position, index);
      }
      tracker.Add(line);
      position := position + |line|;
    }
    ReboundDone(sha, raw, records[..], rs, index);
  }

  lemma RebindingStart(sha: Sha, raw: Bytes, rs: seq<Record>, ls: seq<Loaded>)
    requires |ls| == |rs| && forall k | 0 <= k < |ls| :: ls[k] == Loaded(rs[k], None)
    ensures Rebinding(sha, raw, rs, ls, 0, 0)
  {
    hide Rebound;
    assert raw[0..] == raw && rs[0..] == rs;
    PrefixNone(Rebound(sha, [], raw, rs));
  }

  lemma RebindingRecord(sha: Sha, raw: Bytes, rs: seq<Record>, ls: seq<Loaded>, after: seq<Loaded>, position: nat,
      index: nat)
    requires Rebinding(sha, raw, rs, ls, position, index) && position < |raw| && index < |ls|
    requires Content(raw[position..][..LineLength(raw[position..])]) != []
    requires after == ls[index := Loaded(ls[index].record,
               if ls[index].record.event.typ == SIGNATURE_TYPE
               then Some(Snapshot(sha, raw[..position])) else ls[index].prefix)]
    ensures var n := LineLength(raw[position..]);
            position + n <= |raw| && raw[..position] + raw[position..][..n] == raw[..position + n] &&
            Rebinding(sha, raw, rs, after, position + n, index + 1)
  {
    hide LineLength, Content, Load1, Rebound, Snapshot;
    var n := LineLength(raw[position..]);
    ReboundStep(sha, raw, position, rs, index);
    Load1Tag(sha, rs[index], raw[..position]);
    assert after[..index + 1] == ls[..index] + [after[index]];
    Assoc(ls[..index], [after[index]], Rebound(sha, raw[..position + n], raw[position + n..], rs[index + 1..]));
  }

  lemma RebindingSkip(sha: Sha, raw: Bytes, rs: seq<Record>, ls: seq<Loaded>, position: nat, index: nat)
    requires Rebinding(sha, raw, rs, ls, position, index) && position < |raw|
    requires Content(raw[position..][..LineLength(raw[position..])]) == [] || index == |rs|
    ensures var n := LineLength(raw[position..]);
            position + n <= |raw| && raw[..position] + raw[position..][..n] == raw[..position + n] &&
            Rebinding(sha, raw, rs, ls, position + n, index)
  {
    hide LineLength, Content, Load1, Rebound;
    ReboundStep(sha, raw, position, rs, index);
  }

  lemma PrefixNone(ls: seq<Loaded>)
    ensures [] + ls == ls
  {
  }

  lemma Load1Tag(sha: Sha, r: Record, before: Bytes)
    ensures Load1(sha, r, before) ==
            Loaded(r, if r.event.typ == SIGNATURE_TYPE then Some(Snapshot(sha, before)) else None)
  {
  }

  lemma ReboundLine(sha: Sha, before: Bytes, rest: Bytes, records: seq<Record>)
    requires rest != []
    ensures var n := LineLength(rest); var line, more := rest[..n], rest[n..];
            Rebound(sha, before, rest, records) ==
              if Content(line) != [] && records != []
              then [Load1(sha, records[0], before)] + Rebound(sha, before + line, more, records[1..])
              else Rebound(sha, before + line, more, records)
  {
    hide LineLength, Content, Load1;
  }

  lemma ReboundStep(sha: Sha, raw: Bytes, at: nat, rs: seq<Record>, index: nat)
    requires at < |raw| && index <= |rs|
    ensures var n := LineLength(raw[at..]); var line := raw[at..][..n];
            |line| == n && at + n <= |raw| && raw[..at] + line == raw[..at + n] &&
            Rebound(sha, raw[..at], raw[at..], rs[index..]) ==
              if Content(line) != [] && index < |rs|
              then [Load1(sha, rs[index], raw[..at])] + Rebound(sha, raw[..at + n], raw[at + n..], rs[index + 1..])
              else Rebound(sha, raw[..at + n], raw[at + n..], rs[index..])
  {
    hide LineLength, Content, Load1, Rebound;
    var n := LineLength(raw[at..]);
    assert raw[at..][n..] == raw[at + n..];
    assert raw[..at] + raw[at..][..n] == raw[..at + n];
    ReboundLine(sha, raw[..at], raw[at..], rs[index..]);
    if index < |rs| { assert rs[index..][0] == rs[index] && rs[index..][1..] == rs[index + 1..]; }
  }

  lemma ReboundDone(sha: Sha, raw: Bytes, ls: seq<Loaded>, rs: seq<Record>, index: nat)
    requires Rebinding(sha, raw, rs, ls, |raw|, index)
    ensures ls == Rebound(sha, [], raw, rs)
  {
    hide LineLength, Content, Load1;
    assert raw[|raw|..] == [];
    assert ls[index..] == Rebound(sha, raw[..|raw|], raw[|raw|..], rs[index..]);
    SplitAt(ls, index);
  }

  // ----- what one line does -----

  lemma {:induction false} LineOf(t: Bytes, rest: Bytes)
    requires forall i | 0 <= i < |t| :: t[i] != LF
    ensures LineLength(t + [LF] + rest) == |t| + 1
  {
    var u := t + [LF] + rest;
    if t == [] {
      assert u[0] == LF;
    } else {
      assert u[0] == t[0];
      assert u[1..] == t[1..] + [LF] + rest;
      LineOf(t[1..], rest);
    }
  }

  lemma LineParts(t: Bytes, rest: Bytes)
    requires IsLine(t)
    ensures var u := t + [LF] + rest;
            LineLength(u) == |t| + 1 && u[..|t| + 1] == t + [LF] && u[|t| + 1..] == rest && Content(t + [LF]) == t
  {
    LineOf(t, rest);
    Parts(t + [LF], rest);
    assert (t + [LF])[..|t|] == t;
  }

  /** A record written with its LF reads back as that record, tied to the bytes before it. */
  lemma LoadRecord(sha: Sha, c: Codec, max: int, before: Bytes, r: Record, rest: Bytes, count: nat)
    requires CodecOk(c) && count < max && |c.encode(r)| <= MAX_LINE
    ensures LoadFrom(sha, c, max, before, c.encode(r) + [LF] + rest, count) ==
            Prepend([Load1(sha, r, before)], LoadFrom(sha, c, max, before + (c.encode(r) + [LF]), rest, count + 1))
  {
    hide LineLength, Content, Load1, IsLine;
    LineParts(c.encode(r), rest);
    LineNonEmpty(c.encode(r));
  }

  lemma LineNonEmpty(t: Bytes)
    requires IsLine(t)
    ensures t != []
  {
  }

  /** A record too long, or one too many, is refused. */
  lemma RefuseRecord(sha: Sha, c: Codec, max: int, before: Bytes, r: Record, rest: Bytes, count: nat)
    requires CodecOk(c) && (count >= max || |c.encode(r)| > MAX_LINE)
    ensures LoadFrom(sha, c, max, before, c.encode(r) + [LF] + rest, count).Err?
  {
    hide LineLength, Content, Load1, IsLine;
    LineParts(c.encode(r), rest);
    LineNonEmpty(c.encode(r));
  }

  /** Every record's line is short enough to be read again. */
  ghost predicate LinesFit(c: Codec, records: seq<Record>)
  {
    forall i | 0 <= i < |records| :: |c.encode(records[i])| <= MAX_LINE
  }

  /** Saved, these records can be loaded: none too long, not too many, not too large together. */
  ghost predicate Fits(c: Codec, records: seq<Record>)
  {
    |records| <= MAX_RECORDS && LinesFit(c, records) && |SaveBytes(c, records)| <= MAX_BYTES
  }

  /** Saved bytes load again exactly when every line is short enough and the records are not too
      many; the metadata `Save` sets on a signature is then what loading computes. */
  lemma {:induction false} SaveMatchesLoad(sha: Sha, c: Codec, max: int, before: Bytes, records: seq<Record>,
      count: nat)
    requires CodecOk(c)
    ensures var r := LoadFrom(sha, c, max, before, SaveBytes(c, records), count);
            (r.Ok? <==> LinesFit(c, records) && (records == [] || count + |records| <= max)) &&
            (r.Ok? ==> r.value == Rebound(sha, before, SaveBytes(c, records), records))
    decreases |records|
  {
    hide CodecOk, LineLength, Content, Load1, LoadFrom;
    if records == [] {
      LoadNothing(sha, c, max, before, count);
    } else {
      var r, more := records[0], SaveBytes(c, records[1..]);
      FitHead(c, records);
      if count >= max || |c.encode(r)| > MAX_LINE {
        RefuseRecord(sha, c, max, before, r, more, count);
      } else {
        LoadRecord(sha, c, max, before, r, more, count);
        ReboundRecord(sha, c, before, records);
        SaveMatchesLoad(sha, c, max, before + (c.encode(r) + [LF]), records[1..], count + 1);
      }
    }
  }

  /** The exact condition for a saved bundle whose manifest reads to load: it fits. */
  lemma SavedLoads(env: Env, records: seq<Record>)
    requires CodecOk(env.codec) && (HasManifest(records) ==> ParseManifest(env.host, records[0]).Ok?)
    ensures var data := SaveBytes(env.codec, records);
            var r := Load(env.host, env.codec, DEFAULT_LIMITS, data);
            (r.Ok? <==> Fits(env.codec, records)) &&
            (r.Ok? ==> r.value == Rebound(env.host.sha, [], data, records) && Records(r.value) == records)
  {
    hide CodecOk, LoadFrom, Rebound, SaveBytes, ParseManifest, LinesFit;
    SaveMatchesLoad(env.host.sha, env.codec, MAX_RECORDS, [], records, 0);
    ReboundKeeps(env.host.sha, [], SaveBytes(env.codec, records), records);
  }

  lemma FitHead(c: Codec, records: seq<Record>)
    requires records != []
    ensures LinesFit(c, records) <==> |c.encode(records[0])| <= MAX_LINE && LinesFit(c, records[1..])
  {
    HeadTail(records);
  }

  /** Saved bytes determine the records. */
  lemma {:induction false} SaveInjective(c: Codec, a: seq<Record>, b: seq<Record>)
    requires CodecOk(c) && SaveBytes(c, a) == SaveBytes(c, b)
    ensures a == b
  {
    hide LineLength, Content, IsLine;
    if a != [] && b != [] {
      LineParts(c.encode(a[0]), SaveBytes(c, a[1..]));
      LineParts(c.encode(b[0]), SaveBytes(c, b[1..]));
      assert c.decode(c.encode(a[0])) == c.decode(c.encode(b[0]));
      SaveInjective(c, a[1..], b[1..]);
      HeadTail(a);
      HeadTail(b);
    }
  }

  /** Rebinding changes no record. */
  lemma {:induction false} ReboundKeeps(sha: Sha, before: Bytes, rest: Bytes, records: seq<Record>)
    ensures Records(Rebound(sha, before, rest, records)) == records
    decreases |rest|
  {
    hide LineLength, Content;
    if rest != [] {
      var n := LineLength(rest);
      if Content(rest[..n]) != [] && records != [] {
        ReboundKeeps(sha, before + rest[..n], rest[n..], records[1..]);
        HeadTail(records);
      } else {
        ReboundKeeps(sha, before + rest[..n], rest[n..], records);
      }
    }
  }

  /** The encoding loop of a save. */
  method EncodeRecords(c: Codec, records: seq<Record>) returns (buf: Bytes)
    ensures buf == SaveBytes(c, records)
  {
    buf := [];
    for i := 0 to |records|
      invariant buf == SaveBytes(c, records[..i])
    {
      SaveMore(c, records[..i], records[i]);
      assert records[..i + 1] == records[..i] + [records[i]];
      buf := buf + (c.encode(records[i]) + [LF]);
    }
    Units(records);
  }

  lemma {:induction false} SaveMore(c: Codec, records: seq<Record>, r: Record)
    ensures SaveBytes(c, records + [r]) == SaveBytes(c, records) + (c.encode(r) + [LF])
  {
    if records == [] {
      assert [r][1..] == [] && [] + [r] == [r];
      Units(c.encode(r) + [LF]);
    } else {
      ConsAppend(records, [r]);
      SaveMore(c, records[1..], r);
      Assoc(c.encode(records[0]) + [LF], SaveBytes(c, records[1..]), c.encode(r) + [LF]);
    }
  }

  lemma ReboundRecord(sha: Sha, c: Codec, before: Bytes, records: seq<Record>)
    requires CodecOk(c) && records != []
    ensures var r, more := records[0], SaveBytes(c, records[1..]);
            Rebound(sha, before, SaveBytes(c, records), records) ==
            [Load1(sha, r, before)] + Rebound(sha, before + (c.encode(r) + [LF]), more, records[1..])
  {
    hide LineLength, Content, Load1, IsLine;
    LineParts(c.encode(records[0]), SaveBytes(c, records[1..]));
    LineNonEmpty(c.encode(records[0]));
  }
}
