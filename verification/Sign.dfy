/** Signing a bundle file in internal/bundle/sign.go: hash the bytes, append a signature
    record, leave every earlier byte in place. */
module Sign {
  import opened Wrappers
  import opened Seqs
  import opened Utf8
  import opened Json
  import opened HashChain
  import opened Manifest
  import opened Bundle
  import opened BundleFile

  /** Go's `int` and `int64`: an operation that leaves the range does not verify. */
  newtype Int64 = x: int | -0x8000_0000_0000_0000 <= x <= 0x7FFF_FFFF_FFFF_FFFF
  const MAX_INT: Int64 := 0x7FFF_FFFF_FFFF_FFFF

  datatype SignError =
    | LimitInvalid | TooLarge | Unloadable(cause: LoadError) | Tampered | SignerFailed | Refused(why: Error)

  /** `signedPayloadCapacity`: both possible newlines reserved, no sum out of range. */
  function PayloadCapacity(rawSize: Int64, recordSize: Int64): (r: Result<Int64, SignError>)
    ensures r.Ok? <==> rawSize >= 0 && recordSize >= 0 && rawSize as int + recordSize as int + 2 <= MAX_INT as int
    ensures r.Ok? ==> r.value as int == rawSize as int + recordSize as int + 2
  {
    if rawSize < 0 || recordSize < 0 || rawSize > MAX_INT - 2 then Err(TooLarge)
    else if recordSize > MAX_INT - 2 - rawSize then Err(TooLarge)
    else Ok(rawSize + recordSize + 2)
  }

  /** `signedPayloadMetrics`: the exact output size and the buffer capacity. */
  function PayloadMetrics(rawSize: Int64, recordSize: Int64, needsSeparator: bool)
    : (r: Result<(Int64, Int64), SignError>)
    ensures r.Ok? <==> PayloadCapacity(rawSize, recordSize).Ok?
    ensures r.Ok? ==>
      r.value.0 as int == rawSize as int + recordSize as int + (if needsSeparator && rawSize > 0 then 2 else 1) &&
      r.value.0 <= r.value.1
  {
    match PayloadCapacity(rawSize, recordSize)
    case Err(e) => Err(e)
    case Ok(capacity) => Ok((if needsSeparator && rawSize > 0 then capacity else capacity - 1, capacity))
  }

  /** Whether the file ends inside a line. */
  predicate Unterminated(raw: Bytes)
  {
    raw != [] && raw[|raw| - 1] != LF
  }

  /** The bytes before the new record: the file, its last line closed. */
  function Closed(raw: Bytes): Bytes
  {
    if Unterminated(raw) then raw + [LF] else raw
  }

  function Payload(raw: Bytes, line: Bytes): Bytes
  {
    Closed(raw) + (line + [LF])
  }

  /** `appendSignedRecord`: build the output in a buffer, after the size checks. */
  method AppendSignedRecord(raw: Bytes, line: Bytes, maxBytes: Int64) returns (r: Result<Bytes, SignError>)
    requires |raw| <= MAX_INT as int && |line| <= MAX_INT as int
    ensures r.Ok? <==> maxBytes > 0 && |Payload(raw, line)| <= maxBytes as int &&
                       |raw| + |line| + 2 <= MAX_INT as int
    ensures r.Ok? ==> r.value == Payload(raw, line)
    ensures r.Err? && maxBytes > 0 ==> r.error == TooLarge
  {
    var needsSeparator := |raw| > 0 && raw[|raw| - 1] != LF;
    var metrics := PayloadMetrics(|raw| as Int64, |line| as Int64, needsSeparator);
    if metrics.Err? {
      return Err(metrics.error);
    }
    var (outputSize, capacity) := metrics.value;
    assert outputSize as int == |Payload(raw, line)|;
    if maxBytes <= 0 {
      return Err(LimitInvalid);
    }
    if outputSize > maxBytes {
      return Err(TooLarge);
    }
    var payload: Bytes := raw;
    if needsSeparator {
      payload := payload + [LF];
    }
    payload := payload + line;
    payload := payload + [LF];
    assert |payload| <= capacity as int;
    Assoc(Closed(raw), line, [LF]);
    return Ok(payload);
  }

  /** What a signing key returns for a digest. */
  datatype SignerReply = SignerReply(
    signature: Bytes, pubKey: Bytes, keyId: string, backend: string, algorithm: string)

  predicate ReplyOk(s: SignerReply)
  {
    s.signature != [] &&
    (((s.algorithm == "" || s.algorithm == "ed25519") && |s.pubKey| == 32) ||
     (s.algorithm == "ecdsa-p256" && |s.pubKey| == 65))
  }

  /** `NewBundleSignatureRecord` */
  function SignatureData(base64: Bytes -> string, digest: Hex, s: SignerReply, signedAt: string): Value
  {
    var fields := map[
      "bundle_hash" := String(digest),
      "signature" := String(base64(s.signature)),
      "pubkey" := String(base64(s.pubKey)),
      "algorithm" := String(if s.algorithm == "" then "ed25519" else s.algorithm),
      "backend" := String(if s.backend == "" then "local" else s.backend),
      "signed_at" := String(signedAt)];
    Object(if s.keyId == "" then fields else fields["key_id" := String(s.keyId)])
  }

  /** `BundleSignature` */
  datatype BundleSignature = BundleSignature(
    bundleHash: string, signature: string, publicKey: string, algorithm: string, keyId: string, backend: string,
    signedAt: string)

  /** `bundleSignatureField`: a string without the space around it, or nothing. */
  function SignatureField(m: map<string, Value>, key: string): string
  {
    Trim(GetText(m, key))
  }

  function LowerChar(c: char): char
  {
    if 'A' <= c <= 'Z' then c + 32 as char else c
  }

  function Lower(s: string): string
  {
    seq(|s|, i requires 0 <= i < |s| => LowerChar(s[i]))
  }

  /** `ParseBundleSignature` */
  function ParseSignature(data: Value): Option<BundleSignature>
  {
    match data
    case Object(m) =>
      var hash, signature := SignatureField(m, "bundle_hash"), SignatureField(m, "signature");
      var pubkey := SignatureField(m, "pubkey");
      var key := if pubkey != "" then pubkey else SignatureField(m, "public_key");
      var algorithm := SignatureField(m, "algorithm");
      if hash == "" || signature == "" || key == "" then None
      else
        Some(BundleSignature(hash, signature, key, if algorithm == "" then "ed25519" else Lower(algorithm),
                             SignatureField(m, "key_id"), SignatureField(m, "backend"), SignatureField(m, "signed_at")))
    case _ => None
  }

  /** Base64 of something is something, without space around it. */
  ghost predicate Base64Ok(base64: Bytes -> string)
  {
    forall x :: Trim(base64(x)) == base64(x) && (x != [] ==> base64(x) != "")
  }

  /** What a verifier is to find: the digest of the signed bytes, the key's own signature and public
      key, and what the key said of itself. */
  function Expected(t: Tools, raw: Bytes, call: SignCall): BundleSignature
    requires call.reply.Some?
  {
    var s := call.reply.value;
    BundleSignature(t.host.sha(raw), t.base64(s.signature), t.base64(s.pubKey),
                    if s.algorithm == "ecdsa-p256" then "ecdsa-p256" else "ed25519",
                    Trim(s.keyId), if s.backend == "" then "local" else Trim(s.backend), Trim(call.signedAt))
  }

  lemma {:induction false} TrimsToItself(s: string)
    requires s == "" || (!IsBlank(s[0]) && !IsBlank(s[|s| - 1]))
    ensures Trim(s) == s
  {
  }

  lemma AlgorithmKept(a: string)
    requires a == "" || a == "ed25519" || a == "ecdsa-p256"
    ensures Trim(a) == a && Lower(a) == a
  {
    TrimsToItself(a);
    assert forall i | 0 <= i < |a| :: LowerChar(a[i]) == a[i];
  }

  /** Reading a signature record gives what the key gave. */
  lemma SignatureReads(t: Tools, raw: Bytes, call: SignCall)
    requires Base64Ok(t.base64) && call.reply.Some? && ReplyOk(call.reply.value)
    ensures ParseSignature(SignatureData(t.base64, t.host.sha(raw), call.reply.value, call.signedAt)) ==
            Some(Expected(t, raw, call))
  {
    hide IsBlank, Lower, Trim;
    var s := call.reply.value;
    var m := SignatureData(t.base64, t.host.sha(raw), s, call.signedAt).fields;
    HexTrims(t.host.sha(raw));
    AlgorithmKept(if s.algorithm == "" then "ed25519" else s.algorithm);
    LiteralsTrim();
    assert GetText(m, "bundle_hash") == t.host.sha(raw) && GetText(m, "signature") == t.base64(s.signature);
    assert GetText(m, "pubkey") == t.base64(s.pubKey) && GetText(m, "signed_at") == call.signedAt;
    assert GetText(m, "key_id") == s.keyId;
  }

  lemma HexTrims(s: Hex)
    ensures Trim(s) == s
  {
    TrimsToItself(s);
  }

  lemma LiteralsTrim()
    ensures Trim("") == "" && Trim("local") == "local"
  {
    TrimsToItself("");
    TrimsToItself("local");
  }

  /** One signing: what the key answered and when. */
  datatype SignCall = SignCall(reply: Option<SignerReply>, signedAt: string)

  datatype Tools = Tools(host: Host, codec: Codec, base64: Bytes -> string)

  function Bundled(t: Tools, records: seq<Record>, raw: Bytes, call: SignCall): Result<seq<Record>, Error>
    requires call.reply.Some?
  {
    Appended(t.host, records, SIGNATURE_TYPE, SignatureData(t.base64, t.host.sha(raw), call.reply.value, call.signedAt),
             Some(NO_OPTIONS.(timestamp := call.signedAt)))
  }

  /** `signToWithSignerLimited`: the new file and the record it ends in. */
  ghost function Signed(t: Tools, raw: Bytes, maxBytes: int, call: SignCall): Result<(Bytes, Record), SignError>
  {
    if maxBytes <= 0 || maxBytes == MAX_INT as int then Err(LimitInvalid)
    else if |raw| > maxBytes then Err(TooLarge)
    else
      var loaded := Load(t.host, t.codec, DEFAULT_LIMITS, raw);
      if loaded.Err? then Err(Unloadable(loaded.error))
      else
        var records := Records(loaded.value);
        if !Verifies(t.host.sha, records) then Err(Tampered)
        else if call.reply.None? || !ReplyOk(call.reply.value) then Err(SignerFailed)
        else
          var longer := Bundled(t, records, raw, call);
          if longer.Err? then Err(Refused(longer.error))
          else
            var r := longer.value[|longer.value| - 1];
            var out := Payload(raw, t.codec.encode(r));
            if |out| > maxBytes then Err(TooLarge) else Ok((out, r))
  }

  /** `signToWithSignerLimited`, one read and one write; a line longer than an `int` can say is too large. */
  method SignTo(t: Tools, raw: Bytes, maxBytes: Int64, call: SignCall) returns (r: Result<(Bytes, Record), SignError>)
    requires |raw| <= MAX_INT as int
    ensures r == Signed(t, raw, maxBytes as int, call)
  {
    hide Load, Verifies, BundleOk, SignatureData, Payload;
    if maxBytes <= 0 || maxBytes == MAX_INT {
      return Err(LimitInvalid);
    }
    if |raw| > maxBytes as int {
      return Err(TooLarge);
    }
    var loaded := LoadReader(t.host, t.codec, DEFAULT_LIMITS, raw);
    if loaded.Err? {
      return Err(Unloadable(loaded.error));
    }
    var b := new Bundle.Empty();
    b.records := Records(loaded.value);
    var fault := b.Verify(t.host.sha);
    if fault.Some? {
      return Err(Tampered);
    }
    var digest := t.host.sha(raw);
    if call.reply.None? || !ReplyOk(call.reply.value) {
      return Err(SignerFailed);
    }
    var data := SignatureData(t.base64, digest, call.reply.value, call.signedAt);
    assert Appended(t.host, b.records, SIGNATURE_TYPE, data, Some(NO_OPTIONS.(timestamp := call.signedAt))) ==
           Bundled(t, Records(loaded.value), raw, call);
    var refused := b.AppendWithOptions(t.host, SIGNATURE_TYPE, data, Some(NO_OPTIONS.(timestamp := call.signedAt)));
    if refused.Some? {
      return Err(Refused(refused.value));
    }
    BundledLast(t, Records(loaded.value), raw, call);
    var record := b.records[|b.records| - 1];
    var line := t.codec.encode(record);
    PayloadSize(raw, line);
    if |line| > MAX_INT as int {
      return Err(TooLarge);
    }
    var payload := AppendSignedRecord(raw, line, maxBytes);
    if payload.Err? {
      return Err(payload.error);
    }
    return Ok((payload.value, record));
  }

  lemma BundledLast(t: Tools, records: seq<Record>, raw: Bytes, call: SignCall)
    requires call.reply.Some? && Bundled(t, records, raw, call).Ok?
    ensures |Bundled(t, records, raw, call).value| == |records| + 1
  {
    hide Compute, ValidType, ParseManifest, SignatureData;
  }

  lemma PayloadSize(raw: Bytes, line: Bytes)
    ensures |Payload(raw, line)| == |raw| + |line| + if Unterminated(raw) then 2 else 1
  {
  }

  // ----- closing the last line changes nothing -----

  /** One line of `LoadFrom`, named. */
  lemma LoadLine(sha: Sha, c: Codec, max: int, before: Bytes, rest: Bytes, count: nat, line: Bytes, more: Bytes)
    requires rest != [] && line == rest[..LineLength(rest)] && more == rest[LineLength(rest)..]
    ensures var content := Content(line);
            LoadFrom(sha, c, max, before, rest, count) ==
              if |content| > MAX_LINE then Err(ResourceLimit)
              else if content == [] then LoadFrom(sha, c, max, before + line, more, count)
              else if count >= max then Err(ResourceLimit)
              else if c.decode(content).None? then Err(BadLine)
              else Prepend([Load1(sha, c.decode(content).value, before)],
                LoadFrom(sha, c, max, before + line, more, count + 1))
  {
    hide LineLength, Content, Load1;
  }

  lemma {:induction false} LoadSplit(sha: Sha, c: Codec, max: int, before: Bytes, a: Bytes, b: Bytes, count: nat)
    requires !Unterminated(a) && LoadFrom(sha, c, max, before, a, count).Ok?
    ensures var xs := LoadFrom(sha, c, max, before, a, count).value;
            LoadFrom(sha, c, max, before, a + b, count) ==
            Prepend(xs, LoadFrom(sha, c, max, before + a, b, count + |xs|))
    decreases |a|
  {
    hide LineLength, Content, Load1, LoadFrom;
    if a == [] {
      Units(b);
      Units(before);
      LoadNothing(sha, c, max, before, count);
      PrependNone(LoadFrom(sha, c, max, before, b, count));
    } else {
      var n := LineLength(a);
      var line, more := a[..n], a[n..];
      LineExtends(a, b);
      LoadLine(sha, c, max, before, a, count, line, more);
      LoadLine(sha, c, max, before, a + b, count, line, more + b);
      SplitAt(a, n);
      Assoc(before, line, more);
      if Content(line) == [] {
        LoadSplit(sha, c, max, before + line, more, b, count);
      } else {
        LoadSplit(sha, c, max, before + line, more, b, count + 1);
        var x := Load1(sha, c.decode(Content(line)).value, before);
        var ys := LoadFrom(sha, c, max, before + line, more, count + 1).value;
        PrependAssoc(x, ys, LoadFrom(sha, c, max, before + a, b, count + 1 + |ys|));
      }
    }
  }

  lemma PrependAssoc(x: Loaded, ys: seq<Loaded>, r: Result<seq<Loaded>, LoadError>)
    ensures Prepend([x], Prepend(ys, r)) == Prepend([x] + ys, r)
  {
    if r.Ok? { Assoc([x], ys, r.value); }
  }

  lemma {:induction false} LineExtends(a: Bytes, b: Bytes)
    requires a != [] && a[|a| - 1] == LF
    ensures var n := LineLength(a);
            LineLength(a + b) == n && (a + b)[..n] == a[..n] && (a + b)[n..] == a[n..] + b &&
            (a[n..] == [] || a[n..][|a[n..]| - 1] == LF)
  {
    ConsAppend(a, b);
    if a[0] != LF {
      assert |a| > 1;
      LineExtends(a[1..], b);
    }
    var n := LineLength(a);
    assert (a + b)[..n] == a[..n] && (a + b)[n..] == a[n..] + b;
  }

  /** Closing an unterminated last line changes no record and no prefix hash. */
  lemma {:induction false} LoadClosed(sha: Sha, c: Codec, max: int, before: Bytes, raw: Bytes, count: nat)
    requires Unterminated(raw)
    ensures LoadFrom(sha, c, max, before, raw + [LF], count) == LoadFrom(sha, c, max, before, raw, count)
    decreases |raw|
  {
    hide LineLength, Content, Load1;
    var n := LineLength(raw);
    ClosedLine(raw);
    if n < |raw| {
      LoadClosed(sha, c, max, before + raw[..n], raw[n..], if Content(raw[..n]) == [] then count else count + 1);
    } else {
      SplitAt(raw, n);
    }
  }

  lemma {:induction false} ClosedLine(raw: Bytes)
    requires Unterminated(raw)
    ensures var n, closed := LineLength(raw), raw + [LF];
            if n < |raw|
            then LineLength(closed) == n && closed[..n] == raw[..n] && closed[n..] == raw[n..] + [LF] &&
                 Unterminated(raw[n..])
            else LineLength(closed) == n + 1 && closed[..n + 1] == closed && closed[n + 1..] == [] &&
                 raw[n..] == [] && raw[..n] == raw && Content(closed) == Content(raw)
  {
    hide Content;
    var closed := raw + [LF];
    ConsAppend(raw, [LF]);
    ContentClosed(raw);
    if raw[0] != LF {
      if |raw| == 1 {
        assert closed[1..] == [LF];
      } else {
        ClosedLine(raw[1..]);
      }
    }
    var n := LineLength(raw);
    if n < |raw| {
      assert closed[..n] == raw[..n] && closed[n..] == raw[n..] + [LF];
    } else {
      assert closed[..n] == raw;
    }
  }

  lemma ContentClosed(raw: Bytes)
    requires Unterminated(raw)
    ensures Content(raw + [LF]) == Content(raw)
  {
    assert (raw + [LF])[..|raw|] == raw;
  }

  // ----- a signed file -----

  /** The digest a signature record carries. */
  function SignedDigest(r: Record): Option<string>
  {
    if r.event.data.Object? && "bundle_hash" in r.event.data.fields && r.event.data.fields["bundle_hash"].String?
    then Some(r.event.data.fields["bundle_hash"].s) else None
  }

  /** A signature's digest is the hash of the bytes before it, or of those bytes before their last line was closed. */
  ghost predicate Bound(l: Loaded)
  {
    l.record.event.typ == SIGNATURE_TYPE ==>
      l.prefix.Some? && SignedDigest(l.record).Some? &&
      (SignedDigest(l.record).value == l.prefix.value.withLF ||
       l.prefix.value.withoutLF == Some(SignedDigest(l.record).value))
  }

  ghost predicate AllBound(ls: seq<Loaded>)
  {
    forall i | 0 <= i < |ls| :: Bound(ls[i])
  }

  lemma NewBound(t: Tools, records: seq<Record>, raw: Bytes, call: SignCall)
    requires call.reply.Some? && Bundled(t, records, raw, call).Ok?
    ensures var longer := Bundled(t, records, raw, call).value;
            Bound(Load1(t.host.sha, longer[|longer| - 1], Closed(raw)))
  {
    hide Compute, ValidType, ParseManifest;
    var closed := Closed(raw);
    if Unterminated(raw) {
      assert closed[..|closed| - 1] == raw;
      assert closed[|closed| - 2] == raw[|raw| - 1];
    }
  }

  lemma SignedChain(t: Tools, records: seq<Record>, raw: Bytes, call: SignCall)
    requires Verifies(t.host.sha, records) && call.reply.Some? && Bundled(t, records, raw, call).Ok?
    ensures var longer := Bundled(t, records, raw, call).value;
            Verifies(t.host.sha, longer) && |longer| == |records| + 1 && longer == records + [longer[|records|]] &&
            longer[|records|].event.typ == SIGNATURE_TYPE
  {
    hide Compute, ValidType, ParseManifest;
    var longer := Bundled(t, records, raw, call).value;
    ChainGrows(t.host.sha, records, FirstSequence(longer), longer[|records|]);
  }

  /** Signing a loadable, verifying file, its last line closed or not: every old byte stays, the
      size is the one announced and within the limit, and the file loads again exactly when
      there is room for one more record of that length. It then holds the old records with their
      old prefix hashes, then the signature, tied to the bytes that were signed; the chain verifies. */
  lemma SignReload(t: Tools, raw: Bytes, maxBytes: int, call: SignCall)
    requires CodecOk(t.codec) && Signed(t, raw, maxBytes, call).Ok?
    ensures var (out, r) := Signed(t, raw, maxBytes, call).value;
            var old_ := Load(t.host, t.codec, DEFAULT_LIMITS, raw).value;
            var line := t.codec.encode(r);
            var again := Load(t.host, t.codec, DEFAULT_LIMITS, out);
            raw <= out && |out| == |raw| + (if Unterminated(raw) then 2 else 1) + |line| <= maxBytes &&
            (again.Ok? <==> |old_| < MAX_RECORDS && |line| <= MAX_LINE && |out| <= MAX_BYTES) &&
            (again.Ok? ==> again.value == old_ + [Load1(t.host.sha, r, Closed(raw))] &&
                           Bound(again.value[|old_|]) && Verifies(t.host.sha, Records(again.value)))
  {
    hide Compute, ParseManifest, Appended, LoadFrom, Load1, CodecOk, Verifies, Bound, SignatureData;
    var (out, r) := Signed(t, raw, maxBytes, call).value;
    var old_ := Load(t.host, t.codec, DEFAULT_LIMITS, raw).value;
    SignedChain(t, Records(old_), raw, call);
    NewBound(t, Records(old_), raw, call);
    SignedLines(t, raw, r);
    var more := old_ + [Load1(t.host.sha, r, Closed(raw))];
    Load1Tag(t.host.sha, r, Closed(raw));
    assert Records(more) == Records(old_) + [r];
    assert old_ != [] ==> more[0] == old_[0];
    SignatureNotManifest();
  }

  /** A signature read back from the file is the one the key gave for the bytes that were there. */
  lemma SignatureReloads(t: Tools, raw: Bytes, maxBytes: int, call: SignCall)
    requires CodecOk(t.codec) && Base64Ok(t.base64) && Signed(t, raw, maxBytes, call).Ok?
    ensures call.reply.Some?
    ensures var again := Load(t.host, t.codec, DEFAULT_LIMITS, Signed(t, raw, maxBytes, call).value.0);
            again.Ok? ==>
              again.value != [] &&
              ParseSignature(again.value[|again.value| - 1].record.event.data) == Some(Expected(t, raw, call))
  {
    hide Load, CodecOk, Verifies, Bound, SignatureData, Appended, ParseSignature, Expected;
    SignReload(t, raw, maxBytes, call);
    SignatureReads(t, raw, call);
    var old_ := Load(t.host, t.codec, DEFAULT_LIMITS, raw).value;
    AppendShape(t.host, Records(old_), SIGNATURE_TYPE,
      SignatureData(t.base64, t.host.sha(raw), call.reply.value, call.signedAt),
      Some(NO_OPTIONS.(timestamp := call.signedAt)));
    Load1Tag(t.host.sha, Signed(t, raw, maxBytes, call).value.1, Closed(raw));
  }

  /** Only an answer with a signature and a key of its algorithm's size is taken. */
  lemma SignedReply(t: Tools, raw: Bytes, maxBytes: int, call: SignCall)
    requires Signed(t, raw, maxBytes, call).Ok?
    ensures call.reply.Some? && call.reply.value.signature != []
    ensures var s := call.reply.value;
            s.algorithm in ["", "ed25519", "ecdsa-p256"] && |s.pubKey| == if s.algorithm == "ecdsa-p256" then 65 else 32
  {
    hide Load, Verifies, Bundled, Payload;
  }

  lemma SignatureNotManifest()
    ensures SIGNATURE_TYPE != MANIFEST_TYPE
  {
    assert |SIGNATURE_TYPE| != |MANIFEST_TYPE|;
  }

  lemma SignedLines(t: Tools, raw: Bytes, r: Record)
    requires CodecOk(t.codec) && LoadFrom(t.host.sha, t.codec, MAX_RECORDS, [], raw, 0).Ok?
    ensures var xs := LoadFrom(t.host.sha, t.codec, MAX_RECORDS, [], raw, 0).value;
            var again := LoadFrom(t.host.sha, t.codec, MAX_RECORDS, [], Payload(raw, t.codec.encode(r)), 0);
            (again.Ok? <==> |xs| < MAX_RECORDS && |t.codec.encode(r)| <= MAX_LINE) &&
            (again.Ok? ==> again.value == xs + [Load1(t.host.sha, r, Closed(raw))])
  {
    hide LoadFrom, Load1, CodecOk;
    var sha, c := t.host.sha, t.codec;
    var closed, line := Closed(raw), c.encode(r) + [LF];
    if Unterminated(raw) {
      LoadClosed(sha, c, MAX_RECORDS, [], raw, 0);
    }
    var xs := LoadFrom(sha, c, MAX_RECORDS, [], raw, 0).value;
    LoadSplit(sha, c, MAX_RECORDS, [], closed, line, 0);
    Units(closed);
    Units(line);
    if |xs| < MAX_RECORDS && |c.encode(r)| <= MAX_LINE {
      LoadRecord(sha, c, MAX_RECORDS, closed, r, [], |xs|);
      LoadNothing(sha, c, MAX_RECORDS, closed + line, |xs| + 1);
      Units([Load1(sha, r, closed)]);
    } else {
      RefuseRecord(sha, c, MAX_RECORDS, closed, r, [], |xs|);
    }
  }

  // ----- signing again and again -----

  /** Signing the same file once per call: the last file and the signatures; any failure ends the run. */
  ghost function SignAll(t: Tools, raw: Bytes, maxBytes: int, calls: seq<SignCall>)
    : Result<(Bytes, seq<Record>), SignError>
    decreases |calls|
  {
    if calls == [] then Ok((raw, []))
    else
      match Signed(t, raw, maxBytes, calls[0])
      case Err(e) => Err(e)
      case Ok((out, r)) =>
        match SignAll(t, out, maxBytes, calls[1..])
        case Err(e) => Err(e)
        case Ok((last, rs)) => Ok((last, [r] + rs))
  }

  /** After any number of signings of a file, every first byte is in place, and the file loads again
      exactly when the records are not too many, the last signature's line not too long and the
      file not too large. It then holds the first records unchanged, the signatures after them, a
      chain that verifies, and only signatures that can be checked against the bytes before them -
      if that was so of the signatures it came with. */
  lemma {:induction false} SignAllReload(t: Tools, raw: Bytes, maxBytes: int, calls: seq<SignCall>)
    requires CodecOk(t.codec) && calls != [] && SignAll(t, raw, maxBytes, calls).Ok?
    ensures Load(t.host, t.codec, DEFAULT_LIMITS, raw).Ok?
    ensures var first := Load(t.host, t.codec, DEFAULT_LIMITS, raw).value;
            var (out, signatures) := SignAll(t, raw, maxBytes, calls).value;
            var again := Load(t.host, t.codec, DEFAULT_LIMITS, out);
            raw <= out && |out| <= maxBytes && |signatures| == |calls| &&
            (again.Ok? <==>
              |first| + |calls| <= MAX_RECORDS && |t.codec.encode(signatures[|calls| - 1])| <= MAX_LINE &&
              |out| <= MAX_BYTES) &&
            (again.Ok? ==> Reloaded(t, first, signatures, again.value))
    decreases |calls|
  {
    hide Signed, Load, CodecOk, Bound, Verifies, Reloaded;
    var (out, r) := Signed(t, raw, maxBytes, calls[0]).value;
    SignReload(t, raw, maxBytes, calls[0]);
    SignedLoads(t, raw, maxBytes, calls[0]);
    SignedIsSignature(t, raw, maxBytes, calls[0]);
    var first, again := Load(t.host, t.codec, DEFAULT_LIMITS, raw).value, Load(t.host, t.codec, DEFAULT_LIMITS, out);
    if |calls| > 1 {
      SignAllReload(t, out, maxBytes, calls[1..]);
      var (end, rest) := SignAll(t, out, maxBytes, calls[1..]).value;
      var last := Load(t.host, t.codec, DEFAULT_LIMITS, end);
      if last.Ok? {
        OneThenRest(t, first, r, again.value, rest, last.value);
      }
    } else {
      assert SignAll(t, out, maxBytes, calls[1..]) == Ok((out, []));
      Units([r]);
      if again.Ok? {
        OneAlone(t, first, r, again.value);
      }
    }
  }

  lemma OneAlone(t: Tools, first: seq<Loaded>, r: Record, last: seq<Loaded>)
    requires |last| == |first| + 1 && first <= last && last[|first|].record == r && Verifies(t.host.sha, Records(last))
    requires r.event.typ == SIGNATURE_TYPE && Bound(last[|first|])
    ensures Reloaded(t, first, [r], last)
  {
    hide Bound, Verifies;
    assert Records(last) == Records(first) + [r];
    if AllBound(first) {
      forall i | 0 <= i < |last| ensures Bound(last[i]) {
        if i < |first| { assert last[i] == first[i]; }
      }
    }
  }

  /** One signature, then more, are all of them. */
  lemma OneThenRest(t: Tools, first: seq<Loaded>, r: Record, second: seq<Loaded>, rest: seq<Record>, last: seq<Loaded>)
    requires |second| == |first| + 1 && first <= second && second[|first|].record == r
    requires r.event.typ == SIGNATURE_TYPE && Bound(second[|first|]) && Reloaded(t, second, rest, last)
    ensures Reloaded(t, first, [r] + rest, last)
  {
    hide Bound, Verifies;
    assert Records(second) == Records(first) + [r];
    Assoc(Records(first), [r], rest);
    assert last[|first|] == second[|first|];
    if AllBound(first) {
      forall i | 0 <= i < |second| ensures Bound(second[i]) {
        if i < |first| { assert second[i] == first[i]; }
      }
    }
  }

  /** The first records as they were, then the signatures, each bound to the bytes before it. */
  ghost predicate Reloaded(t: Tools, first: seq<Loaded>, signatures: seq<Record>, last: seq<Loaded>)
  {
    first <= last && Records(last) == Records(first) + signatures && Verifies(t.host.sha, Records(last)) &&
    (forall i | |first| <= i < |last| :: last[i].record.event.typ == SIGNATURE_TYPE && Bound(last[i])) &&
    (AllBound(first) ==> AllBound(last))
  }

  /** Only a file that loads gets signed. */
  lemma SignedLoads(t: Tools, raw: Bytes, maxBytes: int, call: SignCall)
    requires Signed(t, raw, maxBytes, call).Ok?
    ensures Load(t.host, t.codec, DEFAULT_LIMITS, raw).Ok?
  {
    hide Load, Verifies, Bundled;
  }

  lemma SignedIsSignature(t: Tools, raw: Bytes, maxBytes: int, call: SignCall)
    requires Signed(t, raw, maxBytes, call).Ok?
    ensures Signed(t, raw, maxBytes, call).value.1.event.typ == SIGNATURE_TYPE
  {
    hide Compute, ParseManifest, LoadFrom, Load1, ValidType;
  }
}
