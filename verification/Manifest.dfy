/** The manifest record of internal/bundle/bundle.go and the parts of the Go runtime it needs. */
module Manifest {
  import opened Wrappers
  import opened Json
  import opened HashChain

  /** Library code the bundle calls: SHA-256, encoding/json on a string payload, the
      integer part of a number, and `fmt.Sscanf` with `%d`. */
  datatype Host = Host(
    sha: Sha,
    marshal: Value -> string,
    unmarshal: string -> Option<Value>,
    truncate: NumberToken -> int,
    scan: string -> Option<int>)

  const TOKEN_2: NumberToken := [50]
  const TOKEN_3: NumberToken := [51]

  ghost predicate HostOk(h: Host)
  {
    (forall v :: h.unmarshal(h.marshal(v)) == Some(v)) &&
    h.truncate(TOKEN_2) == 2 && h.truncate(TOKEN_3) == 3 &&
    h.scan("1") == Some(1) && h.scan("2") == Some(2) && h.scan("3") == Some(3)
  }

  const MANIFEST_TYPE := "atb.bundle.manifest"
  const VERSION_MAX := 3

  /** `ManifestData` */
  datatype ManifestData = ManifestData(version: string, createdAt: string, bundleId: string, captureRunId: string)

  datatype Error =
    | ManifestAbsent | Malformed | ManifestNotFirst | ProfileTooOld | BadEventType | UnsupportedVersion | BadStamp

  /** A field asserted to be a string, "" otherwise. */
  function GetText(m: map<string, Value>, k: string): string
  {
    if k in m && m[k].String? then m[k].s else ""
  }

  /** `manifestVersionToInt` */
  function VersionToInt(h: Host, v: Option<Value>): Result<int, Error>
  {
    match v
    case None => Ok(1)
    case Some(Null) => Ok(1)
    case Some(Number(t)) => Ok(h.truncate(t))
    case Some(String(s)) =>
      if s == "" then Ok(1)
      else (match h.scan(s) case None => Err(Malformed) case Some(n) => Ok(n))
    case Some(_) => Err(Malformed)
  }

  /** `manifestVersionString` */
  function VersionString(v: Option<Value>): Result<string, Error>
  {
    match v
    case Some(Number(t)) => if t == TOKEN_2 then Ok("2") else if t == TOKEN_3 then Ok("3") else Err(UnsupportedVersion)
    case Some(String(s)) => if s != "" then Ok(s) else Err(UnsupportedVersion)
    case _ => Err(UnsupportedVersion)
  }

  /** `manifestVersionFromRecord` */
  function VersionOf(h: Host, data: Value): Result<int, Error>
  {
    match data
    case String(s) =>
      (match h.unmarshal(s)
       case Some(Object(m)) => VersionToInt(h, Get(m, "version"))
       case Some(Null) => Ok(1)
       case _ => Err(Malformed))
    case Object(m) => VersionToInt(h, Get(m, "version"))
    case _ => Err(Malformed)
  }

  predicate TextOrNull(v: Option<Value>)
  {
    v.None? || v.value.Null? || v.value.String?
  }

  /** `parseManifestDataV1` on the decoded payload. */
  function ParseV1(h: Host, s: string): Result<ManifestData, Error>
  {
    match h.unmarshal(s)
    case Some(Null) => Ok(ManifestData("", "", "", ""))
    case Some(Object(m)) =>
      if !TextOrNull(Get(m, "version")) || !TextOrNull(Get(m, "created_at")) ||
         !TextOrNull(Get(m, "bundle_id")) || !TextOrNull(Get(m, "capture_run_id")) then Err(Malformed)
      else if GetText(m, "version") == "2" then Err(UnsupportedVersion)
      else Ok(ManifestData(GetText(m, "version"), GetText(m, "created_at"), GetText(m, "bundle_id"),
        GetText(m, "capture_run_id")))
    case _ => Err(Malformed)
  }

  /** `parseManifestDataV2` */
  function ParseV2(m: map<string, Value>): Result<ManifestData, Error>
  {
    match VersionString(Get(m, "version"))
    case Err(e) => Err(e)
    case Ok(version) =>
      if version != "2" && version != "3" then Err(UnsupportedVersion)
      else if GetText(m, "created_at") == "" || GetText(m, "bundle_id") == "" then Err(Malformed)
      else Ok(ManifestData(version, GetText(m, "created_at"), GetText(m, "bundle_id"), GetText(m, "capture_run_id")))
  }

  /** `parseManifestData` */
  function ParseManifest(h: Host, r: Record): Result<ManifestData, Error>
  {
    if r.event.typ != MANIFEST_TYPE then Err(ManifestAbsent)
    else
      match VersionOf(h, r.event.data)
      case Err(e) => Err(e)
      case Ok(version) =>
        if version > VERSION_MAX then Err(Malformed)
        else
          match r.event.data
          case String(s) => if version <= 1 then ParseV1(h, s) else Err(Malformed)
          case Object(m) => ParseV2(m)
          case _ => Err(Malformed)
  }

  predicate DeclaresV3(h: Host, r: Record)
  {
    ParseManifest(h, r).Ok? && ParseManifest(h, r).value.version == "3"
  }

  /** Which structured manifests read, and as what: version 2 or 3, as number or text, with a creation
      time and a bundle id. */
  lemma StructuredExactly(h: Host, r: Record)
    requires HostOk(h) && r.event.typ == MANIFEST_TYPE && r.event.data.Object?
    ensures var m, read := r.event.data.fields, ParseManifest(h, r);
            var version := Get(m, "version");
            var two := version == Some(Number([50])) || version == Some(String("2"));
            var three := version == Some(Number([51])) || version == Some(String("3"));
            (read.Ok? <==> (two || three) && GetText(m, "created_at") != "" && GetText(m, "bundle_id") != "") &&
            (read.Ok? ==>
              read.value.version == (if three then "3" else "2") && read.value.createdAt == GetText(m, "created_at") &&
              read.value.bundleId == GetText(m, "bundle_id") && read.value.captureRunId == GetText(m, "capture_run_id"))
  {
  }

  /** Only a structured manifest can declare version 3: no string payload does, whatever it says. */
  lemma V3IsStructured(h: Host, r: Record)
    requires HostOk(h)
    ensures DeclaresV3(h, r) <==>
            r.event.typ == MANIFEST_TYPE && r.event.data.Object? &&
            (Get(r.event.data.fields, "version") == Some(Number(TOKEN_3)) ||
             Get(r.event.data.fields, "version") == Some(String("3"))) &&
            GetText(r.event.data.fields, "created_at") != "" && GetText(r.event.data.fields, "bundle_id") != ""
  {
    var d := r.event.data;
    if r.event.typ == MANIFEST_TYPE && d.String? {
      match h.unmarshal(d.s)
      case Some(Object(m)) =>
        if GetText(m, "version") == "3" {
          assert VersionOf(h, d) == Ok(3);
        }
      case _ =>
    }
  }
}
