// The S3 filesystem plugin: parsing of s3://bucket/object paths, the
// mapping of AWS errors to TensorFlow status codes, the environment
// variables that configure the client and the multi-part transfers, the
// lazily created client, executor and transfer managers of the plugin's
// state, and the ranged GET behind a random-access read. Environment
// variables, the AWS configuration file and the GetObject call are
// parameters.
module S3Filesystem {
  import opened Common

  const Word64: nat := 0x1_0000_0000_0000_0000
  /** std::string::npos, the largest size_t. */
  const Npos: nat := Word64 - 1

  type uint64 = x: int | 0 <= x < 0x1_0000_0000_0000_0000
  type byte = x: int | 0 <= x < 256

  datatype TfStatus = TfStatus(code: Code, message: string)

  const OkStatus := TfStatus(Ok, "")

  // ---------------------------------------------------------------------
  // AWS errors
  // ---------------------------------------------------------------------

  const HttpForbidden := 403
  const HttpRequestedRangeNotSatisfiable := 416

  datatype AwsError = AwsError(responseCode: int, exceptionName: string, message: string)

  const CredentialsMessage := "AWS Credentials have not been set properly. Unable to access the specified S3 location"
  const ShortReadMessage := "Read less bytes than requested"

  /** TF_SetStatusFromAWSError: a forbidden request is a failed
      precondition, an unsatisfiable range is out of range, and every other
      response is unknown, with the exception's name and message. */
  function StatusFromAwsError(error: AwsError): (s: TfStatus)
    ensures s.code != Ok
    ensures s.code == FailedPrecondition <==> error.responseCode == HttpForbidden
    ensures s.code == OutOfRange <==> error.responseCode == HttpRequestedRangeNotSatisfiable
    ensures s.code == Unknown <==>
              error.responseCode != HttpForbidden && error.responseCode != HttpRequestedRangeNotSatisfiable
    ensures s.code == Unknown ==> s.message == error.exceptionName + ": " + error.message
  {
    if error.responseCode == HttpForbidden then TfStatus(FailedPrecondition, CredentialsMessage)
    else if error.responseCode == HttpRequestedRangeNotSatisfiable then TfStatus(OutOfRange, ShortReadMessage)
    else TfStatus(Unknown, error.exceptionName + ": " + error.message)
  }

  // ---------------------------------------------------------------------
  // std::string search and substrings
  // ---------------------------------------------------------------------

  /** pattern occurs in s at position i. */
  predicate OccursAt(s: string, pattern: string, i: nat)
  {
    i + |pattern| <= |s| && s[i..i + |pattern|] == pattern
  }

  /** The first position at or after from where pattern occurs. */
  function Find(s: string, pattern: string, from: nat): (r: Option<nat>)
    ensures r.Some? ==> from <= r.value && OccursAt(s, pattern, r.value)
    ensures forall i: nat | from <= i && (r.None? || i < r.value) :: !OccursAt(s, pattern, i)
    decreases |s| - from
  {
    if from + |pattern| > |s| then None
    else if OccursAt(s, pattern, from) then Some(from)
    else Find(s, pattern, from + 1)
  }

  /** std::string::find as a size_t: npos when there is no occurrence. */
  function FindSizeT(s: string, pattern: string, from: nat): nat
  {
    match Find(s, pattern, from)
    case None => Npos
    case Some(i) => i
  }

  /** std::string::substr(pos, count): at most count characters from pos. */
  function Substr(s: string, pos: nat, count: nat): (t: string)
    requires pos <= |s|
    ensures |t| <= count && pos + |t| <= |s| && t == s[pos..pos + |t|]
    ensures pos + count <= |s| ==> |t| == count
  {
    if pos + count <= |s| then s[pos..pos + count] else s[pos..]
  }

  // ---------------------------------------------------------------------
  // ParseS3Path
  // ---------------------------------------------------------------------

  const Scheme := "s3://"
  const NoSchemeMessage := "S3 path doesn't start with 's3://'."
  const NoBucketMessage := "S3 path doesn't contain a bucket name."
  const NoObjectMessage := "S3 path doesn't contain an object name."

  /** The three output parameters of ParseS3Path. */
  datatype PathParts = PathParts(status: TfStatus, bucket: string, objectName: string)

  /** find("://") + 2 in size_t arithmetic: without "://" it wraps to 1. */
  function SchemeEnd(fname: string): nat
  {
    (FindSizeT(fname, "://", 0) + 2) % Word64
  }

  /** The scheme test of ParseS3Path, which compares the text up to the
      first "://" with "s3://", accepts exactly the paths that start with
      "s3://", and the scheme then ends at position 4. */
  lemma SchemeTest(fname: string)
    ensures Substr(fname, 0, SchemeEnd(fname) + 1) == Scheme <==> StartsWith(fname, Scheme)
    ensures StartsWith(fname, Scheme) ==> SchemeEnd(fname) == 4
  {
    var f := Find(fname, "://", 0);
    if StartsWith(fname, Scheme) {
      assert OccursAt(fname, "://", 2) by { assert fname[2..5] == "://"; }
      assert fname[..5] == Scheme;
      assert fname[0..3][0] == 's' && fname[1..4][0] == '3';
    }
  }

  /** ParseS3Path(fname, object_empty_ok, &bucket, &object, status): the
      outputs it is given are returned untouched where it does not assign
      them, and the status is only set on an error. */
  function ParseS3Path(fname: string, objectEmptyOk: bool, bucket: string, objectName: string, status: TfStatus)
    : (r: PathParts)
    ensures r.status == status || r.status.code == InvalidArgument
  {
    var schemeEnd := SchemeEnd(fname);
    if Substr(fname, 0, schemeEnd + 1) != Scheme then
      PathParts(TfStatus(InvalidArgument, NoSchemeMessage), bucket, objectName)
    else
      SchemeTest(fname);
      SplitBucket(fname, objectEmptyOk, bucket, objectName, status, schemeEnd,
                  FindSizeT(fname, "/", schemeEnd + 1))
  }

  /** The part of ParseS3Path after the scheme test, given where the scheme
      and the bucket end. */
  function SplitBucket(fname: string, objectEmptyOk: bool, bucket: string, objectName: string,
                       status: TfStatus, schemeEnd: nat, bucketEnd: nat): (r: PathParts)
    requires schemeEnd + 1 <= |fname|
    requires bucketEnd == Npos || schemeEnd + 1 <= bucketEnd < |fname|
    ensures r.status == status || r.status.code == InvalidArgument
  {
    if bucketEnd == Npos then PathParts(TfStatus(InvalidArgument, NoBucketMessage), bucket, objectName)
    else
      var b := Substr(fname, schemeEnd + 1, bucketEnd - schemeEnd - 1);
      var o := fname[bucketEnd + 1..];
      if o == [] && !objectEmptyOk then PathParts(TfStatus(InvalidArgument, NoObjectMessage), b, o)
      else PathParts(status, b, o)
  }

  function JoinS3Path(bucket: string, objectName: string): string
  {
    Scheme + bucket + "/" + objectName
  }

  /** A path that does not start with "s3://" is rejected, and so is one
      with no '/' after the scheme; neither assigns the outputs. */
  lemma ParseS3PathRejects(fname: string, objectEmptyOk: bool, bucket: string, objectName: string, status: TfStatus)
    ensures !StartsWith(fname, Scheme) ==>
              ParseS3Path(fname, objectEmptyOk, bucket, objectName, status) ==
                PathParts(TfStatus(InvalidArgument, NoSchemeMessage), bucket, objectName)
    ensures StartsWith(fname, Scheme) && '/' !in fname[5..] ==>
              ParseS3Path(fname, objectEmptyOk, bucket, objectName, status) ==
                PathParts(TfStatus(InvalidArgument, NoBucketMessage), bucket, objectName)
  {
    SchemeTest(fname);
    if StartsWith(fname, Scheme) && '/' !in fname[5..] {
      forall j: nat | 5 <= j && j + 1 <= |fname|
        ensures !OccursAt(fname, "/", j)
      {
        assert fname[5..][j - 5] == fname[j];
        assert fname[j..j + 1] == [fname[j]];
      }
    }
  }

  /** Once the scheme is there and the first '/' after it is at k, the
      bucket lies between them and the object follows. */
  lemma ParseS3PathSplitsAt(fname: string, objectEmptyOk: bool, bucket: string, objectName: string,
                            status: TfStatus, k: nat)
    requires StartsWith(fname, Scheme) && Find(fname, "/", 5) == Some(k) && k < Npos
    ensures ParseS3Path(fname, objectEmptyOk, bucket, objectName, status) ==
              PathParts(if k + 1 == |fname| && !objectEmptyOk then TfStatus(InvalidArgument, NoObjectMessage)
                        else status, fname[5..k], fname[k + 1..])
  {
    SchemeTest(fname);
    assert FindSizeT(fname, "/", 5) == k;
    assert ParseS3Path(fname, objectEmptyOk, bucket, objectName, status) ==
           SplitBucket(fname, objectEmptyOk, bucket, objectName, status, 4, k);
    assert Substr(fname, 5, k - 5) == fname[5..k];
    assert (fname[k + 1..] == []) == (k + 1 == |fname|);
  }

  /** Parsing s3://bucket/object with a bucket free of '/' gives that bucket
      and object back; only an empty object, when it is not allowed, turns
      into an error. */
  lemma ParseJoinedPath(bucket: string, objectName: string, objectEmptyOk: bool,
                        b0: string, o0: string, status: TfStatus)
    requires '/' !in bucket && |JoinS3Path(bucket, objectName)| < Npos
    ensures ParseS3Path(JoinS3Path(bucket, objectName), objectEmptyOk, b0, o0, status) ==
              PathParts(if objectName == [] && !objectEmptyOk then TfStatus(InvalidArgument, NoObjectMessage)
                        else status, bucket, objectName)
  {
    var fname := JoinS3Path(bucket, objectName);
    var k := 5 + |bucket|;
    assert fname[..5] == Scheme;
    assert fname[5..k] == bucket;
    assert fname[k + 1..] == objectName;
    assert OccursAt(fname, "/", k) by { assert fname[k..k + 1] == "/"; }
    forall i: nat | 5 <= i < k
      ensures !OccursAt(fname, "/", i)
    {
      assert fname[i] == bucket[i - 5];
      assert fname[i..i + 1] == [fname[i]];
    }
    assert Find(fname, "/", 5) == Some(k);
    ParseS3PathSplitsAt(fname, objectEmptyOk, b0, o0, status, k);
  }

  /** Whenever both checks pass, the path is s3://bucket/object for the
      bucket and object returned, and the bucket holds no '/': together with
      ParseJoinedPath, the parse is the inverse of joining. */
  lemma ParseSplitsPath(fname: string, objectEmptyOk: bool, bucket: string, objectName: string, status: TfStatus)
    requires StartsWith(fname, Scheme) && '/' in fname[5..] && |fname| < Npos
    ensures var r := ParseS3Path(fname, objectEmptyOk, bucket, objectName, status);
            fname == JoinS3Path(r.bucket, r.objectName) && '/' !in r.bucket &&
            r.status == (if r.objectName == [] && !objectEmptyOk then TfStatus(InvalidArgument, NoObjectMessage)
                         else status)
  {
    var j :| 5 <= j < |fname| && fname[j] == '/';
    assert OccursAt(fname, "/", j) by { assert fname[j..j + 1] == "/"; }
    var k := Find(fname, "/", 5).value;
    ParseS3PathSplitsAt(fname, objectEmptyOk, bucket, objectName, status, k);
    NoSlashBeforeFirst(fname, k);
    JoinAtSlash(fname, k);
  }

  lemma NoSlashBeforeFirst(fname: string, k: nat)
    requires Find(fname, "/", 5) == Some(k)
    ensures '/' !in fname[5..k]
  {
    var b := fname[5..k];
    forall i | 0 <= i < |b|
      ensures b[i] != '/'
    {
      assert !OccursAt(fname, "/", 5 + i);
      assert fname[5 + i..5 + i + 1] == [b[i]];
    }
  }

  lemma JoinAtSlash(fname: string, k: nat)
    requires StartsWith(fname, Scheme) && 5 <= k < |fname| && OccursAt(fname, "/", k)
    ensures fname == JoinS3Path(fname[5..k], fname[k + 1..])
  {
    assert fname[..5] == Scheme;
    assert fname[..k] == fname[..5] + fname[5..k];
    assert fname[k..] == fname[k..k + 1] + fname[k + 1..];
    assert fname == fname[..k] + fname[k..];
  }

  // ---------------------------------------------------------------------
  // absl::SimpleAtoi on an environment variable
  // ---------------------------------------------------------------------

  /** absl::ascii_isspace: space, tab, newline, vertical tab, form feed and
      carriage return. */
  predicate IsAsciiSpace(c: char)
  {
    c == ' ' || 9 <= c as int <= 13
  }

  predicate AllDigits(s: string)
  {
    forall i :: 0 <= i < |s| ==> IsDigit(s[i])
  }

  function TrimAsciiSpace(s: string): (t: string)
    ensures |t| <= |s|
    ensures t != [] ==> !IsAsciiSpace(t[0]) && !IsAsciiSpace(t[|t| - 1])
    decreases |s|
  {
    if s == [] then []
    else if IsAsciiSpace(s[0]) then TrimAsciiSpace(s[1..])
    else if IsAsciiSpace(s[|s| - 1]) then TrimAsciiSpace(s[..|s| - 1])
    else s
  }

  /** The optional sign and the digits of a trimmed text, if it has that
      form. */
  function SignAndDigits(t: string): Option<(bool, nat)>
  {
    if t == [] then None
    else
      var negative := t[0] == '-';
      var digits := if negative || t[0] == '+' then t[1..] else t;
      if digits == [] || !AllDigits(digits) then None else Some((negative, ParseNat(digits)))
  }

  /** SimpleAtoi into a uint64_t; a missing variable reads as the empty
      text, and a minus sign is refused. */
  function SimpleAtoiU64(text: Option<string>): (r: Option<uint64>)
  {
    if text.None? then None
    else
      match SignAndDigits(TrimAsciiSpace(text.value))
      case None => None
      case Some((negative, v)) => if negative || v >= Word64 then None else Some(v)
  }

  /** SimpleAtoi into an int64_t. */
  function SimpleAtoiI64(text: Option<string>): (r: Option<int>)
    ensures r.Some? ==> -0x8000_0000_0000_0000 <= r.value < 0x8000_0000_0000_0000
  {
    if text.None? then None
    else
      match SignAndDigits(TrimAsciiSpace(text.value))
      case None => None
      case Some((negative, v)) =>
        var x: int := (if negative then -1 else 1) * v;
        if -0x8000_0000_0000_0000 <= x < 0x8000_0000_0000_0000 then Some(x) else None
  }

  lemma TrimDigits(s: string)
    requires s != [] && AllDigits(s)
    ensures TrimAsciiSpace(s) == s
  {
    assert !IsAsciiSpace(s[0]) && !IsAsciiSpace(s[|s| - 1]);
  }

  /** The decimal text of every uint64 value reads back as that value; a
      missing or blank variable reads as nothing. */
  lemma SimpleAtoiDecimal(v: uint64, blank: string)
    requires forall i :: 0 <= i < |blank| ==> IsAsciiSpace(blank[i])
    ensures SimpleAtoiU64(Some(NatToString(v))) == Some(v)
    ensures SimpleAtoiI64(Some(NatToString(v))) == (if v < 0x8000_0000_0000_0000 then Some(v) else None)
    ensures SimpleAtoiU64(Some(blank)) == None && SimpleAtoiU64(None) == None
  {
    var s := NatToString(v);
    TrimDigits(s);
    assert s[0] != '-' && s[0] != '+' by { assert IsDigit(s[0]); }
    ParseNatToString(v);
    BlankTrimsToEmpty(blank);
  }

  lemma {:induction false} BlankTrimsToEmpty(blank: string)
    requires forall i :: 0 <= i < |blank| ==> IsAsciiSpace(blank[i])
    ensures TrimAsciiSpace(blank) == []
    decreases |blank|
  {
    if blank != [] {
      BlankTrimsToEmpty(blank[1..]);
    }
  }

  // ---------------------------------------------------------------------
  // Configuration read from the environment
  // ---------------------------------------------------------------------

  type Env = map<string, string>

  function Getenv(env: Env, name: string): Option<string>
  {
    if name in env then Some(env[name]) else None
  }

  const ExecutorPoolSize := 25
  const MultiPartUploadChunkSize: uint64 := 50 * 1024 * 1024
  const MultiPartDownloadChunkSize: uint64 := 50 * 1024 * 1024
  const S3TimeoutMsec := 300000

  /** A chunk size read from the environment, or the default when the
      variable is missing or does not parse. */
  function ChunkSize(text: Option<string>, default: uint64): (size: uint64)
    ensures size == (if SimpleAtoiU64(text).Some? then SimpleAtoiU64(text).value else default)
  {
    match SimpleAtoiU64(text)
    case Some(v) => v
    case None => default
  }

  /** Multi-part download stays on unless S3_DISABLE_MULTI_PART_DOWNLOAD
      parses to 1. */
  function UseMultiPartDownload(disable: Option<string>): (use: bool)
    ensures !use <==> SimpleAtoiU64(disable) == Some(1)
  {
    match SimpleAtoiU64(disable)
    case Some(v) => v != 1
    case None => true
  }

  predicate AllAsciiSpace(s: string)
  {
    forall i :: 0 <= i < |s| ==> IsAsciiSpace(s[i])
  }

  lemma {:induction false} TrimPadded(before: string, t: string, after: string)
    requires AllAsciiSpace(before) && AllAsciiSpace(after)
    requires t != [] && !IsAsciiSpace(t[0]) && !IsAsciiSpace(t[|t| - 1])
    ensures TrimAsciiSpace(before + t + after) == t
    decreases |before| + |after|
  {
    var s := before + t + after;
    if before != [] {
      assert s[1..] == before[1..] + t + after;
      TrimPadded(before[1..], t, after);
    } else if after != [] {
      assert s[0] == t[0];
      assert s[..|s| - 1] == before + t + after[..|after| - 1];
      TrimPadded(before, t, after[..|after| - 1]);
    } else {
      assert s == t;
    }
  }

  /** SimpleAtoi reads digits surrounded by any ASCII white space, with or
      without a plus sign (and with any leading zeros), as their value when
      it fits in 64 bits. */
  lemma SimpleAtoiPadded(before: string, plus: bool, digits: string, after: string)
    requires AllAsciiSpace(before) && AllAsciiSpace(after)
    requires digits != [] && AllDigits(digits) && ParseNat(digits) < Word64
    ensures SimpleAtoiU64(Some(before + (if plus then "+" else "") + digits + after)) == Some(ParseNat(digits))
  {
    var t := (if plus then "+" else "") + digits;
    assert IsDigit(digits[0]) && IsDigit(digits[|digits| - 1]);
    assert t[|t| - 1] == digits[|digits| - 1];
    assert t[0] == (if plus then '+' else digits[0]);
    TrimPadded(before, t, after);
    var text := before + (if plus then "+" else "") + digits + after;
    assert text == before + t + after;
    assert TrimAsciiSpace(text) == t;
    assert (if t[0] == '-' || t[0] == '+' then t[1..] else t) == digits;
    assert SignAndDigits(t) == Some((false, ParseNat(digits)));
  }

  /** So multi-part download is turned off by " 1", "+1\n" and "001" as
      much as by "1". */
  lemma DisablingSpellings(before: string, plus: bool, digits: string, after: string)
    requires AllAsciiSpace(before) && AllAsciiSpace(after)
    requires digits != [] && AllDigits(digits) && ParseNat(digits) == 1
    ensures !UseMultiPartDownload(Some(before + (if plus then "+" else "") + digits + after))
  {
    SimpleAtoiPadded(before, plus, digits, after);
  }

  /** Zero, a negative number, a word and a missing variable leave
      multi-part download on. */
  lemma NonDisablingSpellings()
    ensures UseMultiPartDownload(None)
    ensures UseMultiPartDownload(Some("0"))
    ensures UseMultiPartDownload(Some("-1"))
    ensures UseMultiPartDownload(Some("true"))
  {
    assert SimpleAtoiU64(Some("0")) == Some(0) by {
      assert TrimAsciiSpace("0") == "0";
    }
    assert SimpleAtoiU64(Some("-1")) == None by {
      assert TrimAsciiSpace("-1") == "-1";
      assert "-1"[1..] == "1";
    }
    assert SimpleAtoiU64(Some("true")) == None by {
      assert TrimAsciiSpace("true") == "true";
      assert !IsDigit("true"[0]);
    }
  }

  datatype HttpScheme = Http | Https

  /** The fields of the AWS client configuration that the plugin sets. */
  datatype ClientConfiguration = ClientConfiguration(
    endpointOverride: string, region: string, scheme: HttpScheme, verifySsl: bool,
    connectTimeoutMs: int, requestTimeoutMs: int, caFile: string, caPath: string)

  function ToLowerAscii(s: string): (t: string)
    ensures |t| == |s|
  {
    seq(|s|, i requires 0 <= i < |s| => if 'A' <= s[i] <= 'Z' then (s[i] as int + 32) as char else s[i])
  }

  /** The configuration file consulted when AWS_SDK_LOAD_CONFIG is true or
      1: AWS_CONFIG_FILE, else $HOME/.aws/config, else the empty name. */
  function ConfigFile(env: Env): string
  {
    match Getenv(env, "AWS_CONFIG_FILE")
    case Some(f) => f
    case None =>
      match Getenv(env, "HOME")
      case Some(home) => home + "/.aws/config"
      case None => ""
  }

  /** The region of the default profile of each configuration file (the
      empty text when it has none). */
  type ProfileRegions = map<string, string>

  function DefaultProfileRegion(profiles: ProfileRegions, file: string): string
  {
    if file in profiles then profiles[file] else ""
  }

  /** The region: AWS_REGION, then S3_REGION, then, only when
      AWS_SDK_LOAD_CONFIG is true or 1 in any case, a non-empty region of
      the default profile; otherwise the SDK's default stays. */
  function Region(env: Env, profiles: ProfileRegions, default: string): (region: string)
    ensures "AWS_REGION" in env ==> region == env["AWS_REGION"]
    ensures "AWS_REGION" !in env && "S3_REGION" in env ==> region == env["S3_REGION"]
    ensures region != default ==>
              "AWS_REGION" in env || "S3_REGION" in env ||
              ("AWS_SDK_LOAD_CONFIG" in env && ToLowerAscii(env["AWS_SDK_LOAD_CONFIG"]) in {"true", "1"})
  {
    match Getenv(env, "AWS_REGION")
    case Some(r) => r
    case None =>
      match Getenv(env, "S3_REGION")
      case Some(r) => r
      case None =>
        var load := match Getenv(env, "AWS_SDK_LOAD_CONFIG") case Some(v) => ToLowerAscii(v) case None => "";
        if load == "true" || load == "1" then
          var r := DefaultProfileRegion(profiles, ConfigFile(env));
          if r != "" then r else default
        else default
  }

  /** An environment flag that is false exactly when its text starts with
      '0'; a missing flag keeps the default. */
  function FlagFromEnv(text: Option<string>, default: bool): (b: bool)
    ensures text.Some? ==> (b <==> !(|text.value| > 0 && text.value[0] == '0'))
    ensures text.None? ==> b == default
  {
    match text
    case None => default
    case Some(v) => !(|v| > 0 && v[0] == '0')
  }

  function TimeoutFromEnv(text: Option<string>): (ms: int)
    ensures SimpleAtoiI64(text).None? ==> ms == S3TimeoutMsec
    ensures SimpleAtoiI64(text).Some? ==> ms == SimpleAtoiI64(text).value
  {
    match SimpleAtoiI64(text)
    case Some(t) => t
    case None => S3TimeoutMsec
  }

  function StringFromEnv(text: Option<string>, default: string): string
  {
    match text
    case Some(v) => v
    case None => default
  }

  /** GetDefaultClientConfig on its first call: the SDK's defaults with each
      variable that is set applied on top. */
  function DefaultClientConfig(env: Env, profiles: ProfileRegions, sdk: ClientConfiguration)
    : (cfg: ClientConfiguration)
    ensures cfg.endpointOverride == StringFromEnv(Getenv(env, "S3_ENDPOINT"), sdk.endpointOverride)
    ensures cfg.region == Region(env, profiles, sdk.region)
    ensures (cfg.scheme == Http) == (if "S3_USE_HTTPS" in env then !FlagFromEnv(Some(env["S3_USE_HTTPS"]), true)
                                     else sdk.scheme == Http)
    ensures cfg.verifySsl == FlagFromEnv(Getenv(env, "S3_VERIFY_SSL"), sdk.verifySsl)
  {
    var useHttps := Getenv(env, "S3_USE_HTTPS");
    ClientConfiguration(
      StringFromEnv(Getenv(env, "S3_ENDPOINT"), sdk.endpointOverride),
      Region(env, profiles, sdk.region),
      if useHttps.None? then sdk.scheme else if FlagFromEnv(useHttps, true) then Https else Http,
      FlagFromEnv(Getenv(env, "S3_VERIFY_SSL"), sdk.verifySsl),
      TimeoutFromEnv(Getenv(env, "S3_CONNECT_TIMEOUT_MSEC")),
      TimeoutFromEnv(Getenv(env, "S3_REQUEST_TIMEOUT_MSEC")),
      StringFromEnv(Getenv(env, "S3_CA_FILE"), sdk.caFile),
      StringFromEnv(Getenv(env, "S3_CA_PATH"), sdk.caPath))
  }

  /** With none of the plugin's variables set the configuration is the
      SDK's, except that both timeouts are five minutes. */
  lemma EmptyEnvironmentConfig(profiles: ProfileRegions, sdk: ClientConfiguration)
    ensures DefaultClientConfig(map[], profiles, sdk) ==
              sdk.(connectTimeoutMs := S3TimeoutMsec, requestTimeoutMs := S3TimeoutMsec)
  {
  }

  // ---------------------------------------------------------------------
  // Transfer managers
  // ---------------------------------------------------------------------

  datatype Direction = Upload | Download

  datatype TransferManagerConfig = TransferManagerConfig(bufferSize: uint64, maxHeapSize: uint64)

  /** The configuration of a transfer manager: buffers of one chunk and a
      heap of pool size + 1 chunks, computed in uint64 arithmetic. */
  function TransferConfigFor(chunk: uint64): (c: TransferManagerConfig)
    ensures c.bufferSize == chunk
    ensures c.maxHeapSize == ((ExecutorPoolSize + 1) * chunk) % Word64
  {
    TransferManagerConfig(chunk, ((ExecutorPoolSize + 1) * chunk) % Word64)
  }

  /** The heap exceeds a full pool of chunks whenever the product does not
      overflow; a chunk size of 2^63 wraps it to 0. */
  lemma HeapHoldsPool(chunk: uint64)
    ensures 0 < chunk && (ExecutorPoolSize + 1) * chunk < Word64 ==>
              TransferConfigFor(chunk).maxHeapSize > ExecutorPoolSize * chunk
    ensures TransferConfigFor(0x8000_0000_0000_0000).maxHeapSize == 0
  {
  }

  /** The lock operations one thread performs on the plugin's
      initialisation mutex. */
  datatype LockStep = Lock | Unlock

  /** absl::Mutex is not reentrant: a thread that locks it while holding it
      waits for itself forever. */
  predicate {:induction false} NeverRelocks(steps: seq<LockStep>, held: bool)
    decreases |steps|
  {
    steps == [] ||
    (match steps[0]
     case Lock => !held && NeverRelocks(steps[1..], true)
     case Unlock => NeverRelocks(steps[1..], false))
  }

  function Locked(body: seq<LockStep>): seq<LockStep>
  {
    [Lock] + body + [Unlock]
  }

  /** GetS3Client and GetExecutor each hold the mutex for their check. */
  function GetS3ClientSteps(): seq<LockStep> { Locked([]) }
  function GetExecutorSteps(): seq<LockStep> { Locked([]) }

  /** GetTransferManager as written: it creates a missing manager while
      holding the mutex and calls GetS3Client and GetExecutor from inside. */
  function GetTransferManagerStepsAsWritten(managerExists: bool): seq<LockStep>
  {
    Locked(if managerExists then [] else GetS3ClientSteps() + GetExecutorSteps())
  }

  /** The first GetTransferManager of a direction locks the mutex a second
      time while holding it. */
  lemma FirstTransferManagerRelocks()
    ensures !NeverRelocks(GetTransferManagerStepsAsWritten(false), false)
  {
    var s := GetTransferManagerStepsAsWritten(false);
    assert s == [Lock, Lock, Unlock, Lock, Unlock, Unlock];
    assert s[1..] == [Lock, Unlock, Lock, Unlock, Unlock];
  }

  /** GetTransferManager with the client and executor obtained before the
      mutex is taken. */
  function GetTransferManagerSteps(): seq<LockStep>
  {
    GetS3ClientSteps() + GetExecutorSteps() + Locked([])
  }

  lemma TransferManagerNeverRelocks()
    ensures NeverRelocks(GetTransferManagerSteps(), false)
  {
    var s := GetTransferManagerSteps();
    assert s == [Lock, Unlock, Lock, Unlock, Lock, Unlock];
    assert s[1..] == [Unlock, Lock, Unlock, Lock, Unlock];
    assert s[1..][1..] == [Lock, Unlock, Lock, Unlock];
    assert s[1..][1..][1..] == [Unlock, Lock, Unlock];
    assert s[1..][1..][1..][1..] == [Lock, Unlock];
    assert s[1..][1..][1..][1..][1..] == [Unlock];
  }

  // ---------------------------------------------------------------------
  // Random-access reads
  // ---------------------------------------------------------------------

  /** The state of a file opened for random access. */
  datatype RandomAccessFile = RandomAccessFile(bucket: string, objectName: string, useMultiPartDownload: bool)

  datatype GetObjectRequest = GetObjectRequest(bucket: string, key: string, range: string)

  /** What GetObject answers: the object's bytes in the range, or an error
      (whose result has no content). */
  datatype GetObjectOutcome = Fetched(body: seq<byte>) | FetchFailed(error: AwsError)

  /** The Range header for n bytes from offset: bytes=first-last with last
      computed as offset + n - 1 in uint64 arithmetic. */
  function RangeHeader(offset: uint64, n: uint64): string
  {
    "bytes=" + NatToString(offset) + "-" + NatToString((offset + n - 1) % Word64)
  }

  /** The first and last byte a Range header names, if it is well formed. */
  function ParseByteRange(h: string): Option<(nat, nat)>
  {
    if !StartsWith(h, "bytes=") then None
    else
      var spec := h[6..];
      match Find(spec, "-", 0)
      case None => None
      case Some(dash) =>
        var first, last := spec[..dash], spec[dash + 1..];
        if first != [] && last != [] && AllDigits(first) && AllDigits(last)
        then Some((ParseNat(first), ParseNat(last))) else None
  }

  lemma DashAfterDigits(a: nat, rest: string)
    ensures Find(NatToString(a) + "-" + rest, "-", 0) == Some(|NatToString(a)|)
  {
    var d := NatToString(a);
    var s := d + "-" + rest;
    assert OccursAt(s, "-", |d|) by { assert s[|d|..|d| + 1] == "-"; }
    forall i: nat | i < |d|
      ensures !OccursAt(s, "-", i)
    {
      assert s[i] == d[i] && IsDigit(d[i]);
      assert s[i..i + 1] == [s[i]];
    }
  }

  /** The header bytes=x-y, with both numbers in decimal, reads back as the
      range from x to y. */
  lemma ParseByteRangeOf(x: nat, y: nat)
    ensures ParseByteRange("bytes=" + NatToString(x) + "-" + NatToString(y)) == Some((x, y))
  {
    var a, b := NatToString(x), NatToString(y);
    var h := "bytes=" + a + "-" + b;
    var spec := a + "-" + b;
    assert h[..6] == "bytes=" && h[6..] == spec;
    DashAfterDigits(x, b);
    assert spec[..|a|] == a && spec[|a| + 1..] == b;
    ParseNatToString(x);
    ParseNatToString(y);
  }

  /** The Range header names the bytes from offset to offset + n - 1 as
      uint64 arithmetic computes it. */
  lemma RangeHeaderParses(offset: uint64, n: uint64)
    ensures ParseByteRange(RangeHeader(offset, n)) == Some((offset, (offset + n - 1) % Word64))
  {
    ParseByteRangeOf(offset, (offset + n - 1) % Word64);
  }

  /** ReadS3Client's request as written: the key is the bucket's name, and
      the range is sent even for a read of zero bytes. */
  function RequestAsWritten(file: RandomAccessFile, offset: uint64, n: uint64): GetObjectRequest
  {
    GetObjectRequest(file.bucket, file.bucket, RangeHeader(offset, n))
  }

  /** Any file whose object is not named like its bucket (s3://b/o, say)
      is read from the wrong object; a read of zero bytes at offset 0 asks
      for bytes 0 to 2^64 - 1, that is the whole object. */
  lemma RequestAsWrittenMisses(file: RandomAccessFile, offset: uint64, n: uint64)
    ensures file.bucket != file.objectName ==> RequestAsWritten(file, offset, n).key != file.objectName
    ensures n == 0 ==> ParseByteRange(RequestAsWritten(file, offset, n).range) ==
                         Some((offset, if offset == 0 then Npos else offset - 1))
  {
    RangeHeaderParses(offset, n);
    var last := (offset + n - 1) % Word64;
    if n == 0 && offset == 0 {
      assert last == Npos;
    } else if n == 0 {
      assert last == offset - 1;
    }
  }

  /** The request of a read: the file's own object, and no request at all
      for zero bytes. */
  function Request(file: RandomAccessFile, offset: uint64, n: uint64): (r: Option<GetObjectRequest>)
  {
    if n == 0 then None else Some(GetObjectRequest(file.bucket, file.objectName, RangeHeader(offset, n)))
  }

  /** Every request targets the file's bucket and object and, below 2^64,
      covers exactly the n bytes asked for. */
  lemma RequestTargetsFile(file: RandomAccessFile, offset: uint64, n: uint64)
    ensures Request(file, offset, n).Some? <==> n > 0
    ensures Request(file, offset, n).Some? ==>
              var q := Request(file, offset, n).value;
              q.bucket == file.bucket && q.key == file.objectName &&
              (offset + n <= Word64 ==> ParseByteRange(q.range) == Some((offset, offset + n - 1)))
  {
    RangeHeaderParses(offset, n);
  }

  function ContentLength(outcome: GetObjectOutcome): nat
  {
    if outcome.Fetched? then |outcome.body| else 0
  }

  /** The count ReadS3Client returns and the status it leaves for a request
      of n bytes. */
  function ReadResult(n: uint64, outcome: GetObjectOutcome): (int, TfStatus)
  {
    var status := if outcome.FetchFailed? then StatusFromAwsError(outcome.error) else OkStatus;
    if status.code != Ok && status.code != OutOfRange then (-1, status)
    else
      var read: int := ContentLength(outcome);
      if read < n then (read, TfStatus(OutOfRange, ShortReadMessage)) else (read, status)
  }

  /** A read fails with -1 exactly on errors other than an unsatisfiable
      range; otherwise it returns the bytes received, and the status is
      OUT_OF_RANGE exactly when fewer than n arrived or the range was
      unsatisfiable, and OK otherwise. */
  lemma ReadResultCases(n: uint64, outcome: GetObjectOutcome)
    ensures var (read, status) := ReadResult(n, outcome);
            (read == -1 <==> outcome.FetchFailed? &&
                             outcome.error.responseCode != HttpRequestedRangeNotSatisfiable) &&
            (read == -1 ==> status == StatusFromAwsError(outcome.error)) &&
            (read != -1 ==> read == ContentLength(outcome) &&
                            (status.code == OutOfRange <==> read < n || outcome.FetchFailed?) &&
                            (status.code != OutOfRange ==> status == OkStatus))
  {
  }

  /** ReadS3Client for n bytes into buffer, with the GetObject call's
      outcome given. */
  method ReadS3Client(file: RandomAccessFile, offset: uint64, n: uint64, buffer: array<byte>,
                      outcome: GetObjectOutcome)
    returns (request: Option<GetObjectRequest>, read: int, status: TfStatus)
    requires n <= buffer.Length
    requires ContentLength(outcome) <= n
    modifies buffer
    ensures request == Request(file, offset, n)
    ensures n == 0 ==> read == 0 && status == OkStatus
    ensures n > 0 ==> (read, status) == ReadResult(n, outcome)
    ensures n > 0 && outcome.Fetched? ==>
              buffer[..|outcome.body|] == outcome.body && buffer[|outcome.body|..] == old(buffer[|outcome.body|..])
    ensures n == 0 || outcome.FetchFailed? ==> buffer[..] == old(buffer[..])
  {
    request := Request(file, offset, n);
    if n == 0 {
      return request, 0, OkStatus;
    }
    status := if outcome.FetchFailed? then StatusFromAwsError(outcome.error) else OkStatus;
    if status.code != Ok && status.code != OutOfRange {
      return request, -1, status;
    }
    read := ContentLength(outcome);
    if read < n {
      status := TfStatus(OutOfRange, ShortReadMessage);
    }
    if outcome.Fetched? {
      var body := outcome.body;
      for i := 0 to |body|
        invariant buffer[..i] == body[..i]
        invariant buffer[i..] == old(buffer[i..])
      {
        buffer[i] := body[i];
      }
    }
  }

  /** Read: with multi-part download on it goes to the transfer-manager
      path, which is not written yet and returns -1 without touching the
      status; otherwise it is ReadS3Client. */
  method Read(file: RandomAccessFile, offset: uint64, n: uint64, buffer: array<byte>,
              status: TfStatus, outcome: GetObjectOutcome)
    returns (request: Option<GetObjectRequest>, read: int, newStatus: TfStatus)
    requires n <= buffer.Length
    requires ContentLength(outcome) <= n
    modifies buffer
    ensures file.useMultiPartDownload ==>
              request == None && read == -1 && newStatus == status && buffer[..] == old(buffer[..])
    ensures !file.useMultiPartDownload ==> request == Request(file, offset, n)
    ensures !file.useMultiPartDownload && n == 0 ==> read == 0 && newStatus == OkStatus
    ensures !file.useMultiPartDownload && n > 0 ==> (read, newStatus) == ReadResult(n, outcome)
    ensures !file.useMultiPartDownload && n > 0 && outcome.Fetched? ==>
              buffer[..|outcome.body|] == outcome.body && buffer[|outcome.body|..] == old(buffer[|outcome.body|..])
    ensures !file.useMultiPartDownload && (n == 0 || outcome.FetchFailed?) ==> buffer[..] == old(buffer[..])
  {
    if file.useMultiPartDownload {
      return None, -1, status;
    }
    request, read, newStatus := ReadS3Client(file, offset, n, buffer, outcome);
  }

  // ---------------------------------------------------------------------
  // The filesystem's state
  // ---------------------------------------------------------------------

  /** tf_s3_filesystem::S3File: whether the client and the executor exist,
      the transfer manager of each direction, the chunk sizes and the
      download mode. */
  class S3File {
    var hasClient: bool
    var hasExecutor: bool
    var transferManagers: map<Direction, Option<TransferManagerConfig>>
    var multiPartChunkSizes: map<Direction, uint64>
    var useMultiPartDownload: bool

    /** Both directions have an entry, and a transfer manager exists only
        with the client and the executor, configured for its chunk size. */
    ghost predicate Valid()
      reads this
    {
      Upload in transferManagers && Download in transferManagers &&
      Upload in multiPartChunkSizes && Download in multiPartChunkSizes &&
      forall d | d in transferManagers && transferManagers[d].Some? ::
        hasClient && hasExecutor && d in multiPartChunkSizes &&
        transferManagers[d].value == TransferConfigFor(multiPartChunkSizes[d])
    }

    /** The constructor, with the three environment variables it reads. */
    constructor (uploadChunk: Option<string>, downloadChunk: Option<string>, disableMultiPart: Option<string>)
      ensures Valid()
      ensures !hasClient && !hasExecutor
      ensures transferManagers == map[Upload := None, Download := None]
      ensures multiPartChunkSizes == map[Upload := ChunkSize(uploadChunk, MultiPartUploadChunkSize),
                                         Download := ChunkSize(downloadChunk, MultiPartDownloadChunkSize)]
      ensures useMultiPartDownload == UseMultiPartDownload(disableMultiPart)
    {
      hasClient := false;
      hasExecutor := false;
      multiPartChunkSizes := map[Upload := ChunkSize(uploadChunk, MultiPartUploadChunkSize),
                                 Download := ChunkSize(downloadChunk, MultiPartDownloadChunkSize)];
      useMultiPartDownload := UseMultiPartDownload(disableMultiPart);
      transferManagers := map[Upload := None, Download := None];
    }

    /** GetS3Client: creates the client once. */
    method GetS3Client()
      requires Valid()
      modifies this
      ensures Valid() && hasClient
      ensures hasExecutor == old(hasExecutor) && transferManagers == old(transferManagers)
      ensures multiPartChunkSizes == old(multiPartChunkSizes) && useMultiPartDownload == old(useMultiPartDownload)
    {
      if !hasClient {
        hasClient := true;
      }
    }

    /** GetExecutor: creates the thread pool once. */
    method GetExecutor()
      requires Valid()
      modifies this
      ensures Valid() && hasExecutor
      ensures hasClient == old(hasClient) && transferManagers == old(transferManagers)
      ensures multiPartChunkSizes == old(multiPartChunkSizes) && useMultiPartDownload == old(useMultiPartDownload)
    {
      if !hasExecutor {
        hasExecutor := true;
      }
    }

    /** GetTransferManager: the manager of a direction is created once, with
        that direction's chunk size. The client and executor are obtained
        before the manager is looked at (see FirstTransferManagerRelocks);
        under Valid() this gives the same state as creating them only
        with a new manager. */
    method GetTransferManager(direction: Direction)
      requires Valid()
      modifies this
      ensures Valid() && hasClient && hasExecutor
      ensures transferManagers ==
                if old(transferManagers[direction]).None?
                then old(transferManagers)[direction := Some(TransferConfigFor(old(multiPartChunkSizes[direction])))]
                else old(transferManagers)
      ensures old(transferManagers[direction]).Some? ==> hasClient == old(hasClient) && hasExecutor == old(hasExecutor)
      ensures multiPartChunkSizes == old(multiPartChunkSizes) && useMultiPartDownload == old(useMultiPartDownload)
    {
      GetS3Client();
      GetExecutor();
      if transferManagers[direction].None? {
        transferManagers := transferManagers[direction := Some(TransferConfigFor(multiPartChunkSizes[direction]))];
      }
    }

    /** NewRandomAccessFile: a path that does not parse (with an empty
        object refused) leaves the state and reports the parse's status;
        otherwise the client and the download manager exist and the file
        holds the bucket, the object and the download mode. */
    method NewRandomAccessFile(path: string, status: TfStatus) returns (file: Option<RandomAccessFile>, newStatus: TfStatus)
      requires Valid()
      modifies this
      ensures Valid()
      ensures var p := ParseS3Path(path, false, "", "", status);
              if p.status.code != Ok then
                file == None && newStatus == p.status &&
                hasClient == old(hasClient) && hasExecutor == old(hasExecutor) &&
                transferManagers == old(transferManagers)
              else
                file == Some(RandomAccessFile(p.bucket, p.objectName, useMultiPartDownload)) &&
                newStatus == OkStatus && hasClient && transferManagers[Download].Some?
      ensures file.Some? && |path| < Npos ==>
                path == JoinS3Path(file.value.bucket, file.value.objectName) &&
                '/' !in file.value.bucket && file.value.objectName != ""
      ensures multiPartChunkSizes == old(multiPartChunkSizes) && useMultiPartDownload == old(useMultiPartDownload)
    {
      var p := ParseS3Path(path, false, "", "", status);
      if p.status.code != Ok {
        return None, p.status;
      }
      ParseS3PathRejects(path, false, "", "", status);
      if |path| < Npos {
        ParseSplitsPath(path, false, "", "", status);
      }
      GetS3Client();
      GetTransferManager(Download);
      file := Some(RandomAccessFile(p.bucket, p.objectName, useMultiPartDownload));
      newStatus := OkStatus;
    }
  }
}
