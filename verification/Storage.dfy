/** `StorageService`: retrying with exponential backoff, and object URLs with the key extraction
    `VideosService` applies to them. */
module Storage {
  import opened Base

  const MAX_RETRY_ATTEMPTS := 3
  const BASE_RETRY_DELAY_MS := 200

  // ---- withRetry --------------------------------------------------------------------------------

  function Pow2(n: nat): nat {
    if n == 0 then 1 else 2 * Pow2(n - 1)
  }

  /** The first call that succeeds is the s-th. */
  predicate FirstSuccess<T, E>(calls: nat -> Result<T, E>, s: nat) {
    s >= 1 && calls(s).Ok? && forall k :: 1 <= k < s ==> calls(k).Err?
  }

  /** `calls(k)` is what the k-th call of the operation does; `noCall` is the error for zero attempts.
      The answer is the first success among the first `maxAttempts` calls, else the last error, after
      200 * (2^(calls-1) - 1) ms of sleep. */
  method WithRetry<T, E>(calls: nat -> Result<T, E>, noCall: E, maxAttempts: int := MAX_RETRY_ATTEMPTS)
    returns (r: Result<T, E>, made: nat, sleptMs: nat)
    ensures r.Ok? <==> exists s: nat :: s <= maxAttempts && FirstSuccess(calls, s)
    ensures forall s: nat :: s <= maxAttempts && FirstSuccess(calls, s) ==> made == s && r == calls(s)
    ensures maxAttempts >= 1 && r.Err? ==> made == maxAttempts && r == calls(maxAttempts)
    ensures maxAttempts < 1 ==> made == 0 && r == Err(noCall)
    ensures sleptMs == if made == 0 then 0 else 200 * (Pow2(made - 1) - 1)
  {
    var lastError := noCall;
    made, sleptMs := 0, 0;
    var attempt := 1;
    while attempt <= maxAttempts
      invariant 1 <= attempt && made == attempt - 1
      invariant attempt <= maxAttempts + 1 || (attempt == 1 && maxAttempts < 1)
      invariant forall k :: 1 <= k < attempt ==> calls(k).Err?
      invariant lastError == if made == 0 then noCall else calls(made).error
      invariant sleptMs == (if made == 0 then 0
                            else if made < maxAttempts then BASE_RETRY_DELAY_MS * (Pow2(made) - 1)
                            else BASE_RETRY_DELAY_MS * (Pow2(made - 1) - 1))
    {
      made := attempt;
      if calls(attempt).Ok? {
        assert FirstSuccess(calls, attempt);
        return calls(attempt), made, sleptMs;
      }
      lastError := calls(attempt).error;
      if attempt < maxAttempts {
        sleptMs := sleptMs + BASE_RETRY_DELAY_MS * Pow2(attempt - 1);
      }
      attempt := attempt + 1;
    }
    return Err(lastError), made, sleptMs;
  }

  // ---- Object URLs --------------------------------------------------------------------------------

  datatype Config = Config(bucket: string, region: string, endpoint: Option<string>)

  /** `getPublicUrl`; an empty endpoint counts as none. */
  function PublicUrl(c: Config, key: string): Url {
    if c.endpoint.Some? && c.endpoint.value != "" then
      c.endpoint.value + "/" + c.bucket + "/" + key
    else
      "https://" + c.bucket + ".s3." + c.region + ".amazonaws.com/" + key
  }

  datatype UploadError = FetchFailed | PutFailed(key: string)

  /** `uploadFromUrl`: a download, then up to three puts; the answer is the public URL of the key. `puts(k)` is what the
      k-th put does. */
  method UploadFromUrl<E>(c: Config, key: string, downloadOk: bool, puts: nat -> Result<(), E>, noCall: E)
    returns (r: Result<Url, UploadError>, made: nat, sleptMs: nat)
    ensures !downloadOk ==> r == Err(FetchFailed) && made == 0
    ensures downloadOk ==> (r.Ok? <==> puts(1).Ok? || puts(2).Ok? || puts(3).Ok?)
    ensures r.Ok? ==> r.value == PublicUrl(c, key) && 1 <= made <= 3 && FirstSuccess(puts, made)
    ensures downloadOk && r.Err? ==> r == Err(PutFailed(key)) && made == 3
    ensures sleptMs == if made <= 1 then 0 else if made == 2 then 200 else 600
  {
    if !downloadOk {
      return Err(FetchFailed), 0, 0;
    }
    var put;
    put, made, sleptMs := WithRetry(puts, noCall);
    FirstOfThree(puts);
    assert Pow2(1) == 2 && Pow2(2) == 4;
    r := if put.Ok? then Ok(PublicUrl(c, key)) else Err(PutFailed(key));
  }

  lemma FirstOfThree<T, E>(calls: nat -> Result<T, E>)
    ensures (exists s: nat :: s <= 3 && FirstSuccess(calls, s)) <==> calls(1).Ok? || calls(2).Ok? || calls(3).Ok?
  {
    if calls(1).Ok? {
      assert FirstSuccess(calls, 1);
    } else if calls(2).Ok? {
      assert FirstSuccess(calls, 2);
    } else if calls(3).Ok? {
      assert FirstSuccess(calls, 3);
    }
  }

  /** Characters a URL keeps as they are, in its path and in its host. */
  predicate Safe(ch: char) {
    'a' <= ch <= 'z' || 'A' <= ch <= 'Z' || '0' <= ch <= '9' || ch in "-_."
  }

  /** A path the URL parser leaves alone: safe characters and slashes, no segment `.` or `..`. */
  ghost predicate PlainPath(p: string) {
    && (forall i :: 0 <= i < |p| ==> Safe(p[i]) || p[i] == '/')
    && (forall i, j :: 0 <= i < j <= |p| && (i == 0 || p[i - 1] == '/') && (j == |p| || p[j] == '/')
          ==> p[i..j] != "." && p[i..j] != "..")
  }

  /** Index of the first `ch` at or after `from`; the length if there is none. */
  function Find(s: string, ch: char, from: nat): (i: nat)
    requires from <= |s|
    ensures from <= i <= |s| && (i < |s| ==> s[i] == ch)
    ensures forall k :: from <= k < i ==> s[k] != ch
    decreases |s| - from
  {
    if from == |s| || s[from] == ch then from else Find(s, ch, from + 1)
  }

  lemma FoundAt(s: string, ch: char, from: nat, i: nat)
    requires from <= i <= |s| && (i < |s| ==> s[i] == ch) && forall k :: from <= k < i ==> s[k] != ch
    ensures Find(s, ch, from) == i
  {
    assert Find(s, ch, from) <= i;
  }

  function ValueOf(digits: string): nat {
    if digits == [] then 0
    else 10 * ValueOf(digits[..|digits| - 1])
         + (var d := digits[|digits| - 1]; if '0' <= d <= '9' then d as nat - '0' as nat else 0)
  }

  function HostOf(authority: string): string {
    authority[..Find(authority, ':', 0)]
  }

  /** What follows the first colon; empty without one. */
  function PortOf(authority: string): string {
    var c := Find(authority, ':', 0);
    if c == |authority| then "" else authority[c + 1..]
  }

  /** The parser takes an authority with a host, and with digits up to 65535 as its port, if any. */
  predicate Accepted(authority: string) {
    && HostOf(authority) != ""
    && (forall i :: 0 <= i < |PortOf(authority)| ==> '0' <= PortOf(authority)[i] <= '9')
    && ValueOf(PortOf(authority)) <= 65535
  }

  /** Length of the leading `http://` or `https://`; 0 without one. */
  function SchemeLength(url: string): nat {
    if "http://" <= url then 7 else if "https://" <= url then 8 else 0
  }

  /** `new URL(url).pathname`, None where the constructor throws. */
  function Pathname(url: string): Option<string> {
    var a := SchemeLength(url);
    if a == 0 || a > |url| then None
    else var b := Find(url, '/', a);
         if !Accepted(url[a..b]) then None else if b == |url| then Some("/") else Some(url[b..])
  }

  /** `.replace(/^\/[^/]+\//, '')` */
  function StripFirstSegment(path: string): string {
    if |path| < 2 || path[0] != '/' || path[1] == '/' then path
    else var k := Find(path, '/', 1);
         if k == |path| then path else path[k + 1..]
  }

  /** A URL the parser rejects is returned as it is. */
  function ExtractS3Key(url: string): string {
    var path := Pathname(url);
    if path.Some? then StripFirstSegment(path.value) else url
  }

  /** An endpoint is a scheme and an authority without a path, as in `http://localhost:9000`. */
  ghost predicate IsOrigin(o: string, authority: string) {
    && (o == "http://" + authority || o == "https://" + authority)
    && PlainAuthority(authority)
  }

  /** A label starts at `i`, and with `xn--` in either case: the parser would decode it, and reject it if it
      cannot. */
  predicate PunycodeAt(host: string, i: nat) {
    && i + 4 <= |host| && (i == 0 || host[i - 1] == '.')
    && (host[i] == 'x' || host[i] == 'X') && (host[i + 1] == 'n' || host[i + 1] == 'N')
    && host[i + 2] == '-' && host[i + 3] == '-'
  }

  ghost predicate NoPunycode(host: string) {
    forall i: nat :: !PunycodeAt(host, i)
  }

  /** The authorities for which `Accepted` is the parser's answer: some safe characters and colons, no punycode,
      and a host that is missing or whose last label starts with a letter, so that it is not read as a
      number. (Were there none at all, the parser would look for the host behind the slash that follows.) */
  ghost predicate PlainAuthority(authority: string) {
    && authority != ""
    && (forall i :: 0 <= i < |authority| ==> Safe(authority[i]) || authority[i] == ':')
    && NoPunycode(HostOf(authority))
    && (HostOf(authority) == "" || exists front, word :: NamedHost(HostOf(authority), front, word))
  }

  ghost predicate NamedHost(host: string, front: string, word: string) {
    && host == front + word && (front == "" || front[|front| - 1] == '.')
    && word != "" && '.' !in word && ('a' <= word[0] <= 'z' || 'A' <= word[0] <= 'Z')
  }

  /** The pathname of an origin with a path, or the parser's refusal of it. */
  lemma PathnameOf(origin: string, authority: string, path: string)
    requires IsOrigin(origin, authority)
    ensures Pathname(origin + "/" + path) == if Accepted(authority) then Some("/" + path) else None
  {
    var url := origin + "/" + path;
    var a := if origin == "http://" + authority then 7 else 8;
    if a == 7 {
      assert url[..7] == "http://";
    } else {
      assert url[..8] == "https://";
      assert url[4] == 's';
    }
    assert SchemeLength(url) == a && |origin| == a + |authority|;
    assert forall k :: a <= k < |origin| ==> url[k] == authority[k - a];
    FoundAt(url, '/', a, |origin|);
    assert url[a..|origin|] == authority;
    assert url[|origin|..] == "/" + path;
  }

  lemma StripOf(segment: string, rest: string)
    requires segment != "" && '/' !in segment
    ensures StripFirstSegment("/" + segment + "/" + rest) == rest
  {
    var path := "/" + segment + "/" + rest;
    assert path[1] == segment[0];
    assert forall k :: 1 <= k <= |segment| ==> path[k] == segment[k - 1];
    FoundAt(path, '/', 1, |segment| + 1);
    assert path[|segment| + 2..] == rest;
  }

  predicate HasEndpoint(c: Config) {
    c.endpoint.Some? && c.endpoint.value != ""
  }

  /** A deployed configuration: a slash-free plain bucket and region without punycode, and an endpoint, if
      there is one, with the given authority and no path. */
  ghost predicate Deployed(c: Config, authority: string) {
    && c.bucket != "" && '/' !in c.bucket && PlainPath(c.bucket) && NoPunycode(c.bucket)
    && (forall i :: 0 <= i < |c.region| ==> Safe(c.region[i])) && NoPunycode(c.region)
    && (HasEndpoint(c) ==> IsOrigin(c.endpoint.value, authority))
  }

  function VirtualHost(c: Config): string {
    c.bucket + ".s3." + c.region + ".amazonaws.com"
  }

  /** A host put together from plain parts has no other labels than they have. */
  lemma JoinedNoPunycode(a: string, b: string)
    requires NoPunycode(a) && NoPunycode(b)
    ensures NoPunycode(a + "." + b)
  {
    var host := a + "." + b;
    forall i: nat
      ensures !PunycodeAt(host, i)
    {
      if i > |a| {
        assert !PunycodeAt(b, i - |a| - 1);
      } else {
        assert !PunycodeAt(a, i);
      }
    }
  }

  lemma VirtualHostNoPunycode(c: Config)
    requires NoPunycode(c.bucket) && NoPunycode(c.region)
    ensures NoPunycode(VirtualHost(c))
  {
    JoinedNoPunycode(c.bucket, "s3");
    JoinedNoPunycode(c.bucket + "." + "s3", c.region);
    JoinedNoPunycode(c.bucket + "." + "s3" + "." + c.region, "amazonaws");
    JoinedNoPunycode(c.bucket + "." + "s3" + "." + c.region + "." + "amazonaws", "com");
    assert VirtualHost(c) == c.bucket + "." + "s3" + "." + c.region + "." + "amazonaws" + "." + "com";
  }

  lemma VirtualHostAccepted(c: Config, authority: string)
    requires Deployed(c, authority)
    ensures IsOrigin("https://" + VirtualHost(c), VirtualHost(c)) && Accepted(VirtualHost(c))
  {
    hide NoPunycode;
    var host := VirtualHost(c);
    forall i | 0 <= i < |host|
      ensures Safe(host[i])
    {
      assert host[i] in c.bucket || host[i] in ".s3." || host[i] in c.region || host[i] in ".amazonaws.com";
    }
    FoundAt(host, ':', 0, |host|);
    VirtualHostNoPunycode(c);
    var front := c.bucket + ".s3." + c.region + ".amazonaws.";
    assert host == front + "com";
    assert NamedHost(HostOf(host), front, "com");
  }

  /** What extraction makes of the public URL: with an endpoint the key, or the whole URL if the parser
      rejects the endpoint; without one, the key under a slash and without its first segment. */
  lemma ExtractedKey(c: Config, authority: string, key: string)
    requires Deployed(c, authority) && PlainPath(key)
    ensures HasEndpoint(c) && Accepted(authority) ==> ExtractS3Key(PublicUrl(c, key)) == key
    ensures HasEndpoint(c) && !Accepted(authority) ==> ExtractS3Key(PublicUrl(c, key)) == PublicUrl(c, key)
    ensures !HasEndpoint(c) ==> ExtractS3Key(PublicUrl(c, key)) == StripFirstSegment("/" + key)
  {
    hide Pathname, Accepted;
    if HasEndpoint(c) {
      var path := c.bucket + "/" + key;
      assert PublicUrl(c, key) == c.endpoint.value + "/" + path;
      PathnameOf(c.endpoint.value, authority, path);
      StripOf(c.bucket, key);
      assert "/" + path == "/" + c.bucket + "/" + key;
    } else {
      VirtualHostAccepted(c, authority);
      assert PublicUrl(c, key) == ("https://" + VirtualHost(c)) + "/" + key;
      PathnameOf("https://" + VirtualHost(c), VirtualHost(c), key);
    }
  }

  /** Without an endpoint the first segment is dropped, or the leading slash kept if there is none. */
  lemma VirtualHostKey(c: Config, authority: string, segment: string, rest: string)
    requires Deployed(c, authority) && !HasEndpoint(c) && segment != "" && '/' !in segment
    requires PlainPath(segment) && PlainPath(segment + "/" + rest)
    ensures ExtractS3Key(PublicUrl(c, segment + "/" + rest)) == rest
    ensures ExtractS3Key(PublicUrl(c, segment)) == "/" + segment
  {
    hide ExtractS3Key, PublicUrl;
    ExtractedKey(c, authority, segment + "/" + rest);
    StripOf(segment, rest);
    assert "/" + (segment + "/" + rest) == "/" + segment + "/" + rest;
    ExtractedKey(c, authority, segment);
    SegmentKept(segment);
  }

  lemma SegmentKept(segment: string)
    requires segment != "" && '/' !in segment
    ensures StripFirstSegment("/" + segment) == "/" + segment
  {
    var path := "/" + segment;
    assert forall k :: 1 <= k < |path| ==> path[k] == segment[k - 1];
    FoundAt(path, '/', 1, |path|);
  }

  /** The key survives the round trip exactly when an endpoint is configured that the parser accepts. */
  lemma RoundTripExactly(c: Config, authority: string, key: string)
    requires Deployed(c, authority) && PlainPath(key)
    ensures ExtractS3Key(PublicUrl(c, key)) == key <==> HasEndpoint(c) && Accepted(authority)
  {
    hide ExtractS3Key, Accepted;
    ExtractedKey(c, authority, key);
    if !HasEndpoint(c) {
      assert |StripFirstSegment("/" + key)| != |key|;
    } else {
      assert |PublicUrl(c, key)| > |key|;
    }
  }
}
