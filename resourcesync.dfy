/**
 * The retry rule of invenio_resourcesyncclient/utils.py around the client of
 * the ResourceSync Framework (ANSI/NISO Z39.99-2017): when the client cannot
 * map the source URL onto the local mapping, the last `/`-segment of the
 * first mapping is stripped and the call is tried again, until it succeeds
 * or only `scheme://host` is left.
 *
 * The client is an oracle: given the current mappings and the URL to read,
 * it syncs, reports a mapping error, or raises some other exception.
 */
module ResourceSync {
  import opened Wrappers
  import opened Strings

  /** One client call: synced, a `MapperError`, or another exception. */
  datatype Attempt = Synced | MapperError | Raised(error: PyError)

  /** A client call for the given mappings and change-list URL (the start date is fixed per caller). */
  type Client = (seq<string>, string) -> Attempt

  /**
   * How the loop of `single_sync_incremental` ends: by the loop condition
   * (`synced` says whether a call succeeded), by an exception, or not at
   * all: `Spins` stands for a state that repeats forever, a mapping error on
   * a first mapping that has no `/` left and is not the host.
   */
  datatype RetryResult = Finished(synced: bool) | Failed(error: PyError) | Spins

  // ---------------------------------------------------------------------
  // urlsplit / urlunsplit
  // ---------------------------------------------------------------------

  predicate SchemeChar(c: char)
  {
    'a' <= c <= 'z' || 'A' <= c <= 'Z' || '0' <= c <= '9' || c == '+' || c == '-' || c == '.'
  }

  function LowerChar(c: char): char
  {
    if 'A' <= c <= 'Z' then (c as int + 32) as char else c
  }

  function Lower(s: string): (r: string)
    ensures |r| == |s| && forall i :: 0 <= i < |s| ==> r[i] == LowerChar(s[i])
  {
    seq(|s|, i requires 0 <= i < |s| => LowerChar(s[i]))
  }

  /** The position of the first occurrence of `c`, or `|s|` when there is none. */
  function Find(s: string, c: char): (i: nat)
    ensures i <= |s| && (i < |s| ==> s[i] == c)
    ensures forall k :: 0 <= k < i ==> s[k] != c
  {
    if |s| == 0 then 0
    else if s[0] == c then 0
    else 1 + Find(s[1..], c)
  }

  /** The length of the network location at the start of `s`: up to the first `/`, `?` or `#`. */
  function NetlocLength(s: string): (n: nat)
    ensures n <= |s| && (n < |s| ==> s[n] in "/?#")
    ensures forall i :: 0 <= i < n ==> s[i] !in "/?#"
  {
    if |s| == 0 || s[0] in "/?#" then 0 else 1 + NetlocLength(s[1..])
  }

  /** The schemes `urlunsplit` writes with `//` even when the network location is empty. */
  const UsesNetloc: set<string> := {
    "", "ftp", "http", "gopher", "nntp", "telnet", "imap", "wais", "file", "mms", "https", "shttp",
    "snews", "prospero", "rtsp", "rtspu", "rsync", "svn", "svn+ssh", "sftp", "nfs", "git", "git+ssh", "ws", "wss"
  }

  /** `urlsplit(url)[:2]`: the lower-cased scheme and the network location. */
  function SchemeAndNetloc(url: string): (string, string)
  {
    var i := Find(url, ':');
    var hasScheme := HasScheme(url, i);
    var scheme := if hasScheme then Lower(url[..i]) else "";
    var rest := if hasScheme then url[i + 1..] else url;
    (scheme, Netloc(rest))
  }

  /** The text before the first `:` (at `i`) is a scheme: non-empty, of scheme characters, and not the whole URL. */
  predicate HasScheme(url: string, i: nat)
  {
    0 < i < |url| && forall k :: 0 <= k < i ==> SchemeChar(url[k])
  }

  /** The network location of what follows the scheme: present only after `//`. */
  function Netloc(rest: string): string
  {
    if |rest| >= 2 && rest[..2] == "//" then rest[2..][..NetlocLength(rest[2..])] else ""
  }

  /** `urlunsplit([scheme, netloc, '', '', ''])` of the split of `url`: its `scheme://netloc` prefix. */
  function SchemeHost(url: string): string
  {
    var (scheme, netloc) := SchemeAndNetloc(url);
    var tail := if |netloc| > 0 || (|scheme| > 0 && scheme in UsesNetloc) then "//" + netloc else "";
    if |scheme| > 0 then scheme + ":" + tail else tail
  }

  /**
   * A URL `scheme://host` followed by nothing or by a path, query or
   * fragment reduces to `scheme://host`, for a lower-case scheme.
   */
  lemma SchemeHostOf(scheme: string, host: string, path: string)
    requires |scheme| > 0 && forall i :: 0 <= i < |scheme| ==> 'a' <= scheme[i] <= 'z'
    requires |host| > 0 && forall i :: 0 <= i < |host| ==> host[i] !in "/?#"
    requires path == "" || path[0] in "/?#"
    ensures SchemeHost(scheme + "://" + host + path) == scheme + "://" + host
  {
    SplitOf(scheme, host, path);
    assert scheme + ":" + ("//" + host) == scheme + "://" + host;
  }

  /** The split of `scheme://host` followed by a path. */
  lemma SplitOf(scheme: string, host: string, path: string)
    requires |scheme| > 0 && forall i :: 0 <= i < |scheme| ==> 'a' <= scheme[i] <= 'z'
    requires forall i :: 0 <= i < |host| ==> host[i] !in "/?#"
    requires path == "" || path[0] in "/?#"
    ensures SchemeAndNetloc(scheme + "://" + host + path) == (scheme, host)
  {
    var url := scheme + "://" + host + path;
    FindAt(url, scheme);
    assert url[..|scheme|] == scheme;
    assert HasScheme(url, |scheme|) by {
      assert forall k :: 0 <= k < |scheme| ==> url[k] == scheme[k];
    }
    assert Lower(scheme) == scheme;
    NetlocAfter(host, path);
    assert url[|scheme| + 1..] == "//" + host + path;
  }

  lemma NetlocAfter(host: string, path: string)
    requires forall i :: 0 <= i < |host| ==> host[i] !in "/?#"
    requires path == "" || path[0] in "/?#"
    ensures Netloc("//" + host + path) == host
  {
    var rest := "//" + host + path;
    assert rest[..2] == "//";
    assert rest[2..] == host + path;
    NetlocOf(host, path);
  }

  /** The first `:` of a URL is the one after its scheme. */
  lemma FindAt(url: string, scheme: string)
    requires |scheme| < |url| && url[..|scheme|] == scheme && url[|scheme|] == ':'
    requires forall i :: 0 <= i < |scheme| ==> 'a' <= scheme[i] <= 'z'
    ensures Find(url, ':') == |scheme|
  {
    assert forall k :: 0 <= k < |scheme| ==> url[k] == scheme[k];
  }

  /** The network location ends where the path, query or fragment begins. */
  lemma NetlocOf(host: string, path: string)
    requires forall i :: 0 <= i < |host| ==> host[i] !in "/?#"
    requires path == "" || path[0] in "/?#"
    ensures NetlocLength(host + path) == |host| && (host + path)[..|host|] == host
  {
    assert path != "" ==> (host + path)[|host|] == path[0];
    assert forall k :: 0 <= k < |host| ==> (host + path)[k] == host[k];
  }

  // ---------------------------------------------------------------------
  // the trimming retry
  // ---------------------------------------------------------------------

  /** `s.rsplit('/', 1)[0]`. */
  function TrimLastSegment(s: string): (r: string)
    ensures '/' !in s ==> r == s
    ensures '/' in s ==> |r| < |s| && r == s[..|r|] && s[|r|] == '/'
    ensures forall k :: |r| < k < |s| ==> s[k] != '/'
  {
    if '/' in s then
      var r := RSplitHead(s, '/');
      assert forall k :: |r| < k < |s| ==> s[k] == s[|r| + 1..][k - |r| - 1];
      r
    else s
  }

  /**
   * The loop of `single_sync_incremental` from first mapping `mappings[0]`:
   * the result and the first mapping it leaves.
   */
  function Retry(mappings: seq<string>, host: string, url: string, client: Client): (RetryResult, string)
    requires |mappings| > 0
    decreases |mappings[0]|
  {
    var current := mappings[0];
    if current == host then (Finished(false), current)
    else match client(mappings, url)
      case Synced => (Finished(true), current)
      case Raised(e) => (Failed(e), current)
      case MapperError =>
        if '/' !in current then (Spins, current)
        else Retry(mappings[0 := TrimLastSegment(current)], host, url, client)
  }

  /**
   * What the loop leaves: a prefix of the first mapping; the host when it
   * stopped without syncing; a mapping the client accepted when it synced; a
   * mapping without `/` the client rejects when it spins.
   */
  lemma {:induction false} RetryEnds(mappings: seq<string>, host: string, url: string, client: Client)
    requires |mappings| > 0
    ensures var (res, last) := Retry(mappings, host, url, client);
      |last| <= |mappings[0]| && last == mappings[0][..|last|]
      && (mappings[0] == host ==> res == Finished(false) && last == host)
      && (res == Finished(false) ==> last == host)
      && (res == Finished(true) ==> client(mappings[0 := last], url) == Synced)
      && (res.Failed? ==> client(mappings[0 := last], url) == Raised(res.error))
      && (res.Spins? ==> '/' !in last && last != host && client(mappings[0 := last], url) == MapperError)
    decreases |mappings[0]|
  {
    var current := mappings[0];
    assert mappings[0 := current] == mappings;
    if current != host && client(mappings, url) == MapperError && '/' in current {
      var next := mappings[0 := TrimLastSegment(current)];
      RetryEnds(next, host, url, client);
      assert Retry(mappings, host, url, client) == Retry(next, host, url, client);
      var last := Retry(next, host, url, client).1;
      assert next[0 := last] == mappings[0 := last];
      assert next[0] == current[..|next[0]|];
    }
  }

  /**
   * When the first mapping is the host followed by nothing or by a path
   * starting with `/`, the loop cannot spin: each trim keeps that form and
   * the host is reached at the latest once every segment is gone.
   */
  lemma {:induction false} RetryNoSpin(mappings: seq<string>, host: string, url: string, client: Client, path: string)
    requires |mappings| > 0 && mappings[0] == host + path && (path == "" || path[0] == '/')
    ensures !Retry(mappings, host, url, client).0.Spins?
    decreases |mappings[0]|
  {
    var current := mappings[0];
    if current != host && client(mappings, url) == MapperError {
      assert path != "";
      assert current[|host|] == '/';
      var trimmed := TrimLastSegment(current);
      assert |trimmed| >= |host|;
      var path' := trimmed[|host|..];
      assert trimmed == host + path';
      RetryNoSpin(mappings[0 := trimmed], host, url, client, path');
    }
  }

  /**
   * A first mapping `scheme://host` followed by nothing or by a `/`-path
   * never makes `single_sync_incremental` spin: the trimming reaches the
   * host computed from it.
   */
  lemma FirstSyncNoSpin(mappings: seq<string>, url: string, client: Client, scheme: string, host: string, path: string)
    requires |scheme| > 0 && forall i :: 0 <= i < |scheme| ==> 'a' <= scheme[i] <= 'z'
    requires |host| > 0 && forall i :: 0 <= i < |host| ==> host[i] !in "/?#"
    requires path == "" || path[0] == '/'
    requires |mappings| > 0 && mappings[0] == scheme + "://" + host + path
    ensures !FirstSync(mappings, url, client).Spins?
  {
    SchemeHostOf(scheme, host, path);
    assert mappings[0] == (scheme + "://" + host) + path;
    RetryNoSpin(mappings, scheme + "://" + host, url, client, path);
  }

  /**
   * `single_sync_incremental`: the first mapping is trimmed in place after
   * each mapping error; the other mappings are untouched. An empty mapping
   * list fails on `mappings[0]`.
   */
  method SingleSyncIncremental(mappings: array<string>, url: string, client: Client) returns (r: RetryResult)
    modifies mappings
    ensures mappings.Length == 0 ==> r == Failed(IndexError)
    ensures mappings.Length > 0 ==>
      var (res, last) := Retry(old(mappings[..]), SchemeHost(old(mappings[0])), url, client);
      r == res && mappings[..] == old(mappings[..])[0 := last]
  {
    if mappings.Length == 0 {
      return Failed(IndexError);
    }
    var host := SchemeHost(mappings[0]);
    var synced := false;
    while mappings[0] != host && !synced
      invariant mappings[1..] == old(mappings[1..])
      invariant !synced ==> Retry(mappings[..], host, url, client) == Retry(old(mappings[..]), host, url, client)
      invariant synced ==> Retry(old(mappings[..]), host, url, client) == (Finished(true), mappings[0])
      decreases |mappings[0]|, if synced then 0 else 1
    {
      var attempt := client(mappings[..], url);
      if attempt.Synced? {
        synced := true;
      } else if attempt.Raised? {
        assert mappings[..] == old(mappings[..])[0 := mappings[0]];
        return Failed(attempt.error);
      } else {
        if '/' !in mappings[0] {
          assert mappings[..] == old(mappings[..])[0 := mappings[0]];
          return Spins;
        }
        mappings[0] := TrimLastSegment(mappings[0]);
      }
    }
    assert mappings[..] == old(mappings[..])[0 := mappings[0]];
    r := Finished(synced);
  }

  /**
   * `sync_baseline`: one client call; on a mapping error the first mapping
   * loses its last segment and the call reports False for the caller to
   * retry; any other exception propagates.
   */
  method SyncBaseline(mappings: array<string>, baseUrl: string, client: Client) returns (r: Result<bool, PyError>)
    modifies mappings
    ensures client(old(mappings[..]), baseUrl) == Synced ==> r == Ok(true) && mappings[..] == old(mappings[..])
    ensures client(old(mappings[..]), baseUrl).Raised? ==>
      r == Err(client(old(mappings[..]), baseUrl).error) && mappings[..] == old(mappings[..])
    ensures client(old(mappings[..]), baseUrl) == MapperError && mappings.Length == 0 ==> r == Err(IndexError)
    ensures client(old(mappings[..]), baseUrl) == MapperError && mappings.Length > 0 ==>
      r == Ok(false) && mappings[..] == old(mappings[..])[0 := TrimLastSegment(old(mappings[0]))]
  {
    var attempt := client(mappings[..], baseUrl);
    match attempt
    case Synced => return Ok(true);
    case Raised(e) => return Err(e);
    case MapperError =>
      if mappings.Length == 0 {
        return Err(IndexError);
      }
      mappings[0] := TrimLastSegment(mappings[0]);
      return Ok(false);
  }

  /** `read_capability`: the `capability` entry of the document's metadata, if any; a read error propagates. */
  function ReadCapability(document: Result<map<string, string>, PyError>): (r: Result<Option<string>, PyError>)
    ensures document.Err? ==> r == Err(document.error)
    ensures document.Ok? && "capability" in document.value ==> r == Ok(Some(document.value["capability"]))
    ensures document.Ok? && "capability" !in document.value ==> r == Ok(None)
  {
    match document
    case Err(e) => Err(e)
    case Ok(md) => if "capability" in md then Ok(Some(md["capability"])) else Ok(None)
  }

  /** A capability `sync_incremental` accepts for a listed document. */
  predicate ChangeCapability(c: Result<Option<string>, PyError>)
  {
    c == Ok(Some("changelist")) || c == Ok(Some("changedump"))
  }

  /** How `sync_incremental` ends: it returns True, raises, or runs forever in a retry loop. */
  datatype SyncOutcome = Done | Error(error: PyError) | Diverges

  /** The outcome of the first `single_sync_incremental` call of `sync_incremental`. */
  function FirstSync(mappings: seq<string>, baseUrl: string, client: Client): RetryResult
  {
    if |mappings| == 0 then Failed(IndexError)
    else Retry(mappings, SchemeHost(mappings[0]), baseUrl, client).0
  }

  /** `now` is `before` with only its first mapping cut back to a prefix of itself. */
  predicate TrimmedFrom(now: seq<string>, before: seq<string>)
  {
    |now| == |before|
    && (|before| > 0 ==>
          now[1..] == before[1..] && |now[0]| <= |before[0]| && now[0] == before[0][..|now[0]|])
  }

  lemma TrimmedTrans(a: seq<string>, b: seq<string>, c: seq<string>)
    requires TrimmedFrom(a, b) && TrimmedFrom(b, c)
    ensures TrimmedFrom(a, c)
  {
    if |c| > 0 {
      assert a[0] == b[0][..|a[0]|] == c[0][..|b[0]|][..|a[0]|];
    }
  }

  /** One `single_sync_incremental` call only trims the first mapping. */
  lemma RetryTrims(before: seq<string>, host: string, url: string, client: Client)
    requires |before| > 0
    ensures TrimmedFrom(before[0 := Retry(before, host, url, client).1], before)
  {
    RetryEnds(before, host, url, client);
    var now := before[0 := Retry(before, host, url, client).1];
    assert now[1..] == before[1..];
  }

  /**
   * `sync_incremental`: a first sync from the base URL returns True whether
   * or not it synced. When it raises, the base URL is read as a list of
   * documents: each must have capability `changelist` or `changedump` and
   * is synced in turn (raising a string raises TypeError); with no documents
   * the first exception propagates. `fetchList` reads the URIs a sitemap
   * lists and `fetchDocument` a document's metadata.
   */
  method SyncIncremental(mappings: array<string>, baseUrl: string, client: Client,
                         fetchList: string -> Result<seq<string>, PyError>,
                         fetchDocument: string -> Result<map<string, string>, PyError>)
    returns (r: SyncOutcome)
    modifies mappings
    ensures FirstSync(old(mappings[..]), baseUrl, client).Finished? ==> r == Done
    ensures FirstSync(old(mappings[..]), baseUrl, client).Spins? ==> r == Diverges
    ensures FirstSync(old(mappings[..]), baseUrl, client).Failed? && fetchList(baseUrl).Err? ==>
      r == Error(fetchList(baseUrl).error)
    ensures FirstSync(old(mappings[..]), baseUrl, client).Failed? && fetchList(baseUrl) == Ok([]) ==>
      r == Error(FirstSync(old(mappings[..]), baseUrl, client).error)
    ensures FirstSync(old(mappings[..]), baseUrl, client).Failed? && r == Done ==>
      fetchList(baseUrl).Ok? && |fetchList(baseUrl).value| > 0 && AllChangeDocuments(fetchList(baseUrl).value, fetchDocument)
    ensures TrimmedFrom(mappings[..], old(mappings[..]))
    ensures mappings.Length > 0
            && (FirstSync(old(mappings[..]), baseUrl, client).Failed? ==> fetchList(baseUrl).Err? || fetchList(baseUrl) == Ok([]))
            ==> mappings[..] == old(mappings[..])[0 := Retry(old(mappings[..]), SchemeHost(old(mappings[0])), baseUrl, client).1]
  {
    var first := SingleSyncIncremental(mappings, baseUrl, client);
    assert first == FirstSync(old(mappings[..]), baseUrl, client);
    if mappings.Length > 0 {
      RetryTrims(old(mappings[..]), SchemeHost(old(mappings[0])), baseUrl, client);
    }
    ghost var afterFirst := mappings[..];
    match first
    case Finished(_) => return Done;
    case Spins => return Diverges;
    case Failed(e) =>
      var docs := fetchList(baseUrl);
      if docs.Err? {
        return Error(docs.error);
      }
      if |docs.value| == 0 {
        return Error(e);
      }
      r := SyncDocuments(mappings, docs.value, client, fetchDocument);
      TrimmedTrans(mappings[..], afterFirst, old(mappings[..]));
  }

  /** Every listed document has capability `changelist` or `changedump`. */
  predicate AllChangeDocuments(uris: seq<string>, fetchDocument: string -> Result<map<string, string>, PyError>)
  {
    forall i :: 0 <= i < |uris| ==> ChangeCapability(ReadCapability(fetchDocument(uris[i])))
  }

  /**
   * The fallback loop of `sync_incremental`: each listed document is checked
   * for its capability and synced; the first failure ends the loop.
   */
  method SyncDocuments(mappings: array<string>, uris: seq<string>, client: Client,
                       fetchDocument: string -> Result<map<string, string>, PyError>)
    returns (r: SyncOutcome)
    modifies mappings
    ensures r == Done ==> AllChangeDocuments(uris, fetchDocument)
    ensures TrimmedFrom(mappings[..], old(mappings[..]))
  {
    for i := 0 to |uris|
      invariant AllChangeDocuments(uris[..i], fetchDocument)
      invariant TrimmedFrom(mappings[..], old(mappings[..]))
    {
      var capability := ReadCapability(fetchDocument(uris[i]));
      if capability.Err? {
        return Error(capability.error);
      }
      if !ChangeCapability(capability) {
        return Error(TypeError);
      }
      assert uris[..i + 1] == uris[..i] + [uris[i]];
      ghost var before := mappings[..];
      var next := SingleSyncIncremental(mappings, uris[i], client);
      if mappings.Length > 0 {
        RetryTrims(before, SchemeHost(before[0]), uris[i], client);
      }
      TrimmedTrans(mappings[..], before, old(mappings[..]));
      if next.Failed? {
        return Error(next.error);
      }
      if next.Spins? {
        return Diverges;
      }
    }
    assert uris[..|uris|] == uris;
    return Done;
  }
}
