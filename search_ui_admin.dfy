/**
 * Administration helpers of weko_search_ui/utils.py: the path-list update of
 * `delete_records`, the grouping of feedback-mail buckets by address in
 * `parse_feedback_mail_data`, and the role test of `check_permission`.
 */
module SearchUiAdmin {
  import opened Wrappers
  import opened Strings
  import opened JsonValues

  // ---------------------------------------------------------------------
  // delete_records: removing the deleted index from a record's paths
  // ---------------------------------------------------------------------

  /** The match test as written: the path text ends with the index id. */
  predicate EndsWithId(path: string, indexId: nat)
  {
    EndsWith(path, NatToString(indexId))
  }

  /** The match test as intended: the last `/`-segment of the path is the index id. */
  predicate NamesIndex(path: string, indexId: nat)
  {
    LastSegment(path, '/') == NatToString(indexId)
  }

  /** The path the loop of `delete_records` removes as written: the first one ending with the id. */
  function RemovedAsWritten(paths: seq<string>, indexId: nat): (r: Option<string>)
    ensures r.Some? ==> exists k :: 0 <= k < |paths| && paths[k] == r.value && EndsWithId(paths[k], indexId)
                                    && forall j :: 0 <= j < k ==> !EndsWithId(paths[j], indexId)
    ensures r.None? ==> forall i :: 0 <= i < |paths| ==> !EndsWithId(paths[i], indexId)
  {
    if |paths| == 0 then None
    else if EndsWithId(paths[0], indexId) then Some(paths[0])
    else
      var r := RemovedAsWritten(paths[1..], indexId);
      assert r.Some? ==> exists k :: 0 <= k < |paths[1..]| && paths[1..][k] == r.value && EndsWithId(paths[1..][k], indexId)
                                    && forall j :: 0 <= j < k ==> !EndsWithId(paths[1..][j], indexId);
      if r.Some? then
        var k :| 0 <= k < |paths[1..]| && paths[1..][k] == r.value && EndsWithId(paths[1..][k], indexId)
                 && forall j :: 0 <= j < k ==> !EndsWithId(paths[1..][j], indexId);
        assert forall j :: 0 <= j < k + 1 ==> !EndsWithId(paths[j], indexId) by {
          forall j | 0 <= j < k + 1 ensures !EndsWithId(paths[j], indexId) {
            if j > 0 { assert paths[j] == paths[1..][j - 1]; }
          }
        }
        r
      else r
  }

  /**
   * Deleting index 2 as written strips the path "5/12" of a record filed
   * under index 12 (and so can delete that record), though "5/12" does not
   * name index 2.
   */
  lemma SuffixMatchExample()
    ensures RemovedAsWritten(["5/12"], 2) == Some("5/12")
    ensures !NamesIndex("5/12", 2)
  {
    assert NatToString(2) == "2";
    assert EndsWithId("5/12", 2);
    LastSegmentAfter("5", "12", '/');
    assert "5/12" == "5" + ['/'] + "12";
  }

  /** The `path` field of a hit's record as `delete_records` reads it. */
  datatype PathField =
    | NoRecord                  // `Record.get_record` found no record
    | NoPathKey                 // the record has no `path` key, so `record['path']` raises
    | NullPath                  // the `path` value is None
    | Paths(list: seq<string>)  // the list of index paths

  /** What happens to one record's `path` field when an index is deleted. */
  datatype PathAction =
    | Untouched                                    // no record, a None `path`, or an empty list
    | Updated(paths: seq<string>)                  // the field is rewritten (and the record reindexed)
    | Deleted(paths: seq<string>, removed: string) // the field is rewritten and the record deleted

  /**
   * The loop of `delete_records` with the intended test: the first path that
   * names the index is removed and the others keep their order.
   */
  method RemovePath(paths: seq<string>, indexId: nat) returns (remaining: seq<string>, removed: Option<string>)
    ensures removed.None? <==> forall i :: 0 <= i < |paths| ==> !NamesIndex(paths[i], indexId)
    ensures removed.None? ==> remaining == paths
    ensures removed.Some? ==> exists k :: (0 <= k < |paths| && paths[k] == removed.value
                                            && NamesIndex(paths[k], indexId)
                                            && (forall i :: 0 <= i < k ==> !NamesIndex(paths[i], indexId))
                                            && remaining == paths[..k] + paths[k + 1..])
  {
    remaining := paths;
    removed := None;
    var i := 0;
    while i < |paths|
      invariant 0 <= i <= |paths|
      invariant forall j :: 0 <= j < i ==> !NamesIndex(paths[j], indexId)
    {
      if NamesIndex(paths[i], indexId) {
        removed := Some(paths[i]);
        remaining := paths[..i] + paths[i + 1..];
        return;
      }
      i := i + 1;
    }
  }

  /**
   * The per-record part of `delete_records`: the record is skipped when it
   * is missing, its `path` is None or the list is empty; a missing `path` key
   * raises. Otherwise the first path naming the index is removed, and the
   * record is deleted when that leaves no path.
   */
  method DeletePathFromRecord(field: PathField, indexId: nat) returns (r: Result<PathAction, PyError>)
    ensures r.Err? <==> field.NoPathKey?
    ensures r.Err? ==> r.error == KeyError
    ensures r == Ok(Untouched) <==> field.NoRecord? || field.NullPath? || field == Paths([])
    ensures r.Ok? && r.value.Deleted? <==>
              field.Paths? && |field.list| == 1 && NamesIndex(field.list[0], indexId)
    ensures r.Ok? && r.value.Deleted? ==> r.value.paths == [] && r.value.removed == field.list[0]
    ensures r.Ok? && !r.value.Untouched? ==>
              field.Paths? && (r.value.paths == field.list <==>
                               forall i :: 0 <= i < |field.list| ==> !NamesIndex(field.list[i], indexId))
    ensures r.Ok? && !r.value.Untouched? ==>
              field.Paths? && (r.value.paths == field.list
                               || exists k :: 0 <= k < |field.list| && NamesIndex(field.list[k], indexId)
                                    && (forall i :: 0 <= i < k ==> !NamesIndex(field.list[i], indexId))
                                    && r.value.paths == field.list[..k] + field.list[k + 1..])
  {
    match field
    case NoPathKey =>
      return Err(KeyError);
    case NoRecord =>
      return Ok(Untouched);
    case NullPath =>
      return Ok(Untouched);
    case Paths(list) =>
      if |list| == 0 {
        return Ok(Untouched);
      }
      var remaining, removed := RemovePath(list, indexId);
      if removed.Some? {
        var k :| 0 <= k < |list| && list[k] == removed.value && NamesIndex(list[k], indexId)
          && (forall i :: 0 <= i < k ==> !NamesIndex(list[i], indexId))
          && remaining == list[..k] + list[k + 1..];
        assert |remaining| == |list| - 1;
        if |remaining| == 0 {
          assert k == 0;
          return Ok(Deleted(remaining, removed.value));
        }
      }
      return Ok(Updated(remaining));
  }

  // ---------------------------------------------------------------------
  // parse_feedback_mail_data
  // ---------------------------------------------------------------------

  /** One search hit of an aggregation bucket: its `_id` and its `_source.author_id`. */
  datatype Hit = Hit(id: string, authorId: Option<string>)

  /** One `email_list` bucket: the address, its `doc_count` and its top hits. */
  datatype Bucket = Bucket(key: string, docCount: int, hits: seq<Hit>)

  /** What the result holds for one address: `{'author_id': …, 'item': […]}`. */
  datatype MailEntry = MailEntry(authorId: Option<string>, items: seq<string>)

  /** An author id is truthy when it is a non-empty string. */
  predicate AuthorSet(a: Option<string>)
  {
    a.Some? && |a.value| > 0
  }

  /** The position of the first hit with a non-empty author id, or the number of hits when there is none. */
  function FirstAuthorIndex(hits: seq<Hit>): (k: nat)
    ensures k <= |hits|
    ensures forall j :: 0 <= j < k ==> !AuthorSet(hits[j].authorId)
    ensures k < |hits| ==> AuthorSet(hits[k].authorId)
  {
    if |hits| == 0 then 0
    else if AuthorSet(hits[0].authorId) then 0
    else 1 + FirstAuthorIndex(hits[1..])
  }

  /** The first-index rule picks out a single position. */
  lemma FirstAuthorIndexUnique(hits: seq<Hit>, k: nat)
    requires k <= |hits|
    requires forall j :: 0 <= j < k ==> !AuthorSet(hits[j].authorId)
    requires k < |hits| ==> AuthorSet(hits[k].authorId)
    ensures FirstAuthorIndex(hits) == k
  {
  }

  /**
   * The author id of an address, stated without the loop: the first
   * non-empty author id of the hits; failing that the last hit's author id
   * (each falsy one replaces the previous); and `''` when there are no hits.
   */
  function AuthorOf(hits: seq<Hit>): Option<string>
  {
    var k := FirstAuthorIndex(hits);
    if k < |hits| then hits[k].authorId
    else if |hits| > 0 then hits[|hits| - 1].authorId
    else Some("")
  }

  /** The hits' `_id`s, in order. */
  function Ids(hits: seq<Hit>): (ids: seq<string>)
    ensures |ids| == |hits| && forall i :: 0 <= i < |hits| ==> ids[i] == hits[i].id
  {
    seq(|hits|, i requires 0 <= i < |hits| => hits[i].id)
  }

  /** The result for `data` after its buckets have been read in order (None: not a list). */
  function Feedback(data: Option<seq<Bucket>>): seq<(string, MailEntry)>
  {
    if data.None? then [] else FeedbackOf(data.value)
  }

  function FeedbackOf(buckets: seq<Bucket>): seq<(string, MailEntry)>
    decreases |buckets|
  {
    if |buckets| == 0 then []
    else
      var acc := FeedbackOf(buckets[..|buckets| - 1]);
      var b := buckets[|buckets| - 1];
      if b.docCount == 0 then acc else Put(acc, b.key, MailEntry(AuthorOf(b.hits), Ids(b.hits)))
  }

  /** The inner loop over one bucket's hits. */
  method CollectHits(hits: seq<Hit>) returns (entry: MailEntry)
    ensures entry == MailEntry(AuthorOf(hits), Ids(hits))
  {
    var authorId: Option<string> := Some("");
    var items: seq<string> := [];
    for i := 0 to |hits|
      invariant items == Ids(hits[..i])
      invariant (exists j :: 0 <= j < i && AuthorSet(hits[j].authorId)) ==> authorId == AuthorOf(hits[..i])
      invariant (forall j :: 0 <= j < i ==> !AuthorSet(hits[j].authorId)) ==> authorId == AuthorOf(hits[..i])
    {
      if !AuthorSet(authorId) {
        authorId := hits[i].authorId;
      }
      items := items + [hits[i].id];
      AuthorOfStep(hits, i);
    }
    assert hits[..|hits|] == hits;
    entry := MailEntry(authorId, items);
  }

  /** Reading one more hit changes the author id only while none was found. */
  lemma AuthorOfStep(hits: seq<Hit>, i: nat)
    requires i < |hits|
    ensures AuthorOf(hits[..i + 1]) == if AuthorSet(AuthorOf(hits[..i])) then AuthorOf(hits[..i]) else hits[i].authorId
  {
    var pre := hits[..i];
    var ext := hits[..i + 1];
    var k := FirstAuthorIndex(pre);
    assert forall j :: 0 <= j < i ==> ext[j] == pre[j];
    if k < i {
      FirstAuthorIndexUnique(ext, k);
    } else if AuthorSet(hits[i].authorId) {
      FirstAuthorIndexUnique(ext, i);
    } else {
      FirstAuthorIndexUnique(ext, i + 1);
      if i > 0 {
        assert !AuthorSet(pre[i - 1].authorId);
      }
    }
  }

  /**
   * `parse_feedback_mail_data`: one entry per address of a bucket with a
   * non-zero `doc_count`; a later bucket for the same address replaces the
   * earlier entry but keeps its position.
   */
  method ParseFeedbackMailData(data: Option<seq<Bucket>>) returns (result: seq<(string, MailEntry)>)
    ensures result == Feedback(data)
  {
    result := [];
    if data.None? {
      return;
    }
    var buckets := data.value;
    for i := 0 to |buckets|
      invariant result == FeedbackOf(buckets[..i])
    {
      assert buckets[..i + 1][..i] == buckets[..i];
      if buckets[i].docCount != 0 {
        var entry := CollectHits(buckets[i].hits);
        result := Put(result, buckets[i].key, entry);
      }
    }
    assert buckets[..|buckets|] == buckets;
  }

  /** A bucket that gives `email` an entry: its key is the address and its count is not zero. */
  predicate Counted(b: Bucket, email: string)
  {
    b.key == email && b.docCount != 0
  }

  /** The addresses of the result are distinct. */
  lemma {:induction false} FeedbackDistinct(buckets: seq<Bucket>)
    ensures DistinctKeys(FeedbackOf(buckets))
    decreases |buckets|
  {
    if |buckets| > 0 {
      var pre := buckets[..|buckets| - 1];
      var b := buckets[|buckets| - 1];
      FeedbackDistinct(pre);
      if b.docCount != 0 {
        PutDistinct(FeedbackOf(pre), b.key, MailEntry(AuthorOf(b.hits), Ids(b.hits)));
      }
    }
  }

  /** An address has an entry exactly when some bucket with a non-zero count has it as key. */
  lemma {:induction false} FeedbackAbsent(buckets: seq<Bucket>, email: string)
    ensures Get(FeedbackOf(buckets), email).None? <==> forall i :: 0 <= i < |buckets| ==> !Counted(buckets[i], email)
    decreases |buckets|
  {
    if |buckets| > 0 {
      var pre := buckets[..|buckets| - 1];
      var b := buckets[|buckets| - 1];
      FeedbackAbsent(pre, email);
      assert forall i :: 0 <= i < |pre| ==> pre[i] == buckets[i];
      assert (forall i :: 0 <= i < |buckets| ==> !Counted(buckets[i], email)) <==>
        (forall i :: 0 <= i < |pre| ==> !Counted(pre[i], email)) && !Counted(b, email);
      if b.docCount != 0 {
        var e := MailEntry(AuthorOf(b.hits), Ids(b.hits));
        if b.key == email {
          GetPutSame(FeedbackOf(pre), b.key, e);
        } else {
          GetPutOther(FeedbackOf(pre), b.key, e, email);
        }
      }
    }
  }

  /** The entry of an address is the one built from the last counted bucket with that address. */
  lemma {:induction false} FeedbackLast(buckets: seq<Bucket>, email: string, i: nat)
    requires i < |buckets| && Counted(buckets[i], email)
    requires forall j :: i < j < |buckets| ==> !Counted(buckets[j], email)
    ensures Get(FeedbackOf(buckets), email) == Some(MailEntry(AuthorOf(buckets[i].hits), Ids(buckets[i].hits)))
    decreases |buckets|
  {
    var pre := buckets[..|buckets| - 1];
    var b := buckets[|buckets| - 1];
    if i == |buckets| - 1 {
      GetPutSame(FeedbackOf(pre), b.key, MailEntry(AuthorOf(b.hits), Ids(b.hits)));
    } else {
      assert pre[i] == buckets[i];
      assert forall j :: i < j < |pre| ==> pre[j] == buckets[j];
      FeedbackLast(pre, email, i);
      if b.docCount != 0 {
        GetPutOther(FeedbackOf(pre), b.key, MailEntry(AuthorOf(b.hits), Ids(b.hits)), email);
      }
    }
  }

  // ---------------------------------------------------------------------
  // check_permission
  // ---------------------------------------------------------------------

  /**
   * `check_permission`: the current user (roles by name, None when the user
   * has none) holds the system-administrator or the repository-administrator
   * role; the two role names come from the configuration.
   */
  method CheckPermission(roles: Option<seq<string>>, sysUser: string, repoUser: string) returns (permitted: bool)
    ensures permitted <==> roles.Some? && exists i :: 0 <= i < |roles.value| && (roles.value[i] == sysUser || roles.value[i] == repoUser)
  {
    permitted := false;
    var rs := if roles.Some? then roles.value else [];
    for i := 0 to |rs|
      invariant permitted <==> exists j :: 0 <= j < i && (rs[j] == sysUser || rs[j] == repoUser)
    {
      if rs[i] == sysUser || rs[i] == repoUser {
        permitted := true;
      }
    }
  }
}
