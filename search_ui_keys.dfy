/**
 * The string rules of the import pipeline in weko_search_ui/utils.py: turning
 * a flattened TSV column key into a key path, recognising a TSV file name and
 * taking the payload of a base64 data URL.
 */
module ImportKeys {
  import opened Strings

  /**
   * The separator rewriting of `handle_generate_key_path`: `#.`, `[` and `#`
   * become `.` and `]` is deleted, in that order.
   */
  function NormalizeKey(key: string): string
  {
    ReplaceAll(ReplaceAll(ReplaceAll(ReplaceAll(key, "#.", "."), "[", "."), "]", ""), "#", ".")
  }

  /** After the rewriting no bracket and no `#` is left. */
  lemma NormalizeKeyClean(key: string)
    ensures '[' !in NormalizeKey(key) && ']' !in NormalizeKey(key) && '#' !in NormalizeKey(key)
  {
    var a := ReplaceAll(key, "#.", ".");
    var b := ReplaceAll(a, "[", ".");
    var c := ReplaceAll(b, "]", "");
    ReplaceAllRemoves(a, '[', ".");
    ReplaceAllChars(b, "]", "");
    ReplaceAllRemoves(b, ']', "");
    ReplaceAllChars(c, "#", ".");
    ReplaceAllRemoves(c, '#', ".");
  }

  /**
   * `handle_generate_key_path`: the rewritten key split on `.`, without its
   * first piece when that piece is empty. No piece holds a separator.
   */
  function KeyPath(key: string): (path: seq<string>)
    ensures forall i :: 0 <= i < |path| ==>
      '[' !in path[i] && ']' !in path[i] && '#' !in path[i] && '.' !in path[i]
  {
    var n := NormalizeKey(key);
    NormalizeKeyClean(key);
    SplitPartsFree(n, '.');
    SplitPartsChars(n, '.');
    var parts := Split(n, '.');
    if parts[0] == "" then
      assert forall i :: 0 <= i < |parts| - 1 ==> parts[1..][i] == parts[i + 1];
      parts[1..]
    else parts
  }

  /**
   * Exactly a leading empty piece is dropped: an empty rewritten key has the
   * empty path, one starting with `.` is split after that `.`, any other is
   * split whole; so joining the path with `.` gives the rewritten key back,
   * less its leading `.`.
   */
  lemma KeyPathRoundTrip(key: string)
    ensures NormalizeKey(key) == "" ==> KeyPath(key) == []
    ensures NormalizeKey(key) != "" && NormalizeKey(key)[0] == '.' ==>
      KeyPath(key) == Split(NormalizeKey(key)[1..], '.') && "." + Join(KeyPath(key), '.') == NormalizeKey(key)
    ensures NormalizeKey(key) != "" && NormalizeKey(key)[0] != '.' ==>
      KeyPath(key) == Split(NormalizeKey(key), '.') && Join(KeyPath(key), '.') == NormalizeKey(key)
  {
    var n := NormalizeKey(key);
    if n != "" {
      if n[0] == '.' {
        assert Split(n, '.') == [""] + Split(n[1..], '.');
        JoinSplit(n[1..], '.');
        assert n == "." + n[1..];
      } else {
        assert Split(n, '.')[0] != "";
        JoinSplit(n, '.');
      }
    }
  }

  /** A key with a leading separator loses the empty piece before it. */
  lemma LeadingSeparatorExample()
    ensures KeyPath(".a") == ["a"]
  {
    ReplaceAllAbsent(".a", "#.", ".");
    ReplaceAllAbsent(".a", "[", ".");
    ReplaceAllAbsent(".a", "]", "");
    ReplaceAllAbsent(".a", "#", ".");
    KeyPathRoundTrip(".a");
    assert ".a"[1..] == "a";
  }

  /** The pieces of a key path spell it back: a separator-free path is its own key path. */
  lemma KeyPathOfJoin(path: seq<string>)
    requires |path| > 0 && path[0] != ""
    requires forall i :: 0 <= i < |path| ==>
      '[' !in path[i] && ']' !in path[i] && '#' !in path[i] && '.' !in path[i]
    ensures KeyPath(Join(path, '.')) == path
  {
    var key := Join(path, '.');
    JoinChars(path, '.');
    ReplaceAllAbsent(key, "#.", ".");
    ReplaceAllAbsent(key, "[", ".");
    ReplaceAllAbsent(key, "]", "");
    ReplaceAllAbsent(key, "#", ".");
    assert NormalizeKey(key) == key;
    SplitJoin(path, '.');
  }

  /** A nested TSV column key becomes its list of dict keys. */
  lemma KeyPathExample()
    ensures KeyPath("a[0].b") == ["a", "0", "b"]
  {
    NormalizeExample();
    SplitExample();
    assert Split(NormalizeKey("a[0].b"), '.') == ["a", "0", "b"];
  }

  lemma SplitExample()
    ensures Split("a.0.b", '.') == ["a", "0", "b"]
  {
    JoinExample();
    SplitJoin(["a", "0", "b"], '.');
  }

  lemma NormalizeExample()
    ensures NormalizeKey("a[0].b") == "a.0.b"
  {
    ReplaceAllAbsent("a[0].b", "#.", ".");
    OpenBracketExample();
    CloseBracketExample();
    ReplaceAllAbsent("a.0.b", "#", ".");
  }

  lemma JoinExample()
    ensures Join(["a", "0", "b"], '.') == "a.0.b"
  {
  }

  lemma OpenBracketExample()
    ensures ReplaceAll("a[0].b", "[", ".") == "a.0].b"
  {
    assert "a[0].b" == "a" + ['['] + "0].b";
    ReplaceAllAbsent("0].b", "[", ".");
    ReplaceCharAt("a", '[', "0].b", ".");
  }

  lemma CloseBracketExample()
    ensures ReplaceAll("a.0].b", "]", "") == "a.0.b"
  {
    assert "a.0].b" == "a.0" + [']'] + ".b";
    ReplaceAllAbsent(".b", "]", "");
    ReplaceCharAt("a.0", ']', ".b", "");
  }

  /** `is_tsv`: the text after the last `.` of the file name is `tsv`. */
  function IsTsv(name: string): bool
  {
    LastSegment(name, '.') == "tsv"
  }

  /** A name is a TSV name exactly when it is `tsv` itself or ends in `.tsv`. */
  lemma IsTsvIff(name: string)
    ensures IsTsv(name) <==> name == "tsv" || (|name| >= 4 && name[|name| - 4..] == ".tsv")
  {
    if '.' in name {
      IsTsvDotted(name);
    } else {
      LastSegmentWhole(name, '.');
      if |name| >= 4 {
        assert name[|name| - 4] in name;
      }
    }
  }

  /** For a name with a `.`, the last piece is `tsv` exactly when the name ends in `.tsv`. */
  lemma IsTsvDotted(name: string)
    requires '.' in name
    ensures LastSegment(name, '.') == "tsv" <==> |name| >= 4 && name[|name| - 4..] == ".tsv"
    ensures name != "tsv"
  {
    if |name| >= 4 && name[|name| - 4..] == ".tsv" {
      TsvSuffixLast(name);
    }
    if LastSegment(name, '.') == "tsv" {
      TsvLastSuffix(name);
    }
  }

  /** A name ending in `.tsv` has `tsv` as its last piece. */
  lemma TsvSuffixLast(name: string)
    requires |name| >= 4 && name[|name| - 4..] == ".tsv"
    ensures LastSegment(name, '.') == "tsv"
  {
    var u := name[..|name| - 4];
    assert name == u + ['.'] + "tsv";
    LastSegmentAfter(u, "tsv", '.');
  }

  /** A name with a `.` whose last piece is `tsv` ends in `.tsv`. */
  lemma TsvLastSuffix(name: string)
    requires '.' in name && LastSegment(name, '.') == "tsv"
    ensures |name| >= 4 && name[|name| - 4..] == ".tsv"
  {
    RSplitRoundTrip(name, '.');
    var u := RSplitHead(name, '.');
    assert name == u + ['.'] + "tsv";
    assert name[|name| - 4..] == ['.'] + "tsv";
  }

  /** `get_base64_string`: the text after the last comma of a data URL. */
  function GetBase64String(data: string): (r: string)
    ensures ',' !in r
    ensures ',' !in data ==> r == data
    ensures ',' in data ==> RSplitHead(data, ',') + "," + r == data
  {
    LastSegmentFree(data, ',');
    if ',' in data then
      RSplitRoundTrip(data, ',');
      LastSegment(data, ',')
    else
      LastSegmentWhole(data, ',');
      LastSegment(data, ',')
  }
}
