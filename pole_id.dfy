/**
 * The identifier extractor (`get_pole_id`): the pole ID stamped on an image is
 * the part of its file name before the first underscore, unless there is no
 * underscore or that part is a known non-asset prefix.
 */
module PoleId {
  import opened Text

  /** Prefixes that are not real pole IDs, compared after lower-casing. */
  const IgnoredPrefixes: set<string> := {"noasset"}

  /** A path separator as `os.path.basename` recognises it on Windows. */
  predicate IsSep(c: char) {
    c == '/' || c == '\\'
  }

  /** `os.path.basename`: the longest separator-free tail of the path. */
  function BaseName(path: string): (b: string)
    ensures |b| <= |path| && b == path[|path| - |b|..]
    ensures forall i :: 0 <= i < |b| ==> !IsSep(b[i])
    ensures |b| < |path| ==> IsSep(path[|path| - |b| - 1])
  {
    if path == [] || IsSep(path[|path| - 1]) then []
    else BaseName(path[..|path| - 1]) + [path[|path| - 1]]
  }

  /** A name without separators is its own base name. */
  lemma {:induction false} BaseNameOfName(name: string)
    requires forall i :: 0 <= i < |name| ==> !IsSep(name[i])
    ensures BaseName(name) == name
  {
    if |BaseName(name)| < |name| {
      assert IsSep(name[|name| - |BaseName(name)| - 1]);
    }
  }

  /** `s.split("_", 1)[0]`: everything before the first underscore (all of `s` if none). */
  function UpToUnderscore(s: string): (p: string)
    ensures p <= s
    ensures '_' !in p
    ensures |p| < |s| ==> s[|p|] == '_'
  {
    if s == [] || s[0] == '_' then [] else [s[0]] + UpToUnderscore(s[1..])
  }

  /** The part before the first underscore is the only underscore-free `p` with `p + "_"` a prefix. */
  lemma {:induction false} UpToUnderscoreUnique(s: string, p: string)
    requires '_' !in p && p + "_" <= s
    ensures UpToUnderscore(s) == p
  {
    if p != [] {
      assert s[0] == p[0] && p[0] != '_';
      assert p[1..] + "_" <= s[1..];
      UpToUnderscoreUnique(s[1..], p[1..]);
      assert p == [p[0]] + p[1..];
    } else {
      assert s[0] == '_';
    }
  }

  /** When `s` has an underscore, its head is followed by one. */
  lemma UnderscoreHead(s: string)
    requires '_' in s
    ensures UpToUnderscore(s) + "_" <= s
  {
    var p := UpToUnderscore(s);
    assert p + "_" == s[..|p| + 1];
  }

  /** `get_pole_id(filename)`. */
  function GetPoleId(filename: string): (r: Option<string>)
    ensures '_' !in BaseName(filename) ==> r.None?
    ensures r.Some? ==> Lower(r.value) !in IgnoredPrefixes
  {
    var base := BaseName(filename);
    if '_' !in base then None
    else
      var firstPart := UpToUnderscore(base);
      UnderscoreHead(base);
      if Lower(firstPart) in IgnoredPrefixes then None else Some(firstPart)
  }

  /**
   * Exactly which IDs come out: `p` is returned precisely when it is the
   * underscore-free head of the base name before an underscore and is not an
   * ignored prefix in any casing.
   */
  lemma GetPoleIdIs(filename: string, p: string)
    ensures GetPoleId(filename) == Some(p) <==>
      ('_' !in p && p + "_" <= BaseName(filename) && Lower(p) !in IgnoredPrefixes)
  {
    var base := BaseName(filename);
    if '_' in base {
      UnderscoreHead(base);
    }
    if '_' !in p && p + "_" <= base {
      assert base[|p|] == (p + "_")[|p|];
      UpToUnderscoreUnique(base, p);
    }
  }

  /** An ignored head, in whatever casing, yields no ID. */
  lemma GetPoleIdIgnored(filename: string, p: string)
    requires '_' !in p && p + "_" <= BaseName(filename)
    requires Lower(p) in IgnoredPrefixes
    ensures GetPoleId(filename).None?
  {
    var base := BaseName(filename);
    assert base[|p|] == (p + "_")[|p|];
    UpToUnderscoreUnique(base, p);
  }

  /** A file name (no separators) made of a head, an underscore and any tail. */
  predicate SplitName(name: string, head: string, tail: string) {
    && name == head + "_" + tail
    && '_' !in head
    && forall i :: 0 <= i < |name| ==> !IsSep(name[i])
  }

  /** The ID of `head_tail` is `head`, case preserved, unless `head` is ignored. */
  lemma GetPoleIdOfSplit(name: string, head: string, tail: string)
    requires SplitName(name, head, tail)
    ensures GetPoleId(name) == if Lower(head) in IgnoredPrefixes then None else Some(head)
  {
    BaseNameOfName(name);
    assert head + "_" <= name;
    if Lower(head) in IgnoredPrefixes {
      GetPoleIdIgnored(name, head);
    } else {
      GetPoleIdIs(name, head);
    }
  }

  /** Joining a head without underscores to a tail, both without separators, splits back into them. */
  lemma SplitNameOf(head: string, tail: string)
    requires '_' !in head
    requires forall i :: 0 <= i < |head| ==> !IsSep(head[i])
    requires forall i :: 0 <= i < |tail| ==> !IsSep(tail[i])
    ensures SplitName(head + "_" + tail, head, tail)
  {
    var name := head + "_" + tail;
    forall i | 0 <= i < |name|
      ensures !IsSep(name[i])
    {
      if i > |head| {
        assert name[i] == tail[i - |head| - 1];
      }
    }
  }

  /** The tail the examples share has no separator. */
  lemma ExampleTail(tail: string)
    requires tail == "2025-11-25_xx.jpg"
    ensures forall i :: 0 <= i < |tail| ==> !IsSep(tail[i])
  {
  }

  /** The first example of the function's documentation. */
  lemma GetPoleIdExampleDigits(name: string, id: string)
    requires name == "603504_2025-11-25_xx.jpg" && id == "603504"
    ensures GetPoleId(name) == Some(id)
  {
    var tail := "2025-11-25_xx.jpg";
    ExampleTail(tail);
    SplitNameOf(id, tail);
    assert name == id + "_" + tail;
    assert |Lower(id)| != |"noasset"|;
    GetPoleIdOfSplit(name, id, tail);
  }

  /** The second example: a head with a capital letter is returned as written. */
  lemma GetPoleIdExampleCase(name: string, id: string)
    requires name == "D825042_2025-11-25_xx.jpg" && id == "D825042"
    ensures GetPoleId(name) == Some(id)
  {
    var tail := "2025-11-25_xx.jpg";
    ExampleTail(tail);
    SplitNameOf(id, tail);
    assert name == id + "_" + tail;
    assert Lower(id)[0] == 'd' != "noasset"[0];
    GetPoleIdOfSplit(name, id, tail);
  }

  /** The ignored prefix as the third example writes it folds onto the listed one. */
  lemma LowerNoAsset(head: string)
    requires head == "NoAsset"
    ensures Lower(head) in IgnoredPrefixes
  {
    var l := Lower(head);
    assert l[0] == 'n' && l[1] == 'o' && l[2] == 'a' && l[3] == 's';
    assert l[4] == 's' && l[5] == 'e' && l[6] == 't';
    assert l == "noasset";
  }

  /** The third example: the ignored prefix in mixed case yields no ID. */
  lemma GetPoleIdExampleIgnored(name: string, head: string)
    requires name == "NoAsset_2025-11-25_xx.jpg" && head == "NoAsset"
    ensures GetPoleId(name) == None
  {
    var tail := "2025-11-25_xx.jpg";
    ExampleTail(tail);
    SplitNameOf(head, tail);
    assert name == head + "_" + tail;
    LowerNoAsset(head);
    GetPoleIdOfSplit(name, head, tail);
  }

  /** A name without an underscore anywhere yields no ID, whatever its folders. */
  lemma GetPoleIdNoUnderscore(name: string)
    requires '_' !in name
    ensures GetPoleId(name) == None
  {
    var b := BaseName(name);
    forall i | 0 <= i < |b|
      ensures b[i] != '_'
    {
      assert b[i] == name[|name| - |b| + i];
    }
  }

  /** `IMG0001.jpg`, a camera's own name, yields no ID. */
  lemma GetPoleIdExampleNoUnderscore(name: string)
    requires name == "IMG0001.jpg"
    ensures GetPoleId(name) == None
  {
    assert forall i :: 0 <= i < |name| ==> name[i] != '_';
    GetPoleIdNoUnderscore(name);
  }
}
