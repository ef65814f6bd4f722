/**
 * The audio-name cache of src/modules/cache.js: two ordered lists of file
 * names (sounds and music), a first-substring lookup, the readable list of
 * names and the directory an audio resource is read from.
 */
module AudioCache {
  import opened Wrappers
  import opened Files

  /** The value of AUDIO_TYPE_SOUND; src/modules/constants.js is not part of this model. */
  const AudioTypeSound: string := "sound"

  /** JavaScript `haystack.includes(needle)`, case-sensitive. */
  predicate Contains(haystack: string, needle: string)
    ensures Contains(haystack, needle) ==> |needle| <= |haystack|
    ensures |needle| == |haystack| ==> (Contains(haystack, needle) <==> needle == haystack)
  {
    assert needle == haystack ==> needle <= haystack[0..];
    exists i :: 0 <= i <= |haystack| && needle <= haystack[i..]
  }

  lemma ContainsItself(s: string)
    ensures Contains(s, s)
  {
    assert s <= s[0..];
  }

  lemma ContainsEmpty(s: string)
    ensures Contains(s, "")
  {
    assert "" <= s[0..];
  }

  /** No entry of `list` before position `k` contains `query`. */
  predicate NoneBefore(list: seq<string>, query: string, k: int)
    requires 0 <= k <= |list|
  {
    forall j :: 0 <= j < k ==> !Contains(list[j], query)
  }

  /** `k` is the position of the first entry of `list` that contains `query`. */
  predicate FirstContaining(list: seq<string>, query: string, k: int)
  {
    0 <= k < |list| && Contains(list[k], query) && NoneBefore(list, query, k)
  }

  /** JavaScript `list.find((p) => p.includes(query))`. */
  function Find(list: seq<string>, query: string): (r: Option<string>)
    ensures r.None? <==> NoneBefore(list, query, |list|)
    ensures r.Some? ==> exists k :: FirstContaining(list, query, k) && list[k] == r.value
  {
    if list == [] then None
    else if Contains(list[0], query) then
      assert FirstContaining(list, query, 0);
      Some(list[0])
    else
      var r := Find(list[1..], query);
      if r.Some? then
        var k :| FirstContaining(list[1..], query, k) && list[1..][k] == r.value;
        assert FirstContaining(list, query, k + 1);
        r
      else
        r
  }

  /**
   * `getClosestFileName` on the selected list: the first entry containing
   * the query, except that an empty entry found that way is falsy in
   * JavaScript and reported as `undefined`.
   */
  function Closest(list: seq<string>, query: string): (r: Option<string>)
    ensures r.Some? ==> r.value in list && Contains(r.value, query)
    ensures r.Some? ==> exists k :: FirstContaining(list, query, k) && list[k] == r.value
  {
    match Find(list, query)
    case Some(found) => if found != "" then Some(found) else None
    case None => None
  }

  /** The first containing entry wins, whatever follows it. */
  lemma ClosestIsFirst(list: seq<string>, query: string, k: int)
    requires FirstContaining(list, query, k)
    requires list[k] != ""
    ensures Closest(list, query) == Some(list[k])
  {
  }

  /**
   * A later entry equal to the query does not win over an earlier entry
   * that merely contains it: there is no exact-match tier.
   */
  lemma LaterExactMatchLoses(list: seq<string>, query: string, i: int, j: int)
    requires FirstContaining(list, query, i)
    requires i < j < |list| && list[j] == query && list[i] != query && query != ""
    ensures Contains(list[j], query)
    ensures Closest(list, query) == Some(list[i]) != Some(list[j])
  {
    ContainsItself(list[j]);
  }

  /** For a non-empty query: `undefined` exactly when no entry contains it. */
  lemma ClosestNoneIff(list: seq<string>, query: string)
    requires query != ""
    ensures Closest(list, query).None? <==> forall e :: e in list ==> !Contains(e, query)
  {
    match Find(list, query)
    case Some(found) =>
      var k :| FirstContaining(list, query, k) && list[k] == found;
      assert found != "";
    case None =>
      forall e | e in list ensures !Contains(e, query) {
        var j :| 0 <= j < |list| && list[j] == e;
      }
  }

  /**
   * For the empty query every entry matches, so the first entry is
   * returned, or `undefined` when the list is empty or its first entry is
   * the empty (falsy) name.
   */
  lemma ClosestEmptyQuery(list: seq<string>)
    ensures Closest(list, "") == if list != [] && list[0] != "" then Some(list[0]) else None
  {
    if list != [] {
      ContainsEmpty(list[0]);
      assert FirstContaining(list, "", 0);
    }
  }

  /** The name up to its first `.`, or the whole name if it has none: `p.split('.')[0]`. */
  function Stem(name: string): (r: string)
    ensures r <= name && '.' !in r
    ensures r == name || name[|r|] == '.'
  {
    if name == [] || name[0] == '.' then []
    else [name[0]] + Stem(name[1..])
  }

  /** A stem written in backticks, as one item of the list. */
  function Quoted(name: string): (r: string)
    ensures |r| == |Stem(name)| + 2 && r[0] == '`' && r[|r| - 1] == '`'
    ensures r[1..|r| - 1] == Stem(name) && '.' !in r
  {
    "`" + Stem(name) + "`"
  }

  /** `s` ends with `suffix`. */
  predicate EndsWith(s: string, suffix: string)
  {
    |suffix| <= |s| && s[|s| - |suffix|..] == suffix
  }

  /** JavaScript `items.join(sep)`. */
  function Join(items: seq<string>, sep: string): (r: string)
    ensures items == [] ==> r == ""
    ensures items != [] ==> items[0] <= r && EndsWith(r, items[|items| - 1])
  {
    if items == [] then ""
    else if |items| == 1 then items[0]
    else items[0] + sep + Join(items[1..], sep)
  }

  function QuotedAll(list: seq<string>): (r: seq<string>)
    ensures |r| == |list|
    ensures forall i :: 0 <= i < |list| ==> r[i] == Quoted(list[i])
  {
    if list == [] then [] else [Quoted(list[0])] + QuotedAll(list[1..])
  }

  /** `buildFileList` on the selected list. */
  function FileList(list: seq<string>): (r: string)
    ensures r == "" <==> list == []
    ensures list != [] ==> Quoted(list[0]) <= r && EndsWith(r, Quoted(list[|list| - 1]))
  {
    Join(QuotedAll(list), ", ")
  }

  lemma {:induction false} JoinAppend(a: seq<string>, b: seq<string>, sep: string)
    requires a != [] && b != []
    ensures Join(a + b, sep) == Join(a, sep) + sep + Join(b, sep)
  {
    var ab := a + b;
    assert |ab| > 1 && ab[0] == a[0];
    if |a| == 1 {
      assert ab[1..] == b;
      assert Join(ab, sep) == a[0] + sep + Join(b, sep);
    } else {
      assert ab[1..] == a[1..] + b;
      JoinAppend(a[1..], b, sep);
      assert Join(ab, sep) == a[0] + sep + (Join(a[1..], sep) + sep + Join(b, sep));
      Regroup(a[0], sep, Join(a[1..], sep), Join(b, sep));
    }
  }

  lemma Regroup(x: string, sep: string, y: string, z: string)
    ensures x + sep + (y + sep + z) == (x + sep + y) + sep + z
  {
  }

  lemma {:induction false} QuotedAllAppend(a: seq<string>, b: seq<string>)
    ensures QuotedAll(a + b) == QuotedAll(a) + QuotedAll(b)
  {
    if a != [] {
      assert (a + b)[1..] == a[1..] + b;
      QuotedAllAppend(a[1..], b);
    } else {
      assert a + b == b;
    }
  }

  /** The empty list renders as the empty string, a single name as its quoted stem. */
  lemma FileListBase(name: string)
    ensures FileList([]) == ""
    ensures FileList([name]) == "`" + Stem(name) + "`"
  {
  }

  /** Rendering follows list order: two lists render as their renderings joined by `, `. */
  lemma FileListAppend(a: seq<string>, b: seq<string>)
    requires a != [] && b != []
    ensures FileList(a + b) == FileList(a) + ", " + FileList(b)
  {
    QuotedAllAppend(a, b);
    JoinAppend(QuotedAll(a), QuotedAll(b), ", ");
  }

  /** Appending one more name appends `, ` and its quoted stem. */
  lemma FileListSnoc(a: seq<string>, name: string)
    requires a != []
    ensures FileList(a + [name]) == FileList(a) + ", " + Quoted(name)
  {
    FileListAppend(a, [name]);
    assert QuotedAll([name]) == [Quoted(name)];
  }

  /** The module-level arrays `soundNames` and `musicNames`. */
  class Cache {
    var soundNames: seq<string>
    var musicNames: seq<string>

    constructor ()
      ensures soundNames == [] && musicNames == []
    {
      soundNames := [];
      musicNames := [];
    }

    /** The list selected by `type === AUDIO_TYPE_SOUND ? soundNames : musicNames`. */
    function ListFor(kind: string): seq<string>
      reads this
    {
      if kind == AudioTypeSound then soundNames else musicNames
    }

    /**
     * `cacheFileNames`, with the two directory listings passed in: pushes
     * every entry, in listing order, onto the end of its list.
     */
    method CacheFileNames(soundListing: seq<string>, musicListing: seq<string>)
      modifies this
      ensures soundNames == old(soundNames) + soundListing
      ensures musicNames == old(musicNames) + musicListing
    {
      var i := 0;
      while i < |soundListing|
        invariant 0 <= i <= |soundListing|
        invariant soundNames == old(soundNames) + soundListing[..i]
        invariant musicNames == old(musicNames)
      {
        soundNames := soundNames + [soundListing[i]];
        i := i + 1;
      }
      assert soundListing[..i] == soundListing;
      var j := 0;
      while j < |musicListing|
        invariant 0 <= j <= |musicListing|
        invariant soundNames == old(soundNames) + soundListing
        invariant musicNames == old(musicNames) + musicListing[..j]
      {
        musicNames := musicNames + [musicListing[j]];
        j := j + 1;
      }
      assert musicListing[..j] == musicListing;
    }

    /**
     * `getClosestFileName`: a read of the selected list, so neither list
     * changes; a returned name is the first entry of that list containing
     * the query.
     */
    function GetClosestFileName(kind: string, query: string): (r: Option<string>)
      reads this
      ensures kind == AudioTypeSound ==> r == Closest(soundNames, query)
      ensures kind != AudioTypeSound ==> r == Closest(musicNames, query)
      ensures r.Some? ==> exists k :: FirstContaining(ListFor(kind), query, k) && ListFor(kind)[k] == r.value
    {
      Closest(ListFor(kind), query)
    }

    /** `buildFileList`: the quoted stems of the selected list joined by `, `. */
    function BuildFileList(kind: string): (r: string)
      reads this
      ensures kind == AudioTypeSound ==> r == FileList(soundNames)
      ensures kind != AudioTypeSound ==> r == FileList(musicNames)
    {
      FileList(ListFor(kind))
    }

    /**
     * The file `getAudioResource` opens: in the sounds directory when the
     * name is a cached sound, otherwise in the music directory, even when
     * the name is in neither list.
     */
    function AudioResourcePath(name: string): (p: Path)
      reads this
      ensures p.name == name
      ensures p.dir == Sounds <==> name in soundNames
      ensures p.dir == Music <==> name !in soundNames
    {
      Path(if name in soundNames then Sounds else Music, name)
    }
  }
}
