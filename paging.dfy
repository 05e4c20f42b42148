/**
 * Splitting a long text into chat messages of at most 1992 bytes, cutting
 * only at a delimiter. Strings are sequences of bytes here: one char of
 * the model stands for one byte of the Go string.
 */
module Paging {
  const MaxPageLength: nat := 1992

  predicate OccursAt(s: string, sep: string, j: int) {
    0 <= j && j + |sep| <= |s| && s[j..j + |sep|] == sep
  }

  predicate StartsWith(s: string, prefix: string) {
    |prefix| <= |s| && s[..|prefix|] == prefix
  }

  /** Index of the first occurrence of a non-empty sep in s, -1 when there is none. */
  function IndexOf(s: string, sep: string): (i: int)
    requires |sep| > 0
    ensures i >= -1
    ensures i >= 0 ==> OccursAt(s, sep, i)
    ensures forall j :: 0 <= j && (i < 0 || j < i) ==> !OccursAt(s, sep, j)
  {
    if |s| < |sep| then -1
    else if s[..|sep|] == sep then 0
    else
      var k := IndexOf(s[1..], sep);
      forall j | 1 <= j
        ensures OccursAt(s, sep, j) <==> OccursAt(s[1..], sep, j - 1)
      {
        OccursAtShift(s, sep, j);
      }
      if k < 0 then -1 else k + 1
  }

  lemma OccursAtShift(s: string, sep: string, j: int)
    requires 1 <= j && s != []
    ensures OccursAt(s, sep, j) <==> OccursAt(s[1..], sep, j - 1)
  {
    if j + |sep| <= |s| {
      var a, b := s[j..j + |sep|], s[1..][j - 1..j - 1 + |sep|];
      forall t | 0 <= t < |sep| ensures a[t] == b[t] {
        assert a[t] == s[j + t];
        assert b[t] == s[1..][j - 1 + t];
      }
      assert a == b;
    }
  }

  /** strings.Split(text, "") for a text of single-byte characters: one part per character. */
  function Explode(s: string): (parts: seq<string>)
    ensures |parts| == |s|
    ensures forall k :: 0 <= k < |s| ==> parts[k] == [s[k]]
  {
    if s == [] then [] else [[s[0]]] + Explode(s[1..])
  }

  /**
   * No occurrence of sep ends inside `part` followed by the sep that comes
   * after it, short of that sep: the cut after `part` is at the leftmost
   * occurrence.
   */
  ghost predicate CutAtLeftmost(part: string, sep: string)
    requires sep != ""
  {
    NoOccurrence(part + sep[..|sep| - 1], sep)
  }

  ghost predicate NoOccurrence(s: string, sep: string) {
    forall j :: !OccursAt(s, sep, j)
  }

  /**
   * strings.Split: the parts between the non-overlapping occurrences of sep,
   * found left to right; one part per character when sep is empty.
   */
  function Split(s: string, sep: string): (parts: seq<string>)
    ensures sep != "" ==> |parts| > 0
    ensures sep != "" ==> forall k, j :: 0 <= k < |parts| ==> !OccursAt(parts[k], sep, j)
    ensures sep != "" ==> forall k :: 0 <= k < |parts| - 1 ==> CutAtLeftmost(parts[k], sep)
    ensures sep == "" ==> |parts| == |s| && forall k :: 0 <= k < |s| ==> parts[k] == [s[k]]
    decreases |s|
  {
    if sep == "" then Explode(s)
    else
      var i := IndexOf(s, sep);
      if i < 0 then [s]
      else
        var rest := Split(s[i + |sep|..], sep);
        forall j ensures !OccursAt(s[..i], sep, j) {
          if OccursAt(s[..i], sep, j) {
            PrefixOccurrence(s, sep, i, j);
          }
        }
        var cut := s[..i] + sep[..|sep| - 1];
        assert cut == s[..i + |sep| - 1] by {
          SurroundsOccurrence(s, sep, i);
          assert s[..i + |sep| - 1] == s[..i] + s[i..i + |sep|][..|sep| - 1];
        }
        forall j ensures !OccursAt(cut, sep, j) {
          if OccursAt(cut, sep, j) {
            PrefixOccurrence(s, sep, i + |sep| - 1, j);
          }
        }
        assert forall k :: 1 <= k < |rest| + 1 ==> ([s[..i]] + rest)[k] == rest[k - 1];
        [s[..i]] + rest
  }

  /** An occurrence inside a prefix of s is an occurrence in s that ends within the prefix. */
  lemma PrefixOccurrence(s: string, sep: string, i: int, j: int)
    requires 0 <= i <= |s| && OccursAt(s[..i], sep, j)
    ensures OccursAt(s, sep, j) && j + |sep| <= i
  {
    assert s[..i][j..j + |sep|] == s[j..j + |sep|];
  }

  /** strings.Join. */
  function Join(parts: seq<string>, sep: string): string {
    if parts == [] then ""
    else if |parts| == 1 then parts[0]
    else parts[0] + sep + Join(parts[1..], sep)
  }

  lemma {:induction false} JoinExplode(s: string)
    ensures Join(Explode(s), "") == s
  {
    if |s| > 1 {
      JoinExplode(s[1..]);
      assert Explode(s)[1..] == Explode(s[1..]);
    }
  }

  lemma JoinCons(first: string, rest: seq<string>, sep: string)
    requires rest != []
    ensures Join([first] + rest, sep) == first + sep + Join(rest, sep)
  {
    assert ([first] + rest)[1..] == rest;
  }

  lemma SplitAtFirst(s: string, sep: string)
    requires sep != "" && IndexOf(s, sep) >= 0
    ensures var i := IndexOf(s, sep);
      Split(s, sep) == [s[..i]] + Split(s[i + |sep|..], sep)
      && s == s[..i] + sep + s[i + |sep|..]
  {
    var i := IndexOf(s, sep);
    SurroundsOccurrence(s, sep, i);
  }

  /** A text is the part before an occurrence of sep, sep, and the part after it. */
  lemma SurroundsOccurrence(s: string, sep: string, i: int)
    requires OccursAt(s, sep, i)
    ensures s == s[..i] + sep + s[i + |sep|..]
  {
    assert s[i..] == s[i..i + |sep|] + s[i + |sep|..];
    assert s == s[..i] + s[i..];
  }

  /** Joining the parts with the delimiter gives back the text. */
  lemma {:induction false} JoinSplit(s: string, sep: string)
    ensures Join(Split(s, sep), sep) == s
    decreases |s|
  {
    if sep == "" {
      JoinExplode(s);
    } else {
      var i := IndexOf(s, sep);
      if i >= 0 {
        var rest := s[i + |sep|..];
        SplitAtFirst(s, sep);
        JoinSplit(rest, sep);
        JoinCons(s[..i], Split(rest, sep), sep);
      }
    }
  }

  /** The first part is empty exactly when a non-empty delimiter starts the text. */
  lemma FirstPartEmpty(s: string, sep: string)
    requires s != ""
    ensures |Split(s, sep)| > 0
    ensures Split(s, sep)[0] == "" <==> sep != "" && StartsWith(s, sep)
  {
    if sep != "" {
      assert StartsWith(s, sep) <==> OccursAt(s, sep, 0);
    }
  }

  /** The loop state of Pagify: finished pages and the page being filled. */
  datatype Pager = Pager(pages: seq<string>, current: string)

  /** One iteration of Pagify's loop, as written. */
  function PagifyStep(p: Pager, part: string, sep: string): Pager {
    if |p.current| + |part| + |sep| <= MaxPageLength then
      if |p.current| > 0 || |p.pages| > 0 then p.(current := p.current + sep + part)
      else p.(current := p.current + part)
    else
      Pager(p.pages + [p.current], if |part| <= MaxPageLength then part else "")
  }

  function PagifyFold(p: Pager, parts: seq<string>, sep: string): Pager
    decreases |parts|
  {
    if parts == [] then p else PagifyFold(PagifyStep(p, parts[0], sep), parts[1..], sep)
  }

  function Flush(p: Pager): seq<string> {
    if p.current != "" then p.pages + [p.current] else p.pages
  }

  /** The pages Pagify returns, as written. */
  function PagifyPages(text: string, sep: string): seq<string> {
    Flush(PagifyFold(Pager([], ""), Split(text, sep), sep))
  }

  predicate Bounded(p: Pager) {
    |p.current| <= MaxPageLength && forall i :: 0 <= i < |p.pages| ==> |p.pages[i]| <= MaxPageLength
  }

  lemma {:induction false} PagifyFoldBounded(p: Pager, parts: seq<string>, sep: string)
    requires Bounded(p)
    ensures Bounded(PagifyFold(p, parts, sep))
    decreases |parts|
  {
    if parts != [] {
      PagifyFoldBounded(PagifyStep(p, parts[0], sep), parts[1..], sep);
    }
  }

  /**
   * helpers.Pagify: every page is at most 1992 bytes long, and a part longer
   * than that never reaches a page.
   */
  method Pagify(text: string, delimiter: string) returns (result: seq<string>)
    ensures result == PagifyPages(text, delimiter)
    ensures forall i :: 0 <= i < |result| ==> |result[i]| <= MaxPageLength
  {
    result := [];
    var textParts := Split(text, delimiter);
    var currentOutputPart := "";
    for i := 0 to |textParts|
      invariant PagifyFold(Pager(result, currentOutputPart), textParts[i..], delimiter)
        == PagifyFold(Pager([], ""), textParts, delimiter)
      invariant Bounded(Pager(result, currentOutputPart))
    {
      var textPart := textParts[i];
      assert textParts[i..][1..] == textParts[i + 1..];
      if |currentOutputPart| + |textPart| + |delimiter| <= MaxPageLength {
        if |currentOutputPart| > 0 || |result| > 0 {
          currentOutputPart := currentOutputPart + delimiter + textPart;
        } else {
          currentOutputPart := currentOutputPart + textPart;
        }
      } else {
        result := result + [currentOutputPart];
        currentOutputPart := "";
        if |textPart| <= MaxPageLength {
          currentOutputPart := textPart;
        }
      }
    }
    if currentOutputPart != "" {
      result := result + [currentOutputPart];
    }
  }

  /** With a non-empty page under way, parts that fit are appended with the delimiter. */
  lemma {:induction false} FoldFitting(c: string, parts: seq<string>, sep: string)
    requires c != "" && parts != []
    requires |c| + |sep| + |Join(parts, sep)| <= MaxPageLength
    ensures PagifyFold(Pager([], c), parts, sep) == Pager([], c + sep + Join(parts, sep))
    decreases |parts|
  {
    var c' := c + sep + parts[0];
    var step := PagifyStep(Pager([], c), parts[0], sep);
    assert PagifyFold(Pager([], c), parts, sep) == PagifyFold(step, parts[1..], sep);
    if |parts| == 1 {
      assert Join(parts, sep) == parts[0];
      assert step == Pager([], c');
    } else {
      assert Join(parts, sep) == parts[0] + sep + Join(parts[1..], sep);
      assert step == Pager([], c');
      FoldFitting(c', parts[1..], sep);
      assert c' + sep + Join(parts[1..], sep) == c + sep + Join(parts, sep);
    }
  }

  /**
   * A non-empty text that fits on one page with a delimiter to spare comes
   * back as that single page, provided it does not start with the delimiter.
   */
  lemma ShortTextIsOnePage(text: string, sep: string)
    requires text != "" && |text| + |sep| <= MaxPageLength
    requires sep == "" || !StartsWith(text, sep)
    ensures PagifyPages(text, sep) == [text]
  {
    var parts := Split(text, sep);
    FirstPartEmpty(text, sep);
    JoinSplit(text, sep);
    assert |Join(parts, sep)| >= |parts[0]|;
    var p1 := PagifyStep(Pager([], ""), parts[0], sep);
    assert p1 == Pager([], parts[0]);
    assert PagifyFold(Pager([], ""), parts, sep) == PagifyFold(p1, parts[1..], sep);
    if |parts| > 1 {
      assert Join(parts, sep) == parts[0] + sep + Join(parts[1..], sep);
      FoldFitting(parts[0], parts[1..], sep);
    }
  }

  /** As written, a leading delimiter is lost: ",a" split on "," comes back as "a". */
  lemma LeadingDelimiterDropped()
    ensures PagifyPages(",a", ",") == ["a"]
  {
    assert IndexOf(",a", ",") == 0;
    assert ",a"[1..] == "a" && "a"[1..] == "";
    assert IndexOf("", ",") == -1;
    assert "a"[..1] == "a" && "a" != ",";
    assert IndexOf("a", ",") == -1;
    assert Split("a", ",") == ["a"];
    assert Split(",a", ",") == ["", "a"];
    var p1 := PagifyStep(Pager([], ""), "", ",");
    assert p1 == Pager([], "");
    var p2 := PagifyStep(p1, "a", ",");
    assert p2 == Pager([], "a");
    assert PagifyFold(Pager([], ""), ["", "a"], ",") == PagifyFold(p1, ["a"], ",");
    assert PagifyFold(p1, ["a"], ",") == PagifyFold(p2, [], ",");
  }

  /** As written, a text made only of delimiters gives no page at all. */
  lemma DelimitersOnlyGiveNoPages()
    ensures PagifyPages(",,", ",") == []
  {
    assert IndexOf(",,", ",") == 0;
    assert ",,"[1..] == ",";
    assert IndexOf(",", ",") == 0;
    assert ","[1..] == "";
    assert IndexOf("", ",") == -1;
    assert Split("", ",") == [""];
    assert Split(",", ",") == ["", ""];
    assert Split(",,", ",") == ["", "", ""];
    var p := PagifyStep(Pager([], ""), "", ",");
    assert p == Pager([], "");
    assert PagifyFold(Pager([], ""), ["", "", ""], ",") == PagifyFold(p, ["", ""], ",");
    assert PagifyFold(p, ["", ""], ",") == PagifyFold(p, [""], ",");
    assert PagifyFold(p, [""], ",") == PagifyFold(p, [], ",");
  }

  /** As written, a first part longer than a page yields one empty page. */
  lemma OversizedSinglePartGivesEmptyPage(text: string, sep: string)
    requires sep != "" && IndexOf(text, sep) < 0
    requires |text| > MaxPageLength
    ensures PagifyPages(text, sep) == [""]
  {
    assert Split(text, sep) == [text];
    var p1 := PagifyStep(Pager([], ""), text, sep);
    assert p1 == Pager([""], "");
    assert PagifyFold(Pager([], ""), [text], sep) == PagifyFold(p1, [], sep);
  }

  /** Pagify's step with the delimiter placed before every part but the very first. */
  function IntendedStep(p: Pager, part: string, sep: string, first: bool): Pager {
    if |p.current| + |part| + |sep| <= MaxPageLength then
      if first then p.(current := p.current + part)
      else p.(current := p.current + sep + part)
    else
      Pager(p.pages + [p.current], if |part| <= MaxPageLength then part else "")
  }

  function IntendedFold(p: Pager, parts: seq<string>, sep: string, first: bool): Pager
    decreases |parts|
  {
    if parts == [] then p else IntendedFold(IntendedStep(p, parts[0], sep, first), parts[1..], sep, false)
  }

  /** Pagify as intended: no leading delimiter is lost. */
  function PagifyIntended(text: string, sep: string): seq<string> {
    Flush(IntendedFold(Pager([], ""), Split(text, sep), sep, true))
  }

  lemma {:induction false} IntendedFoldBounded(p: Pager, parts: seq<string>, sep: string, first: bool)
    requires Bounded(p)
    ensures Bounded(IntendedFold(p, parts, sep, first))
    decreases |parts|
  {
    if parts != [] {
      IntendedFoldBounded(IntendedStep(p, parts[0], sep, first), parts[1..], sep, false);
    }
  }

  /** Every page of the intended Pagify is at most 1992 bytes long. */
  lemma IntendedPagesBounded(text: string, sep: string)
    ensures forall i :: 0 <= i < |PagifyIntended(text, sep)| ==> |PagifyIntended(text, sep)[i]| <= MaxPageLength
  {
    IntendedFoldBounded(Pager([], ""), Split(text, sep), sep, true);
  }

  lemma {:induction false} IntendedFoldFitting(c: string, parts: seq<string>, sep: string)
    requires parts != []
    requires |c| + |sep| + |Join(parts, sep)| <= MaxPageLength
    ensures IntendedFold(Pager([], c), parts, sep, false) == Pager([], c + sep + Join(parts, sep))
    decreases |parts|
  {
    var c' := c + sep + parts[0];
    var step := IntendedStep(Pager([], c), parts[0], sep, false);
    assert IntendedFold(Pager([], c), parts, sep, false) == IntendedFold(step, parts[1..], sep, false);
    if |parts| == 1 {
      assert Join(parts, sep) == parts[0];
      assert step == Pager([], c');
    } else {
      assert Join(parts, sep) == parts[0] + sep + Join(parts[1..], sep);
      assert step == Pager([], c');
      IntendedFoldFitting(c', parts[1..], sep);
      assert c' + sep + Join(parts[1..], sep) == c + sep + Join(parts, sep);
    }
  }

  /** Every non-empty text that fits on one page comes back as exactly that page. */
  lemma IntendedShortTextIsOnePage(text: string, sep: string)
    requires text != "" && |text| + |sep| <= MaxPageLength
    ensures PagifyIntended(text, sep) == [text]
  {
    var parts := Split(text, sep);
    FirstPartEmpty(text, sep);
    JoinSplit(text, sep);
    assert |Join(parts, sep)| >= |parts[0]|;
    var p1 := IntendedStep(Pager([], ""), parts[0], sep, true);
    assert p1 == Pager([], parts[0]);
    assert IntendedFold(Pager([], ""), parts, sep, true) == IntendedFold(p1, parts[1..], sep, false);
    if |parts| > 1 {
      assert Join(parts, sep) == parts[0] + sep + Join(parts[1..], sep);
      IntendedFoldFitting(parts[0], parts[1..], sep);
    }
  }
}
