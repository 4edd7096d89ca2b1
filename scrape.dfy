/** The result shaping of the page reader: the texts of the page's
    paragraphs joined by newlines, or the empty string when the page did
    not come back with status 200. Fetching and HTML parsing are inputs. */
module Scrape {

  const StatusOk: int := 200
  const Newline: char := '\n'

  /** t is a suffix of s. */
  predicate EndsWith(s: string, t: string)
  {
    |t| <= |s| && s[|s| - |t|..] == t
  }

  /** Total length of the parts. */
  function TotalLength(parts: seq<string>): nat
  {
    if parts == [] then 0 else |parts[0]| + TotalLength(parts[1..])
  }

  /** The parts with sep between neighbours, as a separator string's join. */
  function Join(parts: seq<string>, sep: string): (s: string)
    ensures parts == [] ==> s == ""
    ensures parts != [] ==> |s| == TotalLength(parts) + (|parts| - 1) * |sep|
    ensures parts != [] ==> parts[0] <= s
    ensures parts != [] ==> EndsWith(s, parts[|parts| - 1])
  {
    if parts == [] then ""
    else if |parts| == 1 then parts[0]
    else
      var rest := Join(parts[1..], sep);
      var last := parts[|parts| - 1];
      assert parts[1..][|parts[1..]| - 1] == last;
      var s := parts[0] + sep + rest;
      assert s[|s| - |last|..] == rest[|rest| - |last|..];
      s
  }

  /** Where part i starts in the join: every earlier part and the separator
      after it come first. */
  function Offset(parts: seq<string>, sep: string, i: nat): nat
    requires i <= |parts|
  {
    if i == 0 then 0 else |parts[0]| + |sep| + Offset(parts[1..], sep, i - 1)
  }

  /** A slice of the right operand of a concatenation, seen in the whole:
      positions lo..hi of a + b are positions x..y of b. */
  lemma SliceRight(a: string, b: string, x: nat, y: nat, lo: nat, hi: nat)
    requires x <= y <= |b| && lo == |a| + x && hi == |a| + y
    ensures (a + b)[lo..hi] == b[x..y]
  {
    assert forall j :: 0 <= j < y - x ==> (a + b)[lo..hi][j] == b[x..y][j];
  }

  /** Every part sits in the join at its offset. */
  lemma {:induction false} JoinPartAt(parts: seq<string>, sep: string, i: nat)
    requires i < |parts|
    ensures Offset(parts, sep, i) + |parts[i]| <= |Join(parts, sep)|
    ensures Join(parts, sep)[Offset(parts, sep, i)..Offset(parts, sep, i) + |parts[i]|] == parts[i]
  {
    if |parts| > 1 {
      var head := parts[0] + sep;
      var rest := Join(parts[1..], sep);
      assert Join(parts, sep) == head + rest;
      if i == 0 {
        assert (head + rest)[0..|parts[0]|] == parts[0];
      } else {
        JoinPartAt(parts[1..], sep, i - 1);
        var o := Offset(parts[1..], sep, i - 1);
        assert parts[1..][i - 1] == parts[i];
        var lo := Offset(parts, sep, i);
        assert lo == |head| + o;
        SliceRight(head, rest, o, o + |parts[i]|, lo, lo + |parts[i]|);
      }
    } else {
      assert Join(parts, sep) == parts[0];
      assert parts[0][0..|parts[0]|] == parts[0];
    }
  }

  /** Every part but the last is followed by the separator in the join. */
  lemma {:induction false} JoinSepAfter(parts: seq<string>, sep: string, i: nat)
    requires i + 1 < |parts|
    ensures Offset(parts, sep, i) + |parts[i]| + |sep| <= |Join(parts, sep)|
    ensures Join(parts, sep)[Offset(parts, sep, i) + |parts[i]|..Offset(parts, sep, i) + |parts[i]| + |sep|] == sep
  {
    var head := parts[0] + sep;
    var rest := Join(parts[1..], sep);
    assert Join(parts, sep) == head + rest;
    if i == 0 {
      assert (head + rest)[|parts[0]|..|head|] == sep;
    } else {
      JoinSepAfter(parts[1..], sep, i - 1);
      var e := Offset(parts[1..], sep, i - 1) + |parts[i]|;
      assert parts[1..][i - 1] == parts[i];
      var lo := Offset(parts, sep, i) + |parts[i]|;
      assert lo == |head| + e;
      SliceRight(head, rest, e, e + |sep|, lo, lo + |sep|);
    }
  }

  /** Cutting a string at every occurrence of c, as a string's split. */
  function Split(s: string, c: char): (parts: seq<string>)
    ensures |parts| >= 1
  {
    if s == [] then [""]
    else
      var rest := Split(s[1..], c);
      if s[0] == c then [""] + rest else [[s[0]] + rest[0]] + rest[1..]
  }

  lemma {:induction false} SplitNoSeparator(p: string, c: char)
    requires c !in p
    ensures Split(p, c) == [p]
  {
    if p != [] {
      SplitNoSeparator(p[1..], c);
      assert [p[0]] + p[1..] == p;
    }
  }

  lemma {:induction false} SplitAfterPart(p: string, c: char, s: string)
    requires c !in p
    ensures Split(p + [c] + s, c) == [p] + Split(s, c)
  {
    if p == [] {
      assert p + [c] + s == [c] + s;
      assert ([c] + s)[1..] == s;
    } else {
      assert (p + [c] + s)[1..] == p[1..] + [c] + s;
      SplitAfterPart(p[1..], c, s);
      assert [p[0]] + p[1..] == p;
    }
  }

  /** Joining paragraphs that contain no newline and splitting the result at
      newlines gives the paragraphs back: no paragraph boundary is lost. */
  lemma {:induction false} JoinSplit(parts: seq<string>, c: char)
    requires parts != []
    requires forall i :: 0 <= i < |parts| ==> c !in parts[i]
    ensures Split(Join(parts, [c]), c) == parts
  {
    if |parts| == 1 {
      SplitNoSeparator(parts[0], c);
    } else {
      JoinSplit(parts[1..], c);
      SplitAfterPart(parts[0], c, Join(parts[1..], [c]));
      assert [parts[0]] + parts[1..] == parts;
    }
  }

  /** The text the reader hands to the chunker for a response with the given
      status and paragraph texts. */
  function ReadData(status: int, paragraphs: seq<string>): (text: string)
    ensures status != StatusOk ==> text == ""
    ensures status == StatusOk && paragraphs == [] ==> text == ""
    ensures status == StatusOk && paragraphs != [] ==>
              |text| == TotalLength(paragraphs) + |paragraphs| - 1 &&
              paragraphs[0] <= text &&
              EndsWith(text, paragraphs[|paragraphs| - 1])
    ensures status == StatusOk && paragraphs != [] && (forall i :: 0 <= i < |paragraphs| ==> Newline !in paragraphs[i]) ==>
              Split(text, Newline) == paragraphs
  {
    if status == StatusOk then
      if paragraphs != [] && forall i :: 0 <= i < |paragraphs| ==> Newline !in paragraphs[i] then
        JoinSplit(paragraphs, Newline);
        Join(paragraphs, [Newline])
      else Join(paragraphs, [Newline])
    else ""
  }

  /** With status 200, paragraph i stands in the text at its offset, and a
      single newline follows every paragraph but the last, whatever the
      paragraphs themselves contain. */
  lemma ReadDataParagraphAt(paragraphs: seq<string>, i: nat)
    requires i < |paragraphs|
    ensures var text := ReadData(StatusOk, paragraphs);
            var o := Offset(paragraphs, [Newline], i);
            o + |paragraphs[i]| <= |text| &&
            text[o..o + |paragraphs[i]|] == paragraphs[i] &&
            (i + 1 < |paragraphs| ==> o + |paragraphs[i]| < |text| && text[o + |paragraphs[i]|] == Newline)
  {
    JoinPartAt(paragraphs, [Newline], i);
    var text := ReadData(StatusOk, paragraphs);
    var e := Offset(paragraphs, [Newline], i) + |paragraphs[i]|;
    if i + 1 < |paragraphs| {
      JoinSepAfter(paragraphs, [Newline], i);
      assert text[e..e + 1] == [Newline];
    }
  }
}
