/**
 * The fscan log parser. fscan appends one JSON object per event with no
 * separator, so the parser trims the text, turns every `}`-whitespace-`{`
 * seam into `},{`, wraps the result in `[` and `]`, and decodes it as an
 * array, yielding no events when the text is blank or does not decode.
 *
 * The JSON decoder and the file read are foreign: they are parameters.
 */
module FscanParser {
  import opened Wrappers
  import opened Text
  import opened FscanTypes

  /** After optional white space, `s` continues with `{`. */
  predicate OpensAfterWhitespace(s: string) {
    var n := LeadingWhitespace(s);
    n < |s| && s[n] == '{'
  }

  /** The pattern `/\}\s*\{/` matches at the start of `s`. */
  predicate BoundaryAtStart(s: string) {
    |s| > 0 && s[0] == '}' && OpensAfterWhitespace(s[1..])
  }

  /** No seam between two objects is left anywhere in `s`. */
  predicate NoBoundary(s: string) {
    forall i :: 0 <= i < |s| ==> !BoundaryAtStart(s[i..])
  }

  /** `s.replace(/\}\s*\{/g, '},{')`: a left-to-right scan replacing each seam. */
  function RepairBoundaries(s: string): (r: string)
    ensures |r| == 0 <==> |s| == 0
    decreases |s|
  {
    if |s| == 0 then ""
    else if BoundaryAtStart(s) then "},{" + RepairBoundaries(s[LeadingWhitespace(s[1..]) + 2..])
    else [s[0]] + RepairBoundaries(s[1..])
  }

  /** The text handed to the JSON decoder. */
  function RepairedText(content: string): (r: string)
    ensures |r| >= 2 && r[0] == '[' && r[|r| - 1] == ']'
    ensures AllWhitespace(content) ==> r == "[]"
    ensures !AllWhitespace(content) ==> r[1] == Trim(content)[0] && r[|r| - 2] == Trim(content)[|Trim(content)| - 1]
  {
    RepairKeepsEnds(Trim(content));
    "[" + RepairBoundaries(Trim(content)) + "]"
  }

  /** `parseFscanLogfile` after the file read: blank text and undecodable text both give no events. */
  function ParseFscanContent(decode: string -> Option<seq<FscanLogEntry>>, content: string): (r: seq<FscanLogEntry>)
    ensures AllWhitespace(content) ==> r == []
    ensures !AllWhitespace(content) && decode(RepairedText(content)).None? ==> r == []
    ensures !AllWhitespace(content) && decode(RepairedText(content)).Some? ==> r == decode(RepairedText(content)).value
  {
    var trimmedContent := Trim(content);
    if trimmedContent == [] then []
    else
      match decode("[" + RepairBoundaries(trimmedContent) + "]")
      case None => []
      case Some(entries) => entries
  }

  /** `parseFscanLogfile`: the file read is outside the `try`, so its failure propagates. */
  function ParseFscanLogfile(
    readFile: string -> ReadOutcome, decode: string -> Option<seq<FscanLogEntry>>, filePath: string)
    : (r: Result<seq<FscanLogEntry>, string>)
    ensures readFile(filePath).ReadFailed? ==> r == Failure(readFile(filePath).reason)
    ensures readFile(filePath).ReadOk? ==> r == Success(ParseFscanContent(decode, readFile(filePath).content))
  {
    match readFile(filePath)
    case ReadFailed(reason) => Failure(reason)
    case ReadOk(fileContent) => Success(ParseFscanContent(decode, fileContent))
  }

  // ---------------------------------------------------------------------------
  // Properties of the seam rewrite

  lemma OpensAfterWhitespaceCons(c: char, x: string)
    ensures OpensAfterWhitespace([c] + x) <==> c == '{' || (IsWhitespace(c) && OpensAfterWhitespace(x))
  {
    assert ([c] + x)[1..] == x;
  }

  /** The rewrite neither creates nor removes a `{` reached through leading white space. */
  lemma {:induction false} RepairKeepsOpening(t: string)
    ensures OpensAfterWhitespace(RepairBoundaries(t)) <==> OpensAfterWhitespace(t)
    decreases |t|
  {
    if |t| == 0 {
    } else if BoundaryAtStart(t) {
      var rest := RepairBoundaries(t[LeadingWhitespace(t[1..]) + 2..]);
      OpensAfterWhitespaceCons('}', ",{" + rest);
      OpensAfterWhitespaceCons(t[0], t[1..]);
      assert t == [t[0]] + t[1..];
      assert "},{" + rest == ['}'] + (",{" + rest);
    } else {
      RepairKeepsOpening(t[1..]);
      OpensAfterWhitespaceCons(t[0], t[1..]);
      OpensAfterWhitespaceCons(t[0], RepairBoundaries(t[1..]));
      assert t == [t[0]] + t[1..];
    }
  }

  /** The rewrite keeps the first and the last character: a seam starts with `}`
      and ends with `{`, as its replacement does. */
  lemma {:induction false} RepairKeepsEnds(s: string)
    ensures var r := RepairBoundaries(s);
      |s| > 0 ==> r[0] == s[0] && r[|r| - 1] == s[|s| - 1]
    decreases |s|
  {
    if |s| == 0 {
    } else if BoundaryAtStart(s) {
      var n := LeadingWhitespace(s[1..]);
      var rest := s[n + 2..];
      if |rest| > 0 {
        RepairKeepsEnds(rest);
        assert s[|s| - 1] == rest[|rest| - 1];
      } else {
        assert s[|s| - 1] == s[1..][n];
      }
    } else if |s| > 1 {
      RepairKeepsEnds(s[1..]);
      assert s[|s| - 1] == s[1..][|s| - 2];
    }
  }

  lemma NoBoundaryCons(c: char, x: string)
    requires NoBoundary(x)
    requires c == '}' ==> !OpensAfterWhitespace(x)
    ensures NoBoundary([c] + x)
  {
    var s := [c] + x;
    forall i | 0 <= i < |s| ensures !BoundaryAtStart(s[i..]) {
      if i > 0 {
        assert s[i..] == x[i - 1..];
      } else {
        assert s[1..] == x;
      }
    }
  }

  /** No seam survives the rewrite. */
  lemma {:induction false} RepairLeavesNoBoundary(s: string)
    ensures NoBoundary(RepairBoundaries(s))
    decreases |s|
  {
    if |s| == 0 {
    } else if BoundaryAtStart(s) {
      var rest := RepairBoundaries(s[LeadingWhitespace(s[1..]) + 2..]);
      RepairLeavesNoBoundary(s[LeadingWhitespace(s[1..]) + 2..]);
      OpensAfterWhitespaceCons('{', rest);
      NoBoundaryCons('{', rest);
      OpensAfterWhitespaceCons(',', "{" + rest);
      NoBoundaryCons(',', "{" + rest);
      assert "{" + rest == ['{'] + rest;
      assert ",{" + rest == [','] + ("{" + rest);
      NoBoundaryCons('}', ",{" + rest);
      assert "},{" + rest == ['}'] + (",{" + rest);
    } else {
      RepairLeavesNoBoundary(s[1..]);
      RepairKeepsOpening(s[1..]);
      NoBoundaryCons(s[0], RepairBoundaries(s[1..]));
    }
  }

  /** Text in which no seam starts is copied unchanged, and the rewrite goes on after it. */
  lemma {:induction false} RepairCopiesPlain(a: string, b: string)
    requires forall i :: 0 <= i < |a| ==> !BoundaryAtStart((a + b)[i..])
    ensures RepairBoundaries(a + b) == a + RepairBoundaries(b)
    decreases |a|
  {
    if |a| == 0 {
      assert a + b == b;
    } else {
      var s, rest := a + b, a[1..] + b;
      assert s[0..] == s && s[1..] == rest;
      forall i | 0 <= i < |a[1..]|
        ensures !BoundaryAtStart(rest[i..])
      {
        assert rest[i..] == s[i + 1..];
      }
      RepairPlainStep(s);
      RepairCopiesPlain(a[1..], b);
      assert a == [a[0]] + a[1..];
    }
  }

  /** Where no seam starts, the first character is copied. */
  lemma RepairPlainStep(s: string)
    requires |s| > 0 && !BoundaryAtStart(s)
    ensures RepairBoundaries(s) == [s[0]] + RepairBoundaries(s[1..])
  {
  }

  /** A seam `}`, white space, `{` becomes `},{`, and the rewrite goes on after it. */
  lemma RepairRewritesSeam(w: string, b: string)
    requires AllWhitespace(w)
    ensures RepairBoundaries("}" + w + "{" + b) == "},{" + RepairBoundaries(b)
  {
    var s := "}" + w + "{" + b;
    var t := w + "{" + b;
    assert s[1..] == t;
    var n := LeadingWhitespace(t);
    assert t[|w|] == '{';
    assert n == |w|;
    assert BoundaryAtStart(s);
    assert s[n + 2..] == b;
  }

  /** The rewrite changes `s` exactly when `s` has a seam. */
  lemma {:induction false} RepairIdentity(s: string)
    ensures RepairBoundaries(s) == s <==> NoBoundary(s)
    decreases |s|
  {
    if |s| == 0 {
    } else if BoundaryAtStart(s) {
      var n := LeadingWhitespace(s[1..]);
      assert s[1] == '{' || IsWhitespace(s[1]);
      assert RepairBoundaries(s)[1] == ',';
      assert !NoBoundary(s) by {
        assert s[0..] == s;
      }
    } else {
      RepairIdentity(s[1..]);
      assert s == [s[0]] + s[1..];
      if NoBoundary(s) {
        assert NoBoundary(s[1..]) by {
          forall i | 0 <= i < |s[1..]| ensures !BoundaryAtStart(s[1..][i..]) {
            assert s[1..][i..] == s[i + 1..];
          }
        }
      }
      if NoBoundary(s[1..]) {
        NoBoundaryCons(s[0], s[1..]);
      }
      if RepairBoundaries(s) == s {
        assert RepairBoundaries(s[1..]) == s[1..] by {
          assert RepairBoundaries(s) == [s[0]] + RepairBoundaries(s[1..]);
          assert RepairBoundaries(s)[1..] == RepairBoundaries(s[1..]);
        }
      }
    }
  }

  /** Repairing twice is repairing once. */
  lemma RepairIdempotent(s: string)
    ensures RepairBoundaries(RepairBoundaries(s)) == RepairBoundaries(s)
  {
    RepairLeavesNoBoundary(s);
    RepairIdentity(RepairBoundaries(s));
  }

  /** Every character other than white space and `,` occurs as often after the
      rewrite as before; in particular the counts of `{` and of `}` are kept. */
  lemma {:induction false} RepairKeepsCounts(s: string, c: char)
    requires !IsWhitespace(c) && c != ','
    ensures Count(c, RepairBoundaries(s)) == Count(c, s)
    decreases |s|
  {
    if |s| == 0 {
    } else if BoundaryAtStart(s) {
      var n := LeadingWhitespace(s[1..]);
      RepairKeepsCounts(s[n + 2..], c);
      RepairCountsAtSeam(s, c);
    } else {
      RepairKeepsCounts(s[1..], c);
      RepairCountsAtPlain(s, c);
    }
  }

  lemma RepairCountsAtSeam(s: string, c: char)
    requires BoundaryAtStart(s) && !IsWhitespace(c) && c != ','
    requires Count(c, RepairBoundaries(s[LeadingWhitespace(s[1..]) + 2..])) == Count(c, s[LeadingWhitespace(s[1..]) + 2..])
    ensures Count(c, RepairBoundaries(s)) == Count(c, s)
  {
    var n := LeadingWhitespace(s[1..]);
    var seam, rest := s[..n + 2], s[n + 2..];
    var repaired := RepairBoundaries(rest);
    SeamCount(s, c);
    assert s == seam + rest;
    CountConcat(c, seam, rest);
    assert RepairBoundaries(s) == "},{" + repaired;
    CountConcat(c, "},{", repaired);
  }

  lemma RepairCountsAtPlain(s: string, c: char)
    requires |s| > 0 && !BoundaryAtStart(s)
    requires Count(c, RepairBoundaries(s[1..])) == Count(c, s[1..])
    ensures Count(c, RepairBoundaries(s)) == Count(c, s)
  {
    var t := RepairBoundaries(s[1..]);
    CountHead(c, s);
    assert RepairBoundaries(s) == [s[0]] + t;
    CountCons(c, s[0], t);
  }

  /** A seam holds `}`, white space and `{`: as many of any other character as `},{` does. */
  lemma SeamCount(s: string, c: char)
    requires BoundaryAtStart(s)
    requires !IsWhitespace(c) && c != ','
    ensures Count(c, s[..LeadingWhitespace(s[1..]) + 2]) == Count(c, "},{")
  {
    var n := LeadingWhitespace(s[1..]);
    var w := s[1..][..n];
    assert s[..n + 2] == ['}'] + w + ['{'];
    assert c !in w;
    assert multiset(w)[c] == 0;
    assert "},{" == ['}'] + [','] + ['{'];
  }

  // ---------------------------------------------------------------------------
  // Properties of the repaired text

  /** Trimming removes white space only, so every other character keeps its count. */
  lemma TrimKeepsCounts(s: string, c: char)
    requires !IsWhitespace(c)
    ensures Count(c, Trim(s)) == Count(c, s)
  {
    var a := LeadingWhitespace(s);
    var t := Trim(s);
    var head, tail := s[..a], s[a + |t|..];
    assert s == head + t + tail;
    assert multiset(s) == multiset(head) + multiset(t) + multiset(tail);
    WhitespaceLacks(head, c);
    WhitespaceLacks(tail, c);
  }

  /** White space holds no character outside the white-space set. */
  lemma WhitespaceLacks(w: string, c: char)
    requires AllWhitespace(w) && !IsWhitespace(c)
    ensures multiset(w)[c] == 0
  {
    assert c !in w;
  }

  /** The decoder sees `[`, the trimmed text with its seams repaired, and `]`;
      no seam is left, and the counts of `{` and `}` are those of the file. */
  lemma RepairedTextShape(content: string)
    ensures var r := RepairedText(content);
      && r[0] == '[' && r[|r| - 1] == ']'
      && NoBoundary(r[1..|r| - 1])
      && Count('{', r) == Count('{', content)
      && Count('}', r) == Count('}', content)
  {
    var t := Trim(content);
    var body := RepairBoundaries(t);
    var r := RepairedText(content);
    assert r == "[" + body + "]";
    assert r[1..|r| - 1] == body;
    RepairLeavesNoBoundary(t);
    WrapCounts(body, '{');
    WrapCounts(body, '}');
    RepairKeepsCounts(t, '{');
    RepairKeepsCounts(t, '}');
    TrimKeepsCounts(content, '{');
    TrimKeepsCounts(content, '}');
  }

  /** The brackets added around the text add no other character. */
  lemma WrapCounts(body: string, c: char)
    requires c != '[' && c != ']'
    ensures Count(c, "[" + body + "]") == Count(c, body)
  {
    assert multiset("[" + body + "]") == multiset("[") + multiset(body) + multiset("]");
  }

  /** Text without a seam is only wrapped in brackets. */
  lemma WrapOnly(content: string)
    requires NoBoundary(Trim(content))
    ensures RepairedText(content) == "[" + Trim(content) + "]"
  {
    RepairIdentity(Trim(content));
  }
}
