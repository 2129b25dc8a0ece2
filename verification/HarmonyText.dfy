/**
 The text a message is formatted into and what the HarmonyOS notification takes out of it again,
 on the UTF-8 bytes Go's string functions work on (section 3 of RFC 3629).
 */
module HarmonyText {
  import opened ByteOrder

  /** "【" and "】", three bytes each. */
  const OPEN: Bytes := [227, 128, 144]
  const CLOSE: Bytes := [227, 128, 145]
  const LBRACKET: Bytes := [91]
  /** "]\n" */
  const END_HEADER: Bytes := [93, 10]
  const NEWLINE: Bytes := [10]
  /** "### " */
  const HEADING: Bytes := [35, 35, 35, 32]
  /** "![预览](" */
  const PREVIEW: Bytes := [33, 91, 233, 162, 132, 232, 167, 136, 93, 40]
  const RPAREN: byte := 41
  /** "https://s3.cloudhkcdn.com/" */
  const S3_PREFIX: Bytes := [104, 116, 116, 112, 115, 58, 47, 47, 115, 51, 46, 99, 108, 111, 117, 100,
                             104, 107, 99, 100, 110, 46, 99, 111, 109, 47]
  /** "图片通知?url=" */
  const IMAGE_NOTICE: Bytes := [229, 155, 190, 231, 137, 135, 233, 128, 154, 231, 159, 165, 63, 117, 114, 108, 61]

  // ---- package strings -------------------------------------------------------------------

  predicate At(s: Bytes, sub: Bytes, i: int) {
    0 <= i && i + |sub| <= |s| && s[i..i + |sub|] == sub
  }

  function IndexFrom(s: Bytes, sub: Bytes, from: nat): (i: int)
    requires from <= |s|
    ensures i == -1 || (from <= i && At(s, sub, i))
    ensures forall j :: from <= j && At(s, sub, j) ==> i != -1 && i <= j
    decreases |s| - from
  {
    if At(s, sub, from) then from else if from == |s| then -1 else IndexFrom(s, sub, from + 1)
  }

  /** strings.Index: the first occurrence, or -1. */
  function Index(s: Bytes, sub: Bytes): (i: int)
    ensures i == -1 || At(s, sub, i)
    ensures forall j :: At(s, sub, j) ==> i != -1 && i <= j
  {
    IndexFrom(s, sub, 0)
  }

  predicate Contains(s: Bytes, sub: Bytes) {
    Index(s, sub) != -1
  }

  predicate HasPrefix(s: Bytes, p: Bytes) {
    |p| <= |s| && s[..|p|] == p
  }

  predicate HasSuffix(s: Bytes, p: Bytes) {
    |p| <= |s| && s[|s| - |p|..] == p
  }

  function TrimPrefix(s: Bytes, p: Bytes): Bytes {
    if HasPrefix(s, p) then s[|p|..] else s
  }

  function TrimSuffix(s: Bytes, p: Bytes): Bytes {
    if HasSuffix(s, p) then s[..|s| - |p|] else s
  }

  /** strings.Split at newlines. */
  function Lines(s: Bytes): (lines: seq<Bytes>)
    ensures |lines| >= 1
    decreases |s|
  {
    var i := Index(s, NEWLINE);
    if i == -1 then [s] else [s[..i]] + Lines(s[i + 1..])
  }

  /** strings.Join with newlines. */
  function Join(lines: seq<Bytes>): Bytes {
    if lines == [] then [] else if |lines| == 1 then lines[0] else lines[0] + NEWLINE + Join(lines[1..])
  }

  // ---- the formatter -----------------------------------------------------------------------

  function Header(group: Bytes, sender: Bytes): Bytes {
    group + CLOSE + LBRACKET + sender
  }

  function TextContent(group: Bytes, sender: Bytes, body: Bytes): Bytes {
    OPEN + Header(group, sender) + END_HEADER + body
  }

  function MarkdownContent(group: Bytes, sender: Bytes, body: Bytes, url: Bytes): Bytes {
    HEADING + TextContent(group, sender, body) + NEWLINE + PREVIEW + url + [RPAREN]
  }

  /** The message content: markdown with a preview when a file was uploaded, plain text otherwise. */
  function FormatMessage(group: Bytes, sender: Bytes, body: Bytes, fileURL: Bytes): Bytes {
    if fileURL != [] then MarkdownContent(group, sender, body, fileURL) else TextContent(group, sender, body)
  }

  // ---- the extractor -----------------------------------------------------------------------

  /** The S3 link in one line, up to the next closing parenthesis. */
  function LinkInLine(line: Bytes): Option<Bytes> {
    var start := Index(line, S3_PREFIX);
    if start == -1 then None
    else
      var end := Index(line[start..], [RPAREN]);
      if end == -1 then None else Some(line[start..start + end])
  }

  function FirstLink(lines: seq<Bytes>): Option<Bytes> {
    if lines == [] then None
    else if LinkInLine(lines[0]).Some? then LinkInLine(lines[0])
    else FirstLink(lines[1..])
  }

  function CutAfter(s: Bytes, sub: Bytes): Bytes {
    var i := Index(s, sub);
    if i == -1 || i + 2 > |s| then s else s[i + 2..]
  }

  function PlainText(content: Bytes): Bytes {
    var unquoted := TrimSuffix(TrimPrefix(content, OPEN), CLOSE);
    CutAfter(CutAfter(unquoted, CLOSE + LBRACKET), END_HEADER)
  }

  function Notification(content: Bytes, isMarkdown: bool, s3: bool): Bytes {
    var link := if isMarkdown && s3 then FirstLink(Lines(content)) else None;
    if link.Some? then IMAGE_NOTICE + link.value
    else if isMarkdown && HasPrefix(content, HEADING[..3]) && |Lines(content)| > 1 then
      PlainText(Join(Lines(content)[1..]))
    else PlainText(content)
  }

  /** The content of the HarmonyOS notification for a message, as processMessage builds it. */
  method HarmonyContent(msgContent: Bytes, isMarkdown: bool, s3Configured: bool) returns (harmonyContent: Bytes)
    ensures harmonyContent == Notification(msgContent, isMarkdown, s3Configured)
  {
    hide Lines, Join, Index, TrimPrefix, TrimSuffix, HasPrefix;
    var isImageMessage := false;
    harmonyContent := [];
    if isMarkdown && s3Configured {
      var lines := Lines(msgContent);
      var n := 0;
      while n < |lines|
        invariant n <= |lines| && !isImageMessage
        invariant FirstLink(lines) == FirstLink(lines[n..])
      {
        var line := lines[n];
        if Contains(line, S3_PREFIX) {
          var start := Index(line, S3_PREFIX);
          var end := Index(line[start..], [RPAREN]);
          if end != -1 {
            harmonyContent := IMAGE_NOTICE + line[start..start + end];
            isImageMessage := true;
            assert LinkInLine(lines[n..][0]) == Some(line[start..start + end]);
            break;
          }
        }
        assert LinkInLine(lines[n..][0]) == None && lines[n..][1..] == lines[n + 1..];
        n := n + 1;
      }
    }
    if !isImageMessage {
      var content := msgContent;
      assert HEADING[..3] == [35, 35, 35];
      if isMarkdown && HasPrefix(content, [35, 35, 35]) {
        var lines := Lines(content);
        if |lines| > 1 {
          content := Join(lines[1..]);
        }
      }
      content := TrimPrefix(content, OPEN);
      content := TrimSuffix(content, CLOSE);
      var idx := Index(content, CLOSE + LBRACKET);
      if idx != -1 {
        content := content[idx + 2..];
      }
      idx := Index(content, END_HEADER);
      if idx != -1 {
        content := content[idx + 2..];
      }
      harmonyContent := content;
    }
  }

  // ---- formatting undone by extraction -------------------------------------------------------

  lemma IndexInPrefix(s: Bytes, t: Bytes, sub: Bytes)
    requires Index(s, sub) != -1
    ensures Index(s + t, sub) == Index(s, sub)
  {
    hide IndexFrom;
    var i := Index(s, sub);
    assert (s + t)[i..i + |sub|] == s[i..i + |sub|];
    assert At(s + t, sub, i);
    var j := Index(s + t, sub);
    assert (s + t)[j..j + |sub|] == s[j..j + |sub|];
    assert At(s, sub, j);
  }

  lemma HeaderEndAtPoint(s: Bytes, i: int)
    ensures At(s, END_HEADER, i) <==> 0 <= i < |s| - 1 && s[i] == 93 && s[i + 1] == 10
  {
    if 0 <= i < |s| - 1 {
      var two := s[i..i + 2];
      assert two == [s[i], s[i + 1]] && END_HEADER == [93, 10];
      assert two == END_HEADER ==> two[0] == END_HEADER[0] && two[1] == END_HEADER[1];
    }
  }

  lemma HeaderEndAt(s: Bytes)
    ensures forall i {:trigger At(s, END_HEADER, i)} ::
              At(s, END_HEADER, i) <==> 0 <= i < |s| - 1 && s[i] == 93 && s[i + 1] == 10
  {
    forall i ensures At(s, END_HEADER, i) <==> 0 <= i < |s| - 1 && s[i] == 93 && s[i + 1] == 10 {
      HeaderEndAtPoint(s, i);
    }
  }

  /** The header ends at the first "]\n" after its start if there is none inside it. */
  lemma IndexOfHeaderEnd(s: Bytes, t: Bytes)
    ensures Index(s + END_HEADER + t, END_HEADER) == if Contains(s, END_HEADER) then Index(s, END_HEADER) else |s|
  {
    hide IndexFrom;
    var all := s + END_HEADER + t;
    HeaderEndAt(all);
    HeaderEndAt(s);
    assert all[|s|] == 93 && all[|s| + 1] == 10;
    assert At(all, END_HEADER, |s|);
    if Contains(s, END_HEADER) {
      IndexInPrefix(s, END_HEADER + t, END_HEADER);
      assert all == s + (END_HEADER + t);
    } else {
      var i := Index(all, END_HEADER);
      assert i + 1 < |s| ==> At(s, END_HEADER, i);
    }
  }

  /** A closing "】" can only be trimmed off the body, never off the header. */
  lemma TrimBody(s: Bytes, body: Bytes)
    ensures TrimSuffix(s + END_HEADER + body, CLOSE) == s + END_HEADER + TrimSuffix(body, CLOSE)
  {
    var all := s + END_HEADER + body;
    if |body| >= 3 {
      assert all[|all| - 3..] == body[|body| - 3..];
      assert all[..|all| - 3] == s + END_HEADER + body[..|body| - 3];
    } else if |all| >= 3 {
      var tail := all[|all| - 3..];
      assert tail[2 - |body|] == all[|s| + 1] == 10;
    }
  }

  /**
   What the cut after the group name leaves of the header: it is two bytes long and so ends
   inside the three bytes of the first "】[" it finds.
   */
  function HeaderRest(group: Bytes, sender: Bytes): Bytes {
    CutAfter(Header(group, sender), CLOSE + LBRACKET)
  }

  lemma HeaderHasSeparator(group: Bytes, sender: Bytes)
    ensures 0 <= Index(Header(group, sender), CLOSE + LBRACKET) <= |group|
  {
    hide IndexFrom;
    var h := Header(group, sender);
    assert h[|group|..|group| + 4] == CLOSE + LBRACKET;
    assert At(h, CLOSE + LBRACKET, |group|);
  }

  lemma CutInPrefix(s: Bytes, t: Bytes, sub: Bytes)
    requires Contains(s, sub) && |sub| >= 2
    ensures CutAfter(s + t, sub) == CutAfter(s, sub) + t
  {
    hide IndexFrom;
    IndexInPrefix(s, t, sub);
    var i := Index(s, sub);
    assert (s + t)[i + 2..] == s[i + 2..] + t;
  }

  lemma TrimOpening(s: Bytes)
    ensures TrimPrefix(OPEN + s, OPEN) == s
  {
    assert (OPEN + s)[..3] == OPEN && (OPEN + s)[3..] == s;
  }

  lemma FirstCut(group: Bytes, sender: Bytes, body: Bytes)
    ensures PlainText(TextContent(group, sender, body))
         == CutAfter(HeaderRest(group, sender) + END_HEADER + TrimSuffix(body, CLOSE), END_HEADER)
  {
    hide Index, TrimSuffix, TrimPrefix, CutAfter, Header;
    var h, b := Header(group, sender), TrimSuffix(body, CLOSE);
    TrimOpening(h + END_HEADER + body);
    assert TextContent(group, sender, body) == OPEN + (h + END_HEADER + body);
    TrimBody(h, body);
    HeaderHasSeparator(group, sender);
    assert h + END_HEADER + b == h + (END_HEADER + b);
    CutInPrefix(h, END_HEADER + b, CLOSE + LBRACKET);
    assert HeaderRest(group, sender) + (END_HEADER + b) == HeaderRest(group, sender) + END_HEADER + b;
  }

  lemma HeaderEndApart(a: Bytes, mid: Bytes, b: Bytes, k: int)
    requires mid != [] && 93 !in mid && 10 !in mid
    ensures At(a + mid + b, END_HEADER, k) <==> At(a, END_HEADER, k) || At(b, END_HEADER, k - |a| - |mid|)
  {
    var all, n := a + mid + b, |a| + |mid|;
    HeaderEndAtPoint(all, k);
    HeaderEndAtPoint(a, k);
    HeaderEndAtPoint(b, k - n);
    hide At;
    if 0 <= k < |all| - 1 {
      assert all[k] == if k < |a| then a[k] else if k < n then mid[k - |a|] else b[k - n];
      assert all[k + 1] == if k + 1 < |a| then a[k + 1] else if k + 1 < n then mid[k + 1 - |a|] else b[k + 1 - n];
    }
  }

  /** A text without "]" and newline bytes separates the header ends on its two sides. */
  lemma HeaderEndsApart(a: Bytes, mid: Bytes, b: Bytes)
    requires mid != [] && 93 !in mid && 10 !in mid
    ensures Contains(a + mid + b, END_HEADER) <==> Contains(a, END_HEADER) || Contains(b, END_HEADER)
  {
    hide IndexFrom, At;
    var all, n := a + mid + b, |a| + |mid|;
    HeaderEndApart(a, mid, b, Index(all, END_HEADER));
    HeaderEndApart(a, mid, b, Index(a, END_HEADER));
    HeaderEndApart(a, mid, b, n + Index(b, END_HEADER));
  }

  /** The first "】[" of a header is the first in the group name, or else the one after it. */
  lemma FirstSeparator(group: Bytes, sender: Bytes)
    ensures Index(Header(group, sender), CLOSE + LBRACKET)
         == if Contains(group, CLOSE + LBRACKET) then Index(group, CLOSE + LBRACKET) else |group|
  {
    hide IndexFrom;
    var h, sep := Header(group, sender), CLOSE + LBRACKET;
    HeaderHasSeparator(group, sender);
    if Contains(group, sep) {
      assert h == group + (sep + sender);
      IndexInPrefix(group, sep + sender, sep);
    } else {
      var i := Index(h, sep);
      assert h[i..i + 4] == sep;
      assert sep == [227, 128, 145, 91] && h[|group|] == 227;
      assert i <= |group| < i + 4 ==> h[|group|] == sep[|group| - i];
      assert i + 4 <= |group| ==> group[i..i + 4] == h[i..i + 4];
      assert i + 4 <= |group| ==> At(group, sep, i);
    }
  }

  /** No "]" followed by newline in the sender, nor in the group name after its first "】[". */
  predicate NoHeaderEndLeft(group: Bytes, sender: Bytes) {
    var i := Index(group, CLOSE + LBRACKET);
    !Contains(sender, END_HEADER) && (i != -1 ==> !Contains(group[i + 4..], END_HEADER))
  }

  /** The first cut leaves the last byte of "】", "[", and what follows. */
  lemma HeaderRestShape(group: Bytes, sender: Bytes)
    ensures var i := Index(group, CLOSE + LBRACKET);
            HeaderRest(group, sender)
            == [] + [145, 91] + if i == -1 then sender else group[i + 4..] + (CLOSE + LBRACKET) + sender
  {
    hide Index, IndexFrom;
    var h, sep := Header(group, sender), CLOSE + LBRACKET;
    FirstSeparator(group, sender);
    var i := Index(group, sep);
    if i == -1 {
      assert h[|group| + 2..] == [] + [145, 91] + sender;
    } else {
      CutSeparator(group, i);
      assert h[i + 2..] == group[i + 2..] + (sep + sender);
    }
  }

  lemma CutSeparator(group: Bytes, i: int)
    requires At(group, CLOSE + LBRACKET, i)
    ensures group[i + 2..] == [145, 91] + group[i + 4..]
  {
    var sep := group[i..i + 4];
    assert sep[2] == 145 && sep[3] == 91;
    assert group[i + 2] == sep[2] && group[i + 3] == sep[3];
  }

  lemma HeaderRestOfInputs(group: Bytes, sender: Bytes)
    ensures Contains(HeaderRest(group, sender), END_HEADER) <==> !NoHeaderEndLeft(group, sender)
  {
    hide Index, HeaderRest;
    HeaderRestShape(group, sender);
    NothingEnds();
    var i := Index(group, CLOSE + LBRACKET);
    if i == -1 {
      HeaderEndsApart([], [145, 91], sender);
    } else {
      var tail := group[i + 4..];
      HeaderEndsApart([], [145, 91], tail + (CLOSE + LBRACKET) + sender);
      HeaderEndsApart(tail, CLOSE + LBRACKET, sender);
    }
  }

  lemma NothingEnds()
    ensures !Contains([], END_HEADER)
  {
  }

  /**
   Extraction undoes formatting, up to one trailing "】" of the body, exactly when no "]" followed by
   newline stands in the sender or in the group name after its first "】[".
   */
  lemma ExtractionUndoesFormatting(group: Bytes, sender: Bytes, body: Bytes)
    ensures PlainText(TextContent(group, sender, body)) == TrimSuffix(body, CLOSE)
       <==> NoHeaderEndLeft(group, sender)
  {
    hide Index, TrimSuffix, PlainText, HeaderRest, NoHeaderEndLeft;
    HeaderRestOfInputs(group, sender);
    FirstCut(group, sender, body);
    var rest, b := HeaderRest(group, sender), TrimSuffix(body, CLOSE);
    var y := rest + END_HEADER + b;
    IndexOfHeaderEnd(rest, b);
    assert y[|rest| + 2..] == b;
    if Contains(rest, END_HEADER) {
      assert |y[Index(rest, END_HEADER) + 2..]| > |b|;
    }
  }

  lemma OrdinaryNames(group: Bytes, sender: Bytes)
    requires !Contains(group, END_HEADER) && !Contains(sender, END_HEADER)
    ensures NoHeaderEndLeft(group, sender)
  {
    hide IndexFrom;
    var i := Index(group, CLOSE + LBRACKET);
    if i != -1 {
      var tail := group[i + 4..];
      var k := Index(tail, END_HEADER);
      HeaderEndAtPoint(tail, k);
      HeaderEndAtPoint(group, i + 4 + k);
    }
  }

  /** In particular when neither the group name nor the sender contains "]\n". */
  lemma ExtractionOfOrdinaryNames(group: Bytes, sender: Bytes, body: Bytes, s3: bool)
    requires !Contains(group, END_HEADER) && !Contains(sender, END_HEADER)
    ensures Notification(FormatMessage(group, sender, body, []), false, s3) == TrimSuffix(body, CLOSE)
  {
    hide Contains, PlainText, TextContent, TrimSuffix;
    OrdinaryNames(group, sender);
    ExtractionUndoesFormatting(group, sender, body);
  }

  /** A group named "】[]\n" makes the extractor stop inside the header. */
  lemma BracketsInGroupNameSurvive(sender: Bytes, body: Bytes)
    ensures PlainText(TextContent(CLOSE + LBRACKET + END_HEADER, sender, body)) != TrimSuffix(body, CLOSE)
  {
    hide IndexFrom;
    var group := CLOSE + LBRACKET + END_HEADER;
    var h, rest := Header(group, sender), HeaderRest(group, sender);
    assert h[0..4] == CLOSE + LBRACKET;
    assert At(h, CLOSE + LBRACKET, 0);
    HeaderEndAt(rest);
    assert rest == h[2..] && rest[2] == 93 && rest[3] == 10;
    assert At(rest, END_HEADER, 2);
    HeaderRestOfInputs(group, sender);
    ExtractionUndoesFormatting(group, sender, body);
  }

  // ---- the image link ------------------------------------------------------------------------

  lemma {:induction false} LinesConcat(a: Bytes, b: Bytes)
    ensures Lines(a + NEWLINE + b) == Lines(a) + Lines(b)
    decreases |a|
  {
    hide IndexFrom;
    var all := a + NEWLINE + b;
    NewlineAt(all);
    NewlineAt(a);
    var i := Index(a, NEWLINE);
    if i == -1 {
      assert all[|a|] == 10;
      assert At(all, NEWLINE, |a|);
      var k := Index(all, NEWLINE);
      assert k < |a| ==> At(a, NEWLINE, k);
      assert all[..|a|] == a && all[|a| + 1..] == b;
    } else {
      IndexInPrefix(a, NEWLINE + b, NEWLINE);
      assert all == a + (NEWLINE + b);
      assert all[..i] == a[..i] && all[i + 1..] == a[i + 1..] + NEWLINE + b;
      LinesConcat(a[i + 1..], b);
    }
  }

  /** Splitting into lines and joining them again is the identity. */
  lemma {:induction false} JoinLines(s: Bytes)
    ensures Join(Lines(s)) == s
    decreases |s|
  {
    hide IndexFrom;
    var i := Index(s, NEWLINE);
    if i != -1 {
      JoinLines(s[i + 1..]);
      NewlineAt(s);
      assert Lines(s)[1..] == Lines(s[i + 1..]);
      assert s == s[..i] + NEWLINE + s[i + 1..];
    }
  }

  /**
   Without S3 a file message loses its first line and is then read like a plain text. That line is
   the whole heading unless a name contains a newline.
   */
  lemma MarkdownWithoutS3(group: Bytes, sender: Bytes, body: Bytes, url: Bytes)
    requires url != []
    ensures var content := FormatMessage(group, sender, body, url);
            && Contains(content, NEWLINE)
            && Notification(content, true, false) == PlainText(content[Index(content, NEWLINE) + 1..])
            && (10 !in group && 10 !in sender ==>
                  Notification(content, true, false) == PlainText(body + NEWLINE + PREVIEW + url + [RPAREN]))
  {
    hide Index, Lines, Join, PlainText, Notification, Header;
    var heading := HEADING + OPEN + Header(group, sender) + [93];
    var preview := NEWLINE + PREVIEW + url + [RPAREN];
    var content := FormatMessage(group, sender, body, url);
    PreviewLast(TextContent(group, sender, body), body, url);
    HeadingFirst(Header(group, sender), body, preview);
    assert content == heading + NEWLINE + (body + preview);
    hide FormatMessage, MarkdownContent, TextContent;
    NewlineFound(heading, body + preview);
    assert content[..3] == HEADING[..3];
    WithoutFirstLine(content);
    if 10 !in group && 10 !in sender {
      HeaderWithoutNewline(group, sender);
      assert content[|heading| + 1..] == body + preview;
    }
  }

  lemma PreviewLast(text: Bytes, body: Bytes, url: Bytes)
    ensures var preview := NEWLINE + PREVIEW + url + [RPAREN];
            && HEADING + text + NEWLINE + PREVIEW + url + [RPAREN] == HEADING + text + preview
            && body + NEWLINE + PREVIEW + url + [RPAREN] == body + preview
  {
  }

  lemma HeadingFirst(header: Bytes, body: Bytes, preview: Bytes)
    ensures HEADING + (OPEN + header + END_HEADER + body) + preview
         == (HEADING + OPEN + header + [93]) + NEWLINE + (body + preview)
  {
  }

  lemma HeaderWithoutNewline(group: Bytes, sender: Bytes)
    requires 10 !in group && 10 !in sender
    ensures 10 !in HEADING + OPEN + Header(group, sender) + [93]
  {
  }

  lemma WithoutFirstLine(content: Bytes)
    requires HasPrefix(content, HEADING[..3]) && Contains(content, NEWLINE)
    ensures Notification(content, true, false) == PlainText(content[Index(content, NEWLINE) + 1..])
  {
    hide Index, Lines, Join, PlainText, HasPrefix;
    FirstLineOff(content);
  }

  lemma NewlineFound(a: Bytes, b: Bytes)
    ensures var i := Index(a + NEWLINE + b, NEWLINE); 0 <= i <= |a| && (10 !in a ==> i == |a|)
  {
    hide IndexFrom;
    var all := a + NEWLINE + b;
    NewlineAt(all);
    assert all[|a|] == 10;
    assert forall k | 0 <= k < |a| :: all[k] == a[k];
  }

  /** Splitting, dropping the first line and joining again cuts after the first newline. */
  lemma FirstLineOff(s: Bytes)
    requires Contains(s, NEWLINE)
    ensures |Lines(s)| > 1 && Join(Lines(s)[1..]) == s[Index(s, NEWLINE) + 1..]
  {
    hide IndexFrom, Join;
    NewlineAt(s);
    var rest := s[Index(s, NEWLINE) + 1..];
    assert Lines(s)[1..] == Lines(rest);
    JoinLines(rest);
  }

  lemma NewlineAt(s: Bytes)
    ensures forall i :: At(s, NEWLINE, i) <==> 0 <= i < |s| && s[i] == 10
  {
    forall i | 0 <= i < |s| ensures At(s, NEWLINE, i) <==> s[i] == 10 {
      assert s[i..i + 1] == [s[i]];
    }
  }

  lemma OneLine(s: Bytes)
    requires 10 !in s
    ensures Lines(s) == [s]
  {
    hide IndexFrom;
    NewlineAt(s);
  }

  lemma {:induction false} FirstLinkConcat(a: seq<Bytes>, b: seq<Bytes>)
    ensures FirstLink(a + b) == if FirstLink(a).Some? then FirstLink(a) else FirstLink(b)
  {
    hide LinkInLine;
    if a == [] {
      assert a + b == b;
    } else {
      assert (a + b)[1..] == a[1..] + b;
      FirstLinkConcat(a[1..], b);
    }
  }

  /** The url up to its first closing parenthesis. */
  function UpToParen(url: Bytes): Bytes {
    var i := Index(url, [RPAREN]);
    if i == -1 then url else url[..i]
  }

  /** The preview line yields its link, up to the first closing parenthesis in it. */
  lemma LinkInPreview(url: Bytes)
    requires HasPrefix(url, S3_PREFIX)
    ensures LinkInLine(PREVIEW + url + [RPAREN]) == Some(UpToParen(url))
  {
    hide IndexFrom;
    var line := PREVIEW + url + [RPAREN];
    var n := |PREVIEW|;
    assert line[n..n + |S3_PREFIX|] == url[..|S3_PREFIX|];
    assert At(line, S3_PREFIX, n);
    var i := Index(line, S3_PREFIX);
    assert line[i] == line[i..i + |S3_PREFIX|][0] == 104;
    assert forall k | 0 <= k < n :: line[k] == PREVIEW[k] != 104;
    assert line[n..] == url + [RPAREN];
    ParenIndex(url);
    var end := Index(url + [RPAREN], [RPAREN]);
    assert line[n..n + end] == (url + [RPAREN])[..end] == url[..end] == UpToParen(url);
  }

  lemma ParenIndex(url: Bytes)
    ensures var i := Index(url + [RPAREN], [RPAREN]);
            0 <= i <= |url| && url[..i] == UpToParen(url)
    ensures UpToParen(url) == url <==> RPAREN !in url
  {
    hide IndexFrom;
    var s := url + [RPAREN];
    ParenAt(s);
    ParenAt(url);
    assert s[|url|] == RPAREN;
    assert At(s, [RPAREN], |url|);
    assert forall i | 0 <= i < |url| :: s[i] == url[i];
    var i := Index(s, [RPAREN]);
    assert i < |url| ==> At(url, [RPAREN], i);
    var j := Index(url, [RPAREN]);
    assert j != -1 ==> At(s, [RPAREN], j);
  }

  lemma ParenAt(s: Bytes)
    ensures forall i :: At(s, [RPAREN], i) <==> 0 <= i < |s| && s[i] == RPAREN
  {
    forall i | 0 <= i < |s| ensures At(s, [RPAREN], i) <==> s[i] == RPAREN {
      assert s[i..i + 1] == [s[i]];
    }
  }

  /**
   The notification's link for any formatted file message: one that an earlier line already
   offers, and otherwise one found in the preview; for a link with the S3 prefix and without a
   newline that is the uploaded one up to its first closing parenthesis.
   */
  lemma LinkOfMarkdown(group: Bytes, sender: Bytes, body: Bytes, url: Bytes)
    ensures var before := FirstLink(Lines(HEADING + TextContent(group, sender, body)));
            FirstLink(Lines(MarkdownContent(group, sender, body, url)))
            == if before.Some? then before else FirstLink(Lines(PREVIEW + url + [RPAREN]))
    ensures HasPrefix(url, S3_PREFIX) && 10 !in url ==>
              FirstLink(Lines(PREVIEW + url + [RPAREN])) == Some(UpToParen(url))
  {
    hide Index, Lines, LinkInLine, TextContent;
    var head := HEADING + TextContent(group, sender, body);
    var last := PREVIEW + url + [RPAREN];
    assert MarkdownContent(group, sender, body, url) == head + NEWLINE + last;
    LinesConcat(head, last);
    FirstLinkConcat(Lines(head), Lines(last));
    if HasPrefix(url, S3_PREFIX) && 10 !in url {
      OneLine(last);
      LinkInPreview(url);
    }
  }

  /** What the scan of the lines finds is one line's text from an S3 prefix up to a closing parenthesis. */
  lemma {:induction false} FirstLinkShape(lines: seq<Bytes>)
    requires FirstLink(lines).Some? && forall line | line in lines :: 10 !in line
    ensures var link := FirstLink(lines).value; HasPrefix(link, S3_PREFIX) && 10 !in link && RPAREN !in link
  {
    var line := lines[0];
    assert line in lines;
    if LinkInLine(line).Some? {
      LinkShape(line);
    } else {
      FirstLinkShape(lines[1..]);
    }
  }

  lemma LinkShape(line: Bytes)
    requires LinkInLine(line).Some? && 10 !in line
    ensures var link := LinkInLine(line).value; HasPrefix(link, S3_PREFIX) && 10 !in link && RPAREN !in link
  {
    hide IndexFrom;
    var start := Index(line, S3_PREFIX);
    var rest := line[start..];
    var end := Index(rest, [RPAREN]);
    ParenAt(rest);
    assert line[start..start + end] == rest[..end];
    assert rest[..|S3_PREFIX|] == S3_PREFIX;
    assert RPAREN !in S3_PREFIX;
    assert forall i | 0 <= i < |S3_PREFIX| :: rest[i] == S3_PREFIX[i];
    assert rest[..end][..|S3_PREFIX|] == rest[..|S3_PREFIX|];
  }

  lemma {:induction false} LinesHaveNoNewline(s: Bytes)
    ensures forall line | line in Lines(s) :: 10 !in line
    decreases |s|
  {
    hide IndexFrom;
    NewlineAt(s);
    var i := Index(s, NEWLINE);
    if i != -1 { LinesHaveNoNewline(s[i + 1..]); }
  }

  predicate IsSuffix(t: Bytes, s: Bytes) {
    |t| <= |s| && t == s[|s| - |t|..]
  }

  lemma CutIsSuffix(t: Bytes, s: Bytes, sub: Bytes)
    requires IsSuffix(t, s) && |sub| >= 2
    ensures IsSuffix(CutAfter(t, sub), s)
  {
    hide IndexFrom;
  }

  lemma NoClosingToTrim(s: Bytes)
    requires s != [] && s[|s| - 1] == RPAREN
    ensures TrimSuffix(TrimPrefix(s, OPEN), CLOSE) == TrimPrefix(s, OPEN)
  {
    var t := TrimPrefix(s, OPEN);
    if |t| >= 3 { assert t[|t| - 3..][2] == s[|s| - 1]; }
  }

  /** What is extracted without a link is the end of the message, its closing parenthesis included. */
  lemma PlainTextIsSuffix(s: Bytes)
    requires s != [] && s[|s| - 1] == RPAREN
    ensures IsSuffix(PlainText(s), s)
  {
    assert IsSuffix(TrimPrefix(s, OPEN), s);
    NoClosingToTrim(s);
    hide IsSuffix, CutAfter, TrimPrefix, TrimSuffix;
    CutIsSuffix(TrimPrefix(s, OPEN), s, CLOSE + LBRACKET);
    CutIsSuffix(CutAfter(TrimPrefix(s, OPEN), CLOSE + LBRACKET), s, END_HEADER);
  }

  /** The notice followed by the url is not how a message ends that ends with the url and a parenthesis. */
  lemma {:induction false} NoticeIsNoSuffix(s: Bytes, url: Bytes)
    requires |s| >= |url| + 1 && s[|s| - |url| - 1..] == url + [RPAREN]
    ensures !IsSuffix(IMAGE_NOTICE + url, s)
  {
    var n, k := IMAGE_NOTICE + url, |url|;
    if IsSuffix(n, s) {
      var tail := s[|s| - k - 1..];
      assert forall i | 0 <= i <= k :: tail[i] == n[|n| - k - 1 + i];
      assert n[|n| - k - 1] == IMAGE_NOTICE[|IMAGE_NOTICE| - 1] == 61;
      AllEqualSigns(url, k);
    }
  }

  lemma {:induction false} AllEqualSigns(url: Bytes, i: nat)
    requires i <= |url|
    requires forall j | 0 <= j <= |url| :: (url + [RPAREN])[j] == ([61] + url)[j]
    ensures (url + [RPAREN])[i] == 61
  {
    if i > 0 { AllEqualSigns(url, i - 1); }
  }

  lemma {:induction false} NoLinkWithoutPrefix(s: Bytes)
    requires !Contains(s, S3_PREFIX)
    ensures FirstLink(Lines(s)) == None
    decreases |s|
  {
    hide IndexFrom;
    var i := Index(s, NEWLINE);
    if i != -1 {
      NotInPart(s, i);
      NotInPart(s, i + 1);
      NoLinkWithoutPrefix(s[i + 1..]);
    }
  }

  lemma NotInPart(s: Bytes, n: nat)
    requires n <= |s| && !Contains(s, S3_PREFIX)
    ensures !Contains(s[..n], S3_PREFIX) && !Contains(s[n..], S3_PREFIX)
  {
    hide IndexFrom;
    var k := Index(s[n..], S3_PREFIX);
    assert k != -1 ==> s[n + k..n + k + |S3_PREFIX|] == s[n..][k..k + |S3_PREFIX|];
    assert k != -1 ==> At(s, S3_PREFIX, n + k);
    var j := Index(s[..n], S3_PREFIX);
    assert j != -1 ==> s[j..j + |S3_PREFIX|] == s[..n][j..j + |S3_PREFIX|];
    assert j != -1 ==> At(s, S3_PREFIX, j);
  }

  lemma ByteOfMatch(s: Bytes, sub: Bytes, i: int, k: int)
    requires At(s, sub, i) && i <= k < i + |sub|
    ensures s[k] in sub
  {
    assert s[k] == s[i..i + |sub|][k - i];
  }

  /** The S3 prefix cannot straddle a separator none of whose bytes it contains. */
  lemma NoStraddling(a: Bytes, sep: Bytes, b: Bytes)
    requires sep != [] && forall c :: c in sep ==> c !in S3_PREFIX
    ensures Contains(a + sep + b, S3_PREFIX) ==> Contains(a, S3_PREFIX) || Contains(b, S3_PREFIX)
  {
    hide IndexFrom;
    var all := a + sep + b;
    var n := |S3_PREFIX|;
    var i := Index(all, S3_PREFIX);
    if i != -1 {
      var first := if i < |a| then |a| else i;
      assert |a| <= first < |a| + |sep| ==> all[first] == sep[first - |a|];
      if i + n <= |a| {
        assert a[i..i + n] == all[i..i + n];
        assert At(a, S3_PREFIX, i);
      } else if i >= |a| + |sep| {
        var k := i - |a| - |sep|;
        assert b[k..k + n] == all[i..i + n];
        assert At(b, S3_PREFIX, k);
      } else {
        ByteOfMatch(all, S3_PREFIX, i, first);
      }
    }
  }

  /**
   When no name and no text of the message contains the S3 prefix, the notification of a link with
   that prefix and without a newline carries the link up to its first closing parenthesis.
   */
  lemma ImageLinkUpToParen(group: Bytes, sender: Bytes, body: Bytes, url: Bytes)
    requires HasPrefix(url, S3_PREFIX) && 10 !in url
    requires !Contains(group, S3_PREFIX) && !Contains(sender, S3_PREFIX) && !Contains(body, S3_PREFIX)
    ensures Notification(FormatMessage(group, sender, body, url), true, true) == IMAGE_NOTICE + UpToParen(url)
  {
    hide Contains, Lines, FirstLink, MarkdownContent, PlainText;
    NothingInEmpty();
    NoStraddling(group, CLOSE + LBRACKET, sender);
    NoStraddling(group + (CLOSE + LBRACKET) + sender, END_HEADER, body);
    var text := group + (CLOSE + LBRACKET) + sender + END_HEADER + body;
    NoStraddling([], HEADING + OPEN, text);
    assert HEADING + TextContent(group, sender, body) == [] + (HEADING + OPEN) + text;
    NoLinkWithoutPrefix(HEADING + TextContent(group, sender, body));
    LinkOfMarkdown(group, sender, body, url);
  }

  /**
   A link that the notification carries whole begins with the S3 prefix and has neither a newline
   nor a closing parenthesis: no other link is ever recovered, whatever the message.
   */
  lemma WholeLinkShape(group: Bytes, sender: Bytes, body: Bytes, url: Bytes)
    requires url != []
    requires Notification(FormatMessage(group, sender, body, url), true, true) == IMAGE_NOTICE + url
    ensures HasPrefix(url, S3_PREFIX) && 10 !in url && RPAREN !in url
  {
    hide Lines, FirstLink, PlainText, Join, Index, HasPrefix;
    var content := FormatMessage(group, sender, body, url);
    if FirstLink(Lines(content)).Some? {
      LinesHaveNoNewline(content);
      FirstLinkShape(Lines(content));
      var link := FirstLink(Lines(content)).value;
      assert (IMAGE_NOTICE + url)[|IMAGE_NOTICE|..] == url && (IMAGE_NOTICE + link)[|IMAGE_NOTICE|..] == link;
    } else {
      MarkdownWithoutS3(group, sender, body, url);
      NoNoticeWithoutLink(group, sender, body, url);
      assert false;
    }
  }

  lemma NoNoticeWithoutLink(group: Bytes, sender: Bytes, body: Bytes, url: Bytes)
    requires url != []
    ensures Notification(FormatMessage(group, sender, body, url), true, false) != IMAGE_NOTICE + url
  {
    hide PlainText, Index, IsSuffix, Lines, Join, Notification, TextContent, FormatMessage;
    var content := FormatMessage(group, sender, body, url);
    MarkdownWithoutS3(group, sender, body, url);
    var head := HEADING + TextContent(group, sender, body);
    PreviewEnds(group, sender, body, url);
    NewlineFound(head, PREVIEW + url + [RPAREN]);
    var i := Index(content, NEWLINE) + 1;
    var rest := content[i..];
    assert rest[|rest| - |url| - 1..] == content[|content| - |url| - 1..];
    PlainTextIsSuffix(rest);
    NoticeIsNoSuffix(rest, url);
  }

  lemma PreviewEnds(group: Bytes, sender: Bytes, body: Bytes, url: Bytes)
    requires url != []
    ensures var content := FormatMessage(group, sender, body, url);
            var head := HEADING + TextContent(group, sender, body);
            && content == head + NEWLINE + (PREVIEW + url + [RPAREN])
            && content[|content| - |url| - 1..] == url + [RPAREN]
            && |content| - |url| - 1 > |head|
  {
    hide TextContent;
    LinkLast(HEADING + TextContent(group, sender, body), url);
  }

  lemma LinkLast(head: Bytes, url: Bytes)
    ensures var content := head + NEWLINE + PREVIEW + url + [RPAREN];
            && content == head + NEWLINE + (PREVIEW + url + [RPAREN])
            && content[|content| - |url| - 1..] == url + [RPAREN]
  {
    var front := head + NEWLINE + PREVIEW;
    assert front + url + [RPAREN] == front + (url + [RPAREN]);
    assert (front + (url + [RPAREN]))[|front|..] == url + [RPAREN];
  }

  // ---- the notification of any message ---------------------------------------------------------

  /** The link of a line runs from its first S3 prefix to the first closing parenthesis after that. */
  lemma LinkOfLine(line: Bytes)
    ensures LinkInLine(line).Some?
       <==> exists i, k {:trigger At(line, S3_PREFIX, i), line[k]} ::
              At(line, S3_PREFIX, i) && i <= k < |line| && line[k] == RPAREN
    ensures LinkInLine(line).Some? ==>
              var i, l := Index(line, S3_PREFIX), LinkInLine(line).value;
              && At(line, S3_PREFIX, i) && i + |l| < |line| && line[i + |l|] == RPAREN
              && l == line[i..i + |l|] && RPAREN !in l
  {
    hide IndexFrom;
    var i := Index(line, S3_PREFIX);
    if i != -1 {
      var rest := line[i..];
      ParenAt(rest);
      var end := Index(rest, [RPAREN]);
      if end != -1 {
        assert rest[end] == line[i + end];
        assert line[i..i + end] == rest[..end];
      } else {
        forall k | i <= k < |line| ensures line[k] != RPAREN {
          assert rest[k - i] == line[k];
        }
      }
    }
  }

  /** The scan stops at the first line that has a link. */
  lemma {:induction false} FirstLinkIsFirst(lines: seq<Bytes>)
    ensures FirstLink(lines).None? <==> forall i :: 0 <= i < |lines| ==> LinkInLine(lines[i]).None?
    ensures FirstLink(lines).Some? ==>
              exists i :: 0 <= i < |lines| && LinkInLine(lines[i]) == FirstLink(lines)
                       && forall j :: 0 <= j < i ==> LinkInLine(lines[j]).None?
  {
    hide LinkInLine;
    if lines != [] {
      var rest := lines[1..];
      FirstLinkIsFirst(rest);
      assert forall i | 0 < i < |lines| :: lines[i] == rest[i - 1];
      if LinkInLine(lines[0]).Some? {
        assert LinkInLine(lines[0]) == FirstLink(lines);
      } else if FirstLink(rest).Some? {
        var i :| 0 <= i < |rest| && LinkInLine(rest[i]) == FirstLink(rest)
              && forall j :: 0 <= j < i ==> LinkInLine(rest[j]).None?;
        assert LinkInLine(lines[i + 1]) == FirstLink(lines);
      }
    }
  }

  lemma NotificationOfLink(content: Bytes)
    requires FirstLink(Lines(content)).Some?
    ensures Notification(content, true, true) == IMAGE_NOTICE + FirstLink(Lines(content)).value
  {
    hide Lines, FirstLink;
  }

  /** The extraction step by step: the brackets at the two ends, and the two cuts. */
  lemma PlainTextOf(text: Bytes)
    ensures var bare := if HasPrefix(text, OPEN) then text[|OPEN|..] else text;
            var inner := if HasSuffix(bare, CLOSE) then bare[..|bare| - |CLOSE|] else bare;
            var cut := if Contains(inner, CLOSE + LBRACKET) then inner[Index(inner, CLOSE + LBRACKET) + 2..] else inner;
            PlainText(text) == if Contains(cut, END_HEADER) then cut[Index(cut, END_HEADER) + 2..] else cut
  {
    TrimsOf(text);
    CutsOf(TrimSuffix(TrimPrefix(text, OPEN), CLOSE));
    hide HasPrefix, HasSuffix, Index, CutAfter, Contains, TrimPrefix, TrimSuffix;
  }

  lemma TrimsOf(text: Bytes)
    ensures var bare := if HasPrefix(text, OPEN) then text[|OPEN|..] else text;
            TrimSuffix(TrimPrefix(text, OPEN), CLOSE)
            == if HasSuffix(bare, CLOSE) then bare[..|bare| - |CLOSE|] else bare
  {
  }

  lemma CutsOf(inner: Bytes)
    ensures var cut := if Contains(inner, CLOSE + LBRACKET) then inner[Index(inner, CLOSE + LBRACKET) + 2..] else inner;
            CutAfter(CutAfter(inner, CLOSE + LBRACKET), END_HEADER)
            == if Contains(cut, END_HEADER) then cut[Index(cut, END_HEADER) + 2..] else cut
  {
    hide Index, CutAfter, Contains;
    CutIsAfter(inner, CLOSE + LBRACKET);
    CutIsAfter(CutAfter(inner, CLOSE + LBRACKET), END_HEADER);
  }

  lemma CutIsAfter(s: Bytes, sub: Bytes)
    requires |sub| >= 2
    ensures Contains(s, sub) ==> 0 <= Index(s, sub) <= |s| - 2
    ensures CutAfter(s, sub) == if Contains(s, sub) then s[Index(s, sub) + 2..] else s
  {
    hide IndexFrom;
  }

  lemma WithoutHeadline(content: Bytes, isMarkdown: bool, s3: bool)
    requires isMarkdown && s3 ==> FirstLink(Lines(content)).None?
    ensures 10 in content ==> 0 <= Index(content, [10]) < |content|
    ensures var headed := isMarkdown && HasPrefix(content, [35, 35, 35]) && 10 in content;
            Notification(content, isMarkdown, s3)
            == PlainText(if headed then content[Index(content, [10]) + 1..] else content)
  {
    hide IndexFrom, Lines, Join, FirstLink, PlainText, HasPrefix;
    assert HEADING[..3] == [35, 35, 35];
    if 10 in content {
      var k :| 0 <= k < |content| && content[k] == 10;
      NewlineAt(content);
      assert At(content, NEWLINE, k);
      FirstLineOff(content);
    } else {
      OneLine(content);
    }
  }

  /**
   A message in which no link is found, whether S3 is configured or not: its first line goes if it
   is markdown and begins with "###", then an opening and a closing bracket at its ends, then all
   before the last byte of the first "】", if "[" follows that, and all up to the first "]" that
   ends a line.
   */
  lemma NotificationWithoutLink(content: Bytes, isMarkdown: bool, s3: bool)
    requires isMarkdown && s3 ==> FirstLink(Lines(content)).None?
    ensures var headed := isMarkdown && HasPrefix(content, [35, 35, 35]) && 10 in content;
            var text := if headed then content[Index(content, [10]) + 1..] else content;
            var bare := if HasPrefix(text, OPEN) then text[|OPEN|..] else text;
            var inner := if HasSuffix(bare, CLOSE) then bare[..|bare| - |CLOSE|] else bare;
            var cut := if Contains(inner, CLOSE + LBRACKET) then inner[Index(inner, CLOSE + LBRACKET) + 2..] else inner;
            Notification(content, isMarkdown, s3)
            == if Contains(cut, END_HEADER) then cut[Index(cut, END_HEADER) + 2..] else cut
  {
    hide Index, Notification, PlainText, HasPrefix, HasSuffix, Contains;
    WithoutHeadline(content, isMarkdown, s3);
    var headed := isMarkdown && HasPrefix(content, [35, 35, 35]) && 10 in content;
    PlainTextOf(if headed then content[Index(content, [10]) + 1..] else content);
  }

  /** So it does not depend on S3 when there is no link to find. */
  lemma NoLinkNoDifference(content: Bytes, isMarkdown: bool)
    requires FirstLink(Lines(content)).None?
    ensures Notification(content, isMarkdown, true) == Notification(content, isMarkdown, false)
  {
    hide Lines, Join, FirstLink, PlainText;
  }

  /**
   The notification of a file message in which no link is found, for names without newline: the
   text under the heading and the preview of the file. A text that begins with "【" loses that, and
   one that contains "】[" or "]" at the end of a line loses what comes before.
   */
  lemma FileWithoutLink(group: Bytes, sender: Bytes, body: Bytes, url: Bytes, s3: bool)
    requires url != [] && 10 !in group && 10 !in sender
    requires s3 ==> FirstLink(Lines(FormatMessage(group, sender, body, url))).None?
    ensures var text := body + NEWLINE + PREVIEW + url + [RPAREN];
            var shown := if HasPrefix(text, OPEN) then text[3..] else text;
            var n := Notification(FormatMessage(group, sender, body, url), true, s3);
            && (!Contains(shown, CLOSE + LBRACKET) && !Contains(shown, END_HEADER) ==> n == shown)
            && (!Contains(shown, CLOSE + LBRACKET) && Contains(shown, END_HEADER) ==>
                  n == shown[Index(shown, END_HEADER) + 2..])
            && (Contains(shown, CLOSE + LBRACKET) ==>
                  var cut := shown[Index(shown, CLOSE + LBRACKET) + 2..];
                  n == if Contains(cut, END_HEADER) then cut[Index(cut, END_HEADER) + 2..] else cut)
  {
    hide Notification, Index, Lines, FirstLink, FormatMessage, PlainText, HasPrefix, Contains;
    var content := FormatMessage(group, sender, body, url);
    if s3 { NoLinkNoDifference(content, true); }
    MarkdownWithoutS3(group, sender, body, url);
    PreviewText(body + NEWLINE + PREVIEW + url + [RPAREN]);
  }

  lemma PreviewText(text: Bytes)
    requires text != [] && text[|text| - 1] == RPAREN
    ensures var shown := if HasPrefix(text, OPEN) then text[3..] else text;
            && (!Contains(shown, CLOSE + LBRACKET) && !Contains(shown, END_HEADER) ==> PlainText(text) == shown)
            && (!Contains(shown, CLOSE + LBRACKET) && Contains(shown, END_HEADER) ==>
                  PlainText(text) == shown[Index(shown, END_HEADER) + 2..])
            && (Contains(shown, CLOSE + LBRACKET) ==>
                  var cut := shown[Index(shown, CLOSE + LBRACKET) + 2..];
                  PlainText(text) == if Contains(cut, END_HEADER) then cut[Index(cut, END_HEADER) + 2..] else cut)
  {
    hide PlainText, Index, Contains, HasPrefix;
    PlainTextOf(text);
    NoClosingSuffix(text);
  }

  lemma NoClosingSuffix(text: Bytes)
    requires text != [] && text[|text| - 1] == RPAREN
    ensures !HasSuffix(text, CLOSE)
    ensures HasPrefix(text, OPEN) ==> !HasSuffix(text[3..], CLOSE)
  {
    if |text| >= 3 {
      assert text[|text| - 3..][2] == RPAREN != CLOSE[2];
      if |text| >= 6 { assert text[3..][|text| - 6..] == text[|text| - 3..]; }
    }
  }

  /** In particular when neither the names nor the body nor the link contain the S3 prefix. */
  lemma FileOnAnotherHost(group: Bytes, sender: Bytes, body: Bytes, url: Bytes)
    requires url != [] && !Contains(FormatMessage(group, sender, body, url), S3_PREFIX)
    ensures FirstLink(Lines(FormatMessage(group, sender, body, url))).None?
  {
    NoLinkWithoutPrefix(FormatMessage(group, sender, body, url));
  }

  /**
   When no name and no text of the message contains the S3 prefix, the uploaded link is recovered
   whole exactly when it begins with the prefix and has neither a newline nor a closing parenthesis.
   */
  lemma ImageLinkRecovered(group: Bytes, sender: Bytes, body: Bytes, url: Bytes)
    requires url != []
    requires !Contains(group, S3_PREFIX) && !Contains(sender, S3_PREFIX) && !Contains(body, S3_PREFIX)
    ensures Notification(FormatMessage(group, sender, body, url), true, true) == IMAGE_NOTICE + url
       <==> HasPrefix(url, S3_PREFIX) && 10 !in url && RPAREN !in url
  {
    hide Contains, Notification, FormatMessage, HasPrefix, Index;
    if Notification(FormatMessage(group, sender, body, url), true, true) == IMAGE_NOTICE + url {
      WholeLinkShape(group, sender, body, url);
    } else if HasPrefix(url, S3_PREFIX) && 10 !in url {
      ImageLinkUpToParen(group, sender, body, url);
      ParenIndex(url);
    }
  }

  lemma NothingInEmpty()
    ensures !Contains([], S3_PREFIX)
  {
  }
}
