/**
 * The deterministic parts of the AI service: cleanup of text extracted from PDFs, the choice of
 * what text a summary request sends to the language model, and the shaping of the model's reply
 * to a query-expansion request. The model itself is an input: its reply is a parameter.
 */
module AiService {
  import opened Wrappers
  import opened Text
  import opened Sequences

  // ---------------------------------------------------------------------------------------
  // clean_extracted_text

  /** A line that is only a page number: one to four digits. */
  predicate IsPageNumber(s: string) {
    1 <= |s| <= 4 && AllDigits(s)
  }

  /** Lines dropped as common PDF artifacts, compared case-insensitively. */
  predicate IsArtifact(s: string) {
    LowerStr(s) in {"page", "chapter", "table of contents"}
  }

  /** A stripped, non-blank line that survives every filter of the cleanup. */
  predicate Kept(s: string) {
    s != "" && !IsPageNumber(s) && !IsArtifact(s) && !(|s| < 4 && !IsAlpha(s[0]))
  }

  /** No three consecutive newlines. */
  predicate NoTripleNewline(s: string)
    decreases |s|
  {
    |s| < 3 || (!(s[0] == '\n' && s[1] == '\n' && s[2] == '\n') && NoTripleNewline(s[1..]))
  }

  /** re.sub(r"\n{3,}", "\n\n", s): every run of three or more newlines becomes two. */
  function CollapseBlankRuns(s: string): string
    decreases |s|
  {
    if |s| == 0 then ""
    else
      var n := RunLength(s, c => c == '\n');
      if n >= 3 then "\n\n" + CollapseBlankRuns(s[n..]) else [s[0]] + CollapseBlankRuns(s[1..])
  }

  lemma {:induction false} CollapseNoop(s: string)
    requires NoTripleNewline(s)
    ensures CollapseBlankRuns(s) == s
    decreases |s|
  {
    if |s| > 0 {
      var n := RunLength(s, c => c == '\n');
      if n < 3 {
        if |s| >= 3 {
          CollapseNoop(s[1..]);
        } else {
          NoNewlineNoTriple(s[1..]);
          CollapseNoop(s[1..]);
        }
      }
    }
  }

  lemma {:induction false} NoNewlineNoTriple(s: string)
    requires |s| < 3 || '\n' !in s
    ensures NoTripleNewline(s)
    decreases |s|
  {
    if |s| >= 3 {
      assert s[0] in s;
      NoNewlineNoTriple(s[1..]);
    }
  }

  lemma {:induction false} NoTripleGlue(p: string, q: string)
    requires '\n' !in p && NoTripleNewline(q) && !StartsWith(q, "\n\n")
    ensures NoTripleNewline(p + "\n" + q)
    decreases |p|
  {
    if |p| == 0 {
      assert p + "\n" + q == "\n" + q;
      assert ("\n" + q)[1..] == q;
      if |q| >= 2 {
        assert q[..2] != "\n\n";
      }
    } else {
      assert p[0] in p;
      assert (p + "\n" + q)[1..] == p[1..] + "\n" + q;
      NoTripleGlue(p[1..], q);
    }
  }

  lemma {:induction false} JoinStartsWithFirst(c: seq<string>, sep: char)
    requires |c| >= 1
    ensures StartsWith(Join(c, sep), c[0])
  {
  }

  lemma {:induction false} JoinEndsWithLast(c: seq<string>, sep: char)
    requires |c| >= 1
    ensures |c[|c| - 1]| <= |Join(c, sep)|
    ensures Join(c, sep)[|Join(c, sep)| - |c[|c| - 1]|..] == c[|c| - 1]
    decreases |c|
  {
    if |c| > 1 {
      JoinEndsWithLast(c[1..], sep);
    }
  }

  lemma {:induction false} JoinAppend(c: seq<string>, x: string, sep: char)
    requires |c| >= 1
    ensures Join(c + [x], sep) == Join(c, sep) + [sep] + x
    decreases |c|
  {
    if |c| == 1 {
      assert (c + [x])[1..] == [x];
    } else {
      assert (c + [x])[1..] == c[1..] + [x];
      JoinAppend(c[1..], x, sep);
    }
  }

  /** Pieces without newlines and without two blank pieces in a row never join into "\n\n\n". */
  lemma {:induction false} JoinNoTriple(c: seq<string>)
    requires forall k :: 0 <= k < |c| ==> '\n' !in c[k]
    requires forall k :: 0 <= k < |c| - 1 ==> c[k] != "" || c[k + 1] != ""
    ensures NoTripleNewline(Join(c, '\n')) && !StartsWith(Join(c, '\n'), "\n\n")
    decreases |c|
  {
    if |c| == 0 {
    } else if |c| == 1 {
      NoNewlineNoTriple(c[0]);
      if |c[0]| >= 2 {
        assert c[0][0] in c[0];
      }
    } else {
      var rest := Join(c[1..], '\n');
      JoinNoTriple(c[1..]);
      NoTripleGlue(c[0], rest);
      JoinStartsWithFirst(c[1..], '\n');
      if c[0] == "" {
        assert c[1] != "" && c[1][0] in c[1];
        assert rest[0] == c[1][0];
        assert Join(c, '\n') == "\n" + rest;
        assert Join(c, '\n')[1] == rest[0];
      } else {
        assert c[0][0] in c[0];
        assert Join(c, '\n')[0] == c[0][0];
      }
    }
  }

  /** The stripped lines that the loop of clean_extracted_text has collected. */
  ghost predicate CleanedShape(c: seq<string>) {
    && (|c| > 0 ==> c[0] != "")
    && (forall k :: 0 <= k < |c| ==> c[k] == "" || Kept(c[k]))
    && (forall k :: 0 <= k < |c| ==> IsStripped(c[k]) && '\n' !in c[k])
    && (forall k :: 0 <= k < |c| - 1 ==> c[k] != "" || c[k + 1] != "")
  }

  lemma StripKeepsOut(s: string, x: char)
    requires x !in s
    ensures x !in Strip(s)
  {
    var l := TrimLeft(s);
    forall k | 0 <= k < |l| ensures l[k] != x {
      assert l[k] == s[|s| - |l| + k];
    }
    var r := TrimRight(l);
    forall k | 0 <= k < |r| ensures r[k] != x {
      assert r[k] == l[k];
    }
    assert Strip(s) == r;
  }

  /** Stripping the joined lines only removes a trailing blank line. */
  lemma StripJoined(c: seq<string>) returns (body: seq<string>)
    requires CleanedShape(c)
    ensures body == c || (c == body + [""])
    ensures body == [] || (body[0] != "" && body[|body| - 1] != "")
    ensures Strip(Join(c, '\n')) == Join(body, '\n')
  {
    if |c| == 0 {
      body := [];
    } else if c[|c| - 1] != "" {
      body := c;
      JoinStartsWithFirst(c, '\n');
      JoinEndsWithLast(c, '\n');
      var j := Join(c, '\n');
      assert j[0] == c[0][0];
      assert j[|j| - 1] == c[|c| - 1][|c[|c| - 1]| - 1];
      assert IsStripped(j);
    } else {
      body := c[..|c| - 1];
      assert |body| >= 1;
      assert body[|body| - 1] != "";
      assert c == body + [""];
      JoinAppend(body, "", '\n');
      JoinStartsWithFirst(body, '\n');
      JoinEndsWithLast(body, '\n');
      var j := Join(body, '\n');
      assert j[0] == body[0][0];
      assert j[|j| - 1] == body[|body| - 1][|body[|body| - 1]| - 1];
      assert IsStripped(j);
      assert Join(c, '\n') == j + "\n";
      assert TrimLeft(j + "\n") == j + "\n";
      assert (j + "\n")[..|j|] == j;
      assert TrimRight(j + "\n") == TrimRight(j) == j;
    }
  }

  /** What joining, collapsing and stripping the collected lines gives. */
  lemma CleanedLinesJoined(cleaned: seq<string>)
    requires CleanedShape(cleaned)
    ensures var result := Strip(CollapseBlankRuns(Join(cleaned, '\n')));
      && NoTripleNewline(result)
      && (forall line :: line in Split(result, '\n') ==> line == "" || Kept(line))
      && (forall x :: x in cleaned && x != "" ==> x in Split(result, '\n'))
  {
    var joined := Join(cleaned, '\n');
    JoinNoTriple(cleaned);
    CollapseNoop(joined);
    var result := Strip(CollapseBlankRuns(joined));
    var body := StripJoined(cleaned);
    assert result == Join(body, '\n');
    assert forall k :: 0 <= k < |body| ==> body[k] == cleaned[k];
    if body == [] {
      assert Split(result, '\n') == [""];
    } else {
      SplitJoin(body, '\n');
      assert Split(result, '\n') == body;
      forall line | line in body ensures line == "" || Kept(line) {
        var k :| 0 <= k < |body| && body[k] == line;
        assert cleaned[k] == line;
      }
      assert forall x :: x in cleaned && x != "" ==> x in body;
    }
    JoinNoTriple(body);
  }

  /** The result's non-blank lines are the collected non-blank lines, in order. */
  lemma CleanedLinesNonBlank(cleaned: seq<string>)
    requires CleanedShape(cleaned)
    ensures NonBlank(Split(Strip(CollapseBlankRuns(Join(cleaned, '\n'))), '\n')) == NonBlank(cleaned)
  {
    var joined := Join(cleaned, '\n');
    JoinNoTriple(cleaned);
    CollapseNoop(joined);
    var body := StripJoined(cleaned);
    if body == [] {
      assert Split(Join(body, '\n'), '\n') == [""];
      assert NonBlank([""]) == NonBlank([]);
    } else {
      assert forall k :: 0 <= k < |body| ==> body[k] == cleaned[k];
      SplitJoin(body, '\n');
      if cleaned != body {
        NonBlankAppend(body, "");
      }
    }
  }

  lemma AppendKept(c: seq<string>, x: string)
    requires CleanedShape(c) && Kept(x) && IsStripped(x) && '\n' !in x
    ensures CleanedShape(c + [x])
  {
  }

  lemma AppendBlank(c: seq<string>)
    requires CleanedShape(c) && |c| > 0 && c[|c| - 1] != ""
    ensures CleanedShape(c + [""])
  {
  }

  /** One pass of the loop of clean_extracted_text over a stripped line. */
  function CleanStep(c: seq<string>, stripped: string): seq<string> {
    if stripped == "" then
      (if |c| > 0 && c[|c| - 1] != "" then c + [""] else c)
    else if IsPageNumber(stripped) || IsArtifact(stripped) || (|stripped| < 4 && !IsAlpha(stripped[0])) then c
    else c + [stripped]
  }

  /** The lines collected from the remaining input lines, starting from those collected so far. */
  function CleanFrom(c: seq<string>, lines: seq<string>): seq<string>
    decreases |lines|
  {
    if |lines| == 0 then c else CleanFrom(CleanStep(c, Strip(lines[0])), lines[1..])
  }

  lemma ShapeStep(c: seq<string>, stripped: string)
    requires CleanedShape(c) && IsStripped(stripped) && '\n' !in stripped
    ensures CleanedShape(CleanStep(c, stripped))
    ensures forall x :: x in c ==> x in CleanStep(c, stripped)
    ensures Kept(stripped) ==> stripped in CleanStep(c, stripped)
  {
    if Kept(stripped) {
      AppendKept(c, stripped);
    } else if stripped == "" && |c| > 0 && c[|c| - 1] != "" {
      AppendBlank(c);
    }
  }

  /**
   * What the loop collects has the shape the later joining relies on, keeps what it had
   * collected, and gains every line that survives the filters.
   */
  lemma {:induction false} CleanFromShape(c: seq<string>, lines: seq<string>)
    requires CleanedShape(c)
    requires forall k :: 0 <= k < |lines| ==> '\n' !in lines[k]
    ensures CleanedShape(CleanFrom(c, lines))
    ensures forall x :: x in c ==> x in CleanFrom(c, lines)
    ensures forall k :: 0 <= k < |lines| && Kept(Strip(lines[k])) ==> Strip(lines[k]) in CleanFrom(c, lines)
    decreases |lines|
  {
    if |lines| > 0 {
      StripKeepsOut(lines[0], '\n');
      var next := CleanStep(c, Strip(lines[0]));
      ShapeStep(c, Strip(lines[0]));
      CleanFromShape(next, lines[1..]);
      forall k | 0 <= k < |lines| && Kept(Strip(lines[k])) ensures Strip(lines[k]) in CleanFrom(c, lines) {
        if k > 0 {
          assert lines[k] == lines[1..][k - 1];
        }
      }
    }
  }

  /** The non-blank entries of c, in order. */
  function NonBlank(c: seq<string>): seq<string>
    decreases |c|
  {
    if |c| == 0 then [] else NonBlank(c[..|c| - 1]) + (if c[|c| - 1] != "" then [c[|c| - 1]] else [])
  }

  lemma NonBlankAppend(c: seq<string>, x: string)
    ensures NonBlank(c + [x]) == NonBlank(c) + (if x != "" then [x] else [])
  {
    assert (c + [x])[..|c|] == c;
  }

  /** The stripped input lines that survive every filter, in input order. */
  function KeptLines(lines: seq<string>): seq<string>
    decreases |lines|
  {
    if |lines| == 0 then []
    else (if Kept(Strip(lines[0])) then [Strip(lines[0])] else []) + KeptLines(lines[1..])
  }

  /** The loop gains exactly the kept lines as its non-blank entries; blank lines only separate them. */
  lemma {:induction false} CleanFromNonBlank(c: seq<string>, lines: seq<string>)
    ensures NonBlank(CleanFrom(c, lines)) == NonBlank(c) + KeptLines(lines)
    decreases |lines|
  {
    if |lines| > 0 {
      var stripped := Strip(lines[0]);
      var next := CleanStep(c, stripped);
      if next == c + [stripped] {
        NonBlankAppend(c, stripped);
      } else if next == c + [""] {
        NonBlankAppend(c, "");
      }
      assert NonBlank(next) == NonBlank(c) + (if Kept(stripped) then [stripped] else []);
      CleanFromNonBlank(next, lines[1..]);
    }
  }

  /** The loop of clean_extracted_text over the lines of the text. */
  method CollectLines(lines: seq<string>) returns (cleaned: seq<string>)
    ensures cleaned == CleanFrom([], lines)
  {
    cleaned := [];
    var i := 0;
    while i < |lines|
      invariant 0 <= i <= |lines|
      invariant CleanFrom(cleaned, lines[i..]) == CleanFrom([], lines)
    {
      var stripped := Strip(lines[i]);
      ghost var before := cleaned;
      if stripped == "" {
        if |cleaned| > 0 && cleaned[|cleaned| - 1] != "" {
          cleaned := cleaned + [""];
        }
      } else if IsPageNumber(stripped) {
      } else if IsArtifact(stripped) {
      } else if |stripped| < 4 && !IsAlpha(stripped[0]) {
      } else {
        cleaned := cleaned + [stripped];
      }
      assert cleaned == CleanStep(before, stripped);
      assert lines[i..][1..] == lines[i + 1..];
      i := i + 1;
    }
  }

  /**
   * clean_extracted_text: keeps the stripped lines that are not page numbers, PDF artifacts or
   * short non-alphabetic headers, keeps at most one blank line between kept lines, and strips
   * the result.
   */
  method CleanExtractedText(text: string) returns (result: string)
    ensures text == "" ==> result == ""
    ensures IsStripped(result)
    ensures NoTripleNewline(result)
    ensures forall line :: line in Split(result, '\n') ==> line == "" || Kept(line)
    ensures forall line :: line in Split(text, '\n') && Kept(Strip(line)) ==> Strip(line) in Split(result, '\n')
    ensures NonBlank(Split(result, '\n')) == KeptLines(Split(text, '\n'))
  {
    if text == "" {
      return "";
    }
    var lines := Split(text, '\n');
    var cleaned := CollectLines(lines);
    CleanFromShape([], lines);
    result := Strip(CollapseBlankRuns(Join(cleaned, '\n')));
    CleanedLinesJoined(cleaned);
    CleanedLinesNonBlank(cleaned);
    CleanFromNonBlank([], lines);
  }

  // ---------------------------------------------------------------------------------------
  // summarize_text: what is sent to the model

  const MaxChars: nat := 12000
  const ChunkSize: nat := 3500

  /** Either the answer is known without the model, or this document text is sent to it. */
  datatype SummaryPlan = Immediate(summary: string) | AskModel(docText: string)

  /** Beginning, middle and end samples of a long text. */
  datatype Sample = Sample(beginning: string, middle: string, ending: string)

  /** Python's n // 2 - chunk_size // 2 for a non-negative n. */
  function MiddleStart(n: nat): int {
    n / 2 - ChunkSize / 2
  }

  function SampleLong(clean: string): (r: Sample)
    requires |clean| > MaxChars
    ensures |r.beginning| == ChunkSize && |r.middle| == ChunkSize && |r.ending| == ChunkSize
    ensures ChunkSize <= MiddleStart(|clean|)
    ensures MiddleStart(|clean|) + ChunkSize <= |clean| - ChunkSize
    ensures StartsWith(clean, r.beginning)
    ensures r.middle == clean[MiddleStart(|clean|)..MiddleStart(|clean|) + ChunkSize]
    ensures clean == clean[..|clean| - ChunkSize] + r.ending
  {
    var n := |clean|;
    var m := MiddleStart(n);
    Sample(clean[..ChunkSize], clean[m..m + ChunkSize], clean[n - ChunkSize..])
  }

  function SampledDocText(s: Sample): string {
    "[BEGINNING OF DOCUMENT]\n" + s.beginning + "\n\n"
    + "[MIDDLE OF DOCUMENT]\n" + s.middle + "\n\n"
    + "[END OF DOCUMENT]\n" + s.ending
  }

  /**
   * The part of summarize_text before the model call: no text gives a fixed message, a text
   * whose stripped form is under 50 characters comes back as its first 200 characters, a
   * stripped text of at most 12000 characters is sent whole, and a longer one is sampled.
   */
  function SummaryInput(text: string): (r: SummaryPlan)
    ensures text == "" ==> r == Immediate("No content available.")
    ensures text != "" && |Strip(text)| < 50 ==>
      r.Immediate? && |r.summary| <= 200 && StartsWith(text, r.summary)
      && (|text| <= 200 ==> r.summary == text) && (|text| > 200 ==> r.summary == text[..200])
    ensures 50 <= |Strip(text)| <= MaxChars ==> r == AskModel(Strip(text))
    ensures |Strip(text)| > MaxChars ==> r == AskModel(SampledDocText(SampleLong(Strip(text))))
  {
    if text == "" || |Strip(text)| < 50 then
      if text != "" then Immediate(Take(text, 200)) else Immediate("No content available.")
    else
      var clean := Strip(text);
      if |clean| <= MaxChars then AskModel(clean) else AskModel(SampledDocText(SampleLong(clean)))
  }

  // ---------------------------------------------------------------------------------------
  // expand_search_query: shaping the model's reply

  /** The model call either raised (no API key, network failure) or returned a message text. */
  datatype ModelReply = CallFailed | Replied(content: string)

  /** What json.loads made of the reply: a list (items already passed through str) or anything else. */
  datatype JsonValue = JsonList(items: seq<string>) | JsonOther

  /** raw.split("\n", 1)[-1] */
  function AfterFirstNewline(s: string): (r: string)
    ensures '\n' !in s ==> r == s
    ensures '\n' in s ==>
      |r| < |s| && s[|s| - |r| - 1] == '\n' && r == s[|s| - |r|..] && '\n' !in s[..|s| - |r| - 1]
    decreases |s|
  {
    if |s| == 0 then s
    else if s[0] == '\n' then s[1..]
    else
      var t := AfterFirstNewline(s[1..]);
      if '\n' in s[1..] then t else s
  }

  /** "```" occurs in s at index k. */
  predicate FenceAt(s: string, k: int) {
    0 <= k && k + 3 <= |s| && s[k] == '`' && s[k + 1] == '`' && s[k + 2] == '`'
  }

  /** The start of the last occurrence of "```", if any. */
  function LastFence(s: string): (r: Option<nat>)
    ensures r.Some? ==> FenceAt(s, r.value) && forall k :: r.value < k ==> !FenceAt(s, k)
    ensures r.None? ==> forall k :: !FenceAt(s, k)
    decreases |s|
  {
    if |s| < 3 then None
    else if FenceAt(s, |s| - 3) then Some(|s| - 3)
    else
      FencesOfPrefix(s);
      LastFence(s[..|s| - 1])
  }

  /** Dropping the last character loses only a fence that ends there. */
  lemma FencesOfPrefix(s: string)
    requires |s| > 0
    ensures forall k :: FenceAt(s, k) <==> FenceAt(s[..|s| - 1], k) || (k == |s| - 3 && FenceAt(s, k))
  {
    var t := s[..|s| - 1];
    forall k ensures FenceAt(s, k) <==> FenceAt(t, k) || (k == |s| - 3 && FenceAt(s, k)) {
      if 0 <= k && k + 3 <= |t| {
        assert t[k] == s[k] && t[k + 1] == s[k + 1] && t[k + 2] == s[k + 2];
      }
    }
  }

  /** s.rsplit("```", 1)[0] */
  function BeforeLastFence(s: string): string {
    match LastFence(s)
    case None => s
    case Some(i) => s[..i]
  }

  /** The reply text json.loads is given: stripped, and unwrapped from a Markdown code fence. */
  function ReplyJsonText(content: string): string {
    var raw := Strip(content);
    if StartsWith(raw, "```") then Strip(BeforeLastFence(AfterFirstNewline(raw))) else raw
  }

  lemma {:induction false} AfterFirstNewlineOf(p: string, q: string)
    requires '\n' !in p
    ensures AfterFirstNewline(p + "\n" + q) == q
    decreases |p|
  {
    if |p| == 0 {
      assert (p + "\n" + q)[1..] == q;
    } else {
      assert p[0] in p;
      assert (p + "\n" + q)[1..] == p[1..] + "\n" + q;
      AfterFirstNewlineOf(p[1..], q);
    }
  }

  /** A reply wrapped in a code fence with an info line is unwrapped to its stripped body. */
  lemma FencedReplyUnwrapped(info: string, body: string)
    requires '\n' !in info
    ensures ReplyJsonText("```" + info + "\n" + body + "```") == Strip(body)
  {
    var content := "```" + info + "\n" + body + "```";
    assert content[0] == '`' && content[|content| - 1] == '`';
    assert Strip(content) == content;
    assert content[..3] == "```";
    assert content == ("```" + info) + "\n" + (body + "```");
    AfterFirstNewlineOf("```" + info, body + "```");
    var after := body + "```";
    assert after[|after| - 3..] == "```";
    assert BeforeLastFence(after) == body;
  }

  /** The keyword list the model returned, when the call succeeded and its reply parsed as a list. */
  function ReplyKeywords(reply: ModelReply, decode: string -> Option<JsonValue>): Option<seq<string>> {
    match reply
    case CallFailed => None
    case Replied(content) =>
      match decode(ReplyJsonText(content))
      case Some(JsonList(items)) => Some(items)
      case _ => None
  }

  /**
   * expand_search_query: the query together with the model's keywords, each once; any failure
   * (the call, the JSON parse, a reply that is not a list) gives just the query.
   */
  function ExpandSearchQuery(query: string, reply: ModelReply, decode: string -> Option<JsonValue>): (r: seq<string>)
    ensures query in r && NoDuplicates(r) && |r| >= 1
    ensures reply.CallFailed? ==> r == [query]
    ensures ReplyKeywords(reply, decode).None? ==> r == [query]
    ensures ReplyKeywords(reply, decode).Some? ==>
      forall t :: t in r <==> t == query || t in ReplyKeywords(reply, decode).value
  {
    match ReplyKeywords(reply, decode)
    case None => [query]
    case Some(items) => Dedup([query] + items)
  }
}
