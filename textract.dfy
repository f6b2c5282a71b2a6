/**
 * Text extraction with an asynchronous Textract text-detection job: start the
 * job, poll it until it settles, then keep the text of the `LINE` blocks of
 * the final response, in order, joined by newlines.
 */
module Textract {
  import opened Wrappers
  import opened Errors

  /** A detected block: its `BlockType` and `Text` entries, each possibly absent. */
  datatype Block = Block(blockType: Option<string>, text: Option<string>)

  /** One `get_document_text_detection` call: its response, or the exception it raised. */
  datatype Poll =
    | Response(jobStatus: string, blocks: Option<seq<Block>>)
    | PollError(error: Error)

  /** The job as the service runs it: refused at start, or the responses of successive polls. */
  datatype TextractJob =
    | StartFailed(error: Error)
    | Started(jobId: string, polls: seq<Poll>)

  const LineType: string := "LINE"

  /** A status that ends the poll loop. */
  predicate Terminal(status: string)
  {
    status == "SUCCEEDED" || status == "FAILED"
  }

  /** A poll after which the loop does not poll again: a settled job, or a raised exception. */
  predicate Stops(p: Poll)
  {
    p.PollError? || Terminal(p.jobStatus)
  }

  /** Some poll stops the loop; without one the loop polls forever. */
  predicate Settles(polls: seq<Poll>)
  {
    |polls| > 0 && (Stops(polls[0]) || Settles(polls[1..]))
  }

  /** The poll that ends the loop: the first that stops it. */
  function FinalPoll(polls: seq<Poll>): (p: Poll)
    requires Settles(polls)
    ensures Stops(p) && p in polls
  {
    if Stops(polls[0]) then polls[0] else FinalPoll(polls[1..])
  }

  /** Polls after the one that stops the loop are never looked at. */
  lemma {:induction false} LaterPollsIgnored(polls: seq<Poll>, later: seq<Poll>)
    requires Settles(polls)
    ensures Settles(polls + later) && FinalPoll(polls + later) == FinalPoll(polls)
  {
    assert (polls + later)[0] == polls[0];
    if !Stops(polls[0]) {
      assert (polls + later)[1..] == polls[1..] + later;
      LaterPollsIgnored(polls[1..], later);
    }
  }

  /** A block is readable when it has a type, and a `LINE` block also has a text. */
  predicate Readable(b: Block)
  {
    b.blockType.Some? && (b.blockType.value == LineType ==> b.text.Some?)
  }

  predicate IsLine(b: Block)
  {
    b.blockType == Some(LineType)
  }

  /** The `LINE` blocks, in their original order. */
  function LineBlocks(blocks: seq<Block>): (lines: seq<Block>)
    ensures forall b :: b in lines <==> b in blocks && IsLine(b)
    ensures |lines| <= |blocks|
  {
    if blocks == [] then []
    else (if IsLine(blocks[0]) then [blocks[0]] else []) + LineBlocks(blocks[1..])
  }

  /** The `KeyError` a block raises when the comprehension reads it. */
  function MissingKey(b: Block): Error
  {
    if b.blockType.None? then KeyError("BlockType") else KeyError("Text")
  }

  /**
   * `[b["Text"] for b in blocks if b["BlockType"] == "LINE"]`: the texts of the
   * `LINE` blocks, or the `KeyError` of the first block that lacks an entry.
   */
  function LineTexts(blocks: seq<Block>): (r: Result<seq<string>, Error>)
    ensures r.Success? <==> forall i :: 0 <= i < |blocks| ==> Readable(blocks[i])
    ensures r.Success? ==> |r.value| <= |blocks|
    ensures r.Success? ==> forall line :: line in r.value ==> exists b :: b in blocks && IsLine(b) && b.text == Some(line)
    ensures r.Failure? ==> r.error == KeyError("BlockType") || r.error == KeyError("Text")
  {
    if blocks == [] then Success([])
    else
      var b := blocks[0];
      if b.blockType.None? then Failure(KeyError("BlockType"))
      else if b.blockType.value == LineType then
        if b.text.None? then Failure(KeyError("Text"))
        else
          var rest :- LineTexts(blocks[1..]);
          Success([b.text.value] + rest)
      else
        LineTexts(blocks[1..])
  }

  /**
   * Every `LINE` block contributes its text, in block order, and no other block
   * contributes anything.
   */
  lemma {:induction false} LineTextsAreLineBlockTexts(blocks: seq<Block>)
    requires LineTexts(blocks).Success?
    ensures |LineTexts(blocks).value| == |LineBlocks(blocks)|
    ensures forall i :: 0 <= i < |LineBlocks(blocks)| ==> LineBlocks(blocks)[i].text == Some(LineTexts(blocks).value[i])
  {
    if blocks != [] {
      var b := blocks[0];
      LineTextsAreLineBlockTexts(blocks[1..]);
      if IsLine(b) {
        assert LineBlocks(blocks) == [b] + LineBlocks(blocks[1..]);
        assert LineTexts(blocks).value == [b.text.value] + LineTexts(blocks[1..]).value;
      } else {
        assert LineBlocks(blocks) == LineBlocks(blocks[1..]);
      }
    }
  }

  /** The error raised is that of the first unreadable block. */
  lemma {:induction false} LineTextsFirstError(blocks: seq<Block>, i: nat)
    requires i < |blocks| && !Readable(blocks[i])
    requires forall j :: 0 <= j < i ==> Readable(blocks[j])
    ensures LineTexts(blocks) == Failure(MissingKey(blocks[i]))
  {
    if i > 0 {
      LineTextsFirstError(blocks[1..], i - 1);
    }
  }

  /** The lines keep the order of their blocks: filtering distributes over concatenation. */
  lemma {:induction false} LineTextsAppend(b1: seq<Block>, b2: seq<Block>)
    requires LineTexts(b1).Success? && LineTexts(b2).Success?
    ensures LineTexts(b1 + b2) == Success(LineTexts(b1).value + LineTexts(b2).value)
  {
    if b1 != [] {
      assert (b1 + b2)[0] == b1[0];
      assert (b1 + b2)[1..] == b1[1..] + b2;
      LineTextsAppend(b1[1..], b2);
      if IsLine(b1[0]) {
        var head, rest := [b1[0].text.value], LineTexts(b1[1..]).value;
        assert LineTexts(b1).value == head + rest;
        AppendAssoc(head, rest, LineTexts(b2).value);
      }
    } else {
      assert b1 + b2 == b2;
      assert LineTexts(b1).value + LineTexts(b2).value == LineTexts(b2).value;
    }
  }

  /** `"\n".join(lines)`: the text starts with the first line and ends with the last. */
  function Join(lines: seq<string>): (text: string)
    ensures |lines| > 0 ==> lines[0] <= text
    ensures |lines| > 0 ==> |lines[|lines| - 1]| <= |text| && text[|text| - |lines[|lines| - 1]|..] == lines[|lines| - 1]
    ensures |lines| > 1 ==> |lines[0]| < |text| && text[|lines[0]|] == '\n'
  {
    if |lines| == 0 then ""
    else if |lines| == 1 then lines[0]
    else lines[0] + "\n" + Join(lines[1..])
  }

  /** `text.split("\n")`: the pieces between newlines, never an empty list. */
  function Split(text: string): (pieces: seq<string>)
    ensures |pieces| > 0
  {
    if text == [] then [""]
    else
      var rest := Split(text[1..]);
      if text[0] == '\n' then [""] + rest
      else [[text[0]] + rest[0]] + rest[1..]
  }

  predicate NoNewline(line: string)
  {
    '\n' !in line
  }

  /** The number of occurrences of `c` in `s`. */
  function Count(s: string, c: char): nat
  {
    if s == [] then 0 else (if s[0] == c then 1 else 0) + Count(s[1..], c)
  }

  lemma {:induction false} CountAppend(a: string, b: string, c: char)
    ensures Count(a + b, c) == Count(a, c) + Count(b, c)
  {
    if a == [] {
      assert a + b == b;
    } else {
      assert (a + b)[1..] == a[1..] + b;
      CountAppend(a[1..], b, c);
    }
  }

  lemma {:induction false} CountAbsent(s: string, c: char)
    requires c !in s
    ensures Count(s, c) == 0
  {
    if s != [] {
      CountAbsent(s[1..], c);
    }
  }

  /** Joining `n` newline-free lines puts exactly `n - 1` newlines into the text. */
  lemma {:induction false} JoinSeparators(lines: seq<string>)
    requires |lines| > 0
    requires forall i :: 0 <= i < |lines| ==> NoNewline(lines[i])
    ensures Count(Join(lines), '\n') == |lines| - 1
  {
    CountAbsent(lines[0], '\n');
    if |lines| > 1 {
      JoinSeparators(lines[1..]);
      CountAppend(lines[0], "\n", '\n');
      CountAppend(lines[0] + "\n", Join(lines[1..]), '\n');
    }
  }

  lemma {:induction false} SplitLine(line: string)
    requires NoNewline(line)
    ensures Split(line) == [line]
  {
    if line != [] {
      SplitLine(line[1..]);
      assert [line[0]] + line[1..] == line;
    }
  }

  lemma {:induction false} SplitAtNewline(line: string, tail: string)
    requires NoNewline(line)
    ensures Split(line + "\n" + tail) == [line] + Split(tail)
  {
    if line == [] {
      assert line + "\n" + tail == "\n" + tail;
      assert ("\n" + tail)[1..] == tail;
    } else {
      assert (line + "\n" + tail)[1..] == line[1..] + "\n" + tail;
      assert (line + "\n" + tail)[0] == line[0];
      SplitAtNewline(line[1..], tail);
      assert [line[0]] + line[1..] == line;
    }
  }

  /** Splitting the joined text at newlines gives back the lines. */
  lemma {:induction false} SplitJoin(lines: seq<string>)
    requires |lines| > 0
    requires forall i :: 0 <= i < |lines| ==> NoNewline(lines[i])
    ensures Split(Join(lines)) == lines
  {
    if |lines| == 1 {
      SplitLine(lines[0]);
    } else {
      SplitJoin(lines[1..]);
      SplitAtNewline(lines[0], Join(lines[1..]));
      assert [lines[0]] + lines[1..] == lines;
    }
  }

  /** The joined text is empty exactly when there are no lines or one empty line. */
  lemma JoinEmpty(lines: seq<string>)
    ensures Join(lines) == "" <==> |lines| == 0 || (|lines| == 1 && lines[0] == "")
  {
    if |lines| > 1 {
      assert |Join(lines)| >= 1;
    }
  }

  /** `result.get("Blocks", [])`. */
  function BlocksOrEmpty(blocks: Option<seq<Block>>): seq<Block>
  {
    if blocks.Some? then blocks.value else []
  }

  /**
   * The text assembled from the final response: the joined `LINE` texts; an
   * empty text falls through to a fallback that names the unbound `e` and so
   * raises `NameError`.
   */
  function TextOf(blocks: Option<seq<Block>>): (r: Result<string, Error>)
    ensures LineTexts(BlocksOrEmpty(blocks)).Failure? ==> r == Failure(LineTexts(BlocksOrEmpty(blocks)).error)
    ensures LineTexts(BlocksOrEmpty(blocks)).Success? ==>
      var lines := LineTexts(BlocksOrEmpty(blocks)).value;
      (r.Success? <==> !(|lines| == 0 || (|lines| == 1 && lines[0] == ""))) &&
      (r.Success? ==> r.value == Join(lines)) &&
      (r.Failure? ==> r.error == NameError("e"))
    ensures r.Success? ==> r.value != ""
  {
    var lines :- LineTexts(BlocksOrEmpty(blocks));
    JoinEmpty(lines);
    var text := Join(lines);
    if text != "" then Success(text) else Failure(NameError("e"))
  }

  /**
   * What `parse_pdf_via_textract(s3_key)` returns or raises: the text assembled
   * from the response that settled the job, whether its status is `SUCCEEDED`
   * or `FAILED`; an exception from the start or a poll escapes.
   */
  function Extraction(job: TextractJob): (r: Result<string, Error>)
    requires job.Started? ==> Settles(job.polls)
    ensures job.StartFailed? ==> r == Failure(job.error)
    ensures job.Started? && FinalPoll(job.polls).PollError? ==> r == Failure(FinalPoll(job.polls).error)
    ensures job.Started? && FinalPoll(job.polls).Response? ==> r == TextOf(FinalPoll(job.polls).blocks)
    ensures r.Success? ==> r.value != ""
  {
    match job
    case StartFailed(e) => Failure(e)
    case Started(_, polls) =>
      var p := FinalPoll(polls);
      if p.PollError? then Failure(p.error) else TextOf(p.blocks)
  }

  /** `parse_pdf_via_textract(s3_key)`: start the job, poll until it settles, assemble the text. */
  method ParsePdfViaTextract(job: TextractJob) returns (r: Result<string, Error>)
    requires job.Started? ==> Settles(job.polls)
    ensures r == Extraction(job)
  {
    if job.StartFailed? {
      return Failure(job.error);
    }
    var polls := job.polls;
    var i := 0;
    var result := polls[0];
    while !Stops(result)
      invariant 0 <= i < |polls| && result == polls[i]
      invariant Settles(polls[i..]) && FinalPoll(polls[i..]) == FinalPoll(polls)
      decreases |polls| - i
    {
      assert polls[i..][1..] == polls[i + 1..];
      i := i + 1;
      result := polls[i];
    }
    if result.PollError? {
      return Failure(result.error);
    }
    r := TextOf(result.blocks);
  }
}
