/** The part of `checkEligibilityWithNormalization` after the reasoning
    service has answered: strip a code fence, parse, validate, take the
    first element of `matching_results`. */
module ResponseParser {
  import opened Wrappers
  import opened Strings
  import opened EligibilityTypes

  const Fence := "```"

  /** Every error of this step is re-thrown with this prefix. */
  const FailurePrefix := "Failed to check eligibility: "

  const MissingResults := "Invalid response format: missing matching_results"

  /** `lines.shift(); lines.pop();`: drop the first line, then the last one
      if any is left. */
  function DropFirstAndLast(lines: seq<string>): (r: seq<string>)
    requires |lines| >= 1
    ensures |lines| >= 2 ==> r == lines[1..|lines| - 1]
    ensures |lines| == 1 ==> r == []
  {
    var shifted := lines[1..];
    if |shifted| > 0 then shifted[..|shifted| - 1] else shifted
  }

  /** The text handed to `JSON.parse`: trimmed; when it starts with three
      backticks, its first and last lines are removed, whatever they hold,
      and the rest is trimmed again. */
  function StripFence(content: string): (r: string)
    ensures !StartsWith(Trim(content), Fence) ==> r == Trim(content)
    ensures |r| > 0 ==> !IsJsWhitespace(r[0]) && !IsJsWhitespace(r[|r| - 1])
  {
    var trimmed := Trim(content);
    var unfenced := if StartsWith(trimmed, Fence) then Join(DropFirstAndLast(Split(trimmed, '\n')), "\n") else trimmed;
    TrimIdempotent(content);
    Trim(unfenced)
  }

  lemma TrimIdempotent(s: string)
    ensures Trim(Trim(s)) == Trim(s)
  {
  }

  /** With a fence line first, the first and last lines are dropped even
      when the last line is not a fence. */
  lemma FenceLinesDropped(first: string, body: string, last: string)
    requires StartsWith(first, Fence) && '\n' !in first
    requires '\n' !in last && |last| > 0 && !IsJsWhitespace(last[|last| - 1])
    ensures StripFence(first + "\n" + body + "\n" + last) == Trim(body)
  {
    var content := first + "\n" + body + "\n" + last;
    assert content[0] == first[0] == '`';
    assert content[|content| - 1] == last[|last| - 1];
    assert Trim(content) == content;
    assert content[..|Fence|] == first[..|Fence|];
    assert content == first + ['\n'] + (body + ['\n'] + last);
    SplitFirstLine(first, body + ['\n'] + last, '\n');
    SplitLastLine(body, last, '\n');
    var lines := [first] + Split(body, '\n') + [last];
    assert Split(content, '\n') == lines;
    assert DropFirstAndLast(lines) == Split(body, '\n');
    JoinSplit(body, '\n');
  }

  /** A reply wrapped in one code-fence pair parses exactly like the same
      reply without the fence. */
  lemma FenceTransparent(tag: string, body: string)
    requires '\n' !in tag
    requires !StartsWith(Trim(body), Fence)
    ensures StripFence(Fence + tag + "\n" + body + "\n" + Fence) == StripFence(body)
  {
    assert (Fence + tag)[..|Fence|] == Fence;
    FenceLinesDropped(Fence + tag, body, Fence);
    TrimIdempotent(body);
  }

  /** From the reasoning service's reply (its text, or the message it failed
      with) to the first element of `matching_results`. `parse` stands for
      `JSON.parse`: the parsed reply, or the message of its SyntaxError. */
  function ReadReply(reply: Result<string, string>, parse: string -> Result<Response, string>): (r: Result<MatchingResult, string>)
    ensures r.Failure? ==> StartsWith(r.error, FailurePrefix)
    ensures reply.Failure? ==> r == Failure(FailurePrefix + reply.error)
    ensures reply.Success? && parse(StripFence(reply.value)).Failure? ==>
              r == Failure(FailurePrefix + parse(StripFence(reply.value)).error)
    ensures r.Success? <==>
              && reply.Success?
              && parse(StripFence(reply.value)).Success?
              && parse(StripFence(reply.value)).value.matchingResults.Some?
              && |parse(StripFence(reply.value)).value.matchingResults.value| > 0
    ensures r.Success? ==> r.value == parse(StripFence(reply.value)).value.matchingResults.value[0]
    ensures reply.Success? && parse(StripFence(reply.value)).Success? && r.Failure? ==>
              r.error == FailurePrefix + MissingResults
  {
    match reply
    case Failure(e) => Failure(FailurePrefix + e)
    case Success(content) =>
      match parse(StripFence(content))
      case Failure(e) => Failure(FailurePrefix + e)
      case Success(response) =>
        if response.matchingResults.None? || |response.matchingResults.value| == 0 then
          Failure(FailurePrefix + MissingResults)
        else
          Success(response.matchingResults.value[0])
  }
}
