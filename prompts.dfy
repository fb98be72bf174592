/**
 * The interactive prompts of `src/utils.rs`: `input_with_default` and
 * `get_multiline_commit_message`. The user's replies are given as a
 * sequence of answers, consumed in order; running out of answers stands for
 * the read failing (the terminal closing), which `?` propagates.
 */
module Prompts {
  import opened Wrappers
  import opened Text

  /** The failure of reading a reply from the terminal. */
  datatype PromptError = ReadFailed

  /** `input_with_default`: an empty reply means "keep the default". */
  function InputWithDefault(input: string): (r: Option<string>)
    ensures r.None? <==> input == ""
    ensures r.Some? ==> r.value == input
  {
    if input == "" then None else Some(input)
  }

  /** The message used when the title is left empty. */
  const DefaultMessage := "Normal Update"

  /** Index of the first empty answer in s, or |s| when every answer is non-empty. */
  function FirstEmpty(s: seq<string>): (k: nat)
    ensures k <= |s|
    ensures k < |s| ==> s[k] == ""
    ensures forall j :: 0 <= j < k ==> s[j] != ""
  {
    if s == [] || s[0] == "" then 0 else 1 + FirstEmpty(s[1..])
  }

  /** Each body line with the `"- "` bullet in front of it. */
  function Bullets(body: seq<string>): (r: seq<string>)
    ensures |r| == |body|
    ensures forall i :: 0 <= i < |r| ==> r[i] == "- " + body[i]
  {
    if body == [] then [] else Bullets(body[..|body| - 1]) + ["- " + body[|body| - 1]]
  }

  /** The message built from a non-empty title and the body lines collected before the empty one. */
  function DraftMessage(title: string, body: seq<string>): string {
    if body == [] then title else title + "\n\n" + Join(Bullets(body), "\n")
  }

  /**
   * What `get_multiline_commit_message` returns on the replies `answers`:
   * the first is the title, then body lines up to the first empty reply.
   */
  function CommitMessage(answers: seq<string>): Result<string, PromptError> {
    if answers == [] then Err(ReadFailed)
    else if answers[0] == "" then Ok(DefaultMessage)
    else
      var k := FirstEmpty(answers[1..]);
      if 1 + k == |answers| then Err(ReadFailed) else Ok(DraftMessage(answers[0], answers[1..1 + k]))
  }

  /** How many replies `get_multiline_commit_message` reads from `answers`. */
  function AnswersRead(answers: seq<string>): nat {
    if answers == [] then 0
    else if answers[0] == "" then 1
    else
      var k := FirstEmpty(answers[1..]);
      if 1 + k == |answers| then |answers| else 2 + k
  }

  /** `get_multiline_commit_message`, reading the replies one at a time from `answers`. */
  method GetMultilineCommitMessage(answers: seq<string>) returns (r: Result<string, PromptError>, used: nat)
    ensures used == AnswersRead(answers) && used <= |answers|
    ensures r == CommitMessage(answers)
  {
    if |answers| == 0 {
      return Err(ReadFailed), 0;
    }
    var title := answers[0];
    if title == "" {
      return Ok(DefaultMessage), 1;
    }
    var contentLines: seq<string> := [];
    var lineIndex := 1;
    var next := 1;
    while true
      invariant 1 <= next <= |answers|
      invariant forall j :: 1 <= j < next ==> answers[j] != ""
      invariant contentLines == Bullets(answers[1..next])
      invariant lineIndex == next
      decreases |answers| - next
    {
      if next == |answers| {
        FirstEmptyNone(answers[1..]);
        return Err(ReadFailed), next;
      }
      var line := answers[next];
      next := next + 1;
      if line == "" {
        break;
      }
      assert answers[1..next] == answers[1..next - 1] + [line];
      contentLines := contentLines + ["- " + line];
      lineIndex := lineIndex + 1;
    }
    FirstEmptyAt(answers[1..], next - 2);
    assert answers[1..1 + (next - 2)] == answers[1..next - 1];
    if contentLines == [] {
      r := Ok(title);
    } else {
      r := Ok(title + "\n\n" + Join(contentLines, "\n"));
    }
    used := next;
  }

  /** An empty reply at k preceded by non-empty ones makes k the first empty reply. */
  lemma FirstEmptyAt(s: seq<string>, k: nat)
    requires k < |s| && s[k] == ""
    requires forall j :: 0 <= j < k ==> s[j] != ""
    ensures FirstEmpty(s) == k
  {
  }

  /** Without an empty reply there is no first one. */
  lemma FirstEmptyNone(s: seq<string>)
    requires forall j :: 0 <= j < |s| ==> s[j] != ""
    ensures FirstEmpty(s) == |s|
  {
  }

  /** An empty title gives the default message after one reply, whatever follows. */
  lemma EmptyTitle(rest: seq<string>)
    ensures CommitMessage([""] + rest) == Ok(DefaultMessage)
    ensures AnswersRead([""] + rest) == 1
  {
  }

  /**
   * A non-empty title whose body is closed by an empty reply at k + 1 gives
   * the title alone when k is 0, and otherwise the title, a blank line and
   * the k bulleted body lines joined by line breaks; k + 2 replies are read.
   */
  lemma TitleAndBody(a: seq<string>, k: nat)
    requires k + 1 < |a| && a[0] != "" && a[k + 1] == ""
    requires forall j :: 1 <= j <= k ==> a[j] != ""
    ensures CommitMessage(a) == Ok(DraftMessage(a[0], a[1..k + 1]))
    ensures k == 0 ==> CommitMessage(a) == Ok(a[0])
    ensures k > 0 ==> CommitMessage(a) == Ok(a[0] + "\n\n" + Join(Bullets(a[1..k + 1]), "\n"))
    ensures AnswersRead(a) == k + 2
  {
    var s := a[1..];
    forall j | 0 <= j < k ensures s[j] != "" {
      assert s[j] == a[j + 1];
    }
    FirstEmptyAt(s, k);
  }

  /** Replies after the ones read have no effect on the message. */
  lemma LaterAnswersIgnored(answers: seq<string>, more: seq<string>)
    requires CommitMessage(answers).Ok?
    ensures AnswersRead(answers) <= |answers|
    ensures CommitMessage(answers[..AnswersRead(answers)] + more) == CommitMessage(answers)
    ensures AnswersRead(answers[..AnswersRead(answers)] + more) == AnswersRead(answers)
  {
    if answers[0] == "" {
      assert answers[..1] + more == [""] + more;
      EmptyTitle(more);
    } else {
      var k := FirstEmpty(answers[1..]);
      assert answers[k + 1] == answers[1..][k];
      TitleAndBody(answers, k);
      SamePrefix(answers, answers[..k + 2] + more, k);
    }
  }

  /** Answers that agree on the title, the body and the empty reply closing it give the same message. */
  lemma SamePrefix(a: seq<string>, b: seq<string>, k: nat)
    requires k + 1 < |a| && a[0] != "" && a[k + 1] == ""
    requires forall j :: 1 <= j <= k ==> a[j] != ""
    requires k + 1 < |b| && b[..k + 2] == a[..k + 2]
    ensures CommitMessage(b) == CommitMessage(a) && AnswersRead(b) == AnswersRead(a)
  {
    forall j | 0 <= j <= k + 1 ensures b[j] == a[j] {
      assert b[j] == b[..k + 2][j];
    }
    TitleAndBody(a, k);
    TitleAndBody(b, k);
    assert b[1..k + 1] == a[1..k + 1];
  }

  /** A line that starts with the `"- "` bullet. */
  predicate IsBullet(line: string) {
    |line| >= 2 && line[0] == '-' && line[1] == ' '
  }

  /** A bullet line never reads as a log entry: its first character is not a digit. */
  lemma BulletIsNotEntry(line: string)
    requires IsBullet(line)
    ensures !IsEntryLine(line)
  {
    EntryLineByFirstChar(line);
  }

  /** A bullet line that continues with a break-free tail reads back as one bullet line. */
  lemma BulletWithTail(b: string, tail: string)
    requires IsBullet(b) && NoBreak(b) && NoBreak(tail)
    ensures |Lines(b + tail + "\n")| == 1 && AllBullets(Lines(b + tail + "\n"))
  {
    NoBreakConcat(b, tail);
    LineRoundTrip(b + tail);
  }

  predicate AllBullets(ls: seq<string>) {
    forall i :: 0 <= i < |ls| ==> IsBullet(ls[i])
  }

  lemma AllBulletsConcat(a: seq<string>, b: seq<string>)
    requires AllBullets(a) && AllBullets(b)
    ensures AllBullets(a + b)
  {
    forall i | 0 <= i < |a + b| ensures IsBullet((a + b)[i]) {
      if i < |a| {
        assert (a + b)[i] == a[i];
      } else {
        assert (a + b)[i] == b[i - |a|];
      }
    }
  }

  /**
   * The body of a message, followed by a break-free tail and the final line
   * break the log adds, reads back as bullet lines only.
   */
  lemma {:induction false} BodyLinesAreBullets(bs: seq<string>, tail: string)
    requires bs != []
    requires forall i :: 0 <= i < |bs| ==> IsBullet(bs[i]) && NoBreak(bs[i])
    requires NoBreak(tail)
    ensures AllBullets(Lines(Join(bs, "\n") + tail + "\n"))
    decreases |bs|
  {
    var last := bs[|bs| - 1];
    BulletWithTail(last, tail);
    if |bs| > 1 {
      var init := bs[..|bs| - 1];
      var j := Join(init, "\n");
      NoBreakByChars("");
      BodyLinesAreBullets(init, "");
      assert j + "" + "\n" == j + "\n";
      assert Join(bs, "\n") + tail + "\n" == (j + "\n") + (last + tail + "\n");
      LinesConcat(j + "\n", last + tail + "\n");
      AllBulletsConcat(Lines(j + "" + "\n"), Lines(last + tail + "\n"));
    } else {
      assert Join(bs, "\n") == last;
    }
  }
}
