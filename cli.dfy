/**
 * The decisions `main` in `src/main.rs` takes before the changelog is
 * updated: whether to push and to which remote, whether CI runs, and the
 * `" [skip ci]"` marker on the message that is logged and committed. The
 * flags come from the command line and the replies from the prompts; both
 * are given as values here.
 */
module Cli {
  import opened Wrappers
  import opened Text
  import opened Prompts
  import opened LogManager
  import opened LogProperties

  /** The default remote name, and the one that triggers the remote prompt. */
  const DefaultRemote := "github"

  /** The marker that tells CI to skip the commit. */
  const SkipCiMarker := " [skip ci]"

  /** The command-line arguments; `push` and `remote` are updated in place by `main`. */
  class Args {
    var commitMessage: Option<string>
    var push: bool
    var remote: string
    var ci: bool
    var noCi: bool

    constructor (commitMessage: Option<string>, push: bool, remote: string, ci: bool, noCi: bool)
      ensures this.commitMessage == commitMessage && this.push == push && this.remote == remote
      ensures this.ci == ci && this.noCi == noCi
    {
      this.commitMessage := commitMessage;
      this.push := push;
      this.remote := remote;
      this.ci := ci;
      this.noCi := noCi;
    }

    /**
     * Lines 117-126 of `main`: ask whether to push unless `--push` was
     * given, then ask for the remote when pushing to the default remote; an
     * empty reply keeps the default. Reports which prompts were shown.
     */
    method ResolvePushAndRemote(pushAnswer: bool, remoteAnswer: string) returns (askedPush: bool, askedRemote: bool)
      modifies this
      ensures askedPush == !old(push)
      ensures push == (old(push) || pushAnswer)
      ensures askedRemote == (push && old(remote) == DefaultRemote)
      ensures remote == (if askedRemote && remoteAnswer != "" then remoteAnswer else old(remote))
      ensures commitMessage == old(commitMessage) && ci == old(ci) && noCi == old(noCi)
    {
      askedPush := !push;
      if !push {
        push := pushAnswer;
      }
      askedRemote := push && remote == DefaultRemote;
      if askedRemote {
        var answer := InputWithDefault(remoteAnswer);
        if answer.Some? {
          remote := answer.value;
        }
      }
    }
  }

  /** Whether CI is enabled, and whether the user had to be asked. */
  datatype CiChoice = CiChoice(enabled: bool, asked: bool)

  /**
   * The `ci_enabled` chain: `--no-ci` wins, then `--ci`; with workflows and
   * a push the user's `answer` decides; without workflows CI stays on;
   * with workflows and no push it is off.
   */
  function DecideCi(noCi: bool, ci: bool, hasWorkflows: bool, push: bool, answer: bool): (d: CiChoice)
    ensures noCi ==> !d.enabled
    ensures !noCi && ci ==> d.enabled
    ensures !noCi && !ci && !hasWorkflows ==> d.enabled && !d.asked
    ensures !noCi && !ci && hasWorkflows && !push ==> !d.enabled && !d.asked
    ensures d.asked <==> !noCi && !ci && hasWorkflows && push
    ensures d.asked ==> d.enabled == answer
  {
    if noCi then CiChoice(false, false)
    else if ci then CiChoice(true, false)
    else if hasWorkflows && push then CiChoice(answer, true)
    else if !hasWorkflows then CiChoice(true, false)
    else CiChoice(false, false)
  }

  /** The answer only matters when the user is asked. */
  lemma AnswerOnlyWhenAsked(noCi: bool, ci: bool, hasWorkflows: bool, push: bool)
    ensures !DecideCi(noCi, ci, hasWorkflows, push, true).asked
        ==> DecideCi(noCi, ci, hasWorkflows, push, true) == DecideCi(noCi, ci, hasWorkflows, push, false)
  {
  }

  /** `final_commit_message`: the marker is appended exactly when CI is off and workflows exist. */
  function FinalCommitMessage(msg: string, ciEnabled: bool, hasWorkflows: bool): (r: string)
    ensures r == msg + SkipCiMarker <==> !ciEnabled && hasWorkflows
    ensures !(!ciEnabled && hasWorkflows) ==> r == msg
    ensures !hasWorkflows ==> r == msg
  {
    if !ciEnabled && hasWorkflows then msg + SkipCiMarker else msg
  }

  /**
   * From the flags alone: the marker is added exactly when workflows exist
   * and CI was refused by `--no-ci`, by not pushing, or by the answer.
   */
  lemma SkipCiDecision(msg: string, noCi: bool, ci: bool, hasWorkflows: bool, push: bool, answer: bool)
    ensures FinalCommitMessage(msg, DecideCi(noCi, ci, hasWorkflows, push, answer).enabled, hasWorkflows)
         == if hasWorkflows && (noCi || (!ci && (!push || !answer))) then msg + SkipCiMarker else msg
  {
  }

  /** The message drafted at the prompts, with a break-free tail, never reads back with an entry line after its first line. */
  lemma DraftIsSafe(title: string, body: seq<string>, tail: string)
    requires NoBreak(title) && NoBreak(tail)
    requires forall i :: 0 <= i < |body| ==> NoBreak(body[i])
    ensures SafeMessage(DraftMessage(title, body) + tail)
  {
    if body == [] {
      NoBreakConcat(title, tail);
      LineRoundTrip(title + tail);
    } else {
      BodyDraftIsSafe(title, body, tail);
    }
  }

  /** The case of `DraftIsSafe` with body lines. */
  lemma BodyDraftIsSafe(title: string, body: seq<string>, tail: string)
    requires NoBreak(title) && NoBreak(tail) && body != []
    requires forall i :: 0 <= i < |body| ==> NoBreak(body[i])
    ensures SafeMessage(DraftMessage(title, body) + tail)
  {
    var rest := Join(Bullets(body), "\n") + tail + "\n";
    assert AllBullets(Lines(rest)) by {
      BulletsBreakFree(body);
      BodyLinesAreBullets(Bullets(body), tail);
    }
    DraftText(title, body, tail);
    TitleThenBullets(title, rest);
  }

  /** A drafted message with body lines, a tail and the final break, as title line, blank line and body. */
  lemma DraftText(title: string, body: seq<string>, tail: string)
    requires body != []
    ensures DraftMessage(title, body) + tail + "\n" == title + "\n\n" + (Join(Bullets(body), "\n") + tail + "\n")
  {
    var a := title + "\n\n";
    var j := Join(Bullets(body), "\n");
    ConcatAssoc(a, j, tail);
    ConcatAssoc(a, j + tail, "\n");
  }

  /** Break-free body lines give break-free bullet lines. */
  lemma BulletsBreakFree(body: seq<string>)
    requires forall i :: 0 <= i < |body| ==> NoBreak(body[i])
    ensures forall i :: 0 <= i < |Bullets(body)| ==> IsBullet(Bullets(body)[i]) && NoBreak(Bullets(body)[i])
  {
    NoBreakByChars("- ");
    forall i | 0 <= i < |body| ensures NoBreak("- " + body[i]) {
      NoBreakConcat("- ", body[i]);
    }
  }

  /** A title, a blank line and bullet lines: only the title can read as an entry. */
  lemma TitleThenBullets(title: string, rest: string)
    requires NoBreak(title) && AllBullets(Lines(rest))
    ensures var ls := Lines(title + "\n\n" + rest);
      forall i :: 1 <= i < |ls| ==> !IsEntryLine(ls[i])
  {
    var ls := Lines(title + "\n\n" + rest);
    assert ls == [StripCarriageReturn(title), ""] + Lines(rest) by {
      TitleAndBlankLine(title, rest);
    }
    forall i | 1 <= i < |ls| ensures !IsEntryLine(ls[i]) {
      if i >= 2 {
        assert ls[i] == Lines(rest)[i - 2];
        BulletIsNotEntry(ls[i]);
      }
    }
  }

  /** A title line and a blank line read back as themselves, before the lines of what follows. */
  lemma TitleAndBlankLine(title: string, rest: string)
    requires NoBreak(title)
    ensures Lines(title + "\n\n" + rest) == [StripCarriageReturn(title), ""] + Lines(rest)
  {
    assert title + "\n\n" + rest == (title + "\n") + ("\n" + rest) by {
      assert "\n\n" == "\n" + "\n";
      ConcatAssoc(title + "\n", "\n", rest);
    }
    LinesConcat(title + "\n", "\n" + rest);
    LineRoundTrip(title);
    assert Lines("\n" + rest) == [""] + Lines(rest) by {
      assert ("\n" + rest)[0] == '\n' && ("\n" + rest)[1..] == rest;
    }
  }

  /** The drafted message stays safe with the skip-ci marker appended. */
  lemma FinalDraftIsSafe(title: string, body: seq<string>, ciEnabled: bool, hasWorkflows: bool)
    requires NoBreak(title)
    requires forall i :: 0 <= i < |body| ==> NoBreak(body[i])
    ensures SafeMessage(FinalCommitMessage(DraftMessage(title, body), ciEnabled, hasWorkflows))
  {
    var draft := DraftMessage(title, body);
    if !ciEnabled && hasWorkflows {
      NoBreakByChars(SkipCiMarker);
      DraftIsSafe(title, body, SkipCiMarker);
    } else {
      NoBreakByChars("");
      DraftIsSafe(title, body, "");
      assert draft + "" == draft;
    }
  }

  /** A message read at the prompts is a drafted message whose title and body lines are replies, or the default. */
  lemma PromptedDraft(answers: seq<string>) returns (title: string, body: seq<string>)
    requires CommitMessage(answers).Ok?
    requires forall i :: 0 <= i < |answers| ==> NoBreak(answers[i])
    ensures CommitMessage(answers).value == DraftMessage(title, body)
    ensures NoBreak(title) && forall i :: 0 <= i < |body| ==> NoBreak(body[i])
  {
    if answers[0] == "" {
      title, body := DefaultMessage, [];
      NoBreakByChars(DefaultMessage);
    } else {
      var k := FirstEmpty(answers[1..]);
      title, body := answers[0], answers[1..1 + k];
      forall i | 0 <= i < |body| ensures NoBreak(body[i]) {
        assert body[i] == answers[1 + i];
      }
    }
  }

  /**
   * A message read at the prompts (every reply a single line), with or
   * without the skip-ci marker, is safe to log: only its first line can
   * read as an entry.
   */
  lemma PromptedMessageIsSafe(answers: seq<string>, ciEnabled: bool, hasWorkflows: bool)
    requires CommitMessage(answers).Ok?
    requires forall i :: 0 <= i < |answers| ==> NoBreak(answers[i])
    ensures SafeMessage(FinalCommitMessage(CommitMessage(answers).value, ciEnabled, hasWorkflows))
  {
    var title, body := PromptedDraft(answers);
    FinalDraftIsSafe(title, body, ciEnabled, hasWorkflows);
  }

  /**
   * Messages read at the prompts and logged on one day, starting without a
   * daily log, are numbered 1..N in order, and the scan counts N entries;
   * each run decides CI for itself, so the marker may differ from call to call.
   */
  lemma PromptedMessagesNumbered(f: Files, date: string, answers: seq<seq<string>>, msgs: seq<string>,
                                 ciEnabled: seq<bool>, hasWorkflows: seq<bool>)
    requires f.today.None? && IsDate(date) && msgs != [] && |msgs| == |answers|
    requires |ciEnabled| == |msgs| && |hasWorkflows| == |msgs|
    requires forall n :: 0 <= n < |answers| ==> CommitMessage(answers[n]).Ok?
    requires forall n, i :: 0 <= n < |answers| && 0 <= i < |answers[n]| ==> NoBreak(answers[n][i])
    requires forall n :: 0 <= n < |msgs| ==>
      msgs[n] == FinalCommitMessage(CommitMessage(answers[n]).value, ciEnabled[n], hasWorkflows[n])
    ensures RecordAll(f, date, msgs) == Files(EnsuredMain(f.main), Some(DayLog(date, msgs)))
    ensures Scan(Lines(DayLog(date, msgs)), date) == (true, |msgs|)
  {
    forall n | 0 <= n < |msgs| ensures SafeMessage(msgs[n]) {
      PromptedMessageIsSafe(answers[n], ciEnabled[n], hasWorkflows[n]);
    }
    SameDayNumbering(f, date, msgs);
  }
}
