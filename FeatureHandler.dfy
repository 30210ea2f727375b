/**
 * `handle_plan_request` (app/handlers/feature.py): every message no command
 * handler took is read as a request for a plan. The answers sent are
 * returned in order; the clock and the random choices of the plan are the
 * parameters of `GenerateContentPlan`.
 */
module FeatureHandler {
  import opened Wrappers
  import opened Text
  import opened Planner

  /** Requests shorter than this, once stripped, are turned away. */
  const MinRequestLength := 5

  const ShortRequestText: string :=
    "⚠" + "\U{FE0F} Слишком короткий запрос. Опиши свою нишу и целевую аудиторию подробнее.\n\n"
    + "Пример: <code>ниша: кулинария, ЦА: молодые мамы</code>"

  const ProgressText: string := "⏳" + " Генерирую контент-план..."

  /**
   * `handle_plan_request`: no answer to a message without text; the hint
   * for a request shorter than five characters after stripping; otherwise
   * the progress notice followed by the plan for the stripped request.
   */
  method HandlePlanRequest(text: Option<string>, start: int, dateLabel: int -> string, picks: seq<nat>)
    returns (replies: seq<string>)
    requires ValidPicks(picks)
    ensures text == None || text == Some("") ==> replies == []
    ensures text.Some? && text.value != "" && |Strip(text.value)| < MinRequestLength ==> replies == [ShortRequestText]
    ensures text.Some? && |Strip(text.value)| >= MinRequestLength ==>
      var brief := ParseUserInput(Strip(text.value));
      replies == [ProgressText, Join(PlanLines(brief, start, dateLabel, DayPosts(brief, picks)), "\n")]
  {
    if text.None? || text.value == "" {
      return [];
    }
    var userInput := Strip(text.value);
    if |userInput| < MinRequestLength {
      return [ShortRequestText];
    }
    var plan := GenerateContentPlan(userInput, start, dateLabel, picks);
    replies := [ProgressText, plan];
  }

  /** A message of whitespace only gets the hint, not a plan. */
  lemma BlankRequestIsShort(text: string)
    requires text != "" && AllSpace(text)
    ensures Strip(text) == "" && |Strip(text)| < MinRequestLength
  {
  }

  /**
   * Surrounding whitespace neither counts toward the length nor reaches the
   * planner: padding a request leaves both the gate and the plan unchanged.
   */
  lemma PaddingIsIgnored(pad1: string, request: string, pad2: string)
    requires AllSpace(pad1) && AllSpace(pad2)
    requires request != "" && !IsSpace(request[0]) && !IsSpace(request[|request| - 1])
    ensures Strip(pad1 + request + pad2) == request
  {
    var s := pad1 + request + pad2;
    assert s[|pad1|..|pad1| + |request|] == request;
    assert SkipSpaces(s, 0) == |pad1| by {
      assert SpaceBetween(s, 0, |pad1|);
      assert !IsSpace(s[|pad1|]);
      SkipSpacesIs(s, 0, |pad1|);
    }
    assert BackOverSpaces(s, |s|) == |pad1| + |request| by {
      assert SpaceBetween(s, |pad1| + |request|, |s|);
      assert !IsSpace(s[|pad1| + |request| - 1]);
      BackOverSpacesIs(s, |s|, |pad1| + |request|);
    }
  }

  lemma {:induction false} SkipSpacesIs(s: string, i: nat, k: nat)
    requires i <= k < |s| && SpaceBetween(s, i, k) && !IsSpace(s[k])
    ensures SkipSpaces(s, i) == k
    decreases k - i
  {
    if i < k {
      SkipSpacesIs(s, i + 1, k);
    }
  }

  lemma {:induction false} BackOverSpacesIs(s: string, j: nat, k: nat)
    requires 0 < k <= j <= |s| && SpaceBetween(s, k, j) && !IsSpace(s[k - 1])
    ensures BackOverSpaces(s, j) == k
    decreases j - k
  {
    if k < j {
      BackOverSpacesIs(s, j - 1, k);
    }
  }

  /** The examples of the plan tests get the notice and a plan that names their niche and audience. */
  method SportsRequest(text: string, start: int, dateLabel: int -> string, picks: seq<nat>) returns (replies: seq<string>)
    requires text == "ниша: фитнес, ЦА: спортсмены"
    requires ValidPicks(picks)
    ensures |replies| == 2 && replies[0] == ProgressText
    ensures IsInfix("фитнес", replies[1]) && IsInfix("спортсмены", replies[1])
  {
    StripKeeps(text);
    replies := HandlePlanRequest(Some(text), start, dateLabel, picks);
    ExampleSportsPlan(text, start, dateLabel, picks, replies[1]);
  }

  /** `" abc "` is three characters once stripped, so it gets the hint and no plan. */
  method ShortRequest(text: string, start: int, dateLabel: int -> string, picks: seq<nat>) returns (replies: seq<string>)
    requires text == " abc "
    requires ValidPicks(picks)
    ensures replies == [ShortRequestText]
  {
    PaddingIsIgnored(" ", "abc", " ");
    assert text == " " + "abc" + " ";
    replies := HandlePlanRequest(Some(text), start, dateLabel, picks);
  }
}
