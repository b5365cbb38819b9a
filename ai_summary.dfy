/** The AI summary panel (components/ai/AISummary.tsx): the loading, data and
    error state that one summary request walks through, the message shown for
    a failed response, and the completion rate read back out of the summary
    text. The request itself enters as its outcome. */
module AISummary {
  import opened Common

  datatype SummaryData = SummaryData(
    summary: string,
    urgentTasks: seq<string>,
    insights: seq<string>,
    recommendations: seq<string>)

  /** What the request ends in: a response that is not ok (with the `error`
      field of its body), an ok response (with its `success` and `data`
      fields), or a thrown value (`None` when it is not an `Error`). */
  datatype SummaryResponse =
    | NotOk(status: int, serverError: Option<string>)
    | Ok(success: bool, data: Option<SummaryData>)
    | Threw(message: Option<string>)

  const SummaryFailedDefault := "AI 요약 중 오류가 발생했습니다."
  const InputErrorPrefix := "입력 오류: "
  const QuotaMessage := "AI 서비스 사용량이 초과되었습니다. 잠시 후 다시 시도해주세요."
  const UnavailableMessage := "AI 서비스에 연결할 수 없습니다. 잠시 후 다시 시도해주세요."
  const TimeoutMessage := "AI 처리 시간이 초과되었습니다. 다시 시도해주세요."
  const MissingDataMessage := "AI 요약 데이터를 가져오는데 실패했습니다."

  /** The message thrown for a response that is not ok. */
  function SummaryErrorMessage(status: int, serverError: Option<string>): (r: string)
    ensures status == 400 ==> r == InputErrorPrefix + OrElse(serverError, SummaryFailedDefault)
    ensures status == 429 ==> r == QuotaMessage
    ensures status == 503 ==> r == UnavailableMessage
    ensures status == 408 ==> r == TimeoutMessage
    ensures status !in {400, 429, 503, 408} ==> r == OrElse(serverError, SummaryFailedDefault)
  {
    var message := OrElse(serverError, SummaryFailedDefault);
    if status == 400 then InputErrorPrefix + message
    else if status == 429 then QuotaMessage
    else if status == 503 then UnavailableMessage
    else if status == 408 then TimeoutMessage
    else message
  }

  /** The message is never empty, and the server's own text is shown whenever
      the status has no fixed message and the server sent one. */
  lemma SummaryErrorShowsServer(status: int, serverError: Option<string>)
    ensures SummaryErrorMessage(status, serverError) != ""
    ensures status !in {429, 503, 408} && serverError.Some? && serverError.value != "" ==>
      Contains(SummaryErrorMessage(status, serverError), serverError.value)
  {
    var r := SummaryErrorMessage(status, serverError);
    if status !in {429, 503, 408} && serverError.Some? && serverError.value != "" {
      var e := serverError.value;
      if status == 400 {
        assert OccursAt(r, e, |InputErrorPrefix|) by {
          assert r[|InputErrorPrefix|..|InputErrorPrefix| + |e|] == e;
        }
      } else {
        ContainsSelf(e);
      }
    }
  }

  // ---------------------------------------------------------------------------
  // `extractCompletionRate`: the first match of /(\d+(?:\.\d+)?)%/

  /** A run of digits starting at `k` and followed by '%'. */
  predicate DigitsThenPercent(s: string, k: int)
  {
    0 <= k <= |s| && var f := LeadingDigits(s[k..]);
    |f| > 0 && k + |f| < |s| && s[k + |f|] == '%'
  }

  /** The expression matches starting at `i`: the whole run of digits there,
      then '%' or a '.' with more digits and '%'. A shorter run never helps,
      since a digit would follow it. */
  predicate RateAt(s: string, i: int)
  {
    0 <= i < |s| && var d := LeadingDigits(s[i..]);
    |d| > 0 && i + |d| < |s|
    && (s[i + |d|] == '%' || (s[i + |d|] == '.' && DigitsThenPercent(s, i + |d| + 1)))
  }

  /** The integer part of the number matched at `i`. */
  function RateValue(s: string, i: int): nat
    requires RateAt(s, i)
  {
    DigitsValue(LeadingDigits(s[i..]))
  }

  /** The leftmost index from `i` on below `n` where `p` holds. */
  function FirstIndexFrom(n: nat, p: int -> bool, i: nat): (r: Option<nat>)
    requires i <= n
    ensures r.None? ==> forall j :: i <= j < n ==> !p(j)
    ensures r.Some? ==> i <= r.value < n && p(r.value) && forall j :: i <= j < r.value ==> !p(j)
    decreases n - i
  {
    if i == n then None
    else if p(i) then Some(i)
    else FirstIndexFrom(n, p, i + 1)
  }

  /** The match test as a function of the start index. */
  function RateTest(summary: string): int -> bool
  {
    (j: int) => RateAt(summary, j)
  }

  /** `extractCompletionRate`, integer part only. */
  function ExtractCompletionRate(summary: string): (r: nat)
    ensures (forall j :: 0 <= j < |summary| ==> !RateAt(summary, j)) ==> r == 0
  {
    var first := FirstIndexFrom(|summary|, RateTest(summary), 0);
    if first.None? then 0 else RateValue(summary, first.value)
  }

  /** When the expression matches, the rate is the number at its leftmost
      match. */
  lemma ExtractAtFirstMatch(summary: string, i: int)
    requires RateAt(summary, i)
    requires forall j :: 0 <= j < i ==> !RateAt(summary, j)
    ensures ExtractCompletionRate(summary) == RateValue(summary, i)
  {
    var p := RateTest(summary);
    assert p(i);
    var first := FirstIndexFrom(|summary|, p, 0);
    assert first.Some?;
    assert p(first.value);
  }

  /** A rate written as `n%` after text without digits is read back as `n`. */
  lemma RenderedRateReadBack(prefix: string, n: nat, rest: string)
    requires forall j :: 0 <= j < |prefix| ==> !IsDigit(prefix[j])
    ensures ExtractCompletionRate(prefix + NatToString(n) + "%" + rest) == n
  {
    var digits := NatToString(n);
    var s := prefix + digits + "%" + rest;
    var i := |prefix|;
    forall j | 0 <= j < i ensures !RateAt(s, j) {
      assert s[j..][0] == prefix[j];
    }
    assert s[i..] == digits + ['%'] + rest;
    LeadingDigitsStop(digits, '%', rest);
    assert s[i + |digits|] == '%';
    assert RateAt(s, i);
    ExtractAtFirstMatch(s, i);
  }

  // ---------------------------------------------------------------------------
  // The panel state

  class SummaryPanel {
    var isLoading: bool
    var summaryData: Option<SummaryData>
    var error: Option<string>

    constructor()
      ensures !isLoading && summaryData.None? && error.None?
    {
      isLoading := false;
      summaryData := None;
      error := None;
    }

    /** The rate shown in the progress bar: 0 without data, otherwise the rate
        read back from the summary text. */
    function CompletionRate(): (r: nat)
      reads this
      ensures summaryData.None? ==> r == 0
      ensures summaryData.Some? ==> r == ExtractCompletionRate(summaryData.value.summary)
    {
      if summaryData.None? then 0 else ExtractCompletionRate(summaryData.value.summary)
    }

    /** The start of `handleAISummary`, before the request is sent. */
    method Start()
      modifies this
      ensures isLoading && summaryData.None? && error.None?
    {
      isLoading := true;
      error := None;
      summaryData := None;
    }

    /** The `try`/`catch`/`finally` after the request ends in `resp`. */
    method Finish(resp: SummaryResponse)
      requires summaryData.None? && error.None?
      modifies this
      ensures !isLoading
      ensures resp.NotOk? ==> summaryData.None? && error == Some(SummaryErrorMessage(resp.status, resp.serverError))
      ensures resp.Ok? && resp.success && resp.data.Some? ==> summaryData == resp.data && error.None?
      ensures resp.Ok? && !(resp.success && resp.data.Some?) ==> summaryData.None? && error == Some(MissingDataMessage)
      ensures resp.Threw? ==> summaryData.None? && error == Some(ErrorText(resp.message, SummaryFailedDefault))
    {
      match resp {
        case NotOk(status, serverError) =>
          error := Some(SummaryErrorMessage(status, serverError));
        case Ok(success, data) =>
          if success && data.Some? {
            summaryData := data;
          } else {
            error := Some(MissingDataMessage);
          }
        case Threw(message) =>
          error := Some(ErrorText(message, SummaryFailedDefault));
      }
      isLoading := false;
    }

    /** `handleAISummary`: whatever the panel showed before, it ends with
        either the data or an error, never both, and no longer loading. */
    method HandleAISummary(resp: SummaryResponse)
      modifies this
      ensures !isLoading
      ensures summaryData.Some? <==> error.None?
      ensures summaryData.Some? <==> resp.Ok? && resp.success && resp.data.Some?
      ensures summaryData.Some? ==> summaryData == resp.data
      ensures resp.NotOk? ==> error == Some(SummaryErrorMessage(resp.status, resp.serverError))
      ensures resp.Ok? && !(resp.success && resp.data.Some?) ==> error == Some(MissingDataMessage)
      ensures resp.Threw? ==> error == Some(ErrorText(resp.message, SummaryFailedDefault))
    {
      Start();
      Finish(resp);
    }
  }
}
