/** The to-do form (components/todo/TodoForm.tsx): its schema, the mapping of
    submitted values, and the natural-language parse handler with its error
    messages and its category-matching cascade. */
module TodoForm {
  import opened Common
  import opened Types
  import opened LocalTime

  // ---------------------------------------------------------------------------
  // Schema and submission

  /** The form's field values.  An empty string is an unset field; the due date
      is the `datetime-local` text of the input. */
  datatype FormValues = FormValues(
    title: string,
    description: string,
    dueDate: string,
    priority: Priority,
    categoryId: string)

  /** The `defaultValues` given to `useForm`: the edited todo's fields, or an
      empty form with priority medium.  A due date is shown as
      `toISOString().slice(0, 16)`, the UTC date and time of the instant. */
  function DefaultValues(todo: Option<Todo>): (v: FormValues)
    ensures todo.None? ==> v == FormValues("", "", "", Medium, "")
    ensures todo.Some? ==>
      var t := todo.value;
      v.title == t.title && v.priority == t.priority
      && v.description == (if t.description.Some? then t.description.value else "")
      && (v.dueDate == "" <==> t.dueDate.None?)
      && (t.dueDate.Some? ==> v.dueDate == IsoMinuteText(t.dueDate.value))
      && (v.categoryId == "" <==> t.categoryId.None?)
      && (t.categoryId.Some? ==> ParseInt(v.categoryId) == Some(t.categoryId.value))
  {
    match todo
    case None => FormValues("", "", "", Medium, "")
    case Some(t) =>
      var category := (match t.categoryId
        case Some(id) => IntToStringRoundTrip(id); IntToString(id)
        case None => "");
      FormValues(
        t.title,
        if t.description.Some? then t.description.value else "",
        if t.dueDate.Some? then IsoMinuteText(t.dueDate.value) else "",
        t.priority,
        category)
  }

  const TitleRequired := "제목을 입력해주세요"
  const TitleTooLong := "제목은 120자를 초과할 수 없습니다"
  const DescriptionTooLong := "설명은 2000자를 초과할 수 없습니다"

  /** The title rule of `TodoFormSchema`. */
  function TitleError(title: string): (r: Option<string>)
    ensures r.None? <==> 1 <= |title| <= 120
    ensures r == Some(TitleRequired) <==> title == ""
    ensures r == Some(TitleTooLong) <==> |title| > 120
  {
    if |title| < 1 then Some(TitleRequired)
    else if |title| > 120 then Some(TitleTooLong)
    else None
  }

  /** The description rule of `TodoFormSchema`. */
  function DescriptionError(description: string): (r: Option<string>)
    ensures r.None? <==> |description| <= 2000
    ensures r.Some? ==> r.value == DescriptionTooLong
  {
    if |description| > 2000 then Some(DescriptionTooLong) else None
  }

  /** The form can be submitted when no field has an error; the priority is one
      of the three values by its type. */
  predicate FormValid(v: FormValues)
  {
    TitleError(v.title).None? && DescriptionError(v.description).None?
  }

  lemma FormValidBounds(v: FormValues)
    ensures FormValid(v) <==> 1 <= |v.title| <= 120 && |v.description| <= 2000
  {
  }

  /** `handleFormSubmit`: empty fields become `undefined`; a category id is read
      with `parseInt`. */
  function ToSubmitData(v: FormValues): (d: CreateTodoData)
    ensures d.title == v.title && d.priority == v.priority
    ensures d.description.None? <==> v.description == ""
    ensures d.description.Some? ==> d.description.value == v.description
    ensures d.dueDate.None? <==> v.dueDate == ""
    ensures d.dueDate.Some? ==> d.dueDate.value == v.dueDate
    ensures v.categoryId == "" ==> d.categoryId.None?
    ensures v.categoryId != "" ==> d.categoryId == ParseInt(v.categoryId)
  {
    CreateTodoData(
      v.title,
      if v.description == "" then None else Some(v.description),
      if v.dueDate == "" then None else Some(v.dueDate),
      v.priority,
      if v.categoryId == "" then None else ParseInt(v.categoryId))
  }

  /** Opening a todo for editing and submitting the form unchanged sends back
      its title, priority and category, its description unless that is empty,
      and its due date as the UTC minute text of the instant. */
  lemma EditUnchangedSubmitsTodo(t: Todo)
    ensures var d := ToSubmitData(DefaultValues(Some(t)));
      d.title == t.title && d.priority == t.priority && d.categoryId == t.categoryId
      && (d.description.None? <==> t.description.None? || t.description == Some(""))
      && (d.description.Some? ==> d.description == t.description)
      && (d.dueDate.None? <==> t.dueDate.None?)
      && (t.dueDate.Some? ==> d.dueDate == Some(IsoMinuteText(t.dueDate.value)))
  {
    var v := DefaultValues(Some(t));
    if t.categoryId.Some? {
      SubmitCategoryRoundTrip(v, t.categoryId.value);
    }
  }

  /** A category id written into the form as `id.toString()` is submitted as
      that id. */
  lemma SubmitCategoryRoundTrip(v: FormValues, id: int)
    requires v.categoryId == IntToString(id)
    ensures ToSubmitData(v).categoryId == Some(id)
  {
    IntToStringRoundTrip(id);
  }

  // ---------------------------------------------------------------------------
  // Error messages of the parse request

  const ParseFailedDefault := "AI 파싱 중 오류가 발생했습니다."
  const InputErrorPrefix := "입력 오류: "
  const QuotaMessage := "AI 서비스 사용량이 초과되었습니다. 잠시 후 다시 시도해주세요."
  const UnavailableMessage := "AI 서비스에 연결할 수 없습니다. 잠시 후 다시 시도해주세요."
  const TimeoutMessage := "AI 처리 시간이 초과되었습니다. 더 간단한 문장으로 다시 시도해주세요."

  /** The message shown for a failed parse response. */
  function ParseErrorMessage(status: int, serverError: Option<string>): (r: string)
    ensures status == 400 ==> r == InputErrorPrefix + OrElse(serverError, ParseFailedDefault)
    ensures status == 429 ==> r == QuotaMessage
    ensures status == 503 ==> r == UnavailableMessage
    ensures status == 408 ==> r == TimeoutMessage
    ensures status !in {400, 429, 503, 408} ==> r == OrElse(serverError, ParseFailedDefault)
  {
    var message := OrElse(serverError, ParseFailedDefault);
    if status == 400 then InputErrorPrefix + message
    else if status == 429 then QuotaMessage
    else if status == 503 then UnavailableMessage
    else if status == 408 then TimeoutMessage
    else message
  }

  /** The user always sees some message: the server's text when it sent one,
      otherwise a fixed one. */
  lemma ParseErrorNeverEmpty(status: int, serverError: Option<string>)
    ensures ParseErrorMessage(status, serverError) != ""
    ensures status !in {429, 503, 408} && serverError.Some? && serverError.value != "" ==>
      Contains(ParseErrorMessage(status, serverError), serverError.value)
  {
    var r := ParseErrorMessage(status, serverError);
    if status !in {429, 503, 408} && serverError.Some? && serverError.value != "" {
      var e := serverError.value;
      if status == 400 {
        assert OccursAt(r, e, |InputErrorPrefix|) by {
          assert r[|InputErrorPrefix|..|InputErrorPrefix| + |e|] == e;
        }
      } else {
        ContainsSelf(e);
      }
    }
  }

  /** `handleAIParse` returns at once for blank input. */
  predicate ShouldRequestParse(input: string)
  {
    Trim(input) != ""
  }

  lemma BlankInputSkipsRequest(input: string)
    ensures !ShouldRequestParse(input) <==> forall i :: 0 <= i < |input| ==> IsSpace(input[i])
  {
    TrimEmptyIffAllSpace(input);
  }

  // ---------------------------------------------------------------------------
  // Category matching

  /** The names of a category and of the parsed label are equal, ignoring case. */
  function ExactName(wanted: string): Category -> bool
  {
    (c: Category) => Lower(c.name) == Lower(wanted)
  }

  /** Either of the two lower-cased names contains the other. */
  function PartialName(wanted: string): Category -> bool
  {
    (c: Category) => Contains(Lower(c.name), Lower(wanted)) || Contains(Lower(wanted), Lower(c.name))
  }

  /** A category whose name is exactly `name`. */
  function NamedExactly(name: string): Category -> bool
  {
    (c: Category) => c.name == name
  }

  /** A keyword occurs in the parsed label or in the typed text. */
  function KeywordIn(wanted: string, input: string): string -> bool
  {
    (k: string) => Contains(Lower(wanted), Lower(k)) || Contains(Lower(input), Lower(k))
  }

  /** `categoryKeywords`, in declaration order. */
  const CategoryKeywords: seq<(string, seq<string>)> := [
    ("업무", ["업무", "회의", "보고서", "프로젝트", "회사", "사무", "미팅", "발표", "기획", "업무용", "직장"]),
    ("개인", ["개인", "쇼핑", "친구", "가족", "여행", "휴가", "모임", "데이트", "놀이", "취미"]),
    ("건강", ["건강", "운동", "병원", "요가", "헬스", "약속", "검진", "치료", "약", "의료", "피트니스"]),
    ("학습", ["학습", "공부", "책", "강의", "독서", "교육", "책 읽기", "독서하기", "공부하기", "배우기", "읽기", "학원", "수업", "시험"])
  ]

  /** Whether a keyword table entry applies: one of its keywords occurs, and a
      category of exactly its name exists. */
  function EntryMatch(categories: seq<Category>, entry: (string, seq<string>), wanted: string, input: string): Option<Category>
  {
    if FirstWhere(entry.1, KeywordIn(wanted, input)).Some? then FirstWhere(categories, NamedExactly(entry.0))
    else None
  }

  function EntryOf(categories: seq<Category>, wanted: string, input: string): ((string, seq<string>)) -> Option<Category>
  {
    e => EntryMatch(categories, e, wanted, input)
  }

  /** The keyword stage: the first entry of the table that applies. */
  function KeywordStage(categories: seq<Category>, table: seq<(string, seq<string>)>, wanted: string, input: string): Option<Category>
  {
    FirstSome(table, EntryOf(categories, wanted, input))
  }

  /** The three stages in order: exact name, partial name, keywords. */
  function CategoryCascade(categories: seq<Category>, wanted: string, input: string): Option<Category>
  {
    var exact := FirstWhere(categories, ExactName(wanted));
    if exact.Some? then exact
    else
      var partial := FirstWhere(categories, PartialName(wanted));
      if partial.Some? then partial else KeywordStage(categories, CategoryKeywords, wanted, input)
  }

  /** The category matching of `handleAIParse`: two `find`s, then the keyword
      table. */
  method MatchCategory(categories: seq<Category>, wanted: string, input: string) returns (m: Option<Category>)
    ensures m == CategoryCascade(categories, wanted, input)
  {
    m := FirstWhere(categories, ExactName(wanted));
    if m.None? {
      m := FirstWhere(categories, PartialName(wanted));
    }
    if m.None? {
      m := KeywordMatch(categories, CategoryKeywords, wanted, input);
    }
  }

  /** The keyword table scanned with `for ... of`, left with `break` at the
      first entry that has a keyword hit and a category of its name. */
  method KeywordMatch(categories: seq<Category>, table: seq<(string, seq<string>)>, wanted: string, input: string)
    returns (m: Option<Category>)
    ensures m == KeywordStage(categories, table, wanted, input)
  {
    m := None;
    var t := 0;
    while t < |table|
      invariant 0 <= t <= |table|
      invariant FirstSome(table[t..], EntryOf(categories, wanted, input)) == KeywordStage(categories, table, wanted, input)
      invariant m.None?
    {
      var (name, keywords) := table[t];
      var matchedKeyword := FirstWhere(keywords, KeywordIn(wanted, input));
      if matchedKeyword.Some? {
        m := FirstWhere(categories, NamedExactly(name));
        if m.Some? {
          assert m == EntryOf(categories, wanted, input)(table[t..][0]);
          break;
        }
      }
      assert EntryOf(categories, wanted, input)(table[t..][0]).None?;
      assert table[t..][1..] == table[t + 1..];
      t := t + 1;
    }
  }

  /** An exact name match, ignoring case, wins: the result is the first such
      category in list order. */
  lemma ExactMatchWins(categories: seq<Category>, wanted: string, input: string, i: int)
    requires 0 <= i < |categories| && Lower(categories[i].name) == Lower(wanted)
    requires forall j :: 0 <= j < i ==> Lower(categories[j].name) != Lower(wanted)
    ensures CategoryCascade(categories, wanted, input) == Some(categories[i])
  {
    FirstWhereIsFirst(categories, ExactName(wanted), i);
  }

  /** Without an exact match, the first category whose name contains the label
      or is contained in it wins. */
  lemma PartialMatchNext(categories: seq<Category>, wanted: string, input: string, i: int)
    requires forall j :: 0 <= j < |categories| ==> Lower(categories[j].name) != Lower(wanted)
    requires 0 <= i < |categories| && PartialName(wanted)(categories[i])
    requires forall j :: 0 <= j < i ==> !PartialName(wanted)(categories[j])
    ensures CategoryCascade(categories, wanted, input) == Some(categories[i])
  {
    assert forall j :: 0 <= j < |categories| ==> !ExactName(wanted)(categories[j]);
    FirstWhereIsFirst(categories, PartialName(wanted), i);
  }

  /** The keyword stage picks the first entry, in table order, that has a
      keyword hit and a category of its name; entries without such a category
      are skipped. */
  lemma KeywordStageMeaning(categories: seq<Category>, table: seq<(string, seq<string>)>, wanted: string, input: string)
    ensures var r := KeywordStage(categories, table, wanted, input);
      (r.None? <==> forall t :: 0 <= t < |table| ==> EntryMatch(categories, table[t], wanted, input).None?)
      && (r.Some? ==>
            (exists t :: 0 <= t < |table| && r == EntryMatch(categories, table[t], wanted, input)
               && (forall u :: 0 <= u < t ==> EntryMatch(categories, table[u], wanted, input).None?)))
  {
    FirstSomeMeaning(table, EntryOf(categories, wanted, input));
  }

  /** An entry applies exactly when one of its keywords occurs and a category
      carries its name; the category chosen is the first of that name. */
  lemma EntryMatchMeaning(categories: seq<Category>, entry: (string, seq<string>), wanted: string, input: string)
    ensures var r := EntryMatch(categories, entry, wanted, input);
      (r.Some? <==> (exists k :: 0 <= k < |entry.1| && KeywordIn(wanted, input)(entry.1[k]))
                    && (exists i :: 0 <= i < |categories| && categories[i].name == entry.0))
      && (r.Some? ==> r.value.name == entry.0 && r.value in categories)
  {
    var hit := FirstWhere(entry.1, KeywordIn(wanted, input));
    var named := FirstWhere(categories, NamedExactly(entry.0));
    assert named.None? <==> forall i :: 0 <= i < |categories| ==> categories[i].name != entry.0;
    assert named.Some? ==> NamedExactly(entry.0)(named.value);
  }

  /** The category field after a parse: unchanged when nothing was parsed or
      nothing matched, otherwise the matched category's id. */
  function CategoryFieldAfter(current: string, parsed: string, categories: seq<Category>, input: string): (r: string)
  {
    if parsed == "" then current
    else
      var m := CategoryCascade(categories, parsed, input);
      if m.Some? then IntToString(m.value.id) else current
  }

  lemma CategoryFieldRules(current: string, parsed: string, categories: seq<Category>, input: string)
    ensures parsed == "" ==> CategoryFieldAfter(current, parsed, categories, input) == current
    ensures parsed != "" && CategoryCascade(categories, parsed, input).None? ==>
      CategoryFieldAfter(current, parsed, categories, input) == current
    ensures parsed != "" && CategoryCascade(categories, parsed, input).Some? ==>
      ParseInt(CategoryFieldAfter(current, parsed, categories, input)) == Some(CategoryCascade(categories, parsed, input).value.id)
  {
    var m := CategoryCascade(categories, parsed, input);
    if parsed != "" && m.Some? {
      IntToStringRoundTrip(m.value.id);
    }
  }

  // ---------------------------------------------------------------------------
  // The parse handler

  /** The parsed to-do of a successful response; an empty string is an absent
      field; the due date is the instant that the route's ISO text denotes, as
      `new Date(parsedData.due_date)` reads it. */
  datatype ParsedTodo = ParsedTodo(title: string, description: string, dueDate: Option<int>, priority: Priority, category: string)

  /** What the fetch to the parse endpoint produced: a response that is not
      ok, an ok one, or a thrown value (`None` when it is not an `Error`). */
  datatype ParseResponse =
    | NotOk(status: int, serverError: Option<string>)
    | Ok(success: bool, data: Option<ParsedTodo>)
    | Threw(message: Option<string>)

  /** The form's values after a parsed to-do is applied with `setValue`. */
  function Applied(v: FormValues, p: ParsedTodo, categories: seq<Category>, input: string): FormValues
  {
    FormValues(
      p.title,
      if p.description != "" then p.description else v.description,
      if p.dueDate.Some? then IsoMinuteText(p.dueDate.value) else v.dueDate,
      p.priority,
      CategoryFieldAfter(v.categoryId, p.category, categories, input))
  }

  class TodoFormState {
    var values: FormValues
    var naturalInput: string
    var aiError: Option<string>
    var isParsing: bool

    constructor(todo: Option<Todo>)
      ensures values == DefaultValues(todo) && naturalInput == "" && aiError.None? && !isParsing
    {
      values := DefaultValues(todo);
      naturalInput := "";
      aiError := None;
      isParsing := false;
    }

    /** `handleAIParse` given the response it receives. */
    method HandleAIParse(resp: ParseResponse, categories: seq<Category>)
      modifies this
      ensures !ShouldRequestParse(old(naturalInput)) ==>
        values == old(values) && naturalInput == old(naturalInput) && aiError == old(aiError) && isParsing == old(isParsing)
      ensures ShouldRequestParse(old(naturalInput)) ==> !isParsing
      ensures ShouldRequestParse(old(naturalInput)) && resp.NotOk? ==>
        aiError == Some(ParseErrorMessage(resp.status, resp.serverError))
        && values == old(values) && naturalInput == old(naturalInput)
      ensures ShouldRequestParse(old(naturalInput)) && resp.Threw? ==>
        aiError == Some(ErrorText(resp.message, ParseFailedDefault))
        && values == old(values) && naturalInput == old(naturalInput)
      ensures ShouldRequestParse(old(naturalInput)) && resp.Ok? && resp.success && resp.data.Some? ==>
        aiError.None? && naturalInput == ""
        && values == Applied(old(values), resp.data.value, categories, old(naturalInput))
      ensures ShouldRequestParse(old(naturalInput)) && resp.Ok? && !(resp.success && resp.data.Some?) ==>
        aiError.None? && values == old(values) && naturalInput == old(naturalInput)
    {
      if !ShouldRequestParse(naturalInput) {
        return;
      }
      isParsing := true;
      aiError := None;
      Respond(resp, categories);
      isParsing := false;
    }

    /** The `try`/`catch` of `handleAIParse` once the request has been sent. */
    method Respond(resp: ParseResponse, categories: seq<Category>)
      modifies this
      ensures isParsing == old(isParsing)
      ensures resp.NotOk? ==>
        aiError == Some(ParseErrorMessage(resp.status, resp.serverError))
        && values == old(values) && naturalInput == old(naturalInput)
      ensures resp.Threw? ==>
        aiError == Some(ErrorText(resp.message, ParseFailedDefault))
        && values == old(values) && naturalInput == old(naturalInput)
      ensures resp.Ok? && resp.success && resp.data.Some? ==>
        aiError == old(aiError) && naturalInput == ""
        && values == Applied(old(values), resp.data.value, categories, old(naturalInput))
      ensures resp.Ok? && !(resp.success && resp.data.Some?) ==>
        aiError == old(aiError) && values == old(values) && naturalInput == old(naturalInput)
    {
      match resp {
        case NotOk(status, serverError) =>
          aiError := Some(ParseErrorMessage(status, serverError));
        case Threw(message) =>
          aiError := Some(ErrorText(message, ParseFailedDefault));
        case Ok(success, data) =>
          if success && data.Some? {
            ApplyParsed(data.value, categories);
          }
      }
    }

    /** The `setValue` calls for a parsed to-do, then the input is cleared. */
    method ApplyParsed(p: ParsedTodo, categories: seq<Category>)
      modifies this
      ensures values == Applied(old(values), p, categories, old(naturalInput))
      ensures naturalInput == "" && aiError == old(aiError) && isParsing == old(isParsing)
    {
      var v := values.(title := p.title);
      if p.description != "" {
        v := v.(description := p.description);
      }
      if p.dueDate.Some? {
        var dueDate := p.dueDate.value;
        v := v.(dueDate := IsoMinuteText(dueDate));
      }
      v := v.(priority := p.priority);
      if p.category != "" {
        var m := MatchCategory(categories, p.category, naturalInput);
        if m.Some? {
          v := v.(categoryId := IntToString(m.value.id));
        }
      }
      values := v;
      naturalInput := "";
    }
  }
}
