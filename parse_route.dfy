/** The deterministic parts of the natural-language parse endpoint
    (app/api/ai-parse-todo/route.ts): input validation and whitespace
    normalisation, the clean-up of the language model's answer, the relative-date
    anchors given to the model, and the mapping of failures to HTTP statuses. */
module ParseRoute {
  import opened Common
  import opened LocalTime

  // ---------------------------------------------------------------------------
  // Input validation and preprocessing

  /** The `text` field of the request body. */
  datatype TextField = Missing | NotString | Str(s: string)

  const NoTextError := "유효한 텍스트를 제공해야 합니다."
  const TooShortError := "입력 텍스트는 최소 2자 이상이어야 합니다."
  const TooLongError := "입력 텍스트는 최대 500자까지 입력 가능합니다."
  const NoContentError := "한글, 영문, 숫자가 포함된 유효한 내용을 입력해주세요."
  const ShortAfterError := "전처리 후 텍스트가 너무 짧습니다."

  /** `[가-힣a-zA-Z0-9]` */
  predicate IsContentChar(c: char)
  {
    ('\U{AC00}' <= c <= '\U{D7A3}') || ('a' <= c <= 'z') || ('A' <= c <= 'Z') || ('0' <= c <= '9')
  }

  /** `/[가-힣a-zA-Z0-9]/.test(s)` */
  predicate HasContent(s: string)
  {
    s != [] && (IsContentChar(s[0]) || HasContent(s[1..]))
  }

  /** `HasContent` holds exactly when some character is a content character. */
  lemma {:induction false} HasContentMeaning(s: string)
    ensures HasContent(s) <==> exists i :: 0 <= i < |s| && IsContentChar(s[i])
  {
    if s != [] {
      HasContentMeaning(s[1..]);
      if HasContent(s[1..]) {
        var i :| 0 <= i < |s[1..]| && IsContentChar(s[1..][i]);
        assert IsContentChar(s[i + 1]);
      }
      if exists i :: 0 <= i < |s| && IsContentChar(s[i]) {
        var i :| 0 <= i < |s| && IsContentChar(s[i]);
        if i > 0 {
          assert s[1..][i - 1] == s[i];
        }
      }
    }
  }

  /** `s.replace(/\s+/g, ' ')`: every maximal run of whitespace becomes one space. */
  function CollapseSpaces(s: string): (r: string)
    ensures |r| <= |s|
    ensures r == [] <==> s == []
    ensures s != [] ==> (IsSpace(r[0]) <==> IsSpace(s[0]))
    ensures s != [] ==> (IsSpace(r[|r| - 1]) <==> IsSpace(s[|s| - 1]))
    ensures forall i :: 0 <= i < |r| && IsSpace(r[i]) ==> r[i] == ' '
    ensures forall i :: 0 <= i < |r| - 1 ==> !(IsSpace(r[i]) && IsSpace(r[i + 1]))
    decreases |s|
  {
    if s == [] then []
    else if IsSpace(s[0]) then
      var rest := TrimStart(s);
      var c := CollapseSpaces(rest);
      assert rest != [] ==> rest[|rest| - 1] == s[|s| - 1];
      [' '] + c
    else
      var c := CollapseSpaces(s[1..]);
      [s[0]] + c
  }

  /** Collapsing rewrites only whitespace: the other characters stay, in order. */
  lemma {:induction false} CollapseKeepsText(s: string)
    ensures Filter(CollapseSpaces(s), NotSpace) == Filter(s, NotSpace)
    decreases |s|
  {
    if s != [] {
      if IsSpace(s[0]) {
        var rest := TrimStart(s);
        var c := CollapseSpaces(rest);
        assert CollapseSpaces(s) == [' '] + c;
        CollapseKeepsText(rest);
        TrimStartKeepsText(s);
        FilterConcat([' '], c, NotSpace);
        assert Filter([' '], NotSpace) == [];
      } else {
        var c := CollapseSpaces(s[1..]);
        assert CollapseSpaces(s) == [s[0]] + c;
        CollapseKeepsText(s[1..]);
        FilterConcat([s[0]], c, NotSpace);
        FilterConcat([s[0]], s[1..], NotSpace);
        assert [s[0]] + s[1..] == s;
      }
    }
  }

  lemma {:induction false} HasContentAppend(a: string, b: string)
    ensures HasContent(a + b) <==> HasContent(a) || HasContent(b)
  {
    if a == [] {
      assert a + b == b;
    } else {
      HasContentAppend(a[1..], b);
      assert (a + b)[1..] == a[1..] + b;
    }
  }

  /** Whitespace is never content, so trimming keeps the content. */
  lemma {:induction false} TrimStartKeepsContent(s: string)
    ensures HasContent(TrimStart(s)) <==> HasContent(s)
  {
    if s != [] && IsSpace(s[0]) {
      TrimStartKeepsContent(s[1..]);
    }
  }

  lemma {:induction false} TrimEndKeepsContent(s: string)
    ensures HasContent(TrimEnd(s)) <==> HasContent(s)
  {
    if s != [] && IsSpace(s[|s| - 1]) {
      var t := s[..|s| - 1];
      TrimEndKeepsContent(t);
      assert s == t + [s[|s| - 1]];
      HasContentAppend(t, [s[|s| - 1]]);
    }
  }

  lemma TrimKeepsContent(s: string)
    ensures HasContent(Trim(s)) <==> HasContent(s)
  {
    TrimStartKeepsContent(s);
    TrimEndKeepsContent(TrimStart(s));
  }

  /** Collapsing whitespace keeps the content test. */
  lemma {:induction false} CollapseKeepsContent(s: string)
    ensures HasContent(CollapseSpaces(s)) <==> HasContent(s)
    decreases |s|
  {
    if s != [] {
      if IsSpace(s[0]) {
        var rest := TrimStart(s);
        CollapseKeepsContent(rest);
        TrimStartKeepsContent(s);
        var c := CollapseSpaces(rest);
        assert CollapseSpaces(s) == [' '] + c;
        assert ([' '] + c)[1..] == c;
      } else {
        var c := CollapseSpaces(s[1..]);
        CollapseKeepsContent(s[1..]);
        assert CollapseSpaces(s) == [s[0]] + c;
        assert ([s[0]] + c)[1..] == c;
      }
    }
  }

  /** `text.trim().replace(/\s+/g, ' ').normalize('NFC')`, with normalisation the
      identity. */
  function Normalize(s: string): string
  {
    CollapseSpaces(Trim(s))
  }

  /** The normalised text has no whitespace at either end, no two whitespace
      characters in a row, only plain spaces as whitespace, the input's
      non-whitespace characters in their order, and content exactly when the
      input has. */
  lemma NormalizeShape(s: string)
    ensures var r := Normalize(s);
      |r| <= |s|
      && (r != [] ==> !IsSpace(r[0]) && !IsSpace(r[|r| - 1]))
      && (forall i :: 0 <= i < |r| - 1 ==> !(IsSpace(r[i]) && IsSpace(r[i + 1])))
      && (forall i :: 0 <= i < |r| && IsSpace(r[i]) ==> r[i] == ' ')
      && Filter(r, NotSpace) == Filter(s, NotSpace)
      && (HasContent(r) <==> HasContent(s))
  {
    TrimKeepsContent(s);
    CollapseKeepsContent(Trim(s));
    CollapseKeepsText(Trim(s));
    TrimKeepsText(s);
  }

  /** The longest prefix of `s` without whitespace. */
  function Word(s: string): (w: string)
    ensures |w| <= |s| && w == s[..|w|]
    ensures forall i :: 0 <= i < |w| ==> !IsSpace(w[i])
    ensures |w| < |s| ==> IsSpace(s[|w|])
  {
    if s == [] || IsSpace(s[0]) then [] else [s[0]] + Word(s[1..])
  }

  /** The words of `s`: its maximal runs of non-whitespace characters, in order. */
  function Words(s: string): (ws: seq<string>)
    ensures forall i :: 0 <= i < |ws| ==> ws[i] != [] && forall j :: 0 <= j < |ws[i]| ==> !IsSpace(ws[i][j])
    ensures s != [] && !IsSpace(s[0]) ==> ws != [] && ws[0] == Word(s)
    decreases |s|
  {
    if s == [] then []
    else if IsSpace(s[0]) then Words(s[1..])
    else
      var w := Word(s);
      [w] + Words(s[|w|..])
  }

  /** Leading whitespace does not change the words. */
  lemma {:induction false} WordsTrimStart(s: string)
    ensures Words(TrimStart(s)) == Words(s)
  {
    if s != [] && IsSpace(s[0]) {
      WordsTrimStart(s[1..]);
    }
  }

  /** A whitespace character at the end neither extends nor adds a word. */
  lemma {:induction false} WordSpaceAfter(s: string, c: char)
    requires IsSpace(c)
    ensures Word(s + [c]) == Word(s)
  {
    if s != [] && !IsSpace(s[0]) {
      assert (s + [c])[1..] == s[1..] + [c];
      WordSpaceAfter(s[1..], c);
    } else if s == [] {
      assert s + [c] == [c];
    }
  }

  lemma {:induction false} WordsSpaceAfter(s: string, c: char)
    requires IsSpace(c)
    ensures Words(s + [c]) == Words(s)
    decreases |s|
  {
    if s == [] {
      assert s + [c] == [c];
      assert Words([c]) == Words([c][1..]);
      assert [c][1..] == [];
    } else if IsSpace(s[0]) {
      assert (s + [c])[1..] == s[1..] + [c];
      WordsSpaceAfter(s[1..], c);
    } else {
      var w := Word(s);
      WordSpaceAfter(s, c);
      assert (s + [c])[|w|..] == s[|w|..] + [c];
      WordsSpaceAfter(s[|w|..], c);
    }
  }

  /** Trailing whitespace does not change the words. */
  lemma {:induction false} WordsTrimEnd(s: string)
    ensures Words(TrimEnd(s)) == Words(s)
  {
    if s != [] && IsSpace(s[|s| - 1]) {
      var t := s[..|s| - 1];
      WordsTrimEnd(t);
      assert s == t + [s[|s| - 1]];
      WordsSpaceAfter(t, s[|s| - 1]);
    }
  }

  lemma ConsAppend(x: char, a: string, b: string)
    ensures [x] + (a + b) == ([x] + a) + b
  {
  }

  /** Collapsing reads a word off the front unchanged. */
  lemma {:induction false} CollapseWord(s: string)
    requires s != [] && !IsSpace(s[0])
    ensures CollapseSpaces(s) == Word(s) + CollapseSpaces(s[|Word(s)|..])
    decreases |s|
  {
    var t := s[1..];
    var ct := CollapseSpaces(t);
    assert CollapseSpaces(s) == [s[0]] + ct;
    var wt := Word(t);
    assert Word(s) == [s[0]] + wt;
    if t != [] && !IsSpace(t[0]) {
      CollapseWord(t);
      var k := |wt|;
      assert s[k + 1..] == t[k..];
      ConsAppend(s[0], wt, CollapseSpaces(t[k..]));
    } else {
      assert wt == [];
      assert [s[0]] + wt == [s[0]];
    }
  }

  /** On text with no whitespace at either end, collapsing joins the words with
      single spaces. */
  lemma {:induction false} CollapseJoinsWords(s: string)
    requires s != [] ==> !IsSpace(s[0]) && !IsSpace(s[|s| - 1])
    ensures CollapseSpaces(s) == Join(Words(s), ' ')
    decreases |s|
  {
    if s != [] {
      var w := Word(s);
      var rest := s[|w|..];
      CollapseWord(s);
      assert Words(s) == [w] + Words(rest);
      if rest == [] {
        assert Words(s) == [w];
      } else {
        var t := TrimStart(rest);
        WordsTrimStart(rest);
        assert rest[|rest| - 1] == s[|s| - 1];
        assert t != [] && t[|t| - 1] == rest[|rest| - 1];
        CollapseJoinsWords(t);
        CollapseAfterWord(w, rest);
      }
    }
  }

  /** The step of `CollapseJoinsWords` past a word followed by whitespace. */
  lemma CollapseAfterWord(w: string, rest: string)
    requires rest != [] && IsSpace(rest[0]) && TrimStart(rest) != []
    requires CollapseSpaces(TrimStart(rest)) == Join(Words(rest), ' ')
    ensures w + CollapseSpaces(rest) == Join([w] + Words(rest), ' ')
  {
    var ct := CollapseSpaces(TrimStart(rest));
    assert CollapseSpaces(rest) == [' '] + ct;
    var ws := Words(rest);
    assert ws != [] by {
      WordsTrimStart(rest);
    }
    JoinCons(w, ws);
    AppendAssoc(w, [' '], ct);
  }

  lemma AppendAssoc(a: string, b: string, c: string)
    ensures a + (b + c) == a + b + c
  {
  }

  lemma JoinCons(w: string, ws: seq<string>)
    requires ws != []
    ensures Join([w] + ws, ' ') == w + [' '] + Join(ws, ' ')
  {
    assert ([w] + ws)[1..] == ws;
  }

  /** What the preprocessing computes: the words of the input, in order, joined
      by single spaces. */
  lemma NormalizeJoinsWords(s: string)
    ensures Normalize(s) == Join(Words(s), ' ')
  {
    WordsTrimStart(s);
    WordsTrimEnd(TrimStart(s));
    CollapseJoinsWords(Trim(s));
  }

  /** `validateAndPreprocessInput`: the checks in the route's order, the raw
      length tested before trimming. */
  function ValidateAndPreprocessInput(text: TextField): (r: Result<string, string>)
    ensures r.Ok? <==>
      text.Str? && 2 <= |text.s| <= 500 && HasContent(text.s) && |Normalize(text.s)| >= 2
    ensures r.Ok? ==> r.value == Normalize(text.s)
    ensures r.Ok? ==>
      var v := r.value;
      2 <= |v| <= 500 && HasContent(v)
      && !IsSpace(v[0]) && !IsSpace(v[|v| - 1])
      && (forall i :: 0 <= i < |v| - 1 ==> !(IsSpace(v[i]) && IsSpace(v[i + 1])))
    ensures r.Err? && (text.Missing? || text.NotString? || text == Str("")) ==> r.error == NoTextError
    ensures r.Err? && text.Str? && 0 < |text.s| < 2 ==> r.error == TooShortError
    ensures r.Err? && text.Str? && |text.s| > 500 ==> r.error == TooLongError
    ensures r.Err? && text.Str? && 2 <= |text.s| <= 500 && !HasContent(text.s) ==> r.error == NoContentError
    ensures r.Err? && text.Str? && 2 <= |text.s| <= 500 && HasContent(text.s) ==> r.error == ShortAfterError
  {
    match text
    case Missing => Err(NoTextError)
    case NotString => Err(NoTextError)
    case Str(s) =>
      if s == "" then Err(NoTextError)
      else if |s| < 2 then Err(TooShortError)
      else if |s| > 500 then Err(TooLongError)
      else
        var processed := Normalize(s);
        NormalizeShape(s);
        if !HasContent(processed) then Err(NoContentError)
        else if |processed| < 2 then Err(ShortAfterError)
        else Ok(processed)
  }

  /** Punctuation alone is refused for lack of content.  A worked example of
      `ValidateAndPreprocessInput`, whose contract states the rule for all
      inputs. */
  lemma NoContentExample()
    ensures ValidateAndPreprocessInput(Str("!!")) == Err(NoContentError)
  {
    var s := "!!";
    assert s[1..][1..] == [];
    assert !HasContent(s[1..]);
    assert !HasContent(s);
  }

  // ---------------------------------------------------------------------------
  // Post-processing the model's answer

  /** The fields of the model's answer that the clean-up reads or writes.  `None`
      is an absent (`undefined` or `null`) field; `dueDate` is the instant the
      date string denotes. */
  datatype ParsedFields = ParsedFields(
    title: Option<string>,
    description: Option<string>,
    dueDate: Option<int>,
    priority: Option<string>,
    category: Option<string>)

  const DefaultTitle := "할일"
  const Ellipsis := "..."

  predicate ValidPriority(p: string)
  {
    p == "high" || p == "medium" || p == "low"
  }

  predicate ValidCategory(c: string)
  {
    c == "업무" || c == "개인" || c == "건강" || c == "학습"
  }

  function CleanTitle(title: Option<string>): Option<string>
  {
    match title
    case Some(t) =>
      if t == "" then Some(DefaultTitle)
      else if |t| > 120 then Some(t[..117] + Ellipsis)
      else Some(t)
    case None => Some(DefaultTitle)
  }

  function CleanDescription(description: Option<string>): Option<string>
  {
    match description
    case Some(t) => if |t| > 2000 then Some(t[..1997] + Ellipsis) else Some(t)
    case None => None
  }

  function ClampDueDate(dueDate: Option<int>, today: int): Option<int>
  {
    match dueDate
    case Some(t) => if t < today then Some(today) else Some(t)
    case None => None
  }

  function CleanPriority(priority: Option<string>): Option<string>
  {
    if priority.Some? && ValidPriority(priority.value) then priority else Some("medium")
  }

  function CleanCategory(category: Option<string>): Option<string>
  {
    if category.Some? && ValidCategory(category.value) then category else Some("개인")
  }

  /** `postprocessResponse` on values, the specification of the in-place method
      below.  `today` is the local midnight of the current day. */
  function Postprocessed(d: ParsedFields, today: int): ParsedFields
  {
    ParsedFields(CleanTitle(d.title), CleanDescription(d.description), ClampDueDate(d.dueDate, today),
                 CleanPriority(d.priority), CleanCategory(d.category))
  }

  /** The object the model returns, cleaned up in place. */
  class ParsedTodo {
    var title: Option<string>
    var description: Option<string>
    var dueDate: Option<int>
    var priority: Option<string>
    var category: Option<string>

    constructor (d: ParsedFields)
      ensures Fields() == d
    {
      title := d.title;
      description := d.description;
      dueDate := d.dueDate;
      priority := d.priority;
      category := d.category;
    }

    function Fields(): ParsedFields
      reads this
    {
      ParsedFields(title, description, dueDate, priority, category)
    }

    /** `postprocessResponse(data)`: overwrites the offending fields of `data`,
        one step per field in the route's order.  `today` is `new Date()` with
        its local time set to 00:00:00.000. */
    method Postprocess(z: Zone, now: int)
      modifies this
      ensures Fields() == Postprocessed(old(Fields()), LocalMidnight(z, now))
    {
      FixTitle();
      ClampDate(LocalMidnight(z, now));
      FixPriority();
      FixCategory();
      FixDescription();
    }

    /** Step 1: cut an over-long title, default a missing one. */
    method FixTitle()
      modifies this
      ensures Fields() == old(Fields()).(title := CleanTitle(old(title)))
    {
      if title.Some? && title.value != "" {
        if |title.value| > 120 {
          title := Some(title.value[..117] + Ellipsis);
        }
      } else {
        title := Some(DefaultTitle);
      }
    }

    /** Step 2: a due date in the past becomes today's midnight. */
    method ClampDate(today: int)
      modifies this
      ensures Fields() == old(Fields()).(dueDate := ClampDueDate(old(dueDate), today))
    {
      if dueDate.Some? {
        if dueDate.value < today {
          dueDate := Some(today);
        }
      }
    }

    /** Step 3: `!data.priority` or a value outside the three becomes 'medium'
        ("" is not one of the three, so the emptiness test is subsumed). */
    method FixPriority()
      modifies this
      ensures Fields() == old(Fields()).(priority := CleanPriority(old(priority)))
    {
      if priority.None? || !ValidPriority(priority.value) {
        priority := Some("medium");
      }
    }

    /** Step 4: a category outside the four becomes '개인'. */
    method FixCategory()
      modifies this
      ensures Fields() == old(Fields()).(category := CleanCategory(old(category)))
    {
      if category.None? || !ValidCategory(category.value) {
        category := Some("개인");
      }
    }

    /** Step 5: cut an over-long description. */
    method FixDescription()
      modifies this
      ensures Fields() == old(Fields()).(description := CleanDescription(old(description)))
    {
      if description.Some? && description.value != "" && |description.value| > 2000 {
        description := Some(description.value[..1997] + Ellipsis);
      }
    }
  }

  /** Titles: an over-long title keeps its first 117 characters and gains "...",
      for exactly 120; a missing or empty one becomes '할일'; any other is kept. */
  lemma TitleRules(d: ParsedFields, today: int)
    ensures var t := Postprocessed(d, today).title;
      t.Some? && 1 <= |t.value| <= 120
      && (d.title.None? || d.title == Some("") ==> t == Some(DefaultTitle))
      && (d.title.Some? && |d.title.value| > 120 ==>
            |t.value| == 120 && t.value[..117] == d.title.value[..117] && t.value[117..] == Ellipsis)
      && (d.title.Some? && 1 <= |d.title.value| <= 120 ==> t == d.title)
  {
    match d.title
    case Some(s) =>
      if |s| > 120 {
        var u := s[..117] + Ellipsis;
        assert u[..117] == s[..117];
        assert u[117..] == Ellipsis;
      }
    case None =>
  }

  /** Descriptions: one over 2000 characters keeps its first 1997 and gains
      "...", for exactly 2000; any other, and an absent one, is kept. */
  lemma DescriptionRules(d: ParsedFields, today: int)
    ensures var t := Postprocessed(d, today).description;
      (d.description.None? ==> t.None?)
      && (d.description.Some? && |d.description.value| > 2000 ==>
            t.Some? && |t.value| == 2000 && t.value[..1997] == d.description.value[..1997]
            && t.value[1997..] == Ellipsis)
      && (d.description.Some? && |d.description.value| <= 2000 ==> t == d.description)
  {
    match d.description
    case Some(s) =>
      if |s| > 2000 {
        var u := s[..1997] + Ellipsis;
        assert u[..1997] == s[..1997];
        assert u[1997..] == Ellipsis;
      }
    case None =>
  }

  /** Due dates: one strictly before today's midnight becomes that midnight; a
      later or equal one, and an absent one, is kept.  The result is never in the
      past. */
  lemma DueDateRules(d: ParsedFields, today: int)
    ensures var t := Postprocessed(d, today).dueDate;
      (d.dueDate.None? <==> t.None?)
      && (d.dueDate.Some? && d.dueDate.value < today ==> t == Some(today))
      && (d.dueDate.Some? && d.dueDate.value >= today ==> t == d.dueDate)
      && (t.Some? ==> t.value >= today)
  {
  }

  /** Priorities and categories: anything outside the allowed values, absent or
      empty, becomes the default; an allowed value is kept. */
  lemma DefaultRules(d: ParsedFields, today: int)
    ensures var r := Postprocessed(d, today);
      r.priority.Some? && ValidPriority(r.priority.value)
      && r.category.Some? && ValidCategory(r.category.value)
      && (d.priority.Some? && ValidPriority(d.priority.value) ==> r.priority == d.priority)
      && (!(d.priority.Some? && ValidPriority(d.priority.value)) ==> r.priority == Some("medium"))
      && (d.category.Some? && ValidCategory(d.category.value) ==> r.category == d.category)
      && (!(d.category.Some? && ValidCategory(d.category.value)) ==> r.category == Some("개인"))
  {
  }

  /** Cleaning up an already cleaned-up answer changes nothing. */
  lemma PostprocessIdempotent(d: ParsedFields, today: int)
    ensures Postprocessed(Postprocessed(d, today), today) == Postprocessed(d, today)
  {
    TitleRules(d, today);
    DescriptionRules(d, today);
  }

  // ---------------------------------------------------------------------------
  // Relative-date anchors

  /** The weekday `k` days after `weekday`. */
  function DayAfter(weekday: int, k: int): int
  {
    (weekday + k) % 7
  }

  /** `(target - weekday + 7) % 7`, with 0 replaced by 7: the number of days to
      the next `target` weekday, never today. */
  function DaysUntil(target: int, weekday: int): (n: int)
    requires 0 <= target < 7 && 0 <= weekday < 7
    ensures 1 <= n <= 7
    ensures (weekday + n) % 7 == target
    ensures forall k :: 1 <= k < n ==> DayAfter(weekday, k) != target
    ensures weekday == target <==> n == 7
  {
    var d := (target - weekday + 7) % 7;
    if d == 0 then 7 else d
  }

  /** The calendar days handed to the model, as UTC day numbers. */
  datatype Anchors = Anchors(today: int, tomorrow: int, dayAfterTomorrow: int, thisFriday: int, nextMonday: int)

  /** The anchor computation: shift `now` by nine hours to Korean time, take its
      UTC day as today, and move a copy forward with `setDate` for each other
      anchor.  The weekday is read on the host's clock `z`. */
  method DateAnchors(z: Zone, now: int) returns (a: Anchors)
    ensures var korea := now + 9 * HOUR;
      a.today == UtcDay(korea)
      && a.tomorrow == a.today + 1
      && a.dayAfterTomorrow == a.today + 2
      && a.thisFriday == a.today + DaysUntil(5, Weekday(z, korea))
      && a.nextMonday == a.today + DaysUntil(1, Weekday(z, korea))
  {
    var koreaTime := now + 9 * HOUR;
    var today := UtcDay(koreaTime);

    var tomorrowDate := koreaTime;
    tomorrowDate := tomorrowDate + 1 * DAY;
    UtcDayShift(koreaTime, 1);

    var dayAfterTomorrowDate := koreaTime;
    dayAfterTomorrowDate := dayAfterTomorrowDate + 2 * DAY;
    UtcDayShift(koreaTime, 2);

    var thisFriday := koreaTime;
    var daysUntilFriday := (5 - Weekday(z, koreaTime) + 7) % 7;
    thisFriday := thisFriday + (if daysUntilFriday == 0 then 7 else daysUntilFriday) * DAY;
    UtcDayShift(koreaTime, DaysUntil(5, Weekday(z, koreaTime)));

    var nextMonday := koreaTime;
    var daysUntilNextMonday := (1 - Weekday(z, koreaTime) + 7) % 7;
    nextMonday := nextMonday + (if daysUntilNextMonday == 0 then 7 else daysUntilNextMonday) * DAY;
    UtcDayShift(koreaTime, DaysUntil(1, Weekday(z, koreaTime)));

    a := Anchors(today, UtcDay(tomorrowDate), UtcDay(dayAfterTomorrowDate), UtcDay(thisFriday), UtcDay(nextMonday));
  }

  /** The Friday and Monday anchors fall, on the host's clock, on a Friday and a
      Monday within the next seven days, and never on the current day. */
  lemma AnchorsLandOnTarget(z: Zone, now: int)
    ensures var korea := now + 9 * HOUR;
      var f := DaysUntil(5, Weekday(z, korea));
      var m := DaysUntil(1, Weekday(z, korea));
      Weekday(z, korea + f * DAY) == 5 && Weekday(z, korea + m * DAY) == 1
      && 1 <= f <= 7 && 1 <= m <= 7
  {
    var korea := now + 9 * HOUR;
    ShiftInstant(z, korea, DaysUntil(5, Weekday(z, korea)));
    ShiftInstant(z, korea, DaysUntil(1, Weekday(z, korea)));
  }

  /** On a host whose clock is UTC, `getDay()` of `koreaTime` reads the Korean
      weekday, and the Friday and Monday sent to the model are the first Friday
      and the first Monday after today. */
  lemma AnchorsOnUtcHost(now: int)
    ensures var korea := now + 9 * HOUR;
      var today := UtcDay(korea);
      var f := DaysUntil(5, Weekday(Zone(0), korea));
      var m := DaysUntil(1, Weekday(Zone(0), korea));
      UtcWeekday(today + f) == 5 && UtcWeekday(today + m) == 1
      && IntendedAnchors(now) == Anchors(today, today + 1, today + 2, today + f, today + m)
  {
    var korea := now + 9 * HOUR;
    var today := UtcDay(korea);
    assert Weekday(Zone(0), korea) == UtcWeekday(today);
    UtcWeekdayShift(today, DaysUntil(5, UtcWeekday(today)));
    UtcWeekdayShift(today, DaysUntil(1, UtcWeekday(today)));
  }

  /** On a host at UTC+9, `getDay()` of `koreaTime` reads the weekday of
      `now + 18h`.  At 20:00 on Thursday 1 January 1970 in Korea the host already
      reads Friday, so the offset is 7 and "this Friday" names Thursday
      8 January. */
  lemma FridayAnchorOnKoreanHost()
    ensures var now := 11 * HOUR;
      var korea := now + 9 * HOUR;
      var today := UtcDay(korea);
      UtcWeekday(today) == 4
      && Weekday(Zone(9 * HOUR), korea) == 5
      && UtcWeekday(today + DaysUntil(5, Weekday(Zone(9 * HOUR), korea))) == 4
  {
    var korea := 20 * HOUR;
    assert UtcDay(korea) == 0;
    assert Weekday(Zone(9 * HOUR), korea) == 5;
    assert DaysUntil(5, 5) == 7;
  }

  /** The anchors as the comments of the route intend them: the weekday is
      that of the Korean calendar day itself (`koreaTime.getUTCDay()`), so the
      Friday and the Monday are the first ones after today on every host. */
  function IntendedAnchors(now: int): (a: Anchors)
    ensures a.today == UtcDay(now + 9 * HOUR)
    ensures a.tomorrow == a.today + 1 && a.dayAfterTomorrow == a.today + 2
    ensures a.today < a.thisFriday <= a.today + 7 && UtcWeekday(a.thisFriday) == 5
    ensures a.today < a.nextMonday <= a.today + 7 && UtcWeekday(a.nextMonday) == 1
    ensures forall k :: a.today < k < a.thisFriday ==> UtcWeekday(k) != 5
    ensures forall k :: a.today < k < a.nextMonday ==> UtcWeekday(k) != 1
  {
    var today := UtcDay(now + 9 * HOUR);
    var w := UtcWeekday(today);
    var f, m := DaysUntil(5, w), DaysUntil(1, w);
    UtcWeekdayShift(today, f);
    UtcWeekdayShift(today, m);
    FirstAfter(today, 5, f);
    FirstAfter(today, 1, m);
    Anchors(today, today + 1, today + 2, today + f, today + m)
  }

  /** No day strictly between `today` and the target offset falls on the target. */
  lemma FirstAfter(today: int, target: int, n: int)
    requires 0 <= target < 7 && n == DaysUntil(target, UtcWeekday(today))
    ensures forall k :: today < k < today + n ==> UtcWeekday(k) != target
  {
    forall k | today < k < today + n
      ensures UtcWeekday(k) != target
    {
      UtcWeekdayShift(today, k - today);
      assert DayAfter(UtcWeekday(today), k - today) != target;
    }
  }

  // ---------------------------------------------------------------------------
  // Failures

  datatype Failure = Failure(status: nat, error: string)

  /** A thrown error, by name and message, mapped in the route's order: key error
      401, network 503, rate limit or quota 429, timeout 408, otherwise 500 with
      the message (or a default) passed through. */
  function ModelFailure(name: string, message: string): (f: Failure)
    ensures f.status == 401 <==> name == "AI_LoadAPIKeyError"
    ensures f.status == 503 <==> name != "AI_LoadAPIKeyError" && name == "AI_NetworkError"
    ensures f.status == 429 <==>
      name != "AI_LoadAPIKeyError" && name != "AI_NetworkError"
      && (Contains(message, "rate limit") || Contains(message, "quota"))
    ensures f.status == 408 <==>
      name != "AI_LoadAPIKeyError" && name != "AI_NetworkError"
      && !Contains(message, "rate limit") && !Contains(message, "quota") && Contains(message, "timeout")
    ensures f.status == 500 ==> f.error == (if message != "" then message else "AI 처리 중 오류가 발생했습니다. 다시 시도해주세요.")
    ensures f.status in {401, 503, 429, 408, 500}
  {
    if name == "AI_LoadAPIKeyError" then
      Failure(401, "Google Generative AI API 키가 누락되었거나 잘못되었습니다. 환경 변수 GOOGLE_GENERATIVE_AI_API_KEY를 확인해주세요.")
    else if name == "AI_NetworkError" then Failure(503, "AI 서비스에 연결할 수 없습니다. 잠시 후 다시 시도해주세요.")
    else if Contains(message, "rate limit") || Contains(message, "quota") then
      Failure(429, "AI 서비스 사용량이 초과되었습니다. 잠시 후 다시 시도해주세요.")
    else if Contains(message, "timeout") then
      Failure(408, "AI 처리 시간이 초과되었습니다. 더 간단한 문장으로 다시 시도해주세요.")
    else Failure(500, if message != "" then message else "AI 처리 중 오류가 발생했습니다. 다시 시도해주세요.")
  }

  /** The checks before the model call: the key, the body, then validation; a
      validation failure is a 400 carrying the validation message. */
  function RequestFailure(apiKeyPresent: bool, bodyIsJson: bool, text: TextField): (f: Option<Failure>)
    ensures f.None? <==> apiKeyPresent && bodyIsJson && ValidateAndPreprocessInput(text).Ok?
    ensures apiKeyPresent && bodyIsJson && ValidateAndPreprocessInput(text).Err? ==>
      f == Some(Failure(400, ValidateAndPreprocessInput(text).error))
  {
    if !apiKeyPresent then
      Some(Failure(500, "API 키가 설정되지 않았습니다. 환경 변수 GOOGLE_GENERATIVE_AI_API_KEY를 확인해주세요."))
    else if !bodyIsJson then Some(Failure(400, "잘못된 JSON 형식입니다. 올바른 형식으로 요청해주세요."))
    else match ValidateAndPreprocessInput(text)
      case Err(e) => Some(Failure(400, e))
      case Ok(_) => None
  }
}
