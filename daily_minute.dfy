/** The "Daily minute" newsletter generator of the Mailer: it checks the
    WordPress post it is sent, turns it into the generator's parameters, and
    looks up the name day printed in the newsletter. */
module DailyMinute {
  import opened Wrappers
  import opened PhpValues

  /** The sender of every Daily minute newsletter. */
  const Sender: string := "Rann\U{00FD}ch 5 min\U{00FA}t | Denn\U{00ED}k N <minuta@dennikn.sk>"

  const MissingBlocks: string := "WP json object does not contain required attribute 'blocks'"
  const MissingSubject: string := "WP json object does not contain required attribute 'subject'"

  /** preprocessParameters(): the post must carry `blocks` and `subject`, in
      that order of checking; the parameters are the fixed sender, the blocks
      as `blocks_json` and the subject. The post's properties are given as an
      ordered array; a failure is the PreprocessException message. */
  method PreprocessParameters(data: seq<Entry>) returns (r: Result<seq<Entry>, string>)
    ensures !IsSet(data, "blocks") ==> r == Failure(MissingBlocks)
    ensures IsSet(data, "blocks") && !IsSet(data, "subject") ==> r == Failure(MissingSubject)
    ensures r.Success? <==> IsSet(data, "blocks") && IsSet(data, "subject")
    ensures r.Success? ==>
              && Field(r.value, "from") == Str(Sender)
              && Field(r.value, "blocks_json") == Field(data, "blocks")
              && Field(r.value, "subject") == Field(data, "subject")
              && |r.value| == 3
  {
    var output: seq<Entry> := [];
    if !IsSet(data, "blocks") {
      return Failure(MissingBlocks);
    }
    if !IsSet(data, "subject") {
      return Failure(MissingSubject);
    }
    GetSetAll(output, StrKey("from"), Str(Sender));
    SetKeepsLength(output, StrKey("from"), Str(Sender));
    output := Set(output, StrKey("from"), Str(Sender));
    GetSetAll(output, StrKey("blocks_json"), Field(data, "blocks"));
    SetKeepsLength(output, StrKey("blocks_json"), Field(data, "blocks"));
    output := Set(output, StrKey("blocks_json"), Field(data, "blocks"));
    GetSetAll(output, StrKey("subject"), Field(data, "subject"));
    SetKeepsLength(output, StrKey("subject"), Field(data, "subject"));
    output := Set(output, StrKey("subject"), Field(data, "subject"));
    return Success(output);
  }

  /** The name-day table read from namedays.json: a list of months, counted
      from 0 as in JavaScript, each a list of days of the month. */
  type NameDays = map<int, map<int, string>>

  /** The table position of a calendar date: the month counted from 0, the
      day of the month as it is. */
  function NameDayIndex(month: int, day: int): (index: (int, int))
    requires 1 <= month <= 12 && 1 <= day <= 31
    ensures 0 <= index.0 < 12 && index.0 + 1 == month && index.1 == day
  {
    (month - 1, day)
  }

  /** getNameDayNamesForDate(): the names at the date's position, or "" when
      the table has no entry there. */
  function NameDayNamesForDate(nameDays: NameDays, month: int, day: int): (names: string)
    requires 1 <= month <= 12 && 1 <= day <= 31
  {
    var (m, d) := NameDayIndex(month, day);
    if m in nameDays && d in nameDays[m] then nameDays[m][d] else ""
  }

  /** Distinct dates read distinct entries of the table. */
  lemma NameDayIndexInjective(month: int, day: int, month': int, day': int)
    requires 1 <= month <= 12 && 1 <= day <= 31 && 1 <= month' <= 12 && 1 <= day' <= 31
    ensures NameDayIndex(month, day) == NameDayIndex(month', day') <==> month == month' && day == day'
  {
  }

  /** The names listed for a date are the ones stored one month earlier in
      the 0-based table; a date the table does not list has no names. */
  lemma NameDayLookup(nameDays: NameDays, month: int, day: int)
    requires 1 <= month <= 12 && 1 <= day <= 31
    ensures (month - 1) in nameDays && day in nameDays[month - 1] ==>
              NameDayNamesForDate(nameDays, month, day) == nameDays[month - 1][day]
    ensures !((month - 1) in nameDays && day in nameDays[month - 1]) ==>
              NameDayNamesForDate(nameDays, month, day) == ""
  {
  }

  /** The table's entry at a 0-based month and a day, "" when it is absent. */
  function TableEntry(nameDays: NameDays, m: int, d: int): string
  {
    if m in nameDays && d in nameDays[m] then nameDays[m][d] else ""
  }

  /** New Year's Day reads the table's first month and Saint Sylvester's
      day its twelfth, the months of the table being counted from 0. */
  lemma NameDayCalendarEnds(nameDays: NameDays)
    ensures NameDayNamesForDate(nameDays, 1, 1) == TableEntry(nameDays, 0, 1)
    ensures NameDayNamesForDate(nameDays, 12, 31) == TableEntry(nameDays, 11, 31)
  {
  }

  /** Only the entries of months 0 to 11 and days 1 to 31 are ever read: two
      tables that agree there give every date the same names. */
  lemma NameDayReadsCalendarEntriesOnly(a: NameDays, b: NameDays, month: int, day: int)
    requires 1 <= month <= 12 && 1 <= day <= 31
    requires forall m, d :: 0 <= m < 12 && 1 <= d <= 31 ==> TableEntry(a, m, d) == TableEntry(b, m, d)
    ensures NameDayNamesForDate(a, month, day) == NameDayNamesForDate(b, month, day)
  {
    assert TableEntry(a, month - 1, day) == TableEntry(b, month - 1, day);
  }

  /** The part of process()'s result that does not come from rendering: the
      rendered HTML and text are given, since the WordPress block parser and
      the template engine are not part of this model. */
  function ProcessResult(values: seq<Entry>, htmlContent: string, textContent: string): (r: seq<Entry>)
    ensures Field(r, "from") == Field(values, "from")
    ensures Field(r, "subject") == Field(values, "subject")
    ensures Field(r, "errors") == Arr([])
    ensures Field(r, "htmlContent") == Str(htmlContent) && Field(r, "textContent") == Str(textContent)
  {
    var r := [Entry(StrKey("htmlContent"), Str(htmlContent)), Entry(StrKey("textContent"), Str(textContent)),
              Entry(StrKey("from"), Field(values, "from")), Entry(StrKey("subject"), Field(values, "subject")),
              Entry(StrKey("errors"), Arr([]))];
    assert Get(r, StrKey("errors")) == Get(r[1..], StrKey("errors")) == Get(r[2..], StrKey("errors"))
        == Get(r[3..], StrKey("errors")) == Get(r[4..], StrKey("errors"));
    assert Get(r, StrKey("subject")) == Get(r[1..], StrKey("subject")) == Get(r[2..], StrKey("subject"))
        == Get(r[3..], StrKey("subject"));
    assert Get(r, StrKey("from")) == Get(r[1..], StrKey("from")) == Get(r[2..], StrKey("from"));
    assert Get(r, StrKey("textContent")) == Get(r[1..], StrKey("textContent"));
    r
  }

  /** A post that passes preprocessing is sent from the fixed sender, under
      its own subject, without errors. */
  method PreprocessThenProcess(data: seq<Entry>, htmlContent: string, textContent: string)
    returns (r: Result<seq<Entry>, string>)
    ensures r.Success? <==> IsSet(data, "blocks") && IsSet(data, "subject")
    ensures r.Success? ==>
              && Field(r.value, "from") == Str(Sender)
              && Field(r.value, "subject") == Field(data, "subject")
              && Field(r.value, "errors") == Arr([])
  {
    var parameters := PreprocessParameters(data);
    if parameters.Failure? {
      return Failure(parameters.error);
    }
    return Success(ProcessResult(parameters.value, htmlContent, textContent));
  }
}
