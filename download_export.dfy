/** The export page src/app/settings/download/page.tsx: fetch the user's memos with every failure
    turned into an empty list, and write them out as a CSV file (with a byte-order mark and quotes
    doubled as section 2 of RFC 4180 asks) or as a JSON file. The fetch, date formatting,
    `JSON.stringify` and the clock are inputs; the download link itself is not modelled. */
module DownloadExport {
  import opened Wrappers
  import opened Js

  // ---------------------------------------------------------------------------
  // fetchMemos

  /** What `fetch('/api/memo?userId=…')` and `response.json()` deliver. */
  datatype FetchReply = FetchThrows(error: Thrown) | Replied(result: Json)

  /** `fetchMemos`: the memo data, `None` standing for `undefined`. */
  function FetchMemos(userId: string, reply: FetchReply): (data: Option<Json>)
    ensures userId == [] || reply.FetchThrows? ==> data == Some(JArr([]))
  {
    if userId == [] then Some(JArr([]))
    else match reply
      case FetchThrows(_) => Some(JArr([]))
      case Replied(result) =>
        match Get(result, "success")
        case Failure(_) => Some(JArr([]))
        case Success(success) =>
          if TruthyOpt(success) then Get(result, "data").value else Some(JArr([]))
  }

  /** A reply object whose `success` is truthy. */
  predicate Successful(reply: FetchReply) {
    reply.Replied? && reply.result.JObj? && "success" in reply.result.fields && Truthy(reply.result.fields["success"])
  }

  /** An empty user id, a failed fetch, a `null` reply or a reply without a truthy `success` all
      give the empty list; a successful reply gives its `data` as it is. */
  lemma FetchMemosFallbacks(userId: string, reply: FetchReply)
    ensures FetchMemos(userId, reply) != Some(JArr([])) ==> userId != [] && Successful(reply)
    ensures userId != [] && Successful(reply) ==> FetchMemos(userId, reply) == Get(reply.result, "data").value
  {
  }

  // ---------------------------------------------------------------------------
  // Quoting

  /** `s.replace(/"/g, '""')`. */
  function EscapeQuotes(s: string): (r: string)
    ensures |r| >= |s|
  {
    if s == [] then [] else (if s[0] == '"' then "\"\"" else [s[0]]) + EscapeQuotes(s[1..])
  }

  /** Reading a quoted field's inside back: each `""` is one `"`. */
  function CollapseQuotes(t: string): string
    decreases |t|
  {
    if t == [] then []
    else if |t| >= 2 && t[0] == '"' && t[1] == '"' then "\"" + CollapseQuotes(t[2..])
    else [t[0]] + CollapseQuotes(t[1..])
  }

  /** Every `"` in the text comes in a doubled pair, so the text can sit inside a quoted field. */
  predicate QuotesPaired(t: string)
    decreases |t|
  {
    t == [] || (t[0] != '"' && QuotesPaired(t[1..])) || (|t| >= 2 && t[..2] == "\"\"" && QuotesPaired(t[2..]))
  }

  /** The escaped content is a valid inside of a quoted CSV field, and collapsing the doubled quotes
      gives the content back. */
  lemma {:induction false} EscapeQuotesRoundTrip(s: string)
    ensures QuotesPaired(EscapeQuotes(s))
    ensures CollapseQuotes(EscapeQuotes(s)) == s
  {
    if s != [] {
      EscapeQuotesRoundTrip(s[1..]);
      var rest := EscapeQuotes(s[1..]);
      if s[0] == '"' {
        assert EscapeQuotes(s)[2..] == rest;
        assert EscapeQuotes(s)[..2] == "\"\"";
      } else {
        assert EscapeQuotes(s) == [s[0]] + rest;
        assert EscapeQuotes(s)[1..] == rest;
      }
      assert s == [s[0]] + s[1..];
    }
  }

  // ---------------------------------------------------------------------------
  // CSV

  const CsvHeader: string := "ID,내용,생성일,수정일"
  const Bom: char := '\U{FEFF}'

  /** The fields of one memo as the template literal renders them: the id as text, the content,
      and the two dates already formatted by `toLocaleString('ko-KR')`. */
  datatype MemoRow = MemoRow(id: string, content: string, created: string, updated: string)

  function CsvRow(m: MemoRow): string {
    m.id + ",\"" + EscapeQuotes(m.content) + "\",\"" + m.created + "\",\"" + m.updated + "\""
  }

  function CsvRows(rows: seq<MemoRow>): (lines: seq<string>)
    ensures |lines| == |rows| && forall i :: 0 <= i < |rows| ==> lines[i] == CsvRow(rows[i])
  {
    if rows == [] then [] else [CsvRow(rows[0])] + CsvRows(rows[1..])
  }

  /** The CSV text: the header, then one line per memo, joined by newlines. */
  function Csv(rows: seq<MemoRow>): string {
    Join([CsvHeader] + CsvRows(rows), "\n")
  }

  /** When no field holds a line break, the CSV splits back into the header followed by exactly
      one line per memo, in input order. */
  lemma CsvLines(rows: seq<MemoRow>)
    requires forall i :: 0 <= i < |rows| ==> '\n' !in CsvRow(rows[i])
    ensures Split(Csv(rows), '\n') == [CsvHeader] + CsvRows(rows)
    ensures |Split(Csv(rows), '\n')| == |rows| + 1
  {
    var lines := [CsvHeader] + CsvRows(rows);
    forall k | 0 <= k < |lines| ensures '\n' !in lines[k] {
      if k > 0 { assert lines[k] == CsvRow(rows[k - 1]); }
    }
    SplitJoin(lines, '\n');
  }

  /** A memo's line starts with its id and a comma, and its content field, quote-escaped, follows
      between quotes. */
  lemma CsvRowShape(m: MemoRow)
    ensures var line := CsvRow(m);
      var start := |m.id| + 2;
      line[..|m.id|] == m.id && line[|m.id|..start] == ",\""
      && line[start..start + |EscapeQuotes(m.content)|] == EscapeQuotes(m.content)
      && CollapseQuotes(line[start..start + |EscapeQuotes(m.content)|]) == m.content
  {
    EscapeQuotesRoundTrip(m.content);
  }

  // ---------------------------------------------------------------------------
  // The two exports

  /** What an export ends in: an alert, or a file with its name, its content and its type. */
  datatype ExportOutcome =
    | NoMemosAlert                                  // `다운로드할 메모가 없습니다.`
    | ErrorAlert                                    // `다운로드 중 오류가 발생했습니다.`
    | Downloaded(fileName: string, content: string, mimeType: string)

  /** `memoData.length === 0`, or the TypeError reading `length` off `undefined` or `null`. */
  function LengthIsZero(data: Option<Json>): Result<bool, Thrown> {
    if data.None? || data.value == JNull then Failure(GetOpt(data, "length").error)
    else match data.value
      case JArr(items) => Success(|items| == 0)
      case JStr(s) => Success(|s| == 0)
      case JObj(m) => Success("length" in m && m["length"] == JNum(0))
      case _ => Success(false)
  }

  /** The inputs the renderers need: `new Date(x).toLocaleString('ko-KR')`,
      `JSON.stringify(data, null, 2)` and today's `toISOString()`; `None` stands for `undefined`. */
  datatype Renderers = Renderers(localeTime: Option<Json> -> string, stringify: Json -> string, isoNow: string)

  /** `${memo.id}`: `String()` of the id, and `undefined` when there is none. */
  function IdText(id: Option<Json>): string {
    if id.None? then "undefined" else JsString(id.value)
  }

  function Field(f: map<string, Json>, key: string): Option<Json> {
    if key in f then Some(f[key]) else None
  }

  /** The row for one array element; an element that is not an object, or whose content is not a
      string, makes `memo.content.replace` throw. */
  function RowOf(j: Json, r: Renderers): Option<MemoRow> {
    if !j.JObj? then None
    else
      var f := j.fields;
      if "content" in f && f["content"].JStr? then
        Some(MemoRow(IdText(Field(f, "id")), f["content"].s,
                     r.localeTime(Field(f, "created_at")), r.localeTime(Field(f, "updated_at"))))
      else None
  }

  function RowsOf(items: seq<Json>, r: Renderers): (rows: Option<seq<MemoRow>>)
    ensures rows.Some? ==> |rows.value| == |items| && forall i :: 0 <= i < |items| ==> RowOf(items[i], r) == Some(rows.value[i])
    ensures rows.Some? ==> forall i :: 0 <= i < |items| ==>
      && items[i].JObj? && "content" in items[i].fields && items[i].fields["content"].JStr?
      && rows.value[i].id == IdText(Field(items[i].fields, "id"))
      && rows.value[i].content == items[i].fields["content"].s
    ensures rows.None? ==> exists i :: 0 <= i < |items| && RowOf(items[i], r).None?
  {
    if items == [] then Some([])
    else match (RowOf(items[0], r), RowsOf(items[1..], r))
      case (Some(row), Some(rest)) => Some([row] + rest)
      case (None, _) => None
      case (_, None) =>
        var i :| 0 <= i < |items[1..]| && RowOf(items[1..][i], r).None?;
        assert items[i + 1] == items[1..][i];
        None
  }

  /** An integer's decimal text holds no line break. */
  lemma IntTextHasNoBreak(n: int)
    ensures '\n' !in IntToString(n)
  {
    var s := IntToString(n);
    forall k | 0 <= k < |s| ensures s[k] != '\n' {
      if n >= 0 {
        assert IsDigit(s[k]);
      } else if k > 0 {
        assert IsDigit(s[1..][k - 1]);
      }
    }
  }

  /** Quote doubling adds no line break. */
  lemma {:induction false} EscapeQuotesNoBreak(s: string)
    requires '\n' !in s
    ensures '\n' !in EscapeQuotes(s)
  {
    if s != [] {
      assert s[0] in s;
      assert forall c :: c in s[1..] ==> c in s;
      EscapeQuotesNoBreak(s[1..]);
    }
  }

  /** Memos with integer ids, contents without line breaks and dates formatted without line breaks
      give a CSV of exactly one line per memo after the header, each starting with the memo's id
      and the opening of its quoted content. */
  lemma NumericIdsOneLineEach(items: seq<Json>, rows: seq<MemoRow>, r: Renderers)
    requires RowsOf(items, r) == Some(rows)
    requires forall o :: '\n' !in r.localeTime(o)
    requires forall i :: 0 <= i < |items| ==> NumericMemo(items[i])
    ensures |Split(Csv(rows), '\n')| == |items| + 1
    ensures forall i :: 0 <= i < |items| ==>
      IntToString(IdNumber(items[i])) + ",\"" <= Split(Csv(rows), '\n')[i + 1]
  {
    forall i | 0 <= i < |rows| ensures '\n' !in CsvRow(rows[i]) && rows[i].id == IntToString(IdNumber(items[i])) {
      RowOfNumericMemo(items[i], rows[i], r);
    }
    CsvLines(rows);
    var lines := Split(Csv(rows), '\n');
    forall i | 0 <= i < |items| ensures IntToString(IdNumber(items[i])) + ",\"" <= lines[i + 1] {
      assert lines[i + 1] == CsvRows(rows)[i] == CsvRow(rows[i]);
      RowStartsWithId(rows[i]);
    }
  }

  lemma RowStartsWithId(m: MemoRow)
    ensures m.id + ",\"" <= CsvRow(m)
  {
    var rest := EscapeQuotes(m.content) + "\",\"" + m.created + "\",\"" + m.updated + "\"";
    assert CsvRow(m) == (m.id + ",\"") + rest;
  }

  /** A memo object with an integer id and a string content without line breaks. */
  predicate NumericMemo(j: Json) {
    && j.JObj? && "id" in j.fields && j.fields["id"].JNum?
    && "content" in j.fields && j.fields["content"].JStr? && '\n' !in j.fields["content"].s
  }

  function IdNumber(j: Json): int
    requires NumericMemo(j)
  {
    j.fields["id"].n
  }

  lemma RowOfNumericMemo(j: Json, row: MemoRow, r: Renderers)
    requires RowOf(j, r) == Some(row) && NumericMemo(j)
    requires forall o :: '\n' !in r.localeTime(o)
    ensures '\n' !in CsvRow(row) && row.id == IntToString(IdNumber(j))
  {
    IntTextHasNoBreak(j.fields["id"].n);
    EscapeQuotesNoBreak(row.content);
  }

  /** `voice_memos_<date>.<ext>`, the date being the part of the ISO time before `T`. */
  function ExportFileName(isoNow: string, ext: string): string {
    "voice_memos_" + Split(isoNow, 'T')[0] + "." + ext
  }

  /** For an ISO time `<date>T<time>` the file is named by the date alone: `2025-01-31T09:00:00.000Z`
      gives `voice_memos_2025-01-31.csv`. */
  lemma ExportFileNameOfIso(date: string, time: string, ext: string)
    requires 'T' !in date
    ensures ExportFileName(date + "T" + time, ext) == "voice_memos_" + date + "." + ext
  {
    SplitAtFirst(date, time, 'T');
    assert date + "T" + time == date + ['T'] + time;
  }

  /** `downloadExcel` after `fetchMemos`. */
  function ExcelOutcome(data: Option<Json>, r: Renderers): (o: ExportOutcome)
    ensures o.Downloaded? ==> |o.content| >= 1 && o.content[0] == Bom && o.mimeType == "text/csv;charset=utf-8"
  {
    match LengthIsZero(data)
    case Failure(_) => ErrorAlert
    case Success(true) => NoMemosAlert
    case Success(false) =>
      if !data.value.JArr? then ErrorAlert
      else match RowsOf(data.value.items, r)
        case None => ErrorAlert
        case Some(rows) => Downloaded(ExportFileName(r.isoNow, "csv"), [Bom] + Csv(rows), "text/csv;charset=utf-8")
  }

  /** `downloadJson` after `fetchMemos`. */
  function JsonOutcome(data: Option<Json>, r: Renderers): (o: ExportOutcome)
    ensures o.Downloaded? ==> o.mimeType == "application/json"
  {
    match LengthIsZero(data)
    case Failure(_) => ErrorAlert
    case Success(true) => NoMemosAlert
    case Success(false) => Downloaded(ExportFileName(r.isoNow, "json"), r.stringify(data.value), "application/json")
  }

  /** An empty list produces the no-memos alert and no file, in both formats, and so does every
      fetch failure. */
  lemma EmptyListNoFile(userId: string, reply: FetchReply, r: Renderers)
    requires FetchMemos(userId, reply) == Some(JArr([]))
    ensures ExcelOutcome(FetchMemos(userId, reply), r) == NoMemosAlert
    ensures JsonOutcome(FetchMemos(userId, reply), r) == NoMemosAlert
  {
  }

  /** A non-empty list of well-formed memos downloads the byte-order mark followed by the CSV of
      their rows, in list order. */
  lemma ExcelOfMemos(items: seq<Json>, rows: seq<MemoRow>, r: Renderers)
    requires |items| > 0 && RowsOf(items, r) == Some(rows)
    ensures ExcelOutcome(Some(JArr(items)), r) == Downloaded(ExportFileName(r.isoNow, "csv"), [Bom] + Csv(rows), "text/csv;charset=utf-8")
    ensures |rows| == |items|
  {
  }

  /** The export page's loading flag. */
  class DownloadPage {
    var isLoading: bool

    constructor ()
      ensures !isLoading
    {
      isLoading := false;
    }

    /** `downloadExcel`: whatever happens, the flag is down at the end. */
    method DownloadExcel(userId: string, reply: FetchReply, r: Renderers) returns (o: ExportOutcome)
      modifies this
      ensures o == ExcelOutcome(FetchMemos(userId, reply), r) && !isLoading
    {
      isLoading := true;
      var data := FetchMemos(userId, reply);
      o := ExcelOutcome(data, r);
      isLoading := false;
    }

    /** `downloadJson`: whatever happens, the flag is down at the end. */
    method DownloadJson(userId: string, reply: FetchReply, r: Renderers) returns (o: ExportOutcome)
      modifies this
      ensures o == JsonOutcome(FetchMemos(userId, reply), r) && !isLoading
    {
      isLoading := true;
      var data := FetchMemos(userId, reply);
      o := JsonOutcome(data, r);
      isLoading := false;
    }
  }
}
