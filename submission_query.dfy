/**
 * internal/handlers/submission_query_handler.go: the query-string handling
 * of the submission listing endpoints. Page and page size get defaults and
 * bounds, optional filters that do not parse are dropped, the end date is
 * moved to the last second of its day, and the date-range endpoint insists
 * on both dates.
 */
module SubmissionQuery {
  import opened Common
  import opened Models

  /** uuid.Parse and time.Parse("2006-01-02", ·) are library code; instants are seconds. */
  type UuidParser = string -> Option<Uuid>
  type DateParser = string -> Option<int>

  /** 23h 59m 59s: from the start of a day to its last second. */
  const EndOfDayOffset: int := 23 * 3600 + 59 * 60 + 59

  const DefaultPage := 1
  const DefaultPageSize := 10
  const MaxPageSize := 100

  /** The filter ListSubmissions passes to the submission service. */
  datatype ListQuery = ListQuery(
    page: int,
    pageSize: int,
    popupId: Option<Uuid>,
    startDate: Option<int>,
    endDate: Option<int>)

  /** The query the handler builds from its five parameters: each field its default unless a value parses and is in range. */
  function QueryOf(pageStr: string, pageSizeStr: string, popupIdStr: string, startDateStr: string,
                   endDateStr: string, parseUuid: UuidParser, parseDate: DateParser): ListQuery
  {
    var p := Atoi(pageStr);
    var ps := Atoi(pageSizeStr);
    var ed := parseDate(endDateStr);
    ListQuery(
      if pageStr != "" && p.Some? && p.value > 0 then p.value else DefaultPage,
      if pageSizeStr != "" && ps.Some? && 0 < ps.value <= MaxPageSize then ps.value else DefaultPageSize,
      if popupIdStr == "" then None else parseUuid(popupIdStr),
      if startDateStr == "" then None else parseDate(startDateStr),
      if endDateStr != "" && ed.Some? then Some(ed.value + EndOfDayOffset) else None)
  }

  /**
   * The parameter parsing of ListSubmissions: each variable starts at its
   * default and is overwritten only by a value that parses and is in range.
   */
  method ParseListQuery(pageStr: string, pageSizeStr: string, popupIdStr: string, startDateStr: string,
                        endDateStr: string, parseUuid: UuidParser, parseDate: DateParser)
    returns (q: ListQuery)
    ensures q == QueryOf(pageStr, pageSizeStr, popupIdStr, startDateStr, endDateStr, parseUuid, parseDate)
    ensures q.page >= 1 && 1 <= q.pageSize <= MaxPageSize
    ensures q.page != DefaultPage ==> Atoi(pageStr) == Some(q.page)
    ensures (Atoi(pageStr).Some? && Atoi(pageStr).value > 0) <==> Atoi(pageStr) == Some(q.page)
    ensures q.pageSize != DefaultPageSize ==> Atoi(pageSizeStr) == Some(q.pageSize)
    ensures (Atoi(pageSizeStr).Some? && 0 < Atoi(pageSizeStr).value <= MaxPageSize) <==> Atoi(pageSizeStr) == Some(q.pageSize)
    ensures q.popupId == (if popupIdStr == "" then None else parseUuid(popupIdStr))
    ensures q.startDate == (if startDateStr == "" then None else parseDate(startDateStr))
    ensures q.endDate.Some? <==> endDateStr != "" && parseDate(endDateStr).Some?
    ensures q.endDate.Some? ==> q.endDate.value == parseDate(endDateStr).value + 86399
  {
    var page := DefaultPage;
    var pageSize := DefaultPageSize;
    var popupId: Option<Uuid> := None;
    var startDate: Option<int> := None;
    var endDate: Option<int> := None;

    if pageStr != "" {
      var p := Atoi(pageStr);
      if p.Some? && p.value > 0 {
        page := p.value;
      }
    }
    if pageSizeStr != "" {
      var ps := Atoi(pageSizeStr);
      if ps.Some? && ps.value > 0 && ps.value <= MaxPageSize {
        pageSize := ps.value;
      }
    }
    if popupIdStr != "" {
      var pid := parseUuid(popupIdStr);
      if pid.Some? {
        popupId := pid;
      }
    }
    if startDateStr != "" {
      var sd := parseDate(startDateStr);
      if sd.Some? {
        startDate := sd;
      }
    }
    if endDateStr != "" {
      var ed := parseDate(endDateStr);
      if ed.Some? {
        endDate := Some(ed.value + EndOfDayOffset);
      }
    }
    q := ListQuery(page, pageSize, popupId, startDate, endDate);
  }

  /** (total + pageSize - 1) / pageSize: the number of pages needed for total rows. */
  function TotalPages(total: nat, pageSize: int): (n: nat)
    requires pageSize >= 1
    ensures n * pageSize >= total
    ensures n == 0 || (n - 1) * pageSize < total
    ensures total == 0 <==> n == 0
  {
    (total + pageSize - 1) / pageSize
  }

  /** The submission service's answer (rows and total) or a database error. */
  type Lister = ListQuery -> Option<(seq<Submission>, nat)>

  /** What the handler writes: an error status with its message, or a page of data. */
  datatype ListResponse =
    | Failure(status: int, message: string)
    | PageResponse(data: seq<Submission>, page: int, pageSize: int, total: nat, totalPages: nat)

  /** ListSubmissions: parse the parameters, query, and attach the pagination block. */
  method ListSubmissions(pageStr: string, pageSizeStr: string, popupIdStr: string, startDateStr: string,
                         endDateStr: string, parseUuid: UuidParser, parseDate: DateParser, list: Lister)
    returns (resp: ListResponse)
    ensures var q := QueryOf(pageStr, pageSizeStr, popupIdStr, startDateStr, endDateStr, parseUuid, parseDate);
      resp.Failure? <==> list(q).None?
    ensures var q := QueryOf(pageStr, pageSizeStr, popupIdStr, startDateStr, endDateStr, parseUuid, parseDate);
      resp.PageResponse? ==>
        resp.data == list(q).value.0 && resp.total == list(q).value.1 && resp.page == q.page
        && resp.pageSize == q.pageSize && resp.totalPages == TotalPages(resp.total, q.pageSize)
    ensures resp.Failure? ==> resp == Failure(500, "Failed to retrieve submissions")
    ensures resp.PageResponse? ==> (resp.page >= 1 && 1 <= resp.pageSize <= MaxPageSize
      && resp.totalPages * resp.pageSize >= resp.total
      && (resp.totalPages == 0 || (resp.totalPages - 1) * resp.pageSize < resp.total))
  {
    var q := ParseListQuery(pageStr, pageSizeStr, popupIdStr, startDateStr, endDateStr, parseUuid, parseDate);
    var result := list(q);
    if result.None? {
      return Failure(500, "Failed to retrieve submissions");
    }
    var (submissions, total) := result.value;
    resp := PageResponse(submissions, q.page, q.pageSize, total, TotalPages(total, q.pageSize));
  }

  /** The checked parameters of GetSubmissionsByDateRange, or the 400 that refuses them. */
  datatype DateRange = DateRange(popupId: Uuid, startDate: int, endDate: int)

  /**
   * GetSubmissionsByDateRange: the popup id must parse, both dates must be
   * given and must parse, and the end date moves to the last second of its day.
   */
  function CheckDateRange(popupIdStr: string, startDateStr: string, endDateStr: string,
                          parseUuid: UuidParser, parseDate: DateParser): (r: Result<DateRange>)
    ensures r.Ok? <==> (parseUuid(popupIdStr).Some? && startDateStr != "" && endDateStr != ""
      && parseDate(startDateStr).Some? && parseDate(endDateStr).Some?)
    ensures r.Ok? ==> r.value == DateRange(parseUuid(popupIdStr).value, parseDate(startDateStr).value,
                                           parseDate(endDateStr).value + 86399)
    ensures parseUuid(popupIdStr).None? ==> r == Err("Invalid popup ID")
    ensures parseUuid(popupIdStr).Some? && (startDateStr == "" || endDateStr == "") ==>
      r == Err("Start date and end date are required")
    ensures (parseUuid(popupIdStr).Some? && startDateStr != "" && endDateStr != ""
             && parseDate(startDateStr).None?) ==>
      r == Err("Invalid start date format (YYYY-MM-DD)")
    ensures (parseUuid(popupIdStr).Some? && startDateStr != "" && endDateStr != ""
             && parseDate(startDateStr).Some? && parseDate(endDateStr).None?) ==>
      r == Err("Invalid end date format (YYYY-MM-DD)")
  {
    match parseUuid(popupIdStr)
    case None => Err("Invalid popup ID")
    case Some(popupId) =>
      if startDateStr == "" || endDateStr == "" then Err("Start date and end date are required")
      else
        match parseDate(startDateStr)
        case None => Err("Invalid start date format (YYYY-MM-DD)")
        case Some(startDate) =>
          match parseDate(endDateStr)
          case None => Err("Invalid end date format (YYYY-MM-DD)")
          case Some(endDate) => Ok(DateRange(popupId, startDate, endDate + EndOfDayOffset))
  }
}
