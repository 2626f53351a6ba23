/** The list-page parser: cleaning cell text, turning one grid row into a notice
    dict, collecting the rows of a page, reading the highest page number and
    choosing the page to move to next. */
module ListParser {
  import opened Wrappers
  import opened Text
  import opened Values

  /** `_clean_text`: empty input gives "", otherwise whitespace runs become one
      space and the ends are stripped. */
  function CleanText(text: string): (r: string)
    ensures r == [] || (!IsSpace(r[0]) && !IsSpace(r[|r| - 1]))
    ensures SingleSpaced(r)
    ensures |r| <= |text|
  {
    if text == "" then ""
    else
      var c := CollapseSpaces(text);
      StripEnds(c);
      StripSingleSpaced(c);
      TrimStartSuffix(c, Blank);
      TrimEndPrefix(TrimStart(c, Blank), Blank);
      Strip(c)
  }

  /** Cleaning is idempotent: cleaned text is a fixed point. */
  lemma CleanTextIdempotent(text: string)
    ensures CleanText(CleanText(text)) == CleanText(text)
  {
    var r := CleanText(text);
    if r != "" {
      CollapseSingleSpaced(r);
      TrimStartNoop(r, Blank);
      TrimEndNoop(r, Blank);
    }
  }

  /** Text without whitespace comes back unchanged. */
  lemma CleanTextKeepsWords(text: string)
    requires forall i :: 0 <= i < |text| ==> !IsSpace(text[i])
    ensures CleanText(text) == text
  {
    if text != "" {
      assert SingleSpaced(text);
      CollapseSingleSpaced(text);
      TrimStartNoop(text, Blank);
      TrimEndNoop(text, Blank);
    }
  }

  /** A grid cell as the browser shows it; reading an `Unreadable` cell raises. */
  datatype Cell = Cell(text: string) | Unreadable

  /** A grid row: the cells present, by their `col_id`. */
  type Row = map<string, Cell>

  /** The grid columns read, each with the notice field it fills. */
  const NumberColumn := "bidPbancNum"
  const NameColumn := "bidPbancNm"
  const AgencyColumn := "grpNm"
  const PostedColumn := "pbancPstgDt"
  const DeadlineColumn := "slprRcptDdlnDt"

  /** Column `col` is absent or can be read. */
  predicate ReadableAt(row: Row, col: string) {
    col in row ==> row[col].Cell?
  }

  /** Every column the parser reads can be read; other columns are never touched. */
  predicate Readable(row: Row) {
    ReadableAt(row, NumberColumn) && ReadableAt(row, NameColumn) && ReadableAt(row, AgencyColumn)
    && ReadableAt(row, PostedColumn) && ReadableAt(row, DeadlineColumn)
  }

  /** Sets `field` from column `col` when the row has that column. */
  function WithColumn(notice: Item, row: Row, col: string, field: string): (r: Item)
    requires ReadableAt(row, col)
    ensures r.Keys == if col in row then notice.Keys + {field} else notice.Keys
    ensures col in row ==> r[field] == Str(CleanText(row[col].text))
    ensures forall k :: k in notice && k != field ==> r[k] == notice[k]
  {
    if col in row then notice[field := Str(CleanText(row[col].text))] else notice
  }

  /** `field` is present exactly when column `col` is, holding its cleaned text. */
  predicate FilledFrom(notice: Item, row: Row, col: string, field: string)
    requires ReadableAt(row, col)
  {
    (field in notice <==> col in row) && (col in row ==> notice[field] == Str(CleanText(row[col].text)))
  }

  /** The fields read from a readable row, column by column. */
  function RowFields(row: Row): (n: Item)
    requires Readable(row)
    ensures n.Keys <= {"bid_notice_number", "bid_notice_name", "has_detail",
                       "announcement_agency", "announcement_date", "deadline_date"}
    ensures FilledFrom(n, row, NumberColumn, "bid_notice_number")
    ensures FilledFrom(n, row, NameColumn, "bid_notice_name")
    ensures "has_detail" in n <==> NameColumn in row
    ensures NameColumn in row ==> n["has_detail"] == Bool(true)
    ensures FilledFrom(n, row, AgencyColumn, "announcement_agency")
    ensures FilledFrom(n, row, PostedColumn, "announcement_date")
    ensures FilledFrom(n, row, DeadlineColumn, "deadline_date")
  {
    var n1 := WithColumn(map[], row, NumberColumn, "bid_notice_number");
    var n2 := WithColumn(n1, row, NameColumn, "bid_notice_name");
    var n3 := if NameColumn in row then n2["has_detail" := Bool(true)] else n2;
    var n4 := WithColumn(n3, row, AgencyColumn, "announcement_agency");
    var n5 := WithColumn(n4, row, PostedColumn, "announcement_date");
    WithColumn(n5, row, DeadlineColumn, "deadline_date")
  }

  /** `_parse_row`: the notice dict of one row, or `None` when the row has no
      notice number, an empty one, or one of the five columns read cannot be read. */
  function ParseRow(row: Row): (r: Option<Item>)
    ensures r.None? <==> (!Readable(row) || NumberColumn !in row || CleanText(row[NumberColumn].text) == "")
    ensures r.Some? ==> r.value == RowFields(row)
  {
    if !Readable(row) then None
    else
      var n := RowFields(row);
      if "bid_notice_number" !in n || !Truthy(n["bid_notice_number"]) then None else Some(n)
  }

  /** The columns `_parse_row` reads. */
  predicate ReadColumn(col: string) {
    col == NumberColumn || col == NameColumn || col == AgencyColumn || col == PostedColumn || col == DeadlineColumn
  }

  /** Two rows that agree on column `col`. */
  predicate AgreeAt(row: Row, row': Row, col: string) {
    (col in row' <==> col in row) && (col in row ==> row'[col] == row[col])
  }

  /** Setting a column in a notice depends only on that column of the row. */
  lemma WithColumnAgree(notice: Item, row: Row, row': Row, col: string, field: string)
    requires AgreeAt(row, row', col) && ReadableAt(row, col)
    ensures ReadableAt(row', col)
    ensures WithColumn(notice, row', col, field) == WithColumn(notice, row, col, field)
  {
  }

  /** The notice of a row depends only on the five columns read. */
  lemma ParseRowAgree(row: Row, row': Row)
    requires AgreeAt(row, row', NumberColumn) && AgreeAt(row, row', NameColumn)
    requires AgreeAt(row, row', AgencyColumn) && AgreeAt(row, row', PostedColumn)
    requires AgreeAt(row, row', DeadlineColumn)
    ensures ParseRow(row') == ParseRow(row)
  {
    if Readable(row) {
      var n1 := WithColumn(map[], row, NumberColumn, "bid_notice_number");
      WithColumnAgree(map[], row, row', NumberColumn, "bid_notice_number");
      var n2 := WithColumn(n1, row, NameColumn, "bid_notice_name");
      WithColumnAgree(n1, row, row', NameColumn, "bid_notice_name");
      var n3 := if NameColumn in row then n2["has_detail" := Bool(true)] else n2;
      var n4 := WithColumn(n3, row, AgencyColumn, "announcement_agency");
      WithColumnAgree(n3, row, row', AgencyColumn, "announcement_agency");
      var n5 := WithColumn(n4, row, PostedColumn, "announcement_date");
      WithColumnAgree(n4, row, row', PostedColumn, "announcement_date");
      WithColumnAgree(n5, row, row', DeadlineColumn, "deadline_date");
      assert RowFields(row') == RowFields(row);
    }
  }

  /** A column the parser does not read, readable or not, changes nothing. */
  lemma OtherColumnIgnored(row: Row, col: string, c: Cell)
    requires !ReadColumn(col)
    ensures ParseRow(row[col := c]) == ParseRow(row)
  {
    ParseRowAgree(row, row[col := c]);
  }

  /** The texts cleaning leaves alone are exactly the single-spaced ones with
      no whitespace at either end. */
  lemma CleanTextFixed(t: string)
    ensures CleanText(t) == t <==> SingleSpaced(t) && (t == [] || (!IsSpace(t[0]) && !IsSpace(t[|t| - 1])))
  {
    if t != [] && SingleSpaced(t) && !IsSpace(t[0]) && !IsSpace(t[|t| - 1]) {
      CollapseSingleSpaced(t);
      TrimStartNoop(t, Blank);
      TrimEndNoop(t, Blank);
    }
  }

  /** The notices of a list of rows, in row order, rows without a notice dropped. */
  function ParsedRows(rows: seq<Row>): seq<Item>
  {
    if rows == [] then []
    else
      var rest := ParsedRows(rows[..|rows| - 1]);
      match ParseRow(rows[|rows| - 1])
      case Some(n) => rest + [n]
      case None => rest
  }

  /** Every kept notice has a non-empty notice number, and no more notices than rows come out. */
  lemma {:induction false} ParsedRowsNumbered(rows: seq<Row>)
    ensures |ParsedRows(rows)| <= |rows|
    ensures forall n :: n in ParsedRows(rows) ==> "bid_notice_number" in n && Truthy(n["bid_notice_number"])
  {
    if rows != [] {
      ParsedRowsNumbered(rows[..|rows| - 1]);
    }
  }

  /** The list page as the browser shows it: whether the grid appeared, and its rows. */
  datatype ListPage = ListPage(gridLoaded: bool, rows: seq<Row>)

  /** `parse_page`: the notices of the page's rows in order; a grid that never
      appears gives no notices. */
  method ParsePage(page: ListPage) returns (notices: seq<Item>)
    ensures !page.gridLoaded ==> notices == []
    ensures page.gridLoaded ==> notices == ParsedRows(page.rows)
  {
    notices := [];
    if !page.gridLoaded {
      return;
    }
    var rows := page.rows;
    for idx := 0 to |rows|
      invariant notices == ParsedRows(rows[..idx])
    {
      assert rows[..idx + 1][..idx] == rows[..idx];
      var notice := ParseRow(rows[idx]);
      if notice.Some? {
        notices := notices + [notice.value];
      }
    }
    assert rows[..|rows|] == rows;
  }

  /** `text.isdigit()` then `int(text)`, for a link text already stripped. */
  function PageNumber(text: string): Option<nat> {
    if AllDigits(text) then Some(DigitsValue(text)) else None
  }

  /** The page numbers among the link texts, in order. */
  function PageNumbers(links: seq<string>): (r: seq<nat>)
    ensures forall k :: k in r <==> exists i :: 0 <= i < |links| && PageNumber(Strip(links[i])) == Some(k)
  {
    if links == [] then []
    else
      var rest := PageNumbers(links[..|links| - 1]);
      assert forall i :: 0 <= i < |links| - 1 ==> links[..|links| - 1][i] == links[i];
      match PageNumber(Strip(links[|links| - 1]))
      case Some(k) => rest + [k]
      case None => rest
  }

  /** `max(numbers)` */
  function MaxOf(numbers: seq<nat>): (m: nat)
    requires numbers != []
    ensures m in numbers
    ensures forall k :: k in numbers ==> k <= m
  {
    if |numbers| == 1 then numbers[0]
    else
      var m := MaxOf(numbers[1..]);
      assert forall k :: k in numbers ==> k == numbers[0] || k in numbers[1..];
      if numbers[0] >= m then numbers[0] else m
  }

  /** `get_total_pages`: the largest number among the pagination link texts, or
      `None` when there is no pagination block or no numeric link. */
  method GetTotalPages(pagination: Option<seq<string>>) returns (total: Option<nat>)
    ensures total.None? <==> (pagination.None? || PageNumbers(pagination.value) == [])
    ensures total.Some? ==> exists i :: 0 <= i < |pagination.value| && PageNumber(Strip(pagination.value[i])) == total
    ensures total.Some? ==> forall i :: 0 <= i < |pagination.value| && PageNumber(Strip(pagination.value[i])).Some? ==>
                                          PageNumber(Strip(pagination.value[i])).value <= total.value
  {
    if pagination.None? {
      return None;
    }
    var links := pagination.value;
    var pageNumbers: seq<nat> := [];
    for i := 0 to |links|
      invariant pageNumbers == PageNumbers(links[..i])
    {
      assert links[..i + 1][..i] == links[..i];
      var text := Strip(links[i]);
      if AllDigits(text) {
        pageNumbers := pageNumbers + [DigitsValue(text)];
      }
    }
    assert links[..|links|] == links;
    if pageNumbers == [] {
      return None;
    }
    var m := MaxOf(pageNumbers);
    total := Some(m);
    forall i | 0 <= i < |links| && PageNumber(Strip(links[i])).Some?
      ensures PageNumber(Strip(links[i])).value <= m
    {
      assert PageNumber(Strip(links[i])).value in pageNumbers;
    }
  }

  /** The page `go_to_next_page` aims for: one past the selected page number,
      where an absent or non-numeric selection counts as page 1. */
  function NextPageTarget(selected: Option<string>): int {
    var current := if selected.Some? then ParseInt(CleanText(selected.value)).GetOr(1) else 1;
    current + 1
  }

  /** The selected page's own numeral leads to the page after it. */
  lemma NextPageAfterSelected(n: int)
    ensures NextPageTarget(Some(IntToString(n))) == n + 1
  {
    var t := IntToString(n);
    ParseIntRoundTrip(n);
    assert forall i :: 0 <= i < |t| ==> !IsSpace(t[i]) by {
      if n < 0 {
        NatToStringDigits(-n);
        forall i | 0 <= i < |t| ensures !IsSpace(t[i]) {
          if i > 0 { assert t[i] == NatToString(-n)[i - 1]; }
        }
      } else {
        NatToStringDigits(n);
      }
    }
    CleanTextKeepsWords(t);
  }

  /** What `go_to_next_page` does on the pagination bar. */
  datatype PageMove = NumericButton(page: int) | NextGroupButton | NoMove

  /** `go_to_next_page`: the numbered button for the target page when it exists,
      otherwise the next-group button, otherwise nothing. */
  function GoToNextPage(selected: Option<string>, hasPageButton: int -> bool, hasNextGroupButton: bool): (r: PageMove)
    ensures r.NumericButton? <==> hasPageButton(NextPageTarget(selected))
    ensures r.NumericButton? ==> r.page == NextPageTarget(selected)
    ensures r.NextGroupButton? <==> !hasPageButton(NextPageTarget(selected)) && hasNextGroupButton
  {
    var target := NextPageTarget(selected);
    if hasPageButton(target) then NumericButton(target)
    else if hasNextGroupButton then NextGroupButton
    else NoMove
  }
}
