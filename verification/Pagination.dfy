/**
 Cursor pagination of the read API (indexer/src/api.ts). `listing` is what the
 database holds for one filter in the fixed order; row ids are unique.
 */
module Pagination {
  import opened Wrappers

  const DEFAULT_LIMIT := 50
  const MAX_LIMIT := 100

  /** A query parameter as the HTTP layer hands it over. */
  datatype RawParam = Absent | Text(text: string) | Many(values: seq<RawParam>) | Nested

  /** The number a text denotes; NotFinite stands for NaN and the infinities. */
  datatype JsNumber = NotFinite | Finite(value: real)

  function First(raw: RawParam): RawParam {
    if raw.Many? then (if raw.values == [] then Absent else raw.values[0]) else raw
  }

  function ParseLimit(raw: RawParam, number: string -> JsNumber): (limit: Option<int>)
    ensures limit.Some? ==> 1 <= limit.value <= MAX_LIMIT
  {
    if raw.Absent? then Some(DEFAULT_LIMIT)
    else
      var value := First(raw);
      if !value.Text? then None
      else
        var parsed := number(value.text);
        if parsed.NotFinite? || parsed.value != parsed.value.Floor as real || parsed.value < 1.0 then None
        else if parsed.value.Floor < MAX_LIMIT then Some(parsed.value.Floor)
        else Some(MAX_LIMIT)
  }

  predicate IsInteger(n: JsNumber, k: int) {
    n == Finite(k as real)
  }

  /** A text that denotes an integer is accepted from 1 on and cut off at the maximum; any other text is refused. */
  lemma LimitIsCapped(text: string, number: string -> JsNumber, k: int)
    ensures IsInteger(number(text), k) ==>
              ParseLimit(Text(text), number)
              == if k < 1 then None else if k < 100 then Some(k) else Some(100)
    ensures ParseLimit(Text(text), number).Some? ==> exists j :: 1 <= j && IsInteger(number(text), j)
  {
    if ParseLimit(Text(text), number).Some? {
      assert IsInteger(number(text), number(text).value.Floor);
    }
  }

  function ParseCursor(raw: RawParam): Option<string> {
    var value := First(raw);
    if value.Text? && value.text != "" then Some(value.text) else None
  }

  datatype Row = Row(id: string)

  ghost predicate UniqueIds(listing: seq<Row>) {
    forall i, j :: 0 <= i < j < |listing| ==> listing[i].id != listing[j].id
  }

  predicate HasId(listing: seq<Row>, id: string) {
    exists i :: 0 <= i < |listing| && listing[i].id == id
  }

  function IndexOf(listing: seq<Row>, id: string): (i: nat)
    requires HasId(listing, id)
    ensures i < |listing| && listing[i].id == id
  {
    if listing[0].id == id then 0
    else
      assert exists i :: 0 <= i < |listing[1..]| && listing[1..][i].id == id by {
        var i :| 0 <= i < |listing| && listing[i].id == id;
        assert listing[1..][i - 1].id == id;
      }
      1 + IndexOf(listing[1..], id)
  }

  function Take(rows: seq<Row>, n: nat): seq<Row> {
    if |rows| <= n then rows else rows[..n]
  }

  /** The position right after the cursor row; the start without a cursor. */
  function Start(listing: seq<Row>, cursor: Option<string>): (start: nat)
    requires cursor.Some? ==> HasId(listing, cursor.value)
    ensures start <= |listing|
  {
    if cursor.Some? then IndexOf(listing, cursor.value) + 1 else 0
  }

  function FindMany(listing: seq<Row>, take: nat, cursor: Option<string>): Option<seq<Row>> {
    if cursor.Some? && !HasId(listing, cursor.value) then None
    else Some(Take(listing[Start(listing, cursor)..], take))
  }

  datatype Response = BadRequest(error: string) | Page(data: seq<Row>, nextCursor: Option<string>)

  function HandlePaginatedList(listing: seq<Row>, limit: RawParam, cursor: RawParam, number: string -> JsNumber)
    : Response
  {
    match ParseLimit(limit, number)
    case None => BadRequest("Invalid limit")
    case Some(n) => ListPage(listing, n, ParseCursor(cursor))
  }

  /** One row more than the limit is fetched to see whether another page follows. */
  function ListPage(listing: seq<Row>, limit: nat, cursor: Option<string>): Response {
    match FindMany(listing, limit + 1, cursor)
    case None => BadRequest("Invalid cursor")
    case Some(rows) =>
      var hasNextPage := |rows| > limit;
      var data := if hasNextPage then rows[..limit] else rows;
      Page(data, if hasNextPage && |data| > 0 then Some(data[|data| - 1].id) else None)
  }

  /** A text parameter stands for itself; of a repeated one the first is read; an absent one has a default. */
  lemma ParametersRead(text: string, more: seq<RawParam>, number: string -> JsNumber)
    ensures ParseLimit(Many([Text(text)] + more), number) == ParseLimit(Text(text), number)
    ensures ParseCursor(Many([Text(text)] + more)) == ParseCursor(Text(text))
    ensures ParseCursor(Text(text)) == if text == "" then None else Some(text)
    ensures ParseLimit(Absent, number) == Some(50) && ParseCursor(Absent) == None
    ensures ParseLimit(Nested, number) == None && ParseLimit(Many([]), number) == None
    ensures ParseCursor(Nested) == None && ParseCursor(Many([])) == None
  {
    assert ([Text(text)] + more)[0] == Text(text);
  }

  /** A request is refused exactly for a limit that is not accepted, or a cursor that names no row. */
  lemma RefusedIff(listing: seq<Row>, limit: RawParam, cursor: RawParam, number: string -> JsNumber)
    ensures var r, from := HandlePaginatedList(listing, limit, cursor, number), ParseCursor(cursor);
      && (r == BadRequest("Invalid limit") <==> ParseLimit(limit, number).None?)
      && (r == BadRequest("Invalid cursor") <==>
            && ParseLimit(limit, number).Some? && from.Some?
            && forall i :: 0 <= i < |listing| ==> listing[i].id != from.value)
      && (r.BadRequest? ==> r.error in ["Invalid limit", "Invalid cursor"])
  {
    assert |"Invalid limit"| == 13 && |"Invalid cursor"| == 14;
  }

  lemma PositionIsUnique(listing: seq<Row>, i: nat)
    requires UniqueIds(listing) && i < |listing|
    ensures HasId(listing, listing[i].id) && IndexOf(listing, listing[i].id) == i
  {
    var j := IndexOf(listing, listing[i].id);
    assert listing[j].id == listing[i].id;
  }

  /** A page holds the next rows after the cursor, and its cursor is the last of them if more follow. */
  lemma PageContents(listing: seq<Row>, limit: nat, cursor: Option<string>)
    requires UniqueIds(listing) && 1 <= limit
    requires cursor.Some? ==> HasId(listing, cursor.value)
    ensures var s, p := Start(listing, cursor), ListPage(listing, limit, cursor);
      && p.Page?
      && p.data == Take(listing[s..], limit)
      && (p.nextCursor.Some? <==> limit < |listing| - s)
      && (p.nextCursor.Some? ==>
            HasId(listing, p.nextCursor.value) && Start(listing, p.nextCursor) == s + limit)
  {
    var s := Start(listing, cursor);
    if limit < |listing| - s {
      assert listing[s..][..limit + 1][..limit] == listing[s..][..limit];
      PositionIsUnique(listing, s + limit - 1);
    }
  }

  /** Following `nextCursor` to the end. */
  function Walk(listing: seq<Row>, limit: nat, cursor: Option<string>): seq<seq<Row>>
    requires UniqueIds(listing) && 1 <= limit
    requires cursor.Some? ==> HasId(listing, cursor.value)
    decreases |listing| - Start(listing, cursor)
  {
    PageContents(listing, limit, cursor);
    var p := ListPage(listing, limit, cursor);
    if p.nextCursor.None? then [p.data] else [p.data] + Walk(listing, limit, p.nextCursor)
  }

  function Flatten(pages: seq<seq<Row>>): seq<Row> {
    if pages == [] then [] else pages[0] + Flatten(pages[1..])
  }

  /** All pages but the last hold `limit` rows, and the last no more. */
  ghost predicate PagesFull(pages: seq<seq<Row>>, limit: nat) {
    && (forall i :: 0 <= i < |pages| ==> |pages[i]| <= limit)
    && (forall i :: 0 <= i < |pages| - 1 ==> |pages[i]| == limit)
  }

  lemma FullPageInFront(listing: seq<Row>, limit: nat, s: nat, pages: seq<seq<Row>>)
    requires s + limit < |listing|
    requires PagesFull(pages, limit) && Flatten(pages) == listing[s + limit..]
    ensures var all := [Take(listing[s..], limit)] + pages;
      PagesFull(all, limit) && Flatten(all) == listing[s..]
  {
    var page := Take(listing[s..], limit);
    assert ([page] + pages)[1..] == pages;
    assert page + listing[s + limit..] == listing[s..];
  }

  lemma FlattenOne(page: seq<Row>)
    ensures Flatten([page]) == page
  {
    assert [page][1..] == [];
    assert page + [] == page;
  }

  /** From any cursor the pages add up to the rows after it; all pages but the last are full. */
  lemma {:induction false} WalkLosesNothing(listing: seq<Row>, limit: nat, cursor: Option<string>)
    requires UniqueIds(listing) && 1 <= limit
    requires cursor.Some? ==> HasId(listing, cursor.value)
    ensures Flatten(Walk(listing, limit, cursor)) == listing[Start(listing, cursor)..]
    ensures PagesFull(Walk(listing, limit, cursor), limit)
    decreases |listing| - Start(listing, cursor)
  {
    PageContents(listing, limit, cursor);
    var s, p := Start(listing, cursor), ListPage(listing, limit, cursor);
    if p.nextCursor.Some? {
      WalkLosesNothing(listing, limit, p.nextCursor);
      FullPageInFront(listing, limit, s, Walk(listing, limit, p.nextCursor));
    } else {
      FlattenOne(p.data);
    }
  }

  /**
   For every limit that the API accepts, the pages from the first one on concatenate to
   exactly the whole list, and none exceeds the limit. A request with a row's id as its
   cursor asks for the page after that row, unless the id is empty.
   */
  lemma PagesAddUpToListing(listing: seq<Row>, raw: RawParam, number: string -> JsNumber)
    requires UniqueIds(listing) && ParseLimit(raw, number).Some?
    ensures var limit := ParseLimit(raw, number).value;
      && Flatten(Walk(listing, limit, None)) == listing
      && PagesFull(Walk(listing, limit, None), limit)
      && HandlePaginatedList(listing, raw, Absent, number) == ListPage(listing, limit, None)
      && (forall id :: id != "" ==>
            HandlePaginatedList(listing, raw, Text(id), number) == ListPage(listing, limit, Some(id)))
  {
    WalkLosesNothing(listing, ParseLimit(raw, number).value, None);
  }
}
