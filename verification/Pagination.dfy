/** Listing webhooks page by page over the API. */
module Pagination {
  import opened Wrappers
  import opened DeliveryModel
  import opened Arithmetic
  import opened Decimal
  import opened WebhookSearch

  const DEFAULT_LIMIT := 20
  const MAX_LIMIT := 100

  /** A page and how many webhooks it shows. */
  datatype PageRange = PageRange(page: int, limit: int) {
    function Offset(): int { (page - 1) * limit }
    function End(): int { page * limit }
  }

  datatype PageError = BadLimit | BadPage | PageTooLarge

  /** The raw values of the query; the empty string stands for an absent value. */
  datatype PageQuery = PageQuery(page: string, limit: string)

  // ---------- Parsing ----------

  predicate LimitOk(limit: int) {
    1 <= limit <= MAX_LIMIT
  }

  /** The page with the row after it and the page after it stay within an int. */
  predicate InRange(p: PageRange) {
    p.page >= 1 && LimitOk(p.limit) && p.page <= (MAX_INT64 - 1) / p.limit
  }

  function Number(raw: string, otherwise: int): Option<int> {
    if raw == "" then Some(otherwise) else ParseInt64(raw)
  }

  function Parsed(q: PageQuery): Result<PageRange, PageError> {
    var limit, page := Number(q.limit, DEFAULT_LIMIT), Number(q.page, 1);
    if limit.None? || !LimitOk(limit.value) then Failure(BadLimit)
    else if page.None? || page.value < 1 then Failure(BadPage)
    else if !InRange(PageRange(page.value, limit.value)) then Failure(PageTooLarge)
    else Success(PageRange(page.value, limit.value))
  }

  method ParsePagination(q: PageQuery) returns (r: Result<PageRange, PageError>)
    ensures r == Parsed(q)
  {
    var page, limit := 1, DEFAULT_LIMIT;
    if q.limit != "" {
      var n := ParseInt64(q.limit);
      if n.None? || n.value < 1 || n.value > MAX_LIMIT {
        return Failure(BadLimit);
      }
      limit := n.value;
    }
    if q.page != "" {
      var n := ParseInt64(q.page);
      if n.None? || n.value < 1 {
        return Failure(BadPage);
      }
      page := n.value;
    }
    if page > (MAX_INT64 - 1) / limit {
      return Failure(PageTooLarge);
    }
    return Success(PageRange(page, limit));
  }

  lemma RangeBounds(p: PageRange)
    requires p.page >= 1 && LimitOk(p.limit)
    ensures 0 <= p.Offset() && p.Offset() + p.limit == p.End() && p.page <= p.End()
    ensures InRange(p) <==> p.End() <= MAX_INT64 - 1
  {
    AtMostQuotientIff(p.page, MAX_INT64 - 1, p.limit);
    ProductIsMonotone(0, p.page - 1, p.limit);
    ProductIsMonotone(1, p.limit, p.page);
    assert (p.page - 1) * p.limit + p.limit == p.page * p.limit;
    assert p.limit * p.page == p.page * p.limit;
  }

  /** The number that a parameter stands for, if it is present or has a default. */
  ghost predicate Gives(raw: string, otherwise: int, n: int) {
    if raw == "" then n == otherwise else ParseInt64(raw) == Some(n)
  }

  /** Exactly which queries are accepted, with which page and limit, and which error the others get: a limit that
      is not 1 to 100 comes before a page that is not positive, and that before one that is too far out. */
  lemma ParsedMeans(q: PageQuery, page: int, limit: int)
    ensures Parsed(q) == Success(PageRange(page, limit)) <==>
              Gives(q.limit, 20, limit) && 1 <= limit <= 100 && Gives(q.page, 1, page) && 1 <= page
              && page * limit <= 0x7FFF_FFFF_FFFF_FFFE
    ensures Parsed(q) == Failure(BadLimit) <==> forall n :: Gives(q.limit, 20, n) ==> !(1 <= n <= 100)
    ensures Parsed(q) == Failure(BadPage) <==>
              (exists n :: Gives(q.limit, 20, n) && 1 <= n <= 100) && forall n :: Gives(q.page, 1, n) ==> n < 1
  {
    assert Number(q.limit, DEFAULT_LIMIT).Some? ==> Gives(q.limit, 20, Number(q.limit, DEFAULT_LIMIT).value);
    assert Number(q.page, 1).Some? ==> Gives(q.page, 1, Number(q.page, 1).value);
    if page >= 1 && LimitOk(limit) {
      RangeBounds(PageRange(page, limit));
    }
  }

  /** No arithmetic on an accepted page overflows: neither the offset, nor the row beyond the page, nor the
      number of the next page. */
  lemma AcceptedPagesStayInInt(q: PageQuery)
    requires Parsed(q).Success?
    ensures var p := Parsed(q).value;
            0 <= p.Offset() <= p.Offset() + p.limit + 1 <= MAX_INT64 && p.page + 1 <= MAX_INT64
  {
    RangeBounds(Parsed(q).value);
  }

  // ---------- One page ----------

  datatype Reply = Reply(hooks: seq<nat>, next: Option<PageQuery>)

  function NextQuery(p: PageRange): PageQuery {
    PageQuery(FormatInt(p.page + 1), FormatInt(p.limit))
  }

  function PageOf(list: seq<nat>, p: PageRange): Reply
    requires InRange(p)
  {
    RangeBounds(p);
    Reply(Window(list, p.limit, p.Offset()), if p.End() < |list| then Some(NextQuery(p)) else None)
  }

  lemma OneMoreRow(list: seq<nat>, limit: nat, offset: nat)
    ensures |Window(list, limit + 1, offset)| > limit <==> offset + limit < |list|
    ensures Window(list, limit, offset)
         == if offset + limit < |list| then Window(list, limit + 1, offset)[..limit] else Window(list, limit + 1, offset)
  {
    if offset + limit < |list| {
      assert Window(list, limit + 1, offset) == list[offset..offset + limit + 1];
      assert list[offset..offset + limit + 1][..limit] == list[offset..offset + limit];
    } else {
      assert Min(offset + limit, |list|) == Min(offset + limit + 1, |list|);
    }
  }

  /** `list` is what the database lists for the filter. The one row more that is asked for tells whether there
      is a next page. */
  method ListWebhooks(list: seq<nat>, q: PageQuery) returns (r: Result<Reply, PageError>)
    ensures r == match Parsed(q) case Failure(e) => Failure(e) case Success(p) => Success(PageOf(list, p))
    ensures r.Success? ==>
              var Success(PageRange(page, limit)) := Parsed(q);
              0 <= (page - 1) * limit <= page * limit
              && r.value.hooks == list[Min((page - 1) * limit, |list|)..Min(page * limit, |list|)]
              && (r.value.next.Some? <==> page * limit < |list|)
  {
    var parsed := ParsePagination(q);
    if parsed.Failure? {
      return Failure(parsed.error);
    }
    var p := parsed.value;
    RangeBounds(p);
    OneMoreRow(list, p.limit, p.Offset());
    var hooks := Window(list, p.limit + 1, p.Offset());
    var next: Option<PageQuery> := None;
    if |hooks| > p.limit {
      hooks := hooks[..p.limit];
      next := Some(NextQuery(p));
    }
    return Success(Reply(hooks, next));
  }

  // ---------- All pages ----------

  lemma NextIsParsed(p: PageRange)
    requires InRange(p)
    ensures var next := PageRange(p.page + 1, p.limit);
            Parsed(NextQuery(p)) == if InRange(next) then Success(next) else Failure(PageTooLarge)
  {
    RangeBounds(p);
    ParseFormatted(p.page + 1);
    ParseFormatted(p.limit);
    DigitsAreExact(p.page + 1);
    DigitsAreExact(p.limit);
  }

  function RowsLeft(list: seq<nat>, q: PageQuery): int {
    if Parsed(q).Failure? then -1 else |list| - Parsed(q).value.Offset()
  }

  /** What a client collects that starts with a query and follows the next links of the replies. */
  function Collected(list: seq<nat>, q: PageQuery): Result<seq<nat>, PageError>
    decreases RowsLeft(list, q) + 1
  {
    match Parsed(q)
    case Failure(e) => Failure(e)
    case Success(p) =>
      RangeBounds(p);
      var reply := PageOf(list, p);
      if reply.next.None? then Success(reply.hooks)
      else
        assert RowsLeft(list, reply.next.value) < RowsLeft(list, q) by {
          NextIsParsed(p);
          RangeBounds(PageRange(p.page + 1, p.limit));
        }
        Prepended(reply.hooks, Collected(list, reply.next.value))
  }

  function Prepended(hooks: seq<nat>, rest: Result<seq<nat>, PageError>): Result<seq<nat>, PageError> {
    match rest
    case Failure(e) => Failure(e)
    case Success(more) => Success(hooks + more)
  }

  /** The last page that has a row, or the first page. */
  function LastPage(rows: nat, limit: int): (page: int)
    requires LimitOk(limit)
    ensures page >= 1
  {
    if rows == 0 then 1 else (rows - 1) / limit + 1
  }

  lemma LastPageIff(p: PageRange, rows: nat)
    requires p.page >= 1 && LimitOk(p.limit)
    ensures LastPage(rows, p.limit) <= p.page <==> rows <= p.End()
  {
    RangeBounds(p);
    AtMostQuotientIff(p.page, rows - 1, p.limit);
  }

  predicate Reaches(p: PageRange, rows: nat)
    requires LimitOk(p.limit)
  {
    InRange(PageRange(LastPage(rows, p.limit), p.limit))
  }

  lemma ReachesFrom(p: PageRange, rows: nat)
    requires InRange(p)
    ensures rows <= p.End() ==> Reaches(p, rows)
    ensures p.End() < rows && !InRange(PageRange(p.page + 1, p.limit)) ==> !Reaches(p, rows)
  {
    LastPageIff(p, rows);
  }

  lemma CollectedStep(list: seq<nat>, q: PageQuery, p: PageRange)
    requires Parsed(q) == Success(p)
    ensures InRange(p) && 0 <= p.Offset()
    ensures Collected(list, q)
         == var hooks := Window(list, p.limit, p.Offset());
            if p.End() < |list| then Prepended(hooks, Collected(list, NextQuery(p))) else Success(hooks)
  {
    RangeBounds(p);
  }

  lemma WindowThenRest(list: seq<nat>, limit: nat, offset: nat)
    ensures Window(list, limit, offset) + list[Min(offset + limit, |list|)..] == list[Min(offset, |list|)..]
    ensures |list| <= offset + limit ==> Window(list, limit, offset) == list[Min(offset, |list|)..]
  {
  }

  lemma NextOffset(p: PageRange)
    ensures PageRange(p.page + 1, p.limit).Offset() == p.End()
  {
  }

  function Expected(list: seq<nat>, p: PageRange): Result<seq<nat>, PageError>
    requires LimitOk(p.limit) && 0 <= p.Offset()
  {
    if Reaches(p, |list|) then Success(list[Min(p.Offset(), |list|)..]) else Failure(PageTooLarge)
  }

  lemma LastOfPages(list: seq<nat>, q: PageQuery, p: PageRange)
    requires Parsed(q) == Success(p) && |list| <= p.End()
    ensures 0 <= p.Offset() && Collected(list, q) == Expected(list, p)
  {
    RangeBounds(p);
    CollectedStep(list, q, p);
    ReachesFrom(p, |list|);
    WindowThenRest(list, p.limit, p.Offset());
  }

  lemma PageAndRest(list: seq<nat>, p: PageRange, rest: Result<seq<nat>, PageError>)
    requires InRange(p) && 0 <= p.End() < |list|
    requires rest == if Reaches(p, |list|) then Success(list[Min(p.End(), |list|)..]) else Failure(PageTooLarge)
    ensures 0 <= p.Offset() && Prepended(Window(list, p.limit, p.Offset()), rest) == Expected(list, p)
  {
    RangeBounds(p);
    WindowThenRest(list, p.limit, p.Offset());
  }

  /** What follows the next link, if the pages from there on are as expected. */
  lemma RestOfPages(list: seq<nat>, p: PageRange)
    requires InRange(p) && 0 <= p.End() < |list|
    requires var next := PageRange(p.page + 1, p.limit);
             InRange(next) ==> 0 <= next.Offset() && Collected(list, NextQuery(p)) == Expected(list, next)
    ensures Collected(list, NextQuery(p))
         == if Reaches(p, |list|) then Success(list[Min(p.End(), |list|)..]) else Failure(PageTooLarge)
  {
    NextIsParsed(p);
    NextOffset(p);
    ReachesFrom(p, |list|);
  }

  lemma PageThenRest(list: seq<nat>, q: PageQuery, p: PageRange)
    requires Parsed(q) == Success(p) && InRange(p) && 0 <= p.End() < |list|
    requires var next := PageRange(p.page + 1, p.limit);
             InRange(next) ==> 0 <= next.Offset() && Collected(list, NextQuery(p)) == Expected(list, next)
    ensures 0 <= p.Offset() && Collected(list, q) == Expected(list, p)
  {
    CollectedStep(list, q, p);
    RestOfPages(list, p);
    PageAndRest(list, p, Collected(list, NextQuery(p)));
  }

  lemma {:induction false} CollectedFrom(list: seq<nat>, q: PageQuery, p: PageRange)
    requires Parsed(q) == Success(p)
    ensures LimitOk(p.limit) && 0 <= p.Offset() && Collected(list, q) == Expected(list, p)
    decreases |list| - p.page
  {
    RangeBounds(p);
    if p.End() < |list| {
      NextIsParsed(p);
      var next := PageRange(p.page + 1, p.limit);
      if InRange(next) {
        CollectedFrom(list, NextQuery(p), next);
      }
      PageThenRest(list, q, p);
    } else {
      LastOfPages(list, q, p);
    }
  }

  /** Following the links from the first page gives the whole list, each webhook once and in order, exactly
      when the last page is one that the server accepts; otherwise it ends with that page's rejection. */
  lemma FollowingLinksListsAll(l: Locale, webhooks: map<nat, Webhook>, f: WebhookFilter, rawLimit: string)
    ensures var list, limit := Listing(l, webhooks, f), Number(rawLimit, DEFAULT_LIMIT);
            Collected(list, PageQuery("", rawLimit))
            == if limit.None? || !LimitOk(limit.value) then Failure(BadLimit)
               else if Reaches(PageRange(1, limit.value), |list|) then Success(list)
               else Failure(PageTooLarge)
  {
    var list, limit := Listing(l, webhooks, f), Number(rawLimit, DEFAULT_LIMIT);
    if limit.Some? && LimitOk(limit.value) {
      RangeBounds(PageRange(1, limit.value));
      CollectedFrom(list, PageQuery("", rawLimit), PageRange(1, limit.value));
    }
  }
}
