/**
  Reading rows page by page from an HTTP API: the pagination state machine, and the result stream that
  batches the rows, applies offset and limit, and holds an error back until the rows before it are out.

  What the server answers to the k-th request is an arbitrary function of k.
 */
module OpenApiStream {
  import opened Options

  /** A row that can be turned into a tuple, or cannot. */
  datatype RowOutcome = Decodes(tuple: int) | Undecodable(error: int)

  datatype Error = PageCapReached | Refused(reason: int) | BadHasMore | BadCursor | RepeatedCursor | BadRow(reason: int)

  datatype Outcome<+T> = Good(value: T) | Fails(error: Error)

  // ---------- Pagination ----------

  datatype Mode = OffsetMode | PageMode | CursorMode

  datatype Paging = Unpaged | Paged(mode: Mode, pageSize: nat, maxPages: nat, hasMorePath: bool)

  datatype PagingState = PagingState(pages: nat, offset: nat, page: nat, cursor: string, seen: set<string>)

  datatype HasMore = NoFlag | Flag(more: bool) | NotAFlag

  /** What the next-cursor property holds. A JSON number has at least one character. */
  datatype NextCursor = NoCursor | NullCursor | TextCursor(text: string) | NumberCursor(first: char, rest: string)
    | NotACursor

  datatype Reply = Refuses(reason: int) | Document(rows: seq<RowOutcome>, hasMore: HasMore, next: NextCursor)

  /** The part of a request that pagination decides. */
  datatype Request = Plain | AtOffset(offset: nat) | AtPage(page: nat) | AtCursor(cursor: string)

  function NextRequest(p: Paging, s: PagingState): Outcome<Request> {
    match p
    case Unpaged => Good(Plain)
    case Paged(mode, _, maxPages, _) =>
      if s.pages >= maxPages then Fails(PageCapReached)
      else
        match mode
        case OffsetMode => Good(AtOffset(s.offset))
        case PageMode => Good(AtPage(s.page))
        case CursorMode => Good(if s.cursor == "" then Plain else AtCursor(s.cursor))
  }

  /** The token of a cursor, and whether it ends the listing. */
  function CursorToken(next: NextCursor): Outcome<(string, bool)>
    requires !next.NoCursor?
  {
    match next
    case NullCursor => Good(("", true))
    case TextCursor(text) => Good((text, text == ""))
    case NumberCursor(first, rest) => Good(([first] + rest, false))
    case NotACursor => Fails(BadCursor)
  }

  /** The state after a page, and whether it was the last one. */
  function Advance(p: Paging, s: PagingState, rowCount: nat, hasMore: HasMore,
                   next: NextCursor): Outcome<(PagingState, bool)> {
    if p.Unpaged? then Good((s, true))
    else
      var s := s.(pages := s.pages + 1);
      match p.mode
      case OffsetMode => Good((s.(offset := s.offset + rowCount), rowCount < p.pageSize))
      case PageMode => Good((s.(page := s.page + 1), rowCount < p.pageSize))
      case CursorMode =>
        if p.hasMorePath && !hasMore.Flag? then Fails(BadHasMore)
        else if p.hasMorePath && !hasMore.more then Good((s, true))
        else if next.NoCursor? then
          if p.hasMorePath then Fails(BadCursor) else Good((s, true))
        else
          var token := CursorToken(next);
          if token.Fails? then Fails(token.error)
          else if token.value.1 then
            if p.hasMorePath then Fails(BadCursor) else Good((s, true))
          else if token.value.0 in s.seen then Fails(RepeatedCursor)
          else Good((s.(cursor := token.value.0, seen := s.seen + {token.value.0}), false))
  }

  datatype Page = Page(rows: seq<RowOutcome>, state: PagingState, last: bool)

  /** One request and its answer. A page after which the listing cannot go on counts as failed. */
  function Fetch(p: Paging, s: PagingState, reply: Reply): Outcome<Page> {
    var request := NextRequest(p, s);
    if request.Fails? then Fails(request.error)
    else
      match reply
      case Refuses(reason) => Fails(Refused(reason))
      case Document(rows, hasMore, next) =>
        var advanced := Advance(p, s, |rows|, hasMore, next);
        if advanced.Fails? then Fails(advanced.error) else Good(Page(rows, advanced.value.0, advanced.value.1))
  }

  type Server = nat -> Reply

  /** The states a listing goes through while every page says that there is more. */
  ghost predicate Listing(p: Paging, server: Server, states: seq<PagingState>) {
    && states != [] && states[0].pages == 0 && states[0].seen == {} && states[0].cursor == ""
    && forall i :: 0 <= i < |states| - 1 ==> Continues(p, states[i], server(i), states[i + 1])
  }

  ghost predicate Continues(p: Paging, s: PagingState, reply: Reply, s': PagingState) {
    exists rows :: Fetch(p, s, reply) == Good(Page(rows, s', false))
  }

  lemma ContinuesFacts(p: Paging, s: PagingState, reply: Reply, s': PagingState)
    requires Continues(p, s, reply, s')
    ensures p.Paged? && s.pages < p.maxPages && s'.pages == s.pages + 1 && s.seen <= s'.seen
    ensures p.mode.CursorMode? ==> s'.cursor != "" && s'.cursor !in s.seen && s'.cursor in s'.seen
  {
  }

  lemma {:induction false} SeenGrows(p: Paging, server: Server, states: seq<PagingState>, i: nat, j: nat)
    requires Listing(p, server, states) && i <= j < |states|
    ensures states[i].seen <= states[j].seen && states[j].pages == j
    ensures j > 0 ==> p.Paged? && j <= p.maxPages
  {
    if j > 0 {
      if i < j { SeenGrows(p, server, states, i, j - 1); } else { SeenGrows(p, server, states, 0, j - 1); }
      ContinuesFacts(p, states[j - 1], server(j - 1), states[j]);
    }
  }

  /** A listing fetches no more pages than allowed, and by cursor it never sends the same request twice. */
  lemma ListingIsBounded(p: Paging, server: Server, states: seq<PagingState>)
    requires Listing(p, server, states)
    ensures |states| > 1 ==> p.Paged? && |states| - 1 <= p.maxPages
    ensures p.Paged? && p.mode.CursorMode? ==>
              forall i, j :: 0 <= i < j < |states| ==> states[i].cursor != states[j].cursor
  {
    SeenGrows(p, server, states, 0, |states| - 1);
    if p.Paged? && p.mode.CursorMode? {
      forall i, j | 0 <= i < j < |states| ensures states[i].cursor != states[j].cursor {
        ContinuesFacts(p, states[j - 1], server(j - 1), states[j]);
        if i > 0 {
          ContinuesFacts(p, states[i - 1], server(i - 1), states[i]);
          SeenGrows(p, server, states, i, j - 1);
        }
      }
    }
  }

  /**
    A listing by offset asks next for the row after the last one it got, and one by page for the next page; either
    goes on exactly as long as pages are full.
   */
  lemma NextPageFollows(p: Paging, s: PagingState, reply: Reply)
    requires p.Paged? && !p.mode.CursorMode? && Fetch(p, s, reply).Good?
    ensures var page := Fetch(p, s, reply).value;
            && reply == Document(page.rows, reply.hasMore, reply.next)
            && (page.last <==> |page.rows| < p.pageSize)
            && (!page.last && page.state.pages < p.maxPages ==>
                 NextRequest(p, page.state) ==
                 Good(if p.mode.OffsetMode? then AtOffset(NextRequest(p, s).value.offset + |page.rows|)
                      else AtPage(NextRequest(p, s).value.page + 1)))
  {
  }

  /** Whether the reply names a cursor, and which. */
  predicate Names(next: NextCursor, token: string) {
    (next == TextCursor(token) && token != "") || (next.NumberCursor? && token == [next.first] + next.rest)
  }

  /** There is no next cursor: it is absent, null or empty. */
  predicate NoNext(next: NextCursor) {
    next.NoCursor? || next.NullCursor? || next == TextCursor("")
  }

  /**
    A listing by cursor ends with a page exactly if its flag says so, or, where none is configured, if it has no next
    cursor. Otherwise the next request is for exactly the cursor the page names; and it fails exactly if the flag is no truth
    value, if there is more by the flag but no next cursor, if what is in its place is no cursor, or if it was there before.
   */
  lemma CursorPageFollows(p: Paging, s: PagingState, reply: Reply)
    requires p.Paged? && p.mode.CursorMode? && s.pages < p.maxPages && reply.Document?
    ensures var r, flagged, next := Fetch(p, s, reply), p.hasMorePath, reply.next;
            && (r.Good? ==> r.value.rows == reply.rows)
            && (r.Good? && r.value.last <==> if flagged then reply.hasMore == Flag(false) else NoNext(next))
            && (r.Good? && !r.value.last <==>
                 (flagged ==> reply.hasMore == Flag(true)) && exists token :: Names(next, token) && token !in s.seen)
            && (r.Good? && !r.value.last ==>
                 && Names(next, r.value.state.cursor) && r.value.state.seen == s.seen + {r.value.state.cursor}
                 && NextRequest(p, r.value.state) ==
                    if s.pages + 1 < p.maxPages then Good(AtCursor(r.value.state.cursor)) else Fails(PageCapReached))
            && (r == Fails(BadHasMore) <==> flagged && !reply.hasMore.Flag?)
            && (r == Fails(BadCursor) <==>
                 (flagged ==> reply.hasMore == Flag(true)) && (next.NotACursor? || (flagged && NoNext(next))))
            && (r == Fails(RepeatedCursor) <==>
                 (flagged ==> reply.hasMore == Flag(true)) && exists token :: Names(next, token) && token in s.seen)
            && (r.Fails? ==> r.error in {BadHasMore, BadCursor, RepeatedCursor})
  {
    var next := reply.next;
    if next.TextCursor? && next.text != "" {
      assert Names(next, next.text);
    } else if next.NumberCursor? {
      assert Names(next, [next.first] + next.rest);
    }
  }

  /** Any request fails exactly if the pages are used up or the server refuses it, apart from what cursors add. */
  lemma FetchFailsExactlyWhen(p: Paging, s: PagingState, reply: Reply)
    ensures var r, cut := Fetch(p, s, reply), p.Paged? && s.pages >= p.maxPages;
            && (r == Fails(PageCapReached) <==> cut)
            && (!cut && reply.Refuses? <==> r == Fails(Refused(if reply.Refuses? then reply.reason else 0))
                                            && reply.Refuses?)
            && (!cut && reply.Document? && !(p.Paged? && p.mode.CursorMode?) ==> r.Good?)
            && (!cut && reply.Document? && p.Unpaged? ==> r == Good(Page(reply.rows, s, true)))
  {
  }

  /** A listing starts at the offset or page asked for, with nothing seen. */
  function Start(p: Paging, startPage: nat, offset: nat): PagingState {
    PagingState(0, if p.Paged? && p.mode.OffsetMode? then offset else 0, startPage, "", {})
  }

  lemma FirstRequest(p: Paging, startPage: nat, offset: nat)
    requires p.Paged? ==> p.maxPages > 0
    ensures NextRequest(p, Start(p, startPage, offset)) ==
              Good(if p.Unpaged? || p.mode.CursorMode? then Plain
                   else if p.mode.OffsetMode? then AtOffset(offset) else AtPage(startPage))
  {
  }

  /** The cursors seen are exactly those requested so far in the listing. */
  lemma {:induction false} SeenExactlyWhen(p: Paging, server: Server, states: seq<PagingState>, i: nat, token: string)
    requires Listing(p, server, states) && i < |states| && p.Paged? && p.mode.CursorMode?
    ensures token in states[i].seen <==> exists j :: 0 < j <= i && states[j].cursor == token
  {
    if i > 0 {
      SeenExactlyWhen(p, server, states, i - 1, token);
      assert Continues(p, states[i - 1], server(i - 1), states[i]);
      CursorPageFollows(p, states[i - 1], server(i - 1));
    }
  }

  // ---------- What a stream delivers ----------

  /** Everything the pages from the k-th request on hold, and the error the listing ends with, if any. */
  function Rows(p: Paging, s: PagingState, server: Server, k: nat): (seq<RowOutcome>, Option<Error>)
    decreases if p.Paged? && s.pages <= p.maxPages then p.maxPages - s.pages else 0
  {
    var page := Fetch(p, s, server(k));
    if page.Fails? then ([], Some(page.error))
    else if page.value.last then (page.value.rows, None)
    else
      assert Continues(p, s, server(k), page.value.state);
      var (more, error) := Rows(p, page.value.state, server, k + 1);
      (page.value.rows + more, error)
  }

  function Drop(rows: seq<RowOutcome>, n: nat): seq<RowOutcome> {
    if n <= |rows| then rows[n..] else []
  }

  function OneLess(limit: Option<nat>): Option<nat>
    requires limit != Some(0)
  {
    if limit.Some? then Some(limit.value - 1) else None
  }

  /** Up to `limit` tuples, as far as the first row that does not decode, and the error after them. */
  function Cut(rows: seq<RowOutcome>, error: Option<Error>, limit: Option<nat>): (seq<int>, Option<Error>) {
    if limit == Some(0) then ([], None)
    else if rows == [] then ([], error)
    else if rows[0].Undecodable? then ([], Some(BadRow(rows[0].error)))
    else
      var (tuples, error) := Cut(rows[1..], error, OneLess(limit));
      ([rows[0].tuple] + tuples, error)
  }

  /** The rows from the offset on decode up to the n-th, which does not or is the end. */
  predicate DecodesUpTo(rows: seq<RowOutcome>, offset: nat, n: nat) {
    && offset + n <= |rows| && (forall i :: offset <= i < offset + n ==> rows[i].Decodes?)
    && (offset + n < |rows| ==> rows[offset + n].Undecodable?)
  }

  /**
    What is delivered of rows is those after the offset, in order, up to the limit and up to the first that does not decode;
    then comes that row's error, or the listing's own, unless the limit is reached before.
   */
  lemma {:induction false} CutIsTake(rows: seq<RowOutcome>, error: Option<Error>, offset: nat, limit: Option<nat>, n: nat)
    requires DecodesUpTo(rows, offset, n)
    ensures var all := Cut(Drop(rows, offset), error, limit);
            && |all.0| == (if limit.Some? && limit.value < n then limit.value else n)
            && (forall i :: 0 <= i < |all.0| ==> all.0[i] == rows[offset + i].tuple)
            && all.1 == if limit.Some? && limit.value <= n then None
                        else if offset + n < |rows| then Some(BadRow(rows[offset + n].error)) else error
    decreases n
  {
    var left := rows[offset..];
    if n > 0 && limit != Some(0) {
      CutIsTake(rows, error, offset + 1, OneLess(limit), n - 1);
      assert left[1..] == rows[offset + 1..];
    }
  }

  /** Behind the end there is nothing but the listing's error. */
  lemma CutBehindEnd(rows: seq<RowOutcome>, error: Option<Error>, offset: nat, limit: Option<nat>)
    requires offset >= |rows|
    ensures Cut(Drop(rows, offset), error, limit) == ([], if limit == Some(0) then None else error)
  {
  }

  /** The rows of the first pages, in order. */
  function RowsOf(server: Server, k: nat): seq<RowOutcome> {
    if k == 0 then [] else RowsOf(server, k - 1) + (if server(k - 1).Document? then server(k - 1).rows else [])
  }

  /** What a listing delivers is the rows of its pages, in order, and then what the last of its states still gives. */
  lemma {:induction false} RowsArePages(p: Paging, server: Server, states: seq<PagingState>)
    requires Listing(p, server, states)
    ensures var n := |states| - 1;
            var rest := Rows(p, states[n], server, n);
            Rows(p, states[0], server, 0) == (RowsOf(server, n) + rest.0, rest.1)
  {
    var n := |states| - 1;
    if n == 0 {
      assert RowsOf(server, 0) + Rows(p, states[0], server, 0).0 == Rows(p, states[0], server, 0).0;
    } else {
      hide Listing, Rows, Continues;
      ListingFront(p, server, states);
      RowsArePages(p, server, states[..n]);
      RowsContinue(p, states[n - 1], server, n - 1, states[n]);
      Associative(RowsOf(server, n - 1), server(n - 1).rows, Rows(p, states[n], server, n).0);
    }
  }

  lemma Associative(a: seq<RowOutcome>, b: seq<RowOutcome>, c: seq<RowOutcome>)
    ensures a + (b + c) == a + b + c
  {
  }

  lemma ListingFront(p: Paging, server: Server, states: seq<PagingState>)
    requires Listing(p, server, states) && |states| > 1
    ensures var n := |states| - 1; Listing(p, server, states[..n]) && Continues(p, states[n - 1], server(n - 1), states[n])
  {
    hide Continues;
  }

  lemma RowsContinue(p: Paging, s: PagingState, server: Server, k: nat, s': PagingState)
    requires Continues(p, s, server(k), s')
    ensures server(k).Document?
              && Rows(p, s, server, k) == (server(k).rows + Rows(p, s', server, k + 1).0, Rows(p, s', server, k + 1).1)
  {
  }

  /** The last of its states gives the rows of one more page, or an error. */
  lemma RowsAtEnd(p: Paging, s: PagingState, server: Server, k: nat)
    ensures var page := Fetch(p, s, server(k));
            && (page.Fails? ==> Rows(p, s, server, k) == ([], Some(page.error)))
            && (page.Good? && page.value.last ==> Rows(p, s, server, k) == (server(k).rows, None))
  {
  }

  /** What one more row does: it is skipped, it ends the tuples, or it is the next tuple. */
  lemma CutStep(row: RowOutcome, more: seq<RowOutcome>, error: Option<Error>, skip: nat, limit: Option<nat>)
    ensures var all := Cut(Drop([row] + more, skip), error, limit);
            if limit == Some(0) then all == ([], None)
            else if skip > 0 then all == Cut(Drop(more, skip - 1), error, limit)
            else if row.Undecodable? then all == ([], Some(BadRow(row.error)))
            else all == After([row.tuple],
                              Cut(Drop(more, 0), error, OneLess(limit)))
  {
    assert ([row] + more)[1..] == more;
    if skip > 0 && skip <= |more| + 1 {
      assert ([row] + more)[skip..] == more[skip - 1..];
    }
  }

  lemma CutDone(rows: seq<RowOutcome>, error: Option<Error>)
    ensures Cut(rows, error, Some(0)) == ([], None)
  {
  }

  lemma CutEmpty(skip: nat, limit: Option<nat>)
    ensures Cut(Drop([], skip), None, limit) == ([], None)
  {
  }

  /** What is unread before a page is the page and what is unread after it. */
  lemma PageThenRest(p: Paging, s: PagingState, server: Server, k: nat, page: Page, rest: (seq<RowOutcome>, Option<Error>))
    requires Fetch(p, s, server(k)) == Good(page)
    requires rest == if page.last then ([], None) else Rows(p, page.state, server, k + 1)
    ensures Rows(p, s, server, k) == (page.rows + rest.0, rest.1)
    ensures PagesLeft(p, page.state, page.last) < PagesLeft(p, s, false)
    ensures PagesLeft(p, page.state, true) < PagesLeft(p, s, false)
  {
    if page.last {
      assert page.rows + [] == page.rows;
    } else {
      ContinuesFacts(p, s, server(k), page.state) by { assert Continues(p, s, server(k), page.state); }
    }
  }

  function After(tuples: seq<int>, rest: (seq<int>, Option<Error>)): (seq<int>, Option<Error>) {
    (tuples + rest.0, rest.1)
  }

  lemma AfterAfter(a: seq<int>, b: seq<int>, rest: (seq<int>, Option<Error>))
    ensures After(a, After(b, rest)) == After(a + b, rest)
  {
    assert a + (b + rest.0) == a + b + rest.0;
  }

  lemma OwedBefore(buffer: seq<int>, rows: seq<RowOutcome>, rest: (seq<RowOutcome>, Option<Error>),
                   all: (seq<RowOutcome>, Option<Error>), skip: nat, limit: Option<nat>)
    requires all == (rows + rest.0, rest.1)
    ensures var unread := Cut(Drop(all.0, skip), all.1, limit);
            (buffer + unread.0, unread.1) == After(buffer, Cut(Drop(rows + rest.0, skip), rest.1, limit))
  {
  }

  lemma OwedAfter(buffer: seq<int>, skip: nat, limit: Option<nat>, unread: (seq<int>, Option<Error>))
    ensures After(buffer, Cut(Drop([], skip), None, limit)) == (buffer + [], None)
    ensures After(buffer, unread) == (buffer + unread.0, unread.1)
    ensures buffer + [] == buffer
  {
    CutEmpty(skip, limit);
  }

  /** An upper bound on the pages a stream can still ask for. */
  function PagesLeft(p: Paging, s: PagingState, done: bool): nat {
    if done then 0 else 1 + (if p.Paged? && s.pages < p.maxPages then p.maxPages - s.pages else 0)
  }

  // ---------- The stream ----------

  datatype Answer = Batch(tuples: seq<int>) | EndOfStream | Failed(error: Error)

  class ResultStream {
    const paging: Paging
    const server: Server
    const batchSize: nat
    var buffer: seq<int>
    var pagination: PagingState
    var requests: nat
    var skip: nat
    var remaining: Option<nat>
    var done: bool
    var closed: bool
    var terminalErr: Option<Error>

    ghost predicate Valid()
      reads this
    {
      batchSize > 0 && (remaining == Some(0) ==> done) && (terminalErr.Some? ==> done)
    }

    /** The tuples still to be delivered, and the error after them. */
    ghost function Pending(): (seq<int>, Option<Error>)
      reads this
    {
      if closed then ([], None)
      else
        var rest := Unread();
        (buffer + rest.0, rest.1)
    }

    /** What is not in the buffer yet. */
    ghost function Unread(): (seq<int>, Option<Error>)
      reads this
    {
      if done then ([], terminalErr)
      else
        var rows := Rows(paging, pagination, server, requests);
        Cut(Drop(rows.0, skip), rows.1, remaining)
    }

    constructor (paging: Paging, server: Server, batchSize: nat, startPage: nat, limit: Option<nat>, offset: nat)
      requires batchSize > 0
      ensures Valid() && !closed
      ensures var byServer := paging.Paged? && paging.mode.OffsetMode?;
              var rows := Rows(paging, Start(paging, startPage, offset), server, 0);
              Pending() == Cut(Drop(rows.0, if byServer then 0 else offset), rows.1, limit)
    {
      this.paging, this.server, this.batchSize := paging, server, batchSize;
      var byServer := paging.Paged? && paging.mode.OffsetMode?;
      pagination := PagingState(0, if byServer then offset else 0, startPage, "", {});
      skip := if byServer then 0 else offset;
      remaining := limit;
      done := limit == Some(0);
      buffer, requests, closed, terminalErr := [], 0, false, None;
      new;
      assert [] + Unread().0 == Unread().0;
    }

    /**
      Delivers the next tuples: never an empty batch, full unless the tuples run out; after the last one, the
      error or the end, again and again.
     */
    method Next() returns (answer: Answer)
      requires Valid()
      modifies this
      ensures Valid() && closed == old(closed)
      ensures old(Pending()).0 == [] ==> Pending() == old(Pending())
      ensures old(Pending()).0 == [] ==>
                answer == match old(Pending()).1 case None => EndOfStream case Some(error) => Failed(error)
      ensures old(Pending()).0 != [] ==>
                answer.Batch? && old(Pending()) == (answer.tuples + Pending().0, Pending().1)
      ensures old(Pending()).0 != [] ==>
                |answer.tuples| == if |old(Pending()).0| < batchSize then |old(Pending()).0| else batchSize
    {
      if closed {
        return EndOfStream;
      }
      Fill();
      if |buffer| == 0 {
        return match terminalErr case None => EndOfStream case Some(error) => Failed(error);
      }
      var batch := TakeBatch();
      return Answer.Batch(batch);
    }

    /** Fetches pages until the buffer holds a batch or there is nothing more to fetch. */
    method Fill()
      requires Valid() && !closed
      modifies this
      ensures Valid() && !closed && Pending() == old(Pending())
      ensures |buffer| >= batchSize || done
    {
      hide Rows, Cut, Fetch, Drop, Unread, PagesLeft;
      while |buffer| < batchSize && !done
        invariant Valid() && !closed && Pending() == old(Pending())
        decreases PagesLeft(paging, pagination, done)
      {
        var page := Fetch(paging, pagination, server(requests));
        if page.Fails? {
          FailPage(page.error);
          break;
        }
        TakePage(page.value);
      }
    }

    method TakeBatch() returns (batch: seq<int>)
      requires Valid() && !closed && buffer != []
      modifies `buffer
      ensures Valid() && batch != [] && old(Pending()) == (batch + Pending().0, Pending().1)
      ensures |batch| == if |old(buffer)| < batchSize then |old(buffer)| else batchSize
    {
      hide Rows, Cut, Fetch, Drop;
      var end := if batchSize > |buffer| then |buffer| else batchSize;
      ghost var unread, all := Unread(), buffer;
      batch := buffer[..end];
      buffer := buffer[end..];
      assert Unread() == unread;
      assert all + unread.0 == all[..end] + (all[end..] + unread.0);
    }

    /** Skips the row, buffers it, or ends the stream with it; `more` and `error` are what follows it. */
    method TakeRow(row: RowOutcome, ghost more: seq<RowOutcome>, ghost error: Option<Error>)
      requires !done && terminalErr.None?
      modifies `buffer, `skip, `remaining, `done, `terminalErr
      ensures done ==> After(old(buffer), Cut(Drop([row] + more, old(skip)), error, old(remaining))) == (buffer, terminalErr)
      ensures !done ==> terminalErr.None? && (old(remaining) != Some(0) ==> remaining != Some(0))
      ensures !done ==> After(old(buffer), Cut(Drop([row] + more, old(skip)), error, old(remaining))) ==
                        After(buffer, Cut(Drop(more, skip), error, remaining))
    {
      CutStep(row, more, error, skip, remaining);
      CutDone(Drop(more, if skip > 0 then skip - 1 else 0), error);
      assert buffer + [] == buffer;
      hide Cut;
      if skip > 0 {
        skip := skip - 1;
        return;
      }
      if remaining == Some(0) {
        done := true;
        return;
      }
      if row.Undecodable? {
        done, terminalErr := true, Some(BadRow(row.error));
        assert buffer + [] == buffer;
        return;
      }
      AfterAfter(buffer, [row.tuple], Cut(Drop(more, 0), error, OneLess(remaining)));
      buffer := buffer + [row.tuple];
      if remaining.Some? {
        remaining := Some(remaining.value - 1);
        if remaining == Some(0) {
          done := true;
          CutDone(Drop(more, 0), error);
          assert buffer + [] == buffer;
        }
      }
    }

    /** Takes rows until the stream ends or they are used up; `more` and `error` are what follows them. */
    method TakeRows(rows: seq<RowOutcome>, ghost more: seq<RowOutcome>, ghost error: Option<Error>)
      requires !done && terminalErr.None? && remaining != Some(0)
      modifies `buffer, `skip, `remaining, `done, `terminalErr
      ensures done ==> After(old(buffer), Cut(Drop(rows + more, old(skip)), error, old(remaining))) == (buffer, terminalErr)
      ensures !done ==> terminalErr.None? && remaining != Some(0)
      ensures !done ==> After(old(buffer), Cut(Drop(rows + more, old(skip)), error, old(remaining))) ==
                        After(buffer, Cut(Drop(more, skip), error, remaining))
    {
      hide Cut, Drop, After;
      ghost var pending := After(buffer, Cut(Drop(rows + more, skip), error, remaining));
      assert rows[0..] == rows;
      var i := 0;
      while i < |rows| && !done
        invariant 0 <= i <= |rows|
        invariant done ==> pending == (buffer, terminalErr)
        invariant !done ==> terminalErr.None? && remaining != Some(0)
        invariant !done ==> pending == After(buffer, Cut(Drop(rows[i..] + more, skip), error, remaining))
      {
        assert rows[i..] + more == [rows[i]] + (rows[i + 1..] + more);
        TakeRow(rows[i], rows[i + 1..] + more, error);
        i := i + 1;
      }
      if !done {
        assert rows[i..] + more == more;
      }
    }

    /** Adds a fetched page's rows to the buffer, as far as offset, limit and decoding allow. */
    method TakePage(page: Page)
      requires Valid() && !closed && !done && Fetch(paging, pagination, server(requests)) == Good(page)
      modifies this
      ensures Valid() && !closed && Pending() == old(Pending())
      ensures PagesLeft(paging, pagination, done) < old(PagesLeft(paging, pagination, done))
    {
      ghost var rest := if page.last then ([], None) else Rows(paging, page.state, server, requests + 1);
      ghost var pending := Pending();
      PageThenRest(paging, pagination, server, requests, page, rest);
      OwedBefore(buffer, page.rows, rest, Rows(paging, pagination, server, requests), skip, remaining);
      assert pending == After(buffer, Cut(Drop(page.rows + rest.0, skip), rest.1, remaining));
      pagination, requests := page.state, requests + 1;
      hide Cut, Rows, Fetch, Drop, PagesLeft, After;
      TakeRows(page.rows, rest.0, rest.1);
      OwedAfter(buffer, skip, remaining, Cut(Drop(rest.0, skip), rest.1, remaining));
      done := done || page.last;
    }

    /** A page that cannot be fetched ends the stream after what is buffered. */
    method FailPage(error: Error)
      requires Valid() && !closed && !done && Fetch(paging, pagination, server(requests)) == Fails(error)
      modifies `done, `terminalErr
      ensures Valid() && done && terminalErr == Some(error) && Pending() == old(Pending()) == (buffer, Some(error))
    {
      ghost var rows := Rows(paging, pagination, server, requests);
      assert rows == ([], Some(error));
      assert Drop([], skip) == [] && buffer + [] == buffer;
      done, terminalErr := true, Some(error);
    }

    method Close() returns (error: Option<Error>)
      modifies this`closed, this`buffer
      ensures closed && Pending() == ([], None) && error == terminalErr
    {
      closed := true;
      buffer := [];
      return terminalErr;
    }
  }
}
