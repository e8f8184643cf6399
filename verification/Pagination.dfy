/**
 Three paginators over one abstract walk: ask for a page, follow its continuation, stop at the page
 that has none.
 */
module Pagination {
  import opened Options

  // ---- the abstract walk ------------------------------------------------------------------

  /** What a reply means: unusable, the last page, or a page and the position of the next one. */
  datatype Page<P, Row> = Broken | Last(rows: seq<Row>) | More(rows: seq<Row>, next: P)

  /** The answer to the k-th request, which asks for a position. Answers may change over time. */
  type Server<!P, !Row> = (nat, P) -> Page<P, Row>

  /** The position of the k-th request, or None when the walk is over before it. */
  function At<P, Row>(server: Server<P, Row>, start: P, k: nat): Option<P> {
    if k == 0 then Some(start)
    else
      match At(server, start, k - 1)
      case None => None
      case Some(p) => (match server(k - 1, p) case More(_, next) => Some(next) case _ => None)
  }

  function RowsOf<P, Row>(page: Page<P, Row>): seq<Row> {
    if page.Broken? then [] else page.rows
  }

  /** The rows of the first k pages, in order. */
  function Rows<P, Row>(server: Server<P, Row>, start: P, k: nat): seq<Row> {
    if k == 0 then []
    else
      match At(server, start, k - 1)
      case None => Rows(server, start, k - 1)
      case Some(p) => Rows(server, start, k - 1) + RowsOf(server(k - 1, p))
  }

  /** The n-th request gets the last page. */
  predicate EndsAt<P, Row>(server: Server<P, Row>, start: P, n: nat) {
    At(server, start, n).Some? && server(n, At(server, start, n).value).Last?
  }

  /** The positions of the first k requests. */
  function Seen<P, Row>(server: Server<P, Row>, start: P, k: nat): set<P> {
    if k == 0 then {}
    else
      match At(server, start, k - 1)
      case None => Seen(server, start, k - 1)
      case Some(p) => Seen(server, start, k - 1) + {p}
  }

  /** None of the requests 0 to n asks for a position asked for before. */
  predicate NoRepeat<P(==), Row>(server: Server<P, Row>, start: P, n: nat) {
    && (n == 0 || NoRepeat(server, start, n - 1))
    && (At(server, start, n).Some? ==> At(server, start, n).value !in Seen(server, start, n))
  }

  /** One of the first k requests asks for p. */
  ghost predicate Visited<P, Row>(server: Server<P, Row>, start: P, k: nat, p: P) {
    exists i: nat :: i < k && At(server, start, i) == Some(p)
  }

  lemma {:induction false} SeenIsVisited<P, Row>(server: Server<P, Row>, start: P, k: nat, p: P)
    ensures p in Seen(server, start, k) <==> Visited(server, start, k, p)
  {
    if k > 0 {
      var last: nat := k - 1;
      SeenIsVisited(server, start, last, p);
      if At(server, start, last) == Some(p) {
        assert last < k && p in Seen(server, start, k) && Visited(server, start, k, p);
      } else if p in Seen(server, start, k) {
        var i: nat :| i < last && At(server, start, i) == Some(p);
        assert i < k;
      } else if Visited(server, start, k, p) {
        var i: nat :| i < k && At(server, start, i) == Some(p);
        assert i < last && Visited(server, start, last, p);
      }
    }
  }

  lemma {:induction false} NoRepeatMeansDistinct<P, Row>(server: Server<P, Row>, start: P, i: nat, j: nat, n: nat)
    requires NoRepeat(server, start, n) && i < j <= n && At(server, start, j).Some?
    ensures At(server, start, i) != At(server, start, j)
    decreases n
  {
    if j < n {
      NoRepeatMeansDistinct(server, start, i, j, n - 1);
    } else {
      SeenIsVisited(server, start, n, At(server, start, j).value);
      assert !Visited(server, start, n, At(server, start, j).value);
    }
  }

  /** Everything was seen: the last page came within the budget and no page was asked for twice. */
  ghost predicate Exhausts<P, Row>(server: Server<P, Row>, start: P, budget: nat, n: nat) {
    n < budget && EndsAt(server, start, n) && NoRepeat(server, start, n)
  }

  /** `rows` are the rows of all pages from the first to the last, each asked for once. */
  ghost predicate IsWhole<P, Row>(server: Server<P, Row>, start: P, budget: nat, rows: seq<Row>) {
    exists n: nat :: Exhausts(server, start, budget, n) && rows == Rows(server, start, n + 1)
  }

  ghost predicate HasWhole<P, Row>(server: Server<P, Row>, start: P, budget: nat) {
    exists n: nat :: Exhausts(server, start, budget, n)
  }

  lemma {:induction false} WalkIsUnbroken<P, Row>(server: Server<P, Row>, start: P, k: nat, n: nat)
    requires k <= n && At(server, start, n).Some?
    ensures At(server, start, k).Some?
    ensures k < n ==> server(k, At(server, start, k).value).More?
    decreases n
  {
    if k < n {
      WalkIsUnbroken(server, start, k, n - 1);
    }
  }

  /** There is one last page: two accounts of a whole walk are the same account. */
  lemma EndIsUnique<P, Row>(server: Server<P, Row>, start: P, m: nat, n: nat)
    requires EndsAt(server, start, m) && EndsAt(server, start, n)
    ensures m == n
  {
    if m < n {
      WalkIsUnbroken(server, start, m, n);
    } else if n < m {
      WalkIsUnbroken(server, start, n, m);
    }
  }

  lemma WholeIsUnique<P, Row>(server: Server<P, Row>, start: P, budget: nat, one: seq<Row>, other: seq<Row>)
    requires IsWhole(server, start, budget, one) && IsWhole(server, start, budget, other)
    ensures one == other
  {
    var m: nat :| Exhausts(server, start, budget, m) && one == Rows(server, start, m + 1);
    var n: nat :| Exhausts(server, start, budget, n) && other == Rows(server, start, n + 1);
    EndIsUnique(server, start, m, n);
  }

  // ---- when the walk cannot end ------------------------------------------------------------

  lemma BrokenNeverEnds<P, Row>(server: Server<P, Row>, start: P, k: nat, budget: nat, n: nat)
    requires At(server, start, k).Some? && server(k, At(server, start, k).value).Broken?
    ensures !Exhausts(server, start, budget, n)
  {
    if EndsAt(server, start, n) {
      if k < n {
        WalkIsUnbroken(server, start, k, n);
      } else if n < k {
        WalkIsUnbroken(server, start, n, k);
      }
    }
  }

  lemma RepeatNeverExhausts<P, Row>(server: Server<P, Row>, start: P, i: nat, k: nat, budget: nat, n: nat)
    requires i < k && At(server, start, k).Some? && At(server, start, i) == At(server, start, k)
    ensures !Exhausts(server, start, budget, n)
  {
    if Exhausts(server, start, budget, n) {
      if n < k {
        WalkIsUnbroken(server, start, n, k);
      } else {
        WalkIsUnbroken(server, start, k, n);
        NoRepeatMeansDistinct(server, start, i, k, n);
      }
    }
  }

  lemma BudgetSpentNeverExhausts<P, Row>(server: Server<P, Row>, start: P, k: nat, budget: nat, n: nat)
    requires budget <= k && At(server, start, k).Some?
    ensures !Exhausts(server, start, budget, n)
  {
    if n < budget && EndsAt(server, start, n) {
      WalkIsUnbroken(server, start, n, k);
    }
  }

  // ---- a server whose pages hold still -----------------------------------------------------

  ghost predicate Stable<P(!new), Row>(server: Server<P, Row>) {
    forall i: nat, j: nat, p | true :: server(i, p) == server(j, p)
  }

  lemma {:induction false} RepeatShifts<P(!new), Row>(server: Server<P, Row>, start: P, i: nat, j: nat, d: nat)
    requires Stable(server) && At(server, start, i) == At(server, start, j)
    ensures At(server, start, i + d) == At(server, start, j + d)
  {
    if d > 0 {
      RepeatShifts(server, start, i, j, d - 1);
    }
  }

  /** On a stable server a repeated position means that there is no last page at all, so refusing it
      gives up nothing. */
  lemma {:induction false} RepeatMeansForever<P(!new), Row>(server: Server<P, Row>, start: P, i: nat, j: nat, n: nat)
    requires Stable(server) && i < j && At(server, start, j).Some? && At(server, start, i) == At(server, start, j)
    ensures At(server, start, n).Some? && !EndsAt(server, start, n)
    decreases n
  {
    if n < j {
      WalkIsUnbroken(server, start, n, j);
    } else {
      RepeatMeansForever(server, start, i, j, n - (j - i));
      RepeatShifts(server, start, i, j, n - j);
      assert i + (n - j) == n - (j - i) && j + (n - j) == n;
      assert At(server, start, n) == At(server, start, n - (j - i));
    }
  }

  /** On a stable server the whole collection is obtained exactly when its last page lies within the budget. */
  lemma StableServerIsExhaustedExactlyWhenItEnds<P(!new), Row>(server: Server<P, Row>, start: P, budget: nat, n: nat)
    requires Stable(server)
    ensures Exhausts(server, start, budget, n) <==> n < budget && EndsAt(server, start, n)
  {
    if EndsAt(server, start, n) {
      EndingNeverRepeats(server, start, n, n);
    }
  }

  lemma {:induction false} EndingNeverRepeats<P(!new), Row>(server: Server<P, Row>, start: P, k: nat, n: nat)
    requires Stable(server) && EndsAt(server, start, n) && k <= n
    ensures NoRepeat(server, start, k)
  {
    if k > 0 {
      EndingNeverRepeats(server, start, k - 1, n);
    }
    WalkIsUnbroken(server, start, k, n);
    var p := At(server, start, k).value;
    if p in Seen(server, start, k) {
      SeenIsVisited(server, start, k, p);
      var i: nat :| i < k && At(server, start, i) == Some(p);
      RepeatMeansForever(server, start, i, k, n);
    }
  }

  // ---- a collection cut into pages -----------------------------------------------------------

  function Join<Row>(pages: seq<seq<Row>>): seq<Row> {
    if pages == [] then [] else Join(pages[..|pages| - 1]) + pages[|pages| - 1]
  }

  /** The i-th page, linked to the next. */
  function PageAt<P, Row>(places: seq<P>, pages: seq<seq<Row>>, i: nat): Page<P, Row>
    requires i < |places| == |pages|
  {
    if i == |pages| - 1 then Last(pages[i]) else More(pages[i], places[i + 1])
  }

  /** The server holds the pages under distinct positions and links each to the next. */
  ghost predicate Holds<P, Row>(server: Server<P, Row>, places: seq<P>, pages: seq<seq<Row>>) {
    && |places| == |pages| > 0
    && (forall i, j | 0 <= i < j < |places| :: places[i] != places[j])
    && forall k: nat, i: nat | i < |pages| :: server(k, places[i]) == PageAt(places, pages, i)
  }

  lemma {:induction false} WalkFollowsThePlaces<P, Row>(
    server: Server<P, Row>, places: seq<P>, pages: seq<seq<Row>>, k: nat)
    requires Holds(server, places, pages) && k < |pages|
    ensures At(server, places[0], k) == Some(places[k])
  {
    if k > 0 {
      WalkFollowsThePlaces(server, places, pages, k - 1);
    }
  }

  lemma {:induction false} WalkCollectsThePages<P, Row>(
    server: Server<P, Row>, places: seq<P>, pages: seq<seq<Row>>, k: nat)
    requires Holds(server, places, pages) && k <= |pages|
    ensures Rows(server, places[0], k) == Join(pages[..k])
  {
    if k > 0 {
      WalkCollectsThePages(server, places, pages, k - 1);
      WalkFollowsThePlaces(server, places, pages, k - 1);
      assert pages[..k][..k - 1] == pages[..k - 1];
    }
  }

  lemma {:induction false} SeenAreThePlaces<P, Row>(
    server: Server<P, Row>, places: seq<P>, pages: seq<seq<Row>>, k: nat, p: P)
    requires Holds(server, places, pages) && k <= |pages|
    ensures p in Seen(server, places[0], k) <==> p in places[..k]
  {
    if k > 0 {
      SeenAreThePlaces(server, places, pages, k - 1, p);
      WalkFollowsThePlaces(server, places, pages, k - 1);
      assert places[..k] == places[..k - 1] + [places[k - 1]];
    }
  }

  lemma {:induction false} PlacesNeverRepeat<P, Row>(
    server: Server<P, Row>, places: seq<P>, pages: seq<seq<Row>>, k: nat)
    requires Holds(server, places, pages) && k < |pages|
    ensures NoRepeat(server, places[0], k)
  {
    if k > 0 {
      PlacesNeverRepeat(server, places, pages, k - 1);
    }
    WalkFollowsThePlaces(server, places, pages, k);
    SeenAreThePlaces(server, places, pages, k, places[k]);
  }

  lemma OneEndDecides<P, Row>(server: Server<P, Row>, start: P, budget: nat, n: nat, rows: seq<Row>)
    requires EndsAt(server, start, n) && NoRepeat(server, start, n)
    ensures HasWhole(server, start, budget) <==> n < budget
    ensures IsWhole(server, start, budget, rows) <==> n < budget && rows == Rows(server, start, n + 1)
  {
    forall m: nat | Exhausts(server, start, budget, m) ensures m == n {
      EndIsUnique(server, start, m, n);
    }
    if n < budget {
      assert Exhausts(server, start, budget, n);
    }
  }

  lemma WalkEndsAtTheLastPage<P, Row>(server: Server<P, Row>, places: seq<P>, pages: seq<seq<Row>>)
    requires Holds(server, places, pages)
    ensures EndsAt(server, places[0], |pages| - 1)
  {
    var last: nat := |pages| - 1;
    WalkFollowsThePlaces(server, places, pages, last);
    assert server(last, places[last]) == PageAt(places, pages, last);
  }

  lemma WalkGathersAllPages<P, Row>(server: Server<P, Row>, places: seq<P>, pages: seq<seq<Row>>)
    requires Holds(server, places, pages)
    ensures Rows(server, places[0], |pages|) == Join(pages)
  {
    WalkCollectsThePages(server, places, pages, |pages|);
    assert pages[..|pages|] == pages;
  }

  /** The whole collection, given where the walk ends and what it gathers. */
  lemma EndComesBackWhole<P, Row>(
    server: Server<P, Row>, start: P, budget: nat, count: nat, all: seq<Row>, rows: seq<Row>)
    requires count > 0 && EndsAt(server, start, count - 1) && NoRepeat(server, start, count - 1)
    requires Rows(server, start, count) == all
    ensures HasWhole(server, start, budget) <==> count <= budget
    ensures IsWhole(server, start, budget, rows) <==> count <= budget && rows == all
  {
    OneEndDecides(server, start, budget, count - 1, rows);
  }

  /** A collection cut into pages comes back whole and in order, exactly when the budget has room for its pages. */
  lemma PagesComeBackWhole<P, Row>(
    server: Server<P, Row>, places: seq<P>, pages: seq<seq<Row>>, budget: nat, rows: seq<Row>)
    requires Holds(server, places, pages)
    ensures HasWhole(server, places[0], budget) <==> |pages| <= budget
    ensures IsWhole(server, places[0], budget, rows) <==> |pages| <= budget && rows == Join(pages)
  {
    WalkEndsAtTheLastPage(server, places, pages);
    WalkGathersAllPages(server, places, pages);
    PlacesNeverRepeat(server, places, pages, |pages| - 1);
    EndComesBackWhole(server, places[0], budget, |pages|, Join(pages), rows);
  }

  // ---- the live preflight listing -------------------------------------------------------------

  datatype Token = NoToken | BadToken | Token(text: string)

  /** A reply: its rows (None when it holds no list; an item is None when it is no object), its three
      possible continuation links ("" when absent), its continuation token and its other more-to-come marks. */
  datatype ListReply<+Row> = ListReply(value: Option<seq<Option<Row>>>, links: seq<string>, token: Token, more: bool)

  /** The URL operations a listing relies on, for one original URL. */
  datatype Urls = Urls(addToken: string -> string, inScope: string -> bool, tokenOf: string -> Option<string>)

  function Objects<Row>(items: seq<Option<Row>>): Option<seq<Row>> {
    if items == [] then Some([])
    else
      match (Objects(items[..|items| - 1]), items[|items| - 1])
      case (Some(rows), Some(row)) => Some(rows + [row])
      case _ => None
  }

  function Present(links: seq<string>): seq<string> {
    if links == [] then []
    else if links[0] == "" then Present(links[1..])
    else [links[0]] + Present(links[1..])
  }

  function Continuation(links: seq<string>, token: Token, urls: Urls): Option<string> {
    if links != [] then Some(links[0]) else if token.Token? then Some(urls.addToken(token.text)) else None
  }

  function ListPage<Row>(reply: ListReply<Row>, urls: Urls): Page<string, Row> {
    if reply.value.None? || Objects(reply.value.value).None? then Broken
    else
      var rows, links := Objects(reply.value.value).value, Present(reply.links);
      if (exists i | 0 <= i < |links| :: links[i] != links[0]) || reply.token.BadToken? then Broken
      else
        match Continuation(links, reply.token, urls)
        case None => if reply.more then Broken else Last(rows)
        case Some(next) =>
          if !urls.inScope(next) then Broken
          else if reply.token.Token? && urls.tokenOf(next).Some? && urls.tokenOf(next).value != reply.token.text
          then Broken
          else More(rows, next)
  }

  function ListServer<Row>(serve: (nat, string) -> ListReply<Row>, urls: Urls): Server<string, Row> {
    (k: nat, url) => ListPage(serve(k, url), urls)
  }

  /** A list of objects only, and its rows in order. */
  ghost predicate AreRows<Row>(value: Option<seq<Option<Row>>>, rows: seq<Row>) {
    value.Some? && |rows| == |value.value| && forall i | 0 <= i < |rows| :: value.value[i] == Some(rows[i])
  }

  ghost predicate OnlyObjects<Row>(value: Option<seq<Option<Row>>>) {
    value.Some? && forall i | 0 <= i < |value.value| :: value.value[i].Some?
  }

  lemma {:induction false} ObjectsAreRows<Row>(items: seq<Option<Row>>)
    ensures Objects(items).Some? <==> OnlyObjects(Some(items))
    ensures Objects(items).Some? ==> AreRows(Some(items), Objects(items).value)
  {
    if items != [] {
      var init := items[..|items| - 1];
      ObjectsAreRows(init);
      assert forall i | 0 <= i < |init| :: init[i] == items[i];
    }
  }

  lemma {:induction false} PresentAreTheLinks(links: seq<string>)
    ensures forall x :: x in Present(links) <==> x in links && x != ""
  {
    if links != [] {
      PresentAreTheLinks(links[1..]);
      assert links == [links[0]] + links[1..];
    }
  }

  /** Where a listing goes on: its one link, whatever else it says, or else the token added to the original URL. */
  ghost predicate GoesOnAt<Row>(reply: ListReply<Row>, urls: Urls, next: string) {
    if forall x | x in reply.links :: x == "" then reply.token.Token? && next == urls.addToken(reply.token.text)
    else next != "" && next in reply.links && forall x | x in reply.links :: x == "" || x == next
  }

  /** What a listing makes of a reply: the last page without any sign of more; a page and its continuation if that is
      unambiguous, well-formed, in scope and agrees with the token; and nothing else. */
  lemma ListReadsReplies<Row>(serve: (nat, string) -> ListReply<Row>, urls: Urls, k: nat, url: string)
    ensures var reply, page := serve(k, url), ListServer(serve, urls)(k, url);
      && (!page.Broken? ==> AreRows(reply.value, page.rows))
      && (page.Last? <==>
            && OnlyObjects(reply.value) && (forall x | x in reply.links :: x == "")
            && reply.token == NoToken && !reply.more)
      && (page.More? ==> GoesOnAt(reply, urls, page.next))
      && (page.More? <==>
            && OnlyObjects(reply.value) && reply.token != BadToken
            && exists next | GoesOnAt(reply, urls, next) ::
                 && urls.inScope(next)
                 && (reply.token.Token? && urls.tokenOf(next).Some? ==>
                       urls.tokenOf(next).value == reply.token.text))
  {
    var reply := serve(k, url);
    if reply.value.Some? {
      ObjectsAreRows(reply.value.value);
    }
    ListContinues(reply, urls);
  }

  lemma ListContinues<Row>(reply: ListReply<Row>, urls: Urls)
    ensures var links := Present(reply.links);
      var clash := exists i | 0 <= i < |links| :: links[i] != links[0];
      && (links == [] <==> forall x | x in reply.links :: x == "")
      && (forall next ::
            GoesOnAt(reply, urls, next) <==> !clash && Continuation(links, reply.token, urls) == Some(next))
  {
    var links := Present(reply.links);
    PresentAreTheLinks(reply.links);
    if links != [] {
      assert links[0] in links;
      forall next ensures GoesOnAt(reply, urls, next) <==>
                            !(exists i | 0 <= i < |links| :: links[i] != links[0]) && links[0] == next
      {
        if GoesOnAt(reply, urls, next) {
          forall i | 0 <= i < |links| ensures links[i] == next {
            assert links[i] in links;
          }
        }
      }
    } else {
      forall x | x in reply.links ensures x == "" {
        assert x !in links;
      }
    }
  }

  // The three ways a walk fails leave no whole collection behind.

  lemma BrokenIsNotWhole<P, Row>(server: Server<P, Row>, start: P, k: nat, budget: nat)
    requires At(server, start, k).Some? && server(k, At(server, start, k).value).Broken?
    ensures !HasWhole(server, start, budget)
  {
    forall n: nat ensures !Exhausts(server, start, budget, n) {
      BrokenNeverEnds(server, start, k, budget, n);
    }
  }

  lemma RepeatIsNotWhole<P, Row>(server: Server<P, Row>, start: P, k: nat, budget: nat)
    requires At(server, start, k).Some? && At(server, start, k).value in Seen(server, start, k)
    ensures !HasWhole(server, start, budget)
  {
    SeenIsVisited(server, start, k, At(server, start, k).value);
    var i: nat :| i < k && At(server, start, i) == At(server, start, k);
    forall n: nat ensures !Exhausts(server, start, budget, n) {
      RepeatNeverExhausts(server, start, i, k, budget, n);
    }
  }

  lemma BudgetSpentIsNotWhole<P, Row>(server: Server<P, Row>, start: P, k: nat, budget: nat)
    requires budget <= k && At(server, start, k).Some?
    ensures !HasWhole(server, start, budget)
  {
    forall n: nat ensures !Exhausts(server, start, budget, n) {
      BudgetSpentNeverExhausts(server, start, k, budget, n);
    }
  }

  /** A walk is about to make its k-th request, for position p, with everything before it collected. */
  ghost predicate Walked<P, Row>(server: Server<P, Row>, start: P, k: nat, p: P, rows: seq<Row>, seen: set<P>) {
    && At(server, start, k) == Some(p) && rows == Rows(server, start, k) && seen == Seen(server, start, k)
    && (k == 0 || NoRepeat(server, start, k - 1))
  }

  lemma WalkOn<P, Row>(server: Server<P, Row>, start: P, k: nat, p: P, rows: seq<Row>, seen: set<P>)
    requires Walked(server, start, k, p, rows, seen) && p !in seen && server(k, p).More?
    ensures Walked(server, start, k + 1, server(k, p).next, rows + server(k, p).rows, seen + {p})
  {}

  lemma WalkIsWhole<P, Row>(server: Server<P, Row>, start: P, k: nat, p: P, rows: seq<Row>, seen: set<P>, budget: nat)
    requires Walked(server, start, k, p, rows, seen) && p !in seen && server(k, p).Last? && k < budget
    ensures HasWhole(server, start, budget)
    ensures forall all :: IsWhole(server, start, budget, all) <==> all == rows + server(k, p).rows
  {
    var whole := rows + server(k, p).rows;
    assert Exhausts(server, start, budget, k) && whole == Rows(server, start, k + 1);
    forall all | IsWhole(server, start, budget, all) ensures all == whole {
      WholeIsUnique(server, start, budget, whole, all);
    }
  }

  /** The rows are those of the whole collection, and an error means that there is no whole to return. */
  ghost predicate Faithful<P, Row>(server: Server<P, Row>, start: P, budget: nat, r: Result<seq<Row>>) {
    match r
    case Ok(rows) => IsWhole(server, start, budget, rows)
    case Err(_) => !HasWhole(server, start, budget)
  }

  method List<Row>(url: string, serve: (nat, string) -> ListReply<Row>, urls: Urls, maxPages: nat)
    returns (r: Result<seq<Row>>)
    ensures Faithful(ListServer(serve, urls), url, maxPages, r)
  {
    ghost var server := ListServer(serve, urls);
    var seen: set<string>, rows: seq<Row>, current := {}, [], url;
    for k := 0 to maxPages
      invariant Walked(server, url, k, current, rows, seen)
    {
      if current in seen {
        RepeatIsNotWhole(server, url, k, maxPages);
        return Err("repeated");
      }
      var page := ListPage(serve(k, current), urls);
      assert page == server(k, current);
      match page {
        case Broken =>
          BrokenIsNotWhole(server, url, k, maxPages);
          return Err("malformed");
        case Last(more) =>
          WalkIsWhole(server, url, k, current, rows, seen, maxPages);
          return Ok(rows + more);
        case More(more, next) =>
          WalkOn(server, url, k, current, rows, seen);
          seen, rows, current := seen + {current}, rows + more, next;
      }
    }
    BudgetSpentIsNotWhole(server, url, maxPages, maxPages);
    return Err("budget");
  }

  /** A listing never follows a continuation out of its original scope. */
  lemma ListStaysInScope<Row>(url: string, serve: (nat, string) -> ListReply<Row>, urls: Urls, k: nat)
    requires k > 0 && At(ListServer(serve, urls), url, k).Some?
    ensures urls.inScope(At(ListServer(serve, urls), url, k).value)
  {
    var server := ListServer(serve, urls);
    var before := At(server, url, k - 1).value;
    assert server(k - 1, before) == ListPage(serve(k - 1, before), urls);
  }

  // ---- the directory collection ---------------------------------------------------------------

  const COLLECTION_PAGES := 100

  /** A reply: its rows, and its next link ("" when absent, None when it is no string). */
  datatype GraphReply<+Row> = GraphReply(value: Option<seq<Option<Row>>>, nextLink: Option<string>)

  function CollectionPage<Row>(reply: GraphReply<Row>): Page<string, Row> {
    if reply.value.None? || Objects(reply.value.value).None? || reply.nextLink.None? then Broken
    else if reply.nextLink.value == "" then Last(Objects(reply.value.value).value)
    else More(Objects(reply.value.value).value, reply.nextLink.value)
  }

  function CollectionServer<Row>(serve: (nat, string) -> GraphReply<Row>): Server<string, Row> {
    (k: nat, path) => CollectionPage(serve(k, path))
  }

  /** Either the walk goes on from `path`, or the whole collection was gathered. */
  ghost predicate Collecting<Row>(
    server: Server<string, Row>, resource: string, asked: nat, path: string, rows: seq<Row>, seen: set<string>)
  {
    if resource == "" then path == "" && rows == []
    else if path == "" then IsWhole(server, resource, COLLECTION_PAGES, rows)
    else Walked(server, resource, asked, path, rows, seen)
  }

  /** What the directory collection makes of a reply. */
  lemma CollectionReadsReplies<Row>(serve: (nat, string) -> GraphReply<Row>, k: nat, path: string)
    ensures var reply, page := serve(k, path), CollectionServer(serve)(k, path);
      && (!page.Broken? ==> AreRows(reply.value, page.rows))
      && (page.Last? <==> OnlyObjects(reply.value) && reply.nextLink == Some(""))
      && (page.More? <==> OnlyObjects(reply.value) && reply.nextLink.Some? && reply.nextLink.value != "")
      && (page.More? ==> reply.nextLink == Some(page.next))
  {
    var reply := serve(k, path);
    if reply.value.Some? {
      ObjectsAreRows(reply.value.value);
    }
  }

  method Collection<Row>(resource: string, serve: (nat, string) -> GraphReply<Row>) returns (r: Result<seq<Row>>)
    ensures resource == "" ==> r == Ok([])
    ensures resource != "" ==> Faithful(CollectionServer(serve), resource, COLLECTION_PAGES, r)
  {
    ghost var server := CollectionServer(serve);
    var seen: set<string>, rows: seq<Row>, path := {}, [], resource;
    ghost var asked: nat := 0;
    while path != ""
      invariant asked == |seen| <= COLLECTION_PAGES
      invariant Collecting(server, resource, asked, path, rows, seen)
      decreases COLLECTION_PAGES - asked
    {
      if path in seen || |seen| >= COLLECTION_PAGES {
        if path in seen {
          RepeatIsNotWhole(server, resource, asked, COLLECTION_PAGES);
        } else {
          BudgetSpentIsNotWhole(server, resource, asked, COLLECTION_PAGES);
        }
        return Err("unbounded");
      }
      var page := CollectionPage(serve(|seen|, path));
      assert page == server(asked, path);
      match page {
        case Broken =>
          BrokenIsNotWhole(server, resource, asked, COLLECTION_PAGES);
          return Err("malformed");
        case Last(more) =>
          WalkIsWhole(server, resource, asked, path, rows, seen, COLLECTION_PAGES);
          seen, asked, rows, path := seen + {path}, asked + 1, rows + more, "";
        case More(more, next) =>
          WalkOn(server, resource, asked, path, rows, seen);
          seen, asked, rows, path := seen + {path}, asked + 1, rows + more, next;
      }
    }
    return Ok(rows);
  }

  // ---- the search for an owned item -------------------------------------------------------------

  const INVENTORY_PAGES := 50
  const LONGEST_CURSOR := 4096

  datatype Cursor = NoCursor | BadCursor | Cursor(text: string)

  /** A reply: whether it is a success, its rows, its cursor, and whether it names a continuation URI. */
  datatype InventoryReply<+Row> = InventoryReply(
    success: bool, value: Option<seq<Option<Row>>>, cursor: Cursor, continuationUri: bool)

  function InventoryPage<Row>(reply: InventoryReply<Row>): Page<Option<string>, Row> {
    if !reply.success || reply.value.None? || Objects(reply.value.value).None? then Broken
    else
      match reply.cursor
      case NoCursor => if reply.continuationUri then Broken else Last(Objects(reply.value.value).value)
      case BadCursor => Broken
      case Cursor(text) =>
        if text == "" || |text| > LONGEST_CURSOR then Broken
        else More(Objects(reply.value.value).value, Some(text))
  }

  /** The first request carries no cursor. */
  function InventoryServer<Row>(serve: (nat, Option<string>) -> InventoryReply<Row>): Server<Option<string>, Row> {
    (k: nat, cursor) => InventoryPage(serve(k, cursor))
  }

  function Owned<Row>(rows: seq<Row>, mine: Row -> bool): seq<Row> {
    if rows == [] then []
    else Owned(rows[..|rows| - 1], mine) + if mine(rows[|rows| - 1]) then [rows[|rows| - 1]] else []
  }

  lemma {:induction false} OwnedOfSum<Row>(a: seq<Row>, b: seq<Row>, mine: Row -> bool)
    ensures Owned(a + b, mine) == Owned(a, mine) + Owned(b, mine)
    decreases |b|
  {
    if b == [] {
      assert a + b == a;
    } else {
      assert (a + b)[..|a + b| - 1] == a + b[..|b| - 1];
      OwnedOfSum(a, b[..|b| - 1], mine);
    }
  }

  /** The answer over a whole inventory: its one owned item, none, or a refusal to choose. */
  function Sole<Row>(owned: seq<Row>): Result<Option<Row>> {
    if |owned| > 1 then Err("ambiguous") else Ok(if owned == [] then None else Some(owned[0]))
  }

  /** What the search makes of a reply. */
  lemma InventoryReadsReplies<Row>(serve: (nat, Option<string>) -> InventoryReply<Row>, k: nat, cursor: Option<string>)
    ensures var reply, page := serve(k, cursor), InventoryServer(serve)(k, cursor);
      && (!page.Broken? ==> AreRows(reply.value, page.rows))
      && (page.Last? <==>
            reply.success && OnlyObjects(reply.value) && reply.cursor == NoCursor && !reply.continuationUri)
      && (page.More? <==>
            && reply.success && OnlyObjects(reply.value) && reply.cursor.Cursor?
            && reply.cursor.text != "" && |reply.cursor.text| <= 4096)
      && (page.More? ==> page.next == Some(reply.cursor.text))
  {
    var reply := serve(k, cursor);
    if reply.value.Some? {
      ObjectsAreRows(reply.value.value);
    }
  }

  /** The one row that is mine, none if none is, and an error if more than one is. */
  ghost predicate AnswersFor<Row>(rows: seq<Row>, mine: Row -> bool, r: Result<Option<Row>>) {
    match r
    case Ok(None) => forall i | 0 <= i < |rows| :: !mine(rows[i])
    case Ok(Some(row)) =>
      exists i | 0 <= i < |rows| ::
        rows[i] == row && mine(rows[i]) && forall j | 0 <= j < |rows| && j != i :: !mine(rows[j])
    case Err(_) => exists i, j | 0 <= i < j < |rows| :: mine(rows[i]) && mine(rows[j])
  }

  lemma {:induction false} SoleAnswers<Row>(rows: seq<Row>, mine: Row -> bool)
    ensures AnswersFor(rows, mine, Sole(Owned(rows, mine)))
    ensures Owned(rows, mine) == [] <==> forall i | 0 <= i < |rows| :: !mine(rows[i])
  {
    if rows != [] {
      var init, last := rows[..|rows| - 1], |rows| - 1;
      SoleAnswers(init, mine);
      assert forall i | 0 <= i < |init| :: init[i] == rows[i];
      var owned := Owned(init, mine);
      if |owned| > 1 {
        var i, j :| 0 <= i < j < |init| && mine(init[i]) && mine(init[j]);
        assert mine(rows[i]) && mine(rows[j]);
      } else if |owned| == 1 {
        var i :| 0 <= i < |init| && init[i] == owned[0] && mine(init[i])
                 && forall j | 0 <= j < |init| && j != i :: !mine(init[j]);
        assert rows[i] == owned[0] && mine(rows[i]);
        if mine(rows[last]) {
          assert i < last && mine(rows[i]) && mine(rows[last]);
        }
      } else if mine(rows[last]) {
        assert rows[last] == Owned(rows, mine)[0];
      }
    }
  }

  /** `seen` keeps the texts of the cursors; the first request has none. */
  ghost predicate TextsOf(seen: set<string>, visited: set<Option<string>>) {
    forall s :: s in seen <==> Some(s) in visited
  }

  method FindOwned<Row>(serve: (nat, Option<string>) -> InventoryReply<Row>, mine: Row -> bool)
    returns (r: Result<Option<Row>>)
    ensures forall rows | IsWhole(InventoryServer(serve), None, INVENTORY_PAGES, rows) :: r == Sole(Owned(rows, mine))
    ensures forall rows | IsWhole(InventoryServer(serve), None, INVENTORY_PAGES, rows) :: AnswersFor(rows, mine, r)
    ensures !HasWhole(InventoryServer(serve), None, INVENTORY_PAGES) ==> r.Err?
  {
    ghost var server := InventoryServer(serve);
    var cursor: Option<string>, seen: set<string>, found: seq<Row> := None, {}, [];
    ghost var rows: seq<Row>, visited: set<Option<string>>, asked: nat := [], {}, 0;
    for k := 0 to INVENTORY_PAGES
      invariant asked == k && Walked(server, None, asked, cursor, rows, visited) && cursor !in visited
      invariant found == Owned(rows, mine)
      invariant TextsOf(seen, visited + {cursor})
    {
      var page := InventoryPage(serve(k, cursor));
      assert page == server(k, cursor);
      if page.Broken? {
        BrokenIsNotWhole(server, None, k, INVENTORY_PAGES);
        return Err("unverified");
      }
      OwnedOfSum(rows, page.rows, mine);
      found := found + Owned(page.rows, mine);
      if page.Last? {
        WalkIsWhole(server, None, k, cursor, rows, visited, INVENTORY_PAGES);
        SoleAnswers(rows + page.rows, mine);
        return Sole(found);
      }
      WalkOn(server, None, k, cursor, rows, visited);
      rows, visited, asked, cursor := rows + page.rows, visited + {cursor}, asked + 1, page.next;
      if cursor.value in seen {
        RepeatIsNotWhole(server, None, asked, INVENTORY_PAGES);
        return Err("invalid_continuation");
      }
      seen := seen + {cursor.value};
    }
    BudgetSpentIsNotWhole(server, None, asked, INVENTORY_PAGES);
    return Err("budget");
  }
}
