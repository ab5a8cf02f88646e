/** Walking the account list page by page.

    `get_all_accounts` is an endless generator: it asks for page 0, 1, 2, ...
    (each through the retry loop, with non-transient errors retried at once)
    and yields each page's JSON.  The variable holding the JSON lives as long
    as the generator, so when all ten attempts for a page fail, the previous
    page's JSON is yielded again (and on the very first page there is none,
    which raises UnboundLocalError).  The generator never stops by itself: the
    consumer breaks out at the first yielded page whose `currentPage` is not
    below its `totalPages`. */
module Paging {
  import opened Wrappers
  import opened Retry

  /** One entry of a page's `accounts` list. */
  datatype AccountRef = AccountRef(accountId: int, userType: string)

  /** The parts of a page's JSON the consumer reads. */
  datatype PageJson = PageJson(currentPage: int, totalPages: int, accounts: seq<AccountRef>)

  /** The server's answers, page by page. */
  type PageServer = nat -> Exchange<PageJson>

  /** What the generator yields after a retry loop that ended with `outcome`,
      given the JSON it held from earlier pages. */
  function YieldOf(outcome: Outcome, body: PageJson, held: Option<PageJson>): (r: Result<PageJson>)
    requires !outcome.Abandoned?
    ensures outcome.Success? ==> r == Ok(body)
    ensures outcome.Exhausted? ==> (r.Ok? <==> held.Some?) && (held.Some? ==> r.value == held.value)
    ensures r.Err? ==> r.error == UnboundLocalError
  {
    if outcome.Success? then Ok(body)
    else match held
      case Some(p) => Ok(p)
      case None => Err(UnboundLocalError)
  }

  /** What is yielded for page `page`. */
  function PageYield(server: PageServer, page: nat, held: Option<PageJson>): Result<PageJson> {
    RetryOnErrorNeverAbandons(server(page).status);
    YieldOf(RetrySpec(RetryOnError, server(page).status).outcome, server(page).body, held)
  }

  /** The consumer's test: is this yielded page still inside the listing? */
  predicate InListing(p: PageJson) {
    p.currentPage < p.totalPages
  }

  /** The server ends the listing at page `last`: that page is answered with a
      200 and reports itself as past the end. */
  predicate EndsAt(server: PageServer, last: nat) {
    RetrySpec(RetryOnError, server(last).status).outcome.Success?
    && !InListing(server(last).body)
  }

  /** The pages the consumer accepts, from page `page` on, holding `held`. */
  function Walk(server: PageServer, page: nat, held: Option<PageJson>, last: nat): Result<seq<PageJson>>
    requires page <= last && EndsAt(server, last)
    decreases last - page
  {
    match PageYield(server, page, held)
    case Err(e) => Err(e)
    case Ok(p) =>
      if !InListing(p) then Ok([])
      else if page == last then assert false; Ok([])
      else match Walk(server, page + 1, Some(p), last)
        case Err(e) => Err(e)
        case Ok(ps) => Ok([p] + ps)
  }

  /** The generator's frame: the next page number and the last JSON received. */
  class AccountPager {
    var page: nat
    var accountsJson: Option<PageJson>
    /** The page numbers requested so far, one per yield. */
    ghost var requested: seq<nat>

    ghost predicate Valid()
      reads this
    {
      |requested| == page && forall k :: 0 <= k < page ==> requested[k] == k
    }

    constructor ()
      ensures Valid() && page == 0 && accountsJson == None && requested == []
    {
      page := 0;
      accountsJson := None;
      requested := [];
    }

    /** One step of the generator: fetch page `page` and yield. */
    method Next(server: PageServer) returns (r: Result<PageJson>, waits: seq<nat>)
      requires Valid()
      modifies this
      ensures Valid()
      ensures r == PageYield(server, old(page), old(accountsJson))
      ensures waits == RetrySpec(RetryOnError, server(old(page)).status).waits
      ensures page == old(page) + 1 && requested == old(requested) + [old(page)]
      ensures accountsJson == if r.Ok? then Some(r.value) else old(accountsJson)
    {
      var exchange := server(page);
      var outcome, requests;
      outcome, requests, waits := RetryLoop(RetryOnError, exchange.status);
      RetryOnErrorNeverAbandons(exchange.status);
      if outcome.Success? {
        accountsJson := Some(exchange.body);
      }
      r := if accountsJson.Some? then Ok(accountsJson.value) else Err(UnboundLocalError);
      requested := requested + [page];
      page := page + 1;
    }
  }

  /** `accepted` followed by the pages still to come, or the error that ends them. */
  function Prepend(accepted: seq<PageJson>, rest: Result<seq<PageJson>>): Result<seq<PageJson>> {
    match rest
    case Err(e) => Err(e)
    case Ok(ps) => Ok(accepted + ps)
  }

  lemma PrependNothing(rest: Result<seq<PageJson>>)
    ensures Prepend([], rest) == rest
  {
    if rest.Ok? { assert [] + rest.value == rest.value; }
  }

  /** Accepting page `page` and going on. */
  lemma WalkAccepts(server: PageServer, page: nat, held: Option<PageJson>, last: nat, accepted: seq<PageJson>)
    requires page < last && EndsAt(server, last)
    requires PageYield(server, page, held).Ok? && InListing(PageYield(server, page, held).value)
    ensures var p := PageYield(server, page, held).value;
            Prepend(accepted, Walk(server, page, held, last))
            == Prepend(accepted + [p], Walk(server, page + 1, Some(p), last))
  {
    var p := PageYield(server, page, held).value;
    match Walk(server, page + 1, Some(p), last)
    case Err(e) =>
    case Ok(ps) => assert accepted + ([p] + ps) == accepted + [p] + ps;
  }

  /** The consumer's loop: take pages until one is past the end of the
      listing; the accepted pages in the order they came. */
  method ConsumePages(server: PageServer, last: nat) returns (r: Result<seq<PageJson>>)
    requires EndsAt(server, last)
    ensures r == Walk(server, 0, None, last)
  {
    var pager := new AccountPager();
    var accepted: seq<PageJson> := [];
    PrependNothing(Walk(server, 0, None, last));
    while true
      invariant pager.Valid() && pager.page <= last
      invariant Walk(server, 0, None, last) == Prepend(accepted, Walk(server, pager.page, pager.accountsJson, last))
      decreases last - pager.page
    {
      ghost var page, held := pager.page, pager.accountsJson;
      var y, _ := pager.Next(server);
      if y.Err? {
        assert Walk(server, page, held, last) == Err(y.error);
        return Err(y.error);
      }
      if !InListing(y.value) {
        assert Walk(server, page, held, last) == Ok([]);
        assert accepted + [] == accepted;
        return Ok(accepted);
      }
      assert page < last;
      WalkAccepts(server, page, held, last, accepted);
      accepted := accepted + [y.value];
    }
  }

  /** A page in a listing of `total` pages, as the server sends it. */
  function ListingPage(server: PageServer, k: nat): PageJson {
    server(k).body
  }

  /** The server answers every page with a 200 at once, and page `k` reports
      itself as page `k` of `total`. */
  ghost predicate Prompt(server: PageServer, total: nat) {
    forall k: nat :: server(k).status(0) == 200
                     && server(k).body.currentPage == k && server(k).body.totalPages == total
  }

  lemma PromptEndsAt(server: PageServer, total: nat)
    requires Prompt(server, total)
    ensures EndsAt(server, total)
  {
    RetryFindsFirstSuccess(RetryOnError, server(total).status, 0);
  }

  /** With a prompt server the consumer accepts pages `from`..total-1, each
      once and in order, and stops at the first page past the end even when
      the server would go on answering. */
  lemma {:induction false} PromptWalk(server: PageServer, total: nat, from: nat, held: Option<PageJson>)
    requires Prompt(server, total) && from <= total
    ensures EndsAt(server, total)
    ensures Walk(server, from, held, total).Ok?
    ensures |Walk(server, from, held, total).value| == total - from
    ensures forall k :: 0 <= k < total - from ==> Walk(server, from, held, total).value[k] == ListingPage(server, from + k)
    decreases total - from
  {
    PromptEndsAt(server, total);
    RetryFindsFirstSuccess(RetryOnError, server(from).status, 0);
    if from < total {
      PromptWalk(server, total, from + 1, Some(server(from).body));
      var rest := Walk(server, from + 1, Some(server(from).body), total).value;
      assert Walk(server, from, held, total).value == [server(from).body] + rest;
    }
  }

  /** A listing of three pages gives exactly three pages, 0, 1 and 2. */
  lemma ThreePages(server: PageServer)
    requires Prompt(server, 3)
    ensures EndsAt(server, 3)
    ensures Walk(server, 0, None, 3) == Ok([server(0).body, server(1).body, server(2).body])
  {
    PromptWalk(server, 3, 0, None);
    var w := Walk(server, 0, None, 3).value;
    assert w == [w[0], w[1], w[2]];
  }

  /** When every attempt at the first page fails, the consumer gets
      UnboundLocalError rather than an empty listing. */
  lemma FirstPageExhausted(server: PageServer, last: nat)
    requires EndsAt(server, last) && 0 < last
    requires forall j :: 0 <= j < MaxRetries ==> server(0).status(j) != 200
    ensures Walk(server, 0, None, last) == Err(UnboundLocalError)
  {
    RetryOnErrorNeverAbandons(server(0).status);
  }

  /** When every attempt at a later page fails, the previous page is accepted
      a second time. */
  lemma ExhaustedPageRepeats(server: PageServer, k: nat, last: nat, held: PageJson)
    requires k < last && EndsAt(server, last) && InListing(held)
    requires forall j :: 0 <= j < MaxRetries ==> server(k).status(j) != 200
    ensures var w := Walk(server, k, Some(held), last);
            w.Ok? ==> |w.value| > 0 && w.value[0] == held
  {
    RetryOnErrorNeverAbandons(server(k).status);
    assert PageYield(server, k, Some(held)) == Ok(held);
  }

  /** `main` keeps the entries whose `userType` is INDIVIDUAL, in order. */
  function IndividualIds(refs: seq<AccountRef>): (ids: seq<int>)
    ensures |ids| <= |refs|
    ensures forall id :: id in ids ==> exists a :: a in refs && a.userType == "INDIVIDUAL" && a.accountId == id
    ensures forall a :: a in refs && a.userType == "INDIVIDUAL" ==> a.accountId in ids
  {
    if refs == [] then []
    else (if refs[0].userType == "INDIVIDUAL" then [refs[0].accountId] else []) + IndividualIds(refs[1..])
  }

  /** The ids of two stretches of the listing are those of the first followed
      by those of the second, so the ids keep the listing's order and each
      INDIVIDUAL entry gives its id once. */
  lemma {:induction false} IndividualIdsAppend(a: seq<AccountRef>, b: seq<AccountRef>)
    ensures IndividualIds(a + b) == IndividualIds(a) + IndividualIds(b)
  {
    if a != [] {
      assert (a + b)[1..] == a[1..] + b;
      IndividualIdsAppend(a[1..], b);
    } else {
      assert a + b == b;
    }
  }

  /** One entry gives its id exactly when it is INDIVIDUAL. */
  lemma IndividualIdsSingle(r: AccountRef)
    ensures IndividualIds([r]) == if r.userType == "INDIVIDUAL" then [r.accountId] else []
  {
    assert [r][1..] == [];
  }
}
