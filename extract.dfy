/** extract_accounts and extract_transactions of both ETL files. The Plaid API is not called:
    each call's reply is the next element of a given sequence, so the model says what the code
    does with whatever the API answers. Every transactions request the loop sends is the
    identical first request (same token and dates, no offset). */
module Extract {
  import opened Wrappers
  import opened PyValues

  /** How a reply's list is read: resp["transactions"] (first file, KeyError when missing) or
      resp.get("transactions", []) (second file, a missing list is empty). */
  datatype Access = Subscripted | Defaulted

  /** A date argument of the request: a command-line string as given, or a day number. */
  datatype DateArg = Given(text: string) | Day(ordinal: int)

  datatype Request = Request(accessToken: Option<string>, start: DateArg, end: DateArg)

  /** A transactions_get reply (a missing field is None), or the ApiException it raised. */
  datatype TransactionsReply = Page(transactions: Option<seq<Value>>, total: Option<int>)
                             | Refused(code: string)

  /** An accounts_get reply, or the ApiException it raised. */
  datatype AccountsReply = AccountsPage(accounts: Option<seq<Value>>) | AccountsRefused(code: string)

  /** The default window: a falsy start is 90 days before today, a falsy end is today (UTC). */
  function Window(accessToken: Option<string>, start: Option<string>, end: Option<string>, today: int): (r: Request)
    ensures r.accessToken == accessToken
    // a date the caller gives is passed on unchanged, and only a missing or empty one is computed
    ensures r.start.Given? <==> Truthy(start)
    ensures r.end.Given? <==> Truthy(end)
    ensures r.start.Given? ==> r.start.text == start.value
    ensures r.end.Given? ==> r.end.text == end.value
    // a computed end is today, a computed start lies 90 days back; both computed span 90 days
    ensures r.end.Day? ==> r.end.ordinal == today
    ensures r.start.Day? ==> r.start.ordinal + 90 == today
    ensures r.start.Day? && r.end.Day? ==> r.end.ordinal - r.start.ordinal == 90
  {
    Request(accessToken,
            if Truthy(start) then Given(start.value) else Day(today - 90),
            if Truthy(end) then Given(end.value) else Day(today))
  }

  function Records(reply: TransactionsReply, access: Access): Result<seq<Value>> {
    match reply
    case Refused(code) => Err(PlaidError(code))
    case Page(None, _) => if access == Subscripted then Err(KeyError("transactions")) else Ok([])
    case Page(Some(ts), _) => Ok(ts)
  }

  /** resp.get("total_transactions", len(transactions)). */
  function Total(reply: TransactionsReply, count: nat): int {
    if reply.Page? && reply.total.Some? then reply.total.value else count
  }

  function Accounts(reply: AccountsReply, access: Access): Result<seq<Value>> {
    match reply
    case AccountsRefused(code) => Err(PlaidError(code))
    case AccountsPage(None) => if access == Subscripted then Err(KeyError("accounts")) else Ok([])
    case AccountsPage(Some(accs)) => Ok(accs)
  }

  /** The loop after the first page: while fewer than `total` records are held, fetch again and
      append the page. Running out of replies stands for the API never satisfying the loop. */
  function Continue(acc: seq<Value>, total: int, rest: seq<TransactionsReply>, access: Access): Result<(seq<Value>, nat)>
    decreases |rest|
  {
    if |acc| >= total then Ok((acc, 0))
    else if rest == [] then Err(RepliesExhausted)
    else
      var page :- Records(rest[0], access);
      var r :- Continue(acc + page, total, rest[1..], access);
      Ok((r.0, r.1 + 1))
  }

  /** extract_transactions: the records gathered and the number of calls made. */
  function Pages(replies: seq<TransactionsReply>, access: Access): Result<(seq<Value>, nat)> {
    if replies == [] then Err(RepliesExhausted)
    else
      var first :- Records(replies[0], access);
      var r :- Continue(first, Total(replies[0], |first|), replies[1..], access);
      Ok((r.0, r.1 + 1))
  }

  /** The pagination loop. Every request it sends is `request`: nothing in it changes between
      calls. */
  method Paginate(request: Request, replies: seq<TransactionsReply>, access: Access)
    returns (r: Result<seq<Value>>, requests: seq<Request>)
    ensures Pages(replies, access).Ok? <==> r.Ok?
    ensures r.Ok? ==> r.value == Pages(replies, access).value.0 && |requests| == Pages(replies, access).value.1
    ensures r.Err? ==> r.error == Pages(replies, access).error
    ensures |requests| <= |replies|
    ensures forall i :: 0 <= i < |requests| ==> requests[i] == request
  {
    if replies == [] {
      return Err(RepliesExhausted), [];
    }
    requests := [request];
    var first := Records(replies[0], access);
    if first.Err? {
      return Err(first.error), requests;
    }
    var transactions := first.value;
    var total := Total(replies[0], |transactions|);
    var i := 1;
    while |transactions| < total
      invariant 1 <= i <= |replies| && |requests| == i
      invariant forall k :: 0 <= k < |requests| ==> requests[k] == request
      invariant Pages(replies, access) ==
                  (match Continue(transactions, total, replies[i..], access)
                   case Err(e) => Err(e)
                   case Ok(c) => Ok((c.0, c.1 + i)))
      decreases |replies| - i
    {
      if i == |replies| {
        return Err(RepliesExhausted), requests;
      }
      requests := requests + [request];
      var page := Records(replies[i], access);
      if page.Err? {
        return Err(page.error), requests;
      }
      assert replies[i..][1..] == replies[i + 1..];
      transactions := transactions + page.value;
      i := i + 1;
    }
    r := Ok(transactions);
  }

  // ---------- lemmas ----------

  /** With no total_transactions in the first reply, the total is that page's length: one call,
      and the result is that page. */
  lemma NoTotalOnePage(replies: seq<TransactionsReply>, access: Access, page: seq<Value>)
    requires |replies| > 0 && replies[0] == Page(Some(page), None)
    ensures Pages(replies, access) == Ok((page, 1))
  {
  }

  /** Each round only appends: the records held before a round are a prefix of the result, and
      the result holds at least `total` records. */
  lemma {:induction false} ContinueExtends(acc: seq<Value>, total: int, rest: seq<TransactionsReply>, access: Access)
    requires Continue(acc, total, rest, access).Ok?
    ensures acc <= Continue(acc, total, rest, access).value.0
    ensures |Continue(acc, total, rest, access).value.0| >= total
    ensures Continue(acc, total, rest, access).value.1 <= |rest|
    decreases |rest|
  {
    if |acc| < total {
      var page := Records(rest[0], access).value;
      ContinueExtends(acc + page, total, rest[1..], access);
    }
  }

  /** On exit the first page is an unchanged prefix of the result and the result holds at least
      the total the first reply announced. */
  lemma PagesCoverTotal(replies: seq<TransactionsReply>, access: Access)
    requires Pages(replies, access).Ok?
    ensures Records(replies[0], access).Ok?
    ensures var first := Records(replies[0], access).value;
            first <= Pages(replies, access).value.0 &&
            |Pages(replies, access).value.0| >= Total(replies[0], |first|)
  {
    var first := Records(replies[0], access).value;
    ContinueExtends(first, Total(replies[0], |first|), replies[1..], access);
  }

  // ---------- pagination against a server that honours only what is asked ----------

  function Min(a: nat, b: nat): nat { if a <= b then a else b }

  /** The reply of a server holding `all` to a request for `count` records from `offset`; the
      request the loop sends has no offset, so every reply is the one for offset 0. */
  function Serve(all: seq<Value>, offset: nat, count: nat): TransactionsReply
    requires offset <= |all|
  {
    Page(Some(all[offset..Min(offset + count, |all|)]), Some(|all|))
  }

  /** As written: against such a server every page is the first page, so whatever the loop
      gathers comes from the first `count` records and the later ones are never fetched. */
  lemma {:induction false} ContinueRepeatsFirstPage(all: seq<Value>, count: nat, acc: seq<Value>, rest: seq<TransactionsReply>, access: Access)
    requires forall k :: 0 <= k < |rest| ==> rest[k] == Serve(all, 0, count)
    requires forall x :: x in acc ==> x in all[..Min(count, |all|)]
    requires Continue(acc, |all|, rest, access).Ok?
    ensures forall x :: x in Continue(acc, |all|, rest, access).value.0 ==> x in all[..Min(count, |all|)]
    decreases |rest|
  {
    if |acc| < |all| {
      var page := all[0..Min(count, |all|)];
      assert Records(rest[0], access) == Ok(page);
      forall x | x in acc + page ensures x in all[..Min(count, |all|)] {
        assert page == all[..Min(count, |all|)];
      }
      ContinueRepeatsFirstPage(all, count, acc + page, rest[1..], access);
    }
  }

  lemma PagesRepeatFirstPage(all: seq<Value>, count: nat, replies: seq<TransactionsReply>, access: Access)
    requires forall k :: 0 <= k < |replies| ==> replies[k] == Serve(all, 0, count)
    requires Pages(replies, access).Ok?
    ensures forall x :: x in Pages(replies, access).value.0 ==> x in all[..Min(count, |all|)]
  {
    var page := all[0..Min(count, |all|)];
    assert Records(replies[0], access) == Ok(page);
    assert page == all[..Min(count, |all|)];
    ContinueRepeatsFirstPage(all, count, page, replies[1..], access);
  }

  /** 150 transactions and Plaid's default page of 100: two calls, 200 records, the first 100
      twice, and transactions 100 to 149 missing. */
  lemma HundredFiftyTransactions(access: Access)
    ensures var all := seq(150, i => Int(i));
            var replies := [Serve(all, 0, 100), Serve(all, 0, 100), Serve(all, 0, 100)];
            Pages(replies, access) == Ok((all[..100] + all[..100], 2)) &&
            Int(149) !in Pages(replies, access).value.0
  {
    var all := seq(150, i => Int(i));
    var replies := [Serve(all, 0, 100), Serve(all, 0, 100), Serve(all, 0, 100)];
    var page := all[..100];
    assert Records(replies[0], access) == Ok(page);
    assert Continue(page + page, 150, replies[2..], access) == Ok((page + page, 0));
    assert Continue(page, 150, replies[1..], access) == Ok((page + page, 1));
    forall x | x in page + page ensures x != Int(149) {
      var j :| 0 <= j < |page + page| && (page + page)[j] == x;
      if j < 100 { assert x == all[j]; } else { assert x == all[j - 100]; }
    }
  }

  /** Corrected: passing the number of records already held as the request's offset gathers
      every record exactly once, in the server's order. */
  method PaginateByOffset(all: seq<Value>, count: nat) returns (transactions: seq<Value>)
    requires count > 0
    ensures transactions == all
  {
    var reply := Serve(all, 0, count);
    transactions := reply.transactions.value;
    var total := reply.total.value;
    while |transactions| < total
      invariant total == |all| && |transactions| <= |all|
      invariant transactions == all[..|transactions|]
      decreases |all| - |transactions|
    {
      reply := Serve(all, |transactions|, count);
      transactions := transactions + reply.transactions.value;
    }
  }
}
