/** Reading a list page by page. The server is a function from the page number to its answer. */
module Pagination {
  import opened OrderedDict

  const BAN_LIST_MAX_PAGES := 100
  const ROOM_ADMIN_MAX_PAGES := 100

  type Item = int

  // ---------------------------------------------------------------- the ban list

  /** `Refused` is any code but 0, which makes the client raise; a missing total counts as 0 and a missing number of
      pages as 1. */
  datatype Response =
    | EmptyBody
    | NotJson
    | Refused
    | Answer(items: seq<Item>, total: int, totalPages: int)

  /** Pages 1..k, one after another. */
  function Pages(server: nat -> Response, k: nat): seq<Item> {
    if k == 0 then []
    else Pages(server, k - 1) + if server(k).Answer? then server(k).items else []
  }

  /** The pages stand one behind the other: an item keeps its place in its page. */
  lemma {:induction false} PageAt(server: nat -> Response, k: nat, j: nat, i: nat)
    requires 1 <= j <= k && server(j).Answer? && i < |server(j).items|
    ensures |Pages(server, j - 1)| + i < |Pages(server, k)|
    ensures Pages(server, k)[|Pages(server, j - 1)| + i] == server(j).items[i]
  {
    if j < k {
      PageAt(server, k - 1, j, i);
    }
  }

  /** The reader wants no more after page k. */
  predicate LastPage(server: nat -> Response, k: nat) {
    server(k).Answer? && (k >= server(k).totalPages || |Pages(server, k)| >= server(k).total || k >= BAN_LIST_MAX_PAGES)
  }

  predicate UsablePage(server: nat -> Response, k: nat) {
    server(k).Answer? && server(k).items != []
  }

  /** How a read went: `r` is what came back, None where the business code raises; `pages` were taken over and
      `requests` made, one of them in vain where they differ. `running` is polled before each page. */
  ghost predicate BanRead(
    server: nat -> Response, running: nat -> bool, r: Option<seq<Item>>, pages: nat, requests: nat)
  {
    && (r.Some? ==> r.value == Pages(server, pages))
    && (requests == pages || requests == pages + 1) && requests <= BAN_LIST_MAX_PAGES
    && (forall j :: 1 <= j <= pages ==> UsablePage(server, j) && running(j))
    && (forall j :: 1 <= j < requests ==> !LastPage(server, j))
    // why it stopped: the last page, a room that is gone, or a page that brings nothing
    && (requests == pages ==>
          && r.Some?
          && ((pages > 0 && LastPage(server, pages)) || (pages < BAN_LIST_MAX_PAGES && !running(pages + 1))))
    && (requests == pages + 1 ==> !UsablePage(server, requests) && running(requests))
    && (r.None? <==> requests == pages + 1 && server(requests).Refused?)
  }

  method GetBanList(server: nat -> Response, running: nat -> bool)
    returns (r: Option<seq<Item>>, pages: nat, requests: nat)
    ensures BanRead(server, running, r, pages, requests)
    ensures pages <= 100 && (r.Some? ==> r.value == Pages(server, pages))
  {
    var collected: seq<Item> := [];
    pages, requests := 0, 0;
    var currentPage := 1;
    while currentPage <= BAN_LIST_MAX_PAGES
      invariant 1 <= currentPage <= BAN_LIST_MAX_PAGES
      invariant pages == requests == currentPage - 1
      invariant collected == Pages(server, pages)
      invariant forall j :: 1 <= j <= pages ==> UsablePage(server, j) && running(j) && !LastPage(server, j)
      decreases BAN_LIST_MAX_PAGES - currentPage
    {
      if !running(currentPage) {
        break;
      }
      var response := server(currentPage);
      requests := requests + 1;
      match response
      case EmptyBody => break;
      case NotJson => break;
      case Refused => return None, pages, requests;
      case Answer(items, total, totalPages) =>
        if items == [] {
          break;
        }
        collected := collected + items;
        pages := pages + 1;
        if currentPage >= totalPages || |collected| >= total {
          break;
        }
        if currentPage >= BAN_LIST_MAX_PAGES {
          break;
        }
        currentPage := currentPage + 1;
    }
    r := Some(collected);
  }

  /** Spelled out: the read goes on exactly while a page says that there is more, up to page 100. */
  lemma ReadsOn(
    server: nat -> Response, running: nat -> bool, r: Option<seq<Item>>, pages: nat, requests: nat, k: nat)
    requires BanRead(server, running, r, pages, requests)
    ensures requests <= 100
    ensures 1 <= k < requests ==>
              && server(k).Answer? && server(k).items != [] && k < server(k).totalPages
              && |Pages(server, k)| < server(k).total && running(k)
    ensures r.Some? && requests == pages > 0 && (pages == 100 || running(pages + 1)) ==>
              pages >= server(pages).totalPages || |Pages(server, pages)| >= server(pages).total || pages == 100
  {
    if 1 <= k < requests {
      assert !LastPage(server, k) && UsablePage(server, k);
    }
  }

  /** A server that holds `p` non-empty pages, reports them and their size truthfully, and answers empty after them. */
  ghost predicate Consistent(server: nat -> Response, p: nat) {
    && (forall k :: 1 <= k <= p ==>
          UsablePage(server, k) && server(k).totalPages == p && server(k).total == |Pages(server, p)|)
    && (forall k :: k > p ==> server(k) == Answer([], |Pages(server, p)|, p))
  }

  lemma {:induction false} PagesGrow(server: nat -> Response, p: nat, k: nat)
    requires k < p && forall j :: 1 <= j <= p ==> UsablePage(server, j)
    ensures |Pages(server, k)| < |Pages(server, p)|
    decreases p
  {
    assert UsablePage(server, p);
    if k < p - 1 {
      PagesGrow(server, p - 1, k);
    }
  }

  /** A consistent server of up to 100 pages is read completely, in one request a page (and one for an empty list);
      a longer list is cut off after page 100. So the whole list comes back if and only if it has at most 100 pages. */
  lemma ConsistentRead(server: nat -> Response, p: nat, r: Option<seq<Item>>, pages: nat, requests: nat)
    requires Consistent(server, p) && BanRead(server, k => true, r, pages, requests)
    ensures r == Some(Pages(server, p)) <==> p <= BAN_LIST_MAX_PAGES
    ensures p > BAN_LIST_MAX_PAGES ==> r == Some(Pages(server, BAN_LIST_MAX_PAGES))
    ensures requests == if p == 0 then 1 else if p <= BAN_LIST_MAX_PAGES then p else BAN_LIST_MAX_PAGES
  {
    forall k | 1 <= k < p && k < BAN_LIST_MAX_PAGES ensures !LastPage(server, k) {
      PagesGrow(server, p, k);
      assert UsablePage(server, k);
    }
    assert !UsablePage(server, p + 1);
    if 0 < p <= BAN_LIST_MAX_PAGES {
      assert UsablePage(server, p) && LastPage(server, p);
    }
    assert 1 <= requests <= p ==> UsablePage(server, requests);
    if p > BAN_LIST_MAX_PAGES {
      PagesGrow(server, p, BAN_LIST_MAX_PAGES);
      assert UsablePage(server, BAN_LIST_MAX_PAGES);
    }
  }

  // ---------------------------------------------------------------- room administrators

  /** `Unreadable` is an error code or a body without a list; rows carry the uid when it is a positive integer. */
  datatype AdminPage = Unreadable | Rows(uids: seq<Option<int>>, totalPages: Option<int>)

  predicate Lists(server: nat -> AdminPage, k: nat, uid: int) {
    server(k).Rows? && Some(uid) in server(k).uids
  }

  predicate ReportedEnd(server: nat -> AdminPage, k: nat) {
    server(k).Rows? && ((server(k).totalPages.Some? && k >= server(k).totalPages.value) || server(k).uids == [])
  }

  predicate Yes(r: Option<bool>) { r.Some? && r.value }

  predicate No(r: Option<bool>) { r.Some? && !r.value }

  /** How a search went that ended on page `last`: every page before it was readable, did not list the uid and was
      not the end. */
  ghost predicate AdminRead(server: nat -> AdminPage, uid: int, r: Option<bool>, last: nat) {
    && 1 <= last <= ROOM_ADMIN_MAX_PAGES
    && (forall k :: 1 <= k < last ==> server(k).Rows? && !Lists(server, k, uid) && !ReportedEnd(server, k))
    && (Yes(r) <==> Lists(server, last, uid))
    && (No(r) <==> !Lists(server, last, uid) && ReportedEnd(server, last))
  }

  method IsRoomAdmin(server: nat -> AdminPage, uid: int) returns (r: Option<bool>, last: nat)
    ensures AdminRead(server, uid, r, last)
    ensures r == None ==> server(last).Unreadable? || last == ROOM_ADMIN_MAX_PAGES
    ensures last <= 100 && forall k :: 1 <= k < last ==>
              && server(k).Rows? && Some(uid) !in server(k).uids && server(k).uids != []
              && (server(k).totalPages.Some? ==> k < server(k).totalPages.value)
    ensures r == Some(true) <==> server(last).Rows? && Some(uid) in server(last).uids
    ensures r == Some(false) <==>
              && server(last).Rows? && Some(uid) !in server(last).uids
              && (server(last).uids == [] || (server(last).totalPages.Some? && last >= server(last).totalPages.value))
    ensures r == None && server(last).Rows? ==> last == 100
  {
    last := 0;
    for page := 1 to ROOM_ADMIN_MAX_PAGES + 1
      invariant last == page - 1
      invariant forall k :: 1 <= k < page ==> server(k).Rows? && !Lists(server, k, uid) && !ReportedEnd(server, k)
    {
      last := page;
      match server(page)
      case Unreadable => return None, page;
      case Rows(uids, totalPages) =>
        for i := 0 to |uids|
          invariant Some(uid) !in uids[..i]
        {
          if uids[i] == Some(uid) {
            return Some(true), page;
          }
        }
        if totalPages.Some? && page >= totalPages.value {
          return Some(false), page;
        }
        if uids == [] {
          return Some(false), page;
        }
    }
    r := None;
  }

  /** A server of p readable non-empty pages that reports p, or nothing at all, and is empty afterwards. */
  ghost predicate ConsistentAdmins(server: nat -> AdminPage, p: nat) {
    && (forall k :: 1 <= k <= p ==>
          server(k).Rows? && server(k).uids != [] && (server(k).totalPages.None? || server(k).totalPages == Some(p)))
    && (forall k :: k > p ==> server(k).Rows? && server(k).uids == [])
  }

  /** Then "yes" means that one of the first 100 pages lists the uid, "no" that none does and the end was seen, and
      the third answer only comes where 100 pages were not enough. */
  lemma AnswersMembership(server: nat -> AdminPage, p: nat, uid: int, r: Option<bool>, last: nat)
    requires ConsistentAdmins(server, p) && AdminRead(server, uid, r, last)
    requires r == None ==> server(last).Unreadable? || last == ROOM_ADMIN_MAX_PAGES
    ensures Yes(r) <==> exists k :: 1 <= k <= p && k <= ROOM_ADMIN_MAX_PAGES && Lists(server, k, uid)
    ensures No(r) ==> p <= ROOM_ADMIN_MAX_PAGES && forall k :: 1 <= k <= p ==> !Lists(server, k, uid)
    ensures p < ROOM_ADMIN_MAX_PAGES ==> r.Some? && (Yes(r) <==> exists k :: 1 <= k <= p && Lists(server, k, uid))
  {
    assert server(last).Rows?;
    if p < last {
      assert ReportedEnd(server, p + 1);
      assert last == p + 1;
    }
    assert No(r) && last <= p ==> server(last).totalPages == Some(p);
    if Yes(r) {
      assert Lists(server, last, uid);
    } else {
      assert last >= p || last == ROOM_ADMIN_MAX_PAGES;
      forall k | 1 <= k <= p && k <= ROOM_ADMIN_MAX_PAGES ensures !Lists(server, k, uid) {
      }
    }
  }
}
