/**
 The peer address book and its reverse lookup, which turns the authenticated endpoint of a
 connection into a device.  Parsing an address is a parameter.
*/
module Addresses {
  import opened Wrappers

  type DeviceId = nat
  type EndpointId = string

  type Parser = string -> Option<EndpointId>

  predicate AllParse(book: map<DeviceId, string>, parse: Parser) {
    forall d :: d in book ==> parse(book[d]).Some?
  }

  /** Every entry names a device whose address parses to that endpoint, and every device is covered. */
  ghost predicate IsReverse(reverse: map<EndpointId, DeviceId>, book: map<DeviceId, string>, parse: Parser) {
    && (forall e :: e in reverse ==> reverse[e] in book && parse(book[reverse[e]]) == Some(e))
    && (forall d :: d in book ==> parse(book[d]).Some? && parse(book[d]).value in reverse)
  }

  ghost predicate DistinctEndpoints(book: map<DeviceId, string>, parse: Parser) {
    forall c, d :: c in book && d in book && c != d ==> parse(book[c]) != parse(book[d])
  }

  /** Visits the book in the map's arbitrary order and gives up at the first address that does not parse. */
  method BuildReverseLookup(book: map<DeviceId, string>, parse: Parser)
    returns (reverse: Option<map<EndpointId, DeviceId>>)
    ensures reverse.Some? <==> AllParse(book, parse)
    ensures reverse.Some? ==> IsReverse(reverse.value, book, parse)
  {
    var left := book.Keys;
    var built: map<EndpointId, DeviceId> := map[];
    while left != {}
      invariant left <= book.Keys
      invariant forall e :: e in built ==> built[e] in book.Keys - left && parse(book[built[e]]) == Some(e)
      invariant forall d :: d in book.Keys - left ==> parse(book[d]).Some? && parse(book[d]).value in built
      decreases left
    {
      var d :| d in left;
      var endpoint := parse(book[d]);
      if endpoint.None? {
        return None;
      }
      built := built[endpoint.value := d];
      left := left - {d};
    }
    return Some(built);
  }

  /** Looking up and parsing are inverses on the whole book exactly when no two devices share an endpoint. */
  lemma InverseExactlyWhenDistinct(reverse: map<EndpointId, DeviceId>, book: map<DeviceId, string>, parse: Parser)
    requires IsReverse(reverse, book, parse)
    ensures DistinctEndpoints(book, parse) <==> forall d :: d in book ==> reverse[parse(book[d]).value] == d
  {
    if forall d :: d in book ==> reverse[parse(book[d]).value] == d {
      forall c, d | c in book && d in book && c != d ensures parse(book[c]) != parse(book[d]) {
        assert reverse[parse(book[c]).value] == c;
      }
    }
  }

  /** Without a shared endpoint the lookup does not depend on the order of the book. */
  lemma ReverseIsUnique(one: map<EndpointId, DeviceId>, other: map<EndpointId, DeviceId>, book: map<DeviceId, string>,
                        parse: Parser)
    requires IsReverse(one, book, parse) && IsReverse(other, book, parse) && DistinctEndpoints(book, parse)
    ensures one == other
  {
    forall e ensures (e in one <==> e in other) && (e in one ==> one[e] == other[e]) {
      if e in one {
        assert parse(book[one[e]]).value in other;
      }
      if e in other {
        assert parse(book[other[e]]).value in one;
      }
    }
  }

  /** The book and the lookup, as one lock guards them. */
  datatype View = View(book: map<DeviceId, string>, reverse: map<EndpointId, DeviceId>)

  /** One update: a book that parses replaces both maps, any other changes neither. */
  ghost predicate UpdateStep(v: View, next: map<DeviceId, string>, w: View, parse: Parser) {
    if AllParse(next, parse) then w.book == next && IsReverse(w.reverse, next, parse) else w == v
  }

  ghost predicate IsHistory(views: seq<View>, books: seq<map<DeviceId, string>>, parse: Parser) {
    && |views| == |books| + 1
    && forall k :: 0 <= k < |books| ==> UpdateStep(views[k], books[k], views[k + 1], parse)
  }

  function LastGood(initial: map<DeviceId, string>, books: seq<map<DeviceId, string>>,
                    parse: Parser): map<DeviceId, string> {
    if books == [] then initial
    else if AllParse(books[|books| - 1], parse) then books[|books| - 1]
    else LastGood(initial, books[..|books| - 1], parse)
  }

  /** After any sequence of updates the book is the last one that parses completely, and the lookup is its reverse. */
  lemma {:induction false} LookupFollowsTheLastGoodBook(views: seq<View>, books: seq<map<DeviceId, string>>,
                                                        parse: Parser)
    requires IsHistory(views, books, parse) && IsReverse(views[0].reverse, views[0].book, parse)
    ensures views[|books|].book == LastGood(views[0].book, books, parse)
    ensures IsReverse(views[|books|].reverse, views[|books|].book, parse)
    decreases |books|
  {
    if books != [] {
      var last := |books| - 1;
      assert IsHistory(views[..last + 1], books[..last], parse) by {
        forall k | 0 <= k < last
          ensures UpdateStep(views[..last + 1][k], books[..last][k], views[..last + 1][k + 1], parse)
        {
          assert UpdateStep(views[k], books[k], views[k + 1], parse);
        }
      }
      LookupFollowsTheLastGoodBook(views[..last + 1], books[..last], parse);
      assert UpdateStep(views[last], books[last], views[last + 1], parse);
    }
  }

  class AddressState {
    const parse: Parser
    var book: map<DeviceId, string>
    var reverse: map<EndpointId, DeviceId>

    ghost function Now(): View
      reads this
    {
      View(book, reverse)
    }

    ghost predicate Valid()
      reads this
    {
      IsReverse(reverse, book, parse)
    }

    constructor (book: map<DeviceId, string>, reverse: map<EndpointId, DeviceId>, parse: Parser)
      requires IsReverse(reverse, book, parse)
      ensures Valid() && Now() == View(book, reverse) && this.parse == parse
    {
      this.book, this.reverse, this.parse := book, reverse, parse;
    }

    /** `from_book`: a state exactly for the books that parse. */
    static method FromBook(book: map<DeviceId, string>, parse: Parser) returns (state: Option<AddressState>)
      ensures state.Some? <==> AllParse(book, parse)
      ensures state.Some? ==> fresh(state.value) && state.value.Valid()
      ensures state.Some? ==> state.value.book == book && state.value.parse == parse
    {
      var built := BuildReverseLookup(book, parse);
      if built.None? {
        return None;
      }
      var created := new AddressState(book, built.value, parse);
      return Some(created);
    }

    /** `update_address_state`: both maps are replaced together, or neither is. */
    method Update(next: map<DeviceId, string>) returns (ok: bool)
      requires Valid()
      modifies this
      ensures Valid() && ok == AllParse(next, parse)
      ensures UpdateStep(old(Now()), next, Now(), parse)
    {
      var built := FromBook(next, parse);
      if built.None? {
        return false;
      }
      book, reverse := built.value.book, built.value.reverse;
      return true;
    }

    /** The device an incoming connection is attributed to. */
    method ResolveDevice(endpoint: EndpointId) returns (d: Option<DeviceId>)
      requires Valid()
      ensures d.Some? ==> d.value in book && parse(book[d.value]) == Some(endpoint)
      ensures d.None? ==> forall c :: c in book ==> parse(book[c]) != Some(endpoint)
    {
      return if endpoint in reverse then Some(reverse[endpoint]) else None;
    }
  }
}
