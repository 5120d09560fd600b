/** Complete offset pagination over a broker list. */
module Pagination {
  import opened Json

  const MAX_PAGINATED_ITEMS := 100_000

  datatype PageError = Malformed | Stalled | LimitExceeded

  /** `_required_name` may reject the metadata of an item. */
  type Identity<!T> = T -> Result<string, PageError>

  /** Adds the identities of a page to those seen, failing on an empty or repeated one. */
  function Absorb<T>(page: seq<T>, identity: Identity<T>, seen: set<string>): Result<set<string>, PageError>
  {
    if page == [] then Ok(seen) else
      var before := Absorb(page[..|page| - 1], identity, seen);
      if before.Err? then before else
        var id := identity(page[|page| - 1]);
        if id.Err? then Err(id.error)
        else if id.value == "" || id.value in before.value then Err(Stalled)
        else Ok(before.value + {id.value})
  }

  /** What the loop returns from a given offset on. */
  function FetchFrom<T>(fetch: nat -> seq<T>, identity: Identity<T>, offset: nat, got: seq<T>, seen: set<string>)
    : Result<seq<T>, PageError>
    requires offset <= MAX_PAGINATED_ITEMS
    decreases MAX_PAGINATED_ITEMS - offset
  {
    var page := fetch(offset);
    if page == [] then Ok(got) else
      var absorbed := Absorb(page, identity, seen);
      if absorbed.Err? then Err(absorbed.error)
      else if offset + |page| > MAX_PAGINATED_ITEMS then Err(LimitExceeded)
      else FetchFrom(fetch, identity, offset + |page|, got + page, absorbed.value)
  }

  lemma {:induction false} AbsorbFailsFrom<T>(page: seq<T>, n: nat, identity: Identity<T>, seen: set<string>)
    requires n <= |page| && Absorb(page[..n], identity, seen).Err?
    ensures Absorb(page, identity, seen) == Absorb(page[..n], identity, seen)
    decreases |page|
  {
    if n == |page| {
      assert page[..n] == page;
    } else {
      assert page[..|page| - 1][..n] == page[..n];
      AbsorbFailsFrom(page[..|page| - 1], n, identity, seen);
    }
  }

  /** `_fetch_all_pages`, against any server whatever: it asks for ever larger offsets, so a server is a
      function of the offset, and it stops within the limit. */
  method FetchAllPages<T>(fetch: nat -> seq<T>, identity: Identity<T>) returns (result: Result<seq<T>, PageError>)
    ensures result == FetchFrom(fetch, identity, 0, [], {})
  {
    var items: seq<T> := [];
    var seen: set<string> := {};
    var offset: nat := 0;
    while true
      invariant offset <= MAX_PAGINATED_ITEMS
      invariant FetchFrom(fetch, identity, 0, [], {}) == FetchFrom(fetch, identity, offset, items, seen)
      decreases MAX_PAGINATED_ITEMS - offset
    {
      var page := fetch(offset);
      if page == [] {
        return Ok(items);
      }
      var known := seen;
      for i := 0 to |page|
        invariant Absorb(page[..i], identity, known) == Ok(seen)
      {
        assert page[..i + 1][..i] == page[..i];
        var id := identity(page[i]);
        if id.Err? {
          AbsorbFailsFrom(page, i + 1, identity, known);
          return Err(id.error);
        }
        if id.value == "" || id.value in seen {
          AbsorbFailsFrom(page, i + 1, identity, known);
          return Err(Stalled);
        }
        seen := seen + {id.value};
      }
      assert page[..|page|] == page;
      if offset + |page| > MAX_PAGINATED_ITEMS {
        return Err(LimitExceeded);
      }
      items := items + page;
      offset := offset + |page|;
    }
  }

  // ------------------------------------------------------------------------ completeness

  /** The server holds one list and answers every offset with some non-empty run of what follows it. */
  ghost predicate Slices<T(!new)>(fetch: nat -> seq<T>, list: seq<T>)
  {
    forall o: nat :: o <= |list| ==> fetch(o) <= list[o..] && (o < |list| ==> fetch(o) != [])
  }

  predicate DistinctNames<T(!new)>(list: seq<T>, identity: Identity<T>)
  {
    && (forall i :: 0 <= i < |list| ==> identity(list[i]).Ok? && identity(list[i]).value != "")
    && (forall i, j :: 0 <= i < j < |list| ==> identity(list[i]) != identity(list[j]))
  }

  predicate NamesAre<T(!new)>(list: seq<T>, identity: Identity<T>, seen: set<string>)
  {
    && DistinctNames(list, identity)
    && (forall i :: 0 <= i < |list| ==> identity(list[i]).value in seen)
    && (forall s :: s in seen ==> exists i :: 0 <= i < |list| && identity(list[i]) == Ok(s))
  }

  /** One more item keeps the names distinct exactly when its own name is new and not empty. */
  lemma NameExtends<T(!new)>(before: seq<T>, item: T, identity: Identity<T>, seen: set<string>)
    requires NamesAre(before, identity, seen)
    ensures var id := identity(item);
      (id.Ok? && id.value != "" && id.value !in seen)
      <==> DistinctNames(before + [item], identity)
    ensures DistinctNames(before + [item], identity)
        ==> NamesAre(before + [item], identity, seen + {identity(item).value})
  {
    var all, id := before + [item], identity(item);
    assert all[|before|] == item;
    assert forall i :: 0 <= i < |before| ==> all[i] == before[i];
    if DistinctNames(all, identity) {
      assert identity(all[|before|]) == id;
      assert id.Ok? && forall i :: 0 <= i < |before| ==> identity(before[i]) != id;
    }
    if id.Ok? && id.value != "" && id.value !in seen {
      forall s | s in seen + {id.value}
        ensures exists i :: 0 <= i < |all| && identity(all[i]) == Ok(s)
      {
        if s in seen {
          var i :| 0 <= i < |before| && identity(before[i]) == Ok(s);
          assert identity(all[i]) == Ok(s);
        } else {
          assert identity(all[|before|]) == Ok(s);
        }
      }
    }
  }

  lemma DistinctNamesPrefix<T(!new)>(list: seq<T>, n: nat, identity: Identity<T>)
    requires n <= |list| && DistinctNames(list, identity)
    ensures DistinctNames(list[..n], identity)
  {
    assert forall i :: 0 <= i < n ==> list[..n][i] == list[i];
  }

  lemma {:induction false} AbsorbExtends<T(!new)>(before: seq<T>, page: seq<T>, identity: Identity<T>, seen: set<string>)
    requires NamesAre(before, identity, seen)
    ensures Absorb(page, identity, seen).Ok? <==> DistinctNames(before + page, identity)
    ensures Absorb(page, identity, seen).Ok? ==> NamesAre(before + page, identity, Absorb(page, identity, seen).value)
    decreases |page|
  {
    if page == [] {
      assert before + page == before;
    } else {
      var init, item := page[..|page| - 1], page[|page| - 1];
      assert before + page == before + init + [item];
      AbsorbExtends(before, init, identity, seen);
      if Absorb(init, identity, seen).Ok? {
        NameExtends(before + init, item, identity, Absorb(init, identity, seen).value);
      } else if DistinctNames(before + page, identity) {
        assert (before + page)[..|before + init|] == before + init;
        DistinctNamesPrefix(before + page, |before + init|, identity);
      }
    }
  }

  lemma {:induction false} FetchFromSlices<T(!new)>(fetch: nat -> seq<T>, identity: Identity<T>, list: seq<T>,
                                                    offset: nat, seen: set<string>)
    requires Slices(fetch, list) && offset <= |list| && offset <= MAX_PAGINATED_ITEMS
    requires NamesAre(list[..offset], identity, seen)
    ensures var r := FetchFrom(fetch, identity, offset, list[..offset], seen);
            (r.Ok? <==> |list| <= MAX_PAGINATED_ITEMS && DistinctNames(list, identity)) && (r.Ok? ==> r.value == list)
    decreases |list| - offset
  {
    var page := fetch(offset);
    assert page <= list[offset..];
    if page == [] {
      assert list[..offset] == list;
    } else {
      var next := offset + |page|;
      assert list[..next] == list[..offset] + page;
      AbsorbExtends(list[..offset], page, identity, seen);
      if Absorb(page, identity, seen).Ok? && next <= MAX_PAGINATED_ITEMS {
        FetchFromSlices(fetch, identity, list, next, Absorb(page, identity, seen).value);
      } else if DistinctNames(list, identity) {
        DistinctNamesPrefix(list, next, identity);
      }
    }
  }

  /** However the server cuts its list into pages, the fetch succeeds exactly when the names are distinct
      and not empty and the list is within the limit, and then it returns the list in order. */
  lemma PaginationIsComplete<T(!new)>(fetch: nat -> seq<T>, identity: Identity<T>, list: seq<T>)
    requires Slices(fetch, list)
    ensures var r := FetchFrom(fetch, identity, 0, [], {});
            (r.Ok? <==> |list| <= MAX_PAGINATED_ITEMS && DistinctNames(list, identity)) && (r.Ok? ==> r.value == list)
  {
    assert list[..0] == [];
    FetchFromSlices(fetch, identity, list, 0, {});
  }

  /** On any server at all, a result has distinct non-empty names and stays within the limit. */
  lemma FetchedNamesAreDistinct<T(!new)>(fetch: nat -> seq<T>, identity: Identity<T>)
    ensures var r := FetchFrom(fetch, identity, 0, [], {});
            r.Ok? ==> DistinctNames(r.value, identity) && |r.value| <= MAX_PAGINATED_ITEMS
  {
    FetchedFrom(fetch, identity, 0, [], {});
  }

  lemma {:induction false} FetchedFrom<T(!new)>(fetch: nat -> seq<T>, identity: Identity<T>, offset: nat, got: seq<T>,
                                                seen: set<string>)
    requires offset == |got| <= MAX_PAGINATED_ITEMS && NamesAre(got, identity, seen)
    ensures var r := FetchFrom(fetch, identity, offset, got, seen);
            r.Ok? ==> DistinctNames(r.value, identity) && |r.value| <= MAX_PAGINATED_ITEMS
    decreases MAX_PAGINATED_ITEMS - offset
  {
    var page := fetch(offset);
    if page != [] {
      AbsorbExtends(got, page, identity, seen);
      var absorbed := Absorb(page, identity, seen);
      if absorbed.Ok? && offset + |page| <= MAX_PAGINATED_ITEMS {
        FetchedFrom(fetch, identity, offset + |page|, got + page, absorbed.value);
      }
    }
  }
}
