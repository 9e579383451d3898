/**
 * The watchlist hook (lib/hooks/use-watchlist.ts): a list of watched symbols, kept
 * upper-cased and unique by `addSymbol`, and a persisted copy under the `watchlist` key.
 * The persisted copy is the field `stored` (`None` when the key is absent); the clock
 * reading `new Date().toISOString()` is the parameter `addedAt`.
 */
module Watchlist {
  import opened Common

  datatype WatchlistItem = WatchlistItem(symbol: string, name: string, addedAt: string)

  /** `items.some(item => item.symbol === symbol)`. */
  predicate HasSymbol(items: seq<WatchlistItem>, symbol: string)
    ensures HasSymbol(items, symbol) <==> exists item :: item in items && item.symbol == symbol
  {
    exists i :: 0 <= i < |items| && items[i].symbol == symbol
  }

  /** No two items share a symbol. */
  ghost predicate DistinctSymbols(items: seq<WatchlistItem>)
  {
    forall i, j :: 0 <= i < j < |items| ==> items[i].symbol != items[j].symbol
  }

  /** `name || normalizedSymbol`: an absent or empty name falls back to the symbol. */
  function DisplayName(name: Option<string>, symbol: string): (r: string)
    ensures name.Some? && name.value != "" ==> r == name.value
    ensures name.None? || name.value == "" ==> r == symbol
  {
    if name.Some? && name.value != "" then name.value else symbol
  }

  /**
   * The list `addSymbol` leaves, and whether it added: nothing changes when the
   * upper-cased symbol is already present, otherwise one item is appended.
   */
  function AddToList(items: seq<WatchlistItem>, symbol: string, name: Option<string>, addedAt: string)
    : (r: (bool, seq<WatchlistItem>))
    ensures HasSymbol(items, Upper(symbol)) ==> r == (false, items)
    ensures !HasSymbol(items, Upper(symbol)) ==>
      r == (true, items + [WatchlistItem(Upper(symbol), DisplayName(name, Upper(symbol)), addedAt)])
  {
    var normalized := Upper(symbol);
    if HasSymbol(items, normalized) then (false, items)
    else (true, items + [WatchlistItem(normalized, DisplayName(name, normalized), addedAt)])
  }

  /** The list `removeSymbol` leaves: every item whose symbol is not the upper-cased argument. */
  function RemoveFromList(items: seq<WatchlistItem>, symbol: string): (r: seq<WatchlistItem>)
    ensures |r| <= |items|
    ensures forall i :: 0 <= i < |r| ==> r[i].symbol != Upper(symbol) && r[i] in items
  {
    var p := (item: WatchlistItem) => item.symbol != Upper(symbol);
    FilterSound(p, items);
    Filter(p, items)
  }

  /**
   * Removal drops exactly the items with that symbol: every survivor has another symbol
   * and was in the list, every item with another symbol survives as often as it occurred,
   * and the survivors keep their order.
   */
  lemma RemoveExactly(items: seq<WatchlistItem>, symbol: string)
    ensures forall i :: 0 <= i < |RemoveFromList(items, symbol)| ==>
      RemoveFromList(items, symbol)[i].symbol != Upper(symbol) && RemoveFromList(items, symbol)[i] in items
    ensures forall item: WatchlistItem :: item.symbol != Upper(symbol) ==>
      multiset(RemoveFromList(items, symbol))[item] == multiset(items)[item]
    ensures !HasSymbol(RemoveFromList(items, symbol), Upper(symbol))
    ensures IsSubsequence(RemoveFromList(items, symbol), items)
  {
    var p := (item: WatchlistItem) => item.symbol != Upper(symbol);
    FilterSound(p, items);
    FilterIsSubsequence(p, items);
    forall item: WatchlistItem | item.symbol != Upper(symbol)
      ensures multiset(Filter(p, items))[item] == multiset(items)[item]
    {
      FilterCounts(p, items, item);
    }
  }

  /** Removing a symbol that is not in the list changes nothing. */
  lemma RemoveAbsent(items: seq<WatchlistItem>, symbol: string)
    requires !HasSymbol(items, Upper(symbol))
    ensures RemoveFromList(items, symbol) == items
  {
    FilterKeepsAll((item: WatchlistItem) => item.symbol != Upper(symbol), items);
  }

  /** A successful add followed by a remove of the same symbol restores the list. */
  lemma AddThenRemove(items: seq<WatchlistItem>, symbol: string, name: Option<string>, addedAt: string)
    requires AddToList(items, symbol, name, addedAt).0
    ensures RemoveFromList(AddToList(items, symbol, name, addedAt).1, symbol) == items
  {
    var p := (item: WatchlistItem) => item.symbol != Upper(symbol);
    var added := WatchlistItem(Upper(symbol), DisplayName(name, Upper(symbol)), addedAt);
    FilterAppend(p, items, [added]);
    FilterKeepsAll(p, items);
    assert Filter(p, [added]) == [];
  }

  /** Adding keeps the symbols distinct. */
  lemma AddKeepsDistinct(items: seq<WatchlistItem>, symbol: string, name: Option<string>, addedAt: string)
    requires DistinctSymbols(items)
    ensures DistinctSymbols(AddToList(items, symbol, name, addedAt).1)
  {
  }

  /** Removing keeps the symbols distinct. */
  lemma RemoveKeepsDistinct(items: seq<WatchlistItem>, symbol: string)
    requires DistinctSymbols(items)
    ensures DistinctSymbols(RemoveFromList(items, symbol))
  {
    RemoveDistinct(items, (item: WatchlistItem) => item.symbol != Upper(symbol));
  }

  lemma {:induction false} RemoveDistinct(items: seq<WatchlistItem>, p: WatchlistItem -> bool)
    requires DistinctSymbols(items)
    ensures DistinctSymbols(Filter(p, items))
    decreases |items|
  {
    if items != [] {
      var rest := items[1..];
      assert DistinctSymbols(rest);
      RemoveDistinct(rest, p);
      if p(items[0]) {
        FilterSound(p, rest);
        var f := Filter(p, items);
        forall j | 1 <= j < |f|
          ensures f[0].symbol != f[j].symbol
        {
          assert f[j] in rest;
        }
      }
    }
  }

  /** Symbols are compared after upper-casing, so a second add in any letter case is refused. */
  lemma AddIsCaseInsensitive(items: seq<WatchlistItem>, symbol: string, other: string,
                             name: Option<string>, otherName: Option<string>, addedAt: string, otherAddedAt: string)
    requires Upper(other) == Upper(symbol)
    ensures !AddToList(AddToList(items, symbol, name, addedAt).1, other, otherName, otherAddedAt).0
  {
    var after := AddToList(items, symbol, name, addedAt).1;
    if !HasSymbol(items, Upper(symbol)) {
      assert after[|items|].symbol == Upper(other);
    }
  }

  /** The hook's state: the in-memory list and the persisted copy. */
  class WatchlistStore {
    var watchlist: seq<WatchlistItem>
    var stored: Option<seq<WatchlistItem>>

    /** `useState([])`; whatever was persisted before stays persisted (loading it is not modelled). */
    constructor (persisted: Option<seq<WatchlistItem>>)
      ensures watchlist == [] && stored == persisted
    {
      watchlist := [];
      stored := persisted;
    }

    /** `addSymbol`: a refused add writes nothing; a successful one persists the new list. */
    method AddSymbol(symbol: string, name: Option<string>, addedAt: string) returns (added: bool)
      modifies this
      ensures (added, watchlist) == AddToList(old(watchlist), symbol, name, addedAt)
      ensures added ==> stored == Some(watchlist)
      ensures !added ==> stored == old(stored)
      ensures DistinctSymbols(old(watchlist)) ==> DistinctSymbols(watchlist)
    {
      var normalizedSymbol := Upper(symbol);
      if HasSymbol(watchlist, normalizedSymbol) {
        return false;
      }
      if DistinctSymbols(watchlist) {
        AddKeepsDistinct(watchlist, symbol, name, addedAt);
      }
      var newList := watchlist + [WatchlistItem(normalizedSymbol, DisplayName(name, normalizedSymbol), addedAt)];
      watchlist := newList;
      stored := Some(newList);
      return true;
    }

    /** `removeSymbol`: the filtered list replaces the list and is persisted. */
    method RemoveSymbol(symbol: string)
      modifies this
      ensures watchlist == RemoveFromList(old(watchlist), symbol)
      ensures stored == Some(watchlist)
      ensures DistinctSymbols(old(watchlist)) ==> DistinctSymbols(watchlist)
    {
      if DistinctSymbols(watchlist) {
        RemoveKeepsDistinct(watchlist, symbol);
      }
      var newList := RemoveFromList(watchlist, symbol);
      watchlist := newList;
      stored := Some(newList);
    }

    /** `clearWatchlist`: the list is emptied and the persisted entry removed. */
    method ClearWatchlist()
      modifies this
      ensures watchlist == [] && stored == None
    {
      watchlist := [];
      stored := None;
    }
  }
}
