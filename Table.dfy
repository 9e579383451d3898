/**
 * The data logic of the enhanced table (components/enhanced-table.tsx): the search filter
 * and the column sort behind `filteredAndSortedData` (lines 31-71), and the `handleSort`
 * state transition (lines 73-83).  A row is a map from column keys to values; every value
 * is given together with the text `String(value)` produces for it.
 */
module Table {
  import opened Common

  /** A cell value, as far as searching and sorting can tell values apart. */
  datatype Value =
    | Null
    | Undefined
    | Num(n: real, shown: string)   // typeof 'number', with its String() text
    | Other(shown: string)          // any other value, given by its String() text

  type Row = map<string, Value>

  datatype Direction = Asc | Desc

  /** `TableColumn` (`label` is a Dafny keyword); an absent `sortable` is false. */
  datatype Column = Column(key: string, labelText: string, sortable: bool)

  /** `value == null`: true for both null and undefined. */
  predicate IsNullish(v: Value)
  {
    v.Null? || v.Undefined?
  }

  /** `String(value)`. */
  function Stringify(v: Value): string
  {
    match v
    case Null => "null"
    case Undefined => "undefined"
    case Num(_, shown) => shown
    case Other(shown) => shown
  }

  /** `row[key]`: a missing key reads as undefined. */
  function KeyOf(row: Row, key: string): Value
  {
    if key in row then row[key] else Undefined
  }

  // ---------------------------------------------------------------------------
  // Search filter (lines 35-41)

  /**
   * `Object.values(row).some(...)`: the lower-cased query occurs somewhere in the
   * stringified, lower-cased text of some value of the row.
   */
  predicate Matches(row: Row, query: string)
    ensures Matches(row, query) <==>
      exists k, i: nat :: k in row && OccursAt(Lower(Stringify(row[k])), Lower(query), i)
  {
    exists k :: k in row && Includes(Lower(Stringify(row[k])), Lower(query))
  }

  /**
   * The filter runs only for a non-empty query on a searchable table; it never adds rows,
   * keeps only rows of the data, and when active keeps only matching rows.
   */
  function SearchFilter(data: seq<Row>, query: string, searchable: bool): (r: seq<Row>)
    ensures |r| <= |data|
    ensures forall i :: 0 <= i < |r| ==> r[i] in data
    ensures query != "" && searchable ==> forall i :: 0 <= i < |r| ==> Matches(r[i], query)
  {
    if query != "" && searchable then
      var p := (row: Row) => Matches(row, query);
      FilterSound(p, data);
      Filter(p, data)
    else data
  }

  /** An empty query or a table that is not searchable keeps every row. */
  lemma SearchKeepsAllWhenOff(data: seq<Row>, query: string, searchable: bool)
    requires query == "" || !searchable
    ensures SearchFilter(data, query, searchable) == data
  {
  }

  /**
   * The filtered rows are a subsequence of the data, in the original order; every row
   * kept matches the query, and every matching row is kept as often as it occurs.
   */
  lemma SearchFilterSound(data: seq<Row>, query: string, searchable: bool)
    ensures IsSubsequence(SearchFilter(data, query, searchable), data)
    ensures query != "" && searchable ==>
      forall i :: 0 <= i < |SearchFilter(data, query, searchable)| ==>
        Matches(SearchFilter(data, query, searchable)[i], query)
    ensures query != "" && searchable ==>
      forall row :: Matches(row, query) ==>
        multiset(SearchFilter(data, query, searchable))[row] == multiset(data)[row]
  {
    var p := (row: Row) => Matches(row, query);
    FilterIsSubsequence(p, data);
    if !(query != "" && searchable) {
      IsSubsequenceReflexive(data);
    } else {
      FilterSound(p, data);
      forall row | Matches(row, query)
        ensures multiset(Filter(p, data))[row] == multiset(data)[row]
      {
        FilterCounts(p, data, row);
      }
    }
  }

  lemma {:induction false} IsSubsequenceReflexive<T>(xs: seq<T>)
    ensures IsSubsequence(xs, xs)
    decreases |xs|
  {
    if xs != [] {
      IsSubsequenceReflexive(xs[1..]);
    }
  }

  // ---------------------------------------------------------------------------
  // String order (JavaScript's `<` on strings, lines 63 and 65)

  /** `a < b` on strings: lexicographic order on characters. */
  predicate LexLess(a: string, b: string)
    decreases |a|
  {
    |b| > 0 && (|a| == 0 || a[0] < b[0] || (a[0] == b[0] && LexLess(a[1..], b[1..])))
  }

  /** `a <= b` on strings. */
  predicate LexLe(a: string, b: string)
  {
    !LexLess(b, a)
  }

  /** Two strings cannot each be below the other. */
  lemma {:induction false} LexLessAsymmetric(a: string, b: string)
    ensures !(LexLess(a, b) && LexLess(b, a))
    decreases |a|
  {
    if |a| > 0 && |b| > 0 && a[0] == b[0] {
      LexLessAsymmetric(a[1..], b[1..]);
    }
  }

  /** If `c < a` then `b` lies strictly above `c` or strictly below `a` (so `<=` is transitive). */
  lemma {:induction false} LexLessSplit(a: string, b: string, c: string)
    requires LexLess(c, a)
    ensures LexLess(b, a) || LexLess(c, b)
    decreases |a|
  {
    if |c| > 0 && |b| > 0 && c[0] == a[0] && b[0] == a[0] {
      LexLessSplit(a[1..], b[1..], c[1..]);
    }
  }

  lemma LexLeTotal(a: string, b: string)
    ensures LexLe(a, b) || LexLe(b, a)
  {
    LexLessAsymmetric(a, b);
  }

  lemma LexLeTransitive(a: string, b: string, c: string)
    requires LexLe(a, b) && LexLe(b, c)
    ensures LexLe(a, c)
  {
    if LexLess(c, a) {
      LexLessSplit(a, b, c);
    }
  }

  // ---------------------------------------------------------------------------
  // Comparator (lines 45-67)

  /** The lower-cased text the string branch compares. */
  function SortText(v: Value): (r: string)
    ensures |r| == |Stringify(v)|
    ensures forall i :: 0 <= i < |r| ==> !('A' <= r[i] <= 'Z')
  {
    Lower(Stringify(v))
  }

  /**
   * The comparator exactly as written: a positive result puts `a` after `b`.  A nullish
   * `a` is always after, a nullish `b` always before; two numbers compare by difference;
   * anything else compares by lower-cased text and never yields 0.
   */
  function Compare(a: Value, b: Value, dir: Direction): (c: real)
    ensures IsNullish(a) ==> c == 1.0
    ensures !IsNullish(a) && IsNullish(b) ==> c == -1.0
    ensures !(a.Num? && b.Num?) ==> c == 1.0 || c == -1.0
  {
    if IsNullish(a) then 1.0
    else if IsNullish(b) then -1.0
    else if a.Num? && b.Num? then (if dir == Asc then a.n - b.n else b.n - a.n)
    else if dir == Asc then (if LexLess(SortText(b), SortText(a)) then 1.0 else -1.0)
    else (if LexLess(SortText(a), SortText(b)) then 1.0 else -1.0)
  }

  /**
   * The order the model sorts by, a total preorder: nullish values last; two numbers by
   * value in the chosen direction; any other two values by lower-cased text in the chosen
   * direction; and, between a number and a non-number, the number first.
   */
  predicate Before(a: Value, b: Value, dir: Direction)
    ensures a == b ==> Before(a, b, dir)
    ensures IsNullish(a) && !IsNullish(b) ==> !Before(a, b, dir)
    ensures IsNullish(b) ==> Before(a, b, dir)
  {
    LexLessAsymmetric(SortText(a), SortText(b));
    if IsNullish(b) then true
    else if IsNullish(a) then false
    else if a.Num? && b.Num? then (if dir == Asc then a.n <= b.n else b.n <= a.n)
    else if a.Num? then true
    else if b.Num? then false
    else if dir == Asc then LexLe(SortText(a), SortText(b))
    else LexLe(SortText(b), SortText(a))
  }

  /** A number and a non-number, pairs the comparator orders by text and the model by kind. */
  predicate MixedKinds(a: Value, b: Value)
  {
    (a.Num? && b.Other?) || (a.Other? && b.Num?)
  }

  /**
   * On values of the same kind `Before` is exactly the comparator's "not after": `a` may
   * precede `b` if and only if the comparator does not put `a` strictly after `b`.  So a
   * negative result puts `a` first and a positive one puts `b` first (two nullish values
   * aside, which the comparator itself orders both ways).
   */
  lemma CompareAgrees(a: Value, b: Value, dir: Direction)
    requires !MixedKinds(a, b)
    ensures !(IsNullish(a) && IsNullish(b)) ==> (Before(a, b, dir) <==> Compare(a, b, dir) <= 0.0)
    ensures Compare(a, b, dir) < 0.0 ==> Before(a, b, dir)
    ensures Compare(a, b, dir) > 0.0 && !(IsNullish(a) && IsNullish(b)) ==> Before(b, a, dir)
  {
    LexLessAsymmetric(SortText(a), SortText(b));
  }

  /**
   * Between a number and a string the comparator can be consistent where the model is not:
   * `5` against `"!"` compares by text, so `"!"` goes first both ways, while `Before` puts
   * the number first.
   */
  lemma NumberVsStringDiverges()
    ensures Compare(Num(5.0, "5"), Other("!"), Asc) == 1.0
    ensures Compare(Other("!"), Num(5.0, "5"), Asc) == -1.0
    ensures Before(Num(5.0, "5"), Other("!"), Asc) && !Before(Other("!"), Num(5.0, "5"), Asc)
  {
    assert SortText(Other("!")) == "!";
    assert SortText(Num(5.0, "5")) == "5";
  }

  /**
   * On a column mixing numbers and strings the comparator is cyclic: `9` is below `10` by
   * value, `10` below `"5"` by text and `"5"` below `9` by text, so no order agrees with
   * all three of its strict decisions.
   */
  lemma CompareMixedCycle()
    ensures Compare(Num(9.0, "9"), Num(10.0, "10"), Asc) < 0.0
    ensures Compare(Num(10.0, "10"), Other("5"), Asc) < 0.0
    ensures Compare(Other("5"), Num(9.0, "9"), Asc) < 0.0
  {
    assert SortText(Other("5")) == "5";
    assert SortText(Num(9.0, "9")) == "9";
    assert SortText(Num(10.0, "10")) == "10";
    assert LexLess("10", "5");
    assert !LexLess("9", "5");
  }

  /**
   * The comparator is not antisymmetric: two values with the same lower-cased text that
   * are not both numbers each compare below the other, in either direction.
   */
  lemma CompareInconsistentOnEqualText(a: Value, b: Value, dir: Direction)
    requires !IsNullish(a) && !IsNullish(b) && !(a.Num? && b.Num?)
    requires SortText(a) == SortText(b)
    ensures Compare(a, b, dir) == -1.0 && Compare(b, a, dir) == -1.0
  {
    LexLessAsymmetric(SortText(a), SortText(b));
  }

  /** A concrete instance: the symbols "AAPL" and "aapl" each sort before the other. */
  lemma CompareEqualTextExample()
    ensures Compare(Other("AAPL"), Other("aapl"), Asc) == -1.0
    ensures Compare(Other("aapl"), Other("AAPL"), Asc) == -1.0
  {
    assert SortText(Other("AAPL")) == SortText(Other("aapl")) == "aapl";
    CompareInconsistentOnEqualText(Other("AAPL"), Other("aapl"), Asc);
  }

  lemma BeforeTotal(a: Value, b: Value, dir: Direction)
    ensures Before(a, b, dir) || Before(b, a, dir)
  {
    LexLeTotal(SortText(a), SortText(b));
  }

  lemma BeforeTransitive(a: Value, b: Value, c: Value, dir: Direction)
    requires Before(a, b, dir) && Before(b, c, dir)
    ensures Before(a, c, dir)
  {
    if a.Other? && b.Other? && c.Other? {
      if dir == Asc {
        LexLeTransitive(SortText(a), SortText(b), SortText(c));
      } else {
        LexLeTransitive(SortText(c), SortText(b), SortText(a));
      }
    }
  }

  // ---------------------------------------------------------------------------
  // In-place sort (line 45)

  ghost predicate Total<T(!new)>(le: (T, T) -> bool)
  {
    forall x, y :: le(x, y) || le(y, x)
  }

  ghost predicate Transitive<T(!new)>(le: (T, T) -> bool)
  {
    forall x, y, z :: le(x, y) && le(y, z) ==> le(x, z)
  }

  ghost predicate SortedBy<T>(s: seq<T>, le: (T, T) -> bool)
  {
    forall i, j :: 0 <= i < j < |s| ==> le(s[i], s[j])
  }

  /** The row order for one column and direction. */
  function RowOrder(key: string, dir: Direction): (T: (Row, Row) -> bool)
  {
    (x: Row, y: Row) => Before(KeyOf(x, key), KeyOf(y, key), dir)
  }

  lemma RowOrderIsTotalPreorder(key: string, dir: Direction)
    ensures Total(RowOrder(key, dir)) && Transitive(RowOrder(key, dir))
  {
    forall x: Row, y: Row
      ensures RowOrder(key, dir)(x, y) || RowOrder(key, dir)(y, x)
    {
      BeforeTotal(KeyOf(x, key), KeyOf(y, key), dir);
    }
    forall x: Row, y: Row, z: Row | RowOrder(key, dir)(x, y) && RowOrder(key, dir)(y, z)
      ensures RowOrder(key, dir)(x, z)
    {
      BeforeTransitive(KeyOf(x, key), KeyOf(y, key), KeyOf(z, key), dir);
    }
  }

  /**
   * `Array.prototype.sort` stands in as an insertion sort by swaps under a total preorder:
   * the array ends sorted and holds the same elements.
   */
  method SortInPlace<T(!new)>(a: array<T>, le: (T, T) -> bool)
    requires Total(le) && Transitive(le)
    modifies a
    ensures SortedBy(a[..], le)
    ensures multiset(a[..]) == multiset(old(a[..]))
  {
    var i := 0;
    while i < a.Length
      invariant 0 <= i <= a.Length
      invariant forall p, q :: 0 <= p < q < i ==> le(a[p], a[q])
      invariant multiset(a[..]) == multiset(old(a[..]))
    {
      var j := i;
      while j > 0 && !le(a[j - 1], a[j])
        invariant 0 <= j <= i
        invariant forall p, q :: 0 <= p < q <= i && p != j && q != j ==> le(a[p], a[q])
        invariant forall q :: j < q <= i ==> le(a[j], a[q])
        invariant multiset(a[..]) == multiset(old(a[..]))
      {
        SwapAdjacent(a, j);
        j := j - 1;
      }
      forall p | 0 <= p < j
        ensures le(a[p], a[j])
      {
        assert le(a[p], a[j - 1]) || p == j - 1;
      }
      i := i + 1;
    }
  }

  /** Exchanges `a[j - 1]` and `a[j]`, leaving everything else in place. */
  method SwapAdjacent<T>(a: array<T>, j: int)
    requires 0 < j < a.Length
    modifies a
    ensures a[..] == old(a[..])[j - 1 := old(a[j])][j := old(a[j - 1])]
    ensures multiset(a[..]) == multiset(old(a[..]))
  {
    a[j - 1], a[j] := a[j], a[j - 1];
  }

  /** In a sorted list every row with a nullish key comes after every row with a key. */
  lemma SortedNullsLast(s: seq<Row>, key: string, dir: Direction, i: nat, j: nat)
    requires SortedBy(s, RowOrder(key, dir)) && i < j < |s|
    requires IsNullish(KeyOf(s[i], key))
    ensures IsNullish(KeyOf(s[j], key))
  {
    assert RowOrder(key, dir)(s[i], s[j]);
  }

  /** Numeric keys end non-decreasing for `Asc` and non-increasing for `Desc`. */
  lemma SortedNumbers(s: seq<Row>, key: string, dir: Direction, i: nat, j: nat)
    requires SortedBy(s, RowOrder(key, dir)) && i < j < |s|
    requires KeyOf(s[i], key).Num? && KeyOf(s[j], key).Num?
    ensures dir == Asc ==> KeyOf(s[i], key).n <= KeyOf(s[j], key).n
    ensures dir == Desc ==> KeyOf(s[j], key).n <= KeyOf(s[i], key).n
  {
    assert RowOrder(key, dir)(s[i], s[j]);
  }

  /** String keys end in lower-cased text order: ascending for `Asc`, descending for `Desc`. */
  lemma SortedStrings(s: seq<Row>, key: string, dir: Direction, i: nat, j: nat)
    requires SortedBy(s, RowOrder(key, dir)) && i < j < |s|
    requires KeyOf(s[i], key).Other? && KeyOf(s[j], key).Other?
    ensures dir == Asc ==> LexLe(SortText(KeyOf(s[i], key)), SortText(KeyOf(s[j], key)))
    ensures dir == Desc ==> LexLe(SortText(KeyOf(s[j], key)), SortText(KeyOf(s[i], key)))
  {
    assert RowOrder(key, dir)(s[i], s[j]);
  }

  /**
   * A sorted list never reverses a strict decision of the comparator between two keys of
   * the same kind: an earlier key never compares strictly after a later one.
   */
  lemma SortedRespectsCompare(s: seq<Row>, key: string, dir: Direction, i: nat, j: nat)
    requires SortedBy(s, RowOrder(key, dir)) && i < j < |s|
    requires !MixedKinds(KeyOf(s[i], key), KeyOf(s[j], key))
    requires !(IsNullish(KeyOf(s[i], key)) && IsNullish(KeyOf(s[j], key)))
    ensures Compare(KeyOf(s[i], key), KeyOf(s[j], key), dir) <= 0.0
  {
    assert RowOrder(key, dir)(s[i], s[j]);
    CompareAgrees(KeyOf(s[i], key), KeyOf(s[j], key), dir);
  }

  // ---------------------------------------------------------------------------
  // Table state (lines 27-29, 73-83)

  /** Column `i` has the key, and no earlier column has it. */
  ghost predicate FirstWithKey(columns: seq<Column>, key: string, i: int)
  {
    0 <= i < |columns| && columns[i].key == key && forall j :: 0 <= j < i ==> columns[j].key != key
  }

  /** `columns.find(col => col.key === key)`: the first column with that key. */
  function FindColumn(columns: seq<Column>, key: string): (r: Option<Column>)
    ensures r.None? <==> forall i :: 0 <= i < |columns| ==> columns[i].key != key
    ensures r.Some? ==> exists i :: FirstWithKey(columns, key, i) && columns[i] == r.value
    decreases |columns|
  {
    if columns == [] then None
    else if columns[0].key == key then Some(columns[0])
    else
      var r := FindColumn(columns[1..], key);
      assert forall i :: 1 <= i < |columns| ==> columns[i] == columns[1..][i - 1];
      if r.Some? then
        assert exists i :: FirstWithKey(columns, key, i) && columns[i] == r.value by {
          var i :| FirstWithKey(columns[1..], key, i) && columns[1..][i] == r.value;
          assert columns[i + 1] == r.value;
          assert forall j :: 0 <= j < i + 1 ==> columns[j].key != key by {
            forall j | 0 <= j < i + 1
              ensures columns[j].key != key
            {
              if j > 0 {
                assert columns[j] == columns[1..][j - 1];
              }
            }
          }
          assert FirstWithKey(columns, key, i + 1);
        }
        r
      else
        r
  }

  /** The sort state `(sortKey, sortDirection)` after a click on the header of `key`. */
  function SortTransition(columns: seq<Column>, sortKey: Option<string>, dir: Direction, key: string)
    : (r: (Option<string>, Direction))
    ensures (FindColumn(columns, key).None? || !FindColumn(columns, key).value.sortable) ==> r == (sortKey, dir)
    ensures FindColumn(columns, key).Some? && FindColumn(columns, key).value.sortable ==>
      r == (if sortKey == Some(key) then (sortKey, if dir == Asc then Desc else Asc) else (Some(key), Asc))
  {
    var column := FindColumn(columns, key);
    if column.None? || !column.value.sortable then (sortKey, dir)
    else if sortKey == Some(key) then (sortKey, if dir == Asc then Desc else Asc)
    else (Some(key), Asc)
  }

  /** Two clicks on the header of the column currently sorted by restore the sort state. */
  lemma ToggleTwiceRestores(columns: seq<Column>, sortKey: Option<string>, dir: Direction, key: string)
    requires sortKey == Some(key)
    ensures var (k, d) := SortTransition(columns, sortKey, dir, key);
      SortTransition(columns, k, d, key) == (sortKey, dir)
  {
  }

  /** A click on a new sortable column sorts ascending by it; a second click flips it to descending. */
  lemma NewColumnThenToggle(columns: seq<Column>, sortKey: Option<string>, dir: Direction, key: string)
    requires sortKey != Some(key)
    requires FindColumn(columns, key).Some? && FindColumn(columns, key).value.sortable
    ensures SortTransition(columns, sortKey, dir, key) == (Some(key), Asc)
    ensures SortTransition(columns, Some(key), Asc, key) == (Some(key), Desc)
  {
  }

  /** The component's state: its props and the three `useState` hooks. */
  class EnhancedTable {
    const columns: seq<Column>
    const data: seq<Row>
    const searchable: bool
    var sortKey: Option<string>
    var sortDirection: Direction
    var searchQuery: string

    constructor (columns: seq<Column>, data: seq<Row>, searchable: bool)
      ensures this.columns == columns && this.data == data && this.searchable == searchable
      ensures sortKey == None && sortDirection == Asc && searchQuery == ""
    {
      this.columns := columns;
      this.data := data;
      this.searchable := searchable;
      sortKey := None;
      sortDirection := Asc;
      searchQuery := "";
    }

    /** Typing in the search box. */
    method SetSearchQuery(query: string)
      modifies this
      ensures searchQuery == query
      ensures sortKey == old(sortKey) && sortDirection == old(sortDirection)
    {
      searchQuery := query;
    }

    /** `handleSort`: unknown and unsortable columns are ignored. */
    method HandleSort(key: string)
      modifies this
      ensures (sortKey, sortDirection) == SortTransition(columns, old(sortKey), old(sortDirection), key)
      ensures searchQuery == old(searchQuery)
    {
      var column := FindColumn(columns, key);
      if column.None? || !column.value.sortable {
        return;
      }
      if sortKey == Some(key) {
        sortDirection := if sortDirection == Asc then Desc else Asc;
      } else {
        sortKey := Some(key);
        sortDirection := Asc;
      }
    }

    /**
     * `filteredAndSortedData`: the search filter, then a sort of a copy by the current
     * key when one is set (a null or empty key leaves the filtered order alone).
     */
    method FilteredAndSortedData() returns (result: seq<Row>)
      ensures multiset(result) == multiset(SearchFilter(data, searchQuery, searchable))
      ensures |result| == |SearchFilter(data, searchQuery, searchable)|
      ensures sortKey.None? || sortKey.value == "" ==> result == SearchFilter(data, searchQuery, searchable)
      ensures sortKey.Some? && sortKey.value != "" ==> SortedBy(result, RowOrder(sortKey.value, sortDirection))
    {
      var filtered := SearchFilter(data, searchQuery, searchable);
      if sortKey.None? || sortKey.value == "" {
        return filtered;
      }
      var a := new Row[|filtered|](i requires 0 <= i < |filtered| => filtered[i]);
      assert a[..] == filtered;
      RowOrderIsTotalPreorder(sortKey.value, sortDirection);
      SortInPlace(a, RowOrder(sortKey.value, sortDirection));
      result := a[..];
      assert |result| == |multiset(result)| == |multiset(filtered)| == |filtered|;
    }
  }
}
