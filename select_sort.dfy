/**
  The ordering behind `sortObjects` of SC.SelectFieldView. The sort itself is
  library code (`Array.prototype.sort` and `sortProperty`); it is modelled by
  the string each entry is ordered by and an insertion sort on that string,
  and only the sort's contract (an ordered permutation) is relied on.
*/
module SelectSort {
  import opened Wrappers
  import opened SelectValues

  /** `this.get('sortKey') || this.get('nameKey')`, kept only when truthy. */
  function OrderingKey(sortKey: Option<string>, nameKey: Option<string>): (k: Option<string>)
    ensures k.Some? ==> IsSet(k) && (k == sortKey || k == nameKey)
    ensures k.None? <==> !IsSet(sortKey) && !IsSet(nameKey)
    ensures IsSet(sortKey) ==> k == sortKey
  {
    if IsSet(sortKey) then sortKey
    else if IsSet(nameKey) then nameKey
    else None
  }

  /**
    The string an entry is ordered by: the named property's `toString()` when
    an ordering key is set, the entry's own `toString()` otherwise. Missing
    properties and placeholders order as the empty string.
  */
  function Rank(e: Option<Value>, key: Option<string>): string
  {
    if e.None? then ""
    else if key.Some? then
      match Get(e.value, key.value)
      case Some(p) => Text(p)
      case None => ""
    else Text(e.value)
  }

  /** JavaScript's `<=` on strings: lexicographic by character code. */
  predicate LexLe(a: string, b: string)
  {
    a == [] || (b != [] && (a[0] < b[0] || (a[0] == b[0] && LexLe(a[1..], b[1..]))))
  }

  lemma {:induction false} LexLeTotal(a: string, b: string)
    ensures LexLe(a, b) || LexLe(b, a)
  {
    if a != [] && b != [] && a[0] == b[0] {
      LexLeTotal(a[1..], b[1..]);
    }
  }

  lemma {:induction false} LexLeTransitive(a: string, b: string, c: string)
    requires LexLe(a, b) && LexLe(b, c)
    ensures LexLe(a, c)
  {
    if a != [] && b != [] && c != [] && a[0] == b[0] == c[0] {
      LexLeTransitive(a[1..], b[1..], c[1..]);
    }
  }

  /** Every entry ranks at or below the entry after it. */
  predicate Ordered(s: seq<Option<Value>>, key: Option<string>)
  {
    forall i :: 0 < i < |s| ==> LexLe(Rank(s[i - 1], key), Rank(s[i], key))
  }

  /** Ordered adjacent pairs give ordered pairs at any distance. */
  lemma {:induction false} OrderedPairs(s: seq<Option<Value>>, key: Option<string>, i: nat, j: nat)
    requires Ordered(s, key)
    requires i <= j < |s|
    ensures LexLe(Rank(s[i], key), Rank(s[j], key))
    decreases j - i
  {
    if i == j {
      LexLeTotal(Rank(s[i], key), Rank(s[i], key));
    } else {
      OrderedPairs(s, key, i + 1, j);
      LexLeTransitive(Rank(s[i], key), Rank(s[i + 1], key), Rank(s[j], key));
    }
  }

  /** Inserts `x` into an ordered sequence before the first entry that does not rank below it. */
  function Insert(x: Option<Value>, s: seq<Option<Value>>, key: Option<string>): (r: seq<Option<Value>>)
    requires Ordered(s, key)
    ensures Ordered(r, key)
    ensures multiset(r) == multiset(s) + multiset{x}
    ensures |r| == |s| + 1
    ensures r[0] == x || (s != [] && r[0] == s[0])
  {
    if s == [] then [x]
    else if LexLe(Rank(x, key), Rank(s[0], key)) then [x] + s
    else
      LexLeTotal(Rank(x, key), Rank(s[0], key));
      assert s == [s[0]] + s[1..];
      [s[0]] + Insert(x, s[1..], key)
  }

  /** The library sort: orders entries by rank, keeping the same entries. */
  function InsertionSort(s: seq<Option<Value>>, key: Option<string>): (r: seq<Option<Value>>)
    ensures Ordered(r, key)
    ensures multiset(r) == multiset(s)
    ensures |r| == |s|
  {
    if s == [] then []
    else
      assert s == [s[0]] + s[1..];
      Insert(s[0], InsertionSort(s[1..], key), key)
  }

  /** After sorting, every entry ranks at or below every entry after it, not only its neighbour. */
  lemma SortedPairs(objs: seq<Option<Value>>, key: Option<string>, i: nat, j: nat)
    requires i <= j < |objs|
    ensures var r := InsertionSort(objs, key);
            LexLe(Rank(r[i], key), Rank(r[j], key))
  {
    OrderedPairs(InsertionSort(objs, key), key, i, j);
  }
}
