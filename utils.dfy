/** The two-dimensional array builder the engine uses for its grid and its
    per-call scratch tables (engine/src/utils.ts). */
module Utils {

  /** How many times `for (let i = 0; i < n; i++)` runs its body. */
  function Extent(n: int): nat
  {
    if n < 0 then 0 else n
  }

  /** `g` has `rows` rows of `cols` entries each; a count that is not
      positive gives no rows (or empty rows). */
  ghost predicate Shaped<T>(rows: int, cols: int, g: seq<seq<T>>)
  {
    |g| == Extent(rows) && forall i :: 0 <= i < |g| ==> |g[i]| == Extent(cols)
  }

  /** The elements of a sequence, as a set. */
  ghost function Elems<T>(s: seq<T>): set<T>
  {
    set x | x in s
  }

  /** No element occurs twice. */
  predicate NoDup<T(==)>(s: seq<T>)
  {
    forall i, j :: 0 <= i < j < |s| ==> s[i] != s[j]
  }

  /** `make2dArray(rows, cols, init)`: a rows-by-cols table whose every entry
      is the value `init()` returns. The source calls `init` once per entry so
      that entries never alias; here entries are values, so no entry can alias
      another. */
  method Make2dArray<T>(rows: int, cols: int, init: T) returns (arr: seq<seq<T>>)
    ensures Shaped(rows, cols, arr)
    ensures forall i, j :: 0 <= i < |arr| && 0 <= j < |arr[i]| ==> arr[i][j] == init
    ensures rows <= 0 ==> arr == []
  {
    arr := [];
    var i := 0;
    while i < rows
      invariant |arr| == i <= Extent(rows)
      invariant forall k :: 0 <= k < i ==> |arr[k]| == Extent(cols)
      invariant forall k, j :: 0 <= k < i && 0 <= j < |arr[k]| ==> arr[k][j] == init
    {
      var row: seq<T> := [];
      var j := 0;
      while j < cols
        invariant |row| == j <= Extent(cols)
        invariant forall m :: 0 <= m < j ==> row[m] == init
      {
        row := row + [init];
        j := j + 1;
      }
      arr := arr + [row];
      i := i + 1;
    }
  }
}
