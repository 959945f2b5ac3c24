/**
 * The resource tags panel of the website: the tags are laid out in at most three columns, each column a
 * contiguous run of the tags, the first `n % columns` columns holding one tag more than the others.
 */
module ResourceTagsDetails {

  datatype ResourceTag = ResourceTag(name: string, value: string)

  /** A React key `${columnIndex}-${tagIndex}`: two keys are equal exactly when both numbers are. */
  datatype Key = Key(columnIndex: nat, tagIndex: nat)

  /** A rendered KeyValuePair element; `caption` is its `label` prop. */
  datatype KeyValuePair = KeyValuePair(key: Key, caption: string, value: string)

  function Min(a: nat, b: nat): nat {
    if a <= b then a else b
  }

  /**
   * `Array.prototype.slice(start, end)` for non-negative bounds: the elements from `start` up to `end`, stopping
   * at the end of the array, and none when the range is empty or starts past the end.
   */
  function Slice<T>(s: seq<T>, start: nat, end: nat): (r: seq<T>)
    ensures start <= end <= |s| ==> r == s[start..end]
    ensures start < |s| < end ==> r == s[start..]
    ensures |s| <= start || end <= start ==> r == []
  {
    var b := Min(start, |s|);
    var e := Min(end, |s|);
    if b <= e then s[b..e] else []
  }

  /** Where column `columnIndex` starts: after `mod` longer columns, the rest are `avg` long. */
  function ColumnStart(columnIndex: nat, mod: nat, avg: nat): nat {
    if columnIndex < mod then columnIndex * (avg + 1) else mod * (avg + 1) + (columnIndex - mod) * avg
  }

  function ColumnLength(columnIndex: nat, mod: nat, avg: nat): nat {
    if columnIndex < mod then avg + 1 else avg
  }

  /** Where column `columnIndex` ends. */
  function ColumnEnd(columnIndex: nat, mod: nat, avg: nat): nat {
    ColumnStart(columnIndex, mod, avg) + ColumnLength(columnIndex, mod, avg)
  }

  /** The column is one of the layout's columns for `n` tags, with the `mod` and `avg` the layout computes. */
  predicate InLayout(n: nat, columnIndex: nat, mod: nat, avg: nat) {
    var c := ColumnsCount(n);
    columnIndex < c && mod == n % c && avg == n / c
  }

  /** In the layout, a column's range lies within the tags, so `slice` returns exactly that range. */
  lemma LayoutSlice(tags: seq<ResourceTag>, columnIndex: nat, mod: nat, avg: nat)
    ensures InLayout(|tags|, columnIndex, mod, avg) ==>
      && ColumnEnd(columnIndex, mod, avg) <= |tags|
      && ColumnTags(tags, columnIndex, mod, avg) == tags[ColumnStart(columnIndex, mod, avg)..ColumnEnd(columnIndex, mod, avg)]
  {
    if InLayout(|tags|, columnIndex, mod, avg) {
      ColumnWithin(|tags|, ColumnsCount(|tags|), columnIndex);
    }
  }

  /** The tags getColumnsContent shows in column `columnIndex`. */
  function ColumnTags(tags: seq<ResourceTag>, columnIndex: nat, mod: nat, avg: nat): seq<ResourceTag> {
    var start := ColumnStart(columnIndex, mod, avg);
    Slice(tags, start, start + ColumnLength(columnIndex, mod, avg))
  }

  /**
   * getColumnsContent as written: the column shows its slice of the tags, in order, and every element gets the
   * key `${columnIndex}-0`, since `tagIndex` stays 0.
   */
  function GetColumnsContent(tags: seq<ResourceTag>, columnIndex: nat, mod: nat, avg: nat): (r: seq<KeyValuePair>)
    ensures Shown(r) == ColumnTags(tags, columnIndex, mod, avg)
    ensures InLayout(|tags|, columnIndex, mod, avg) ==>
      && ColumnEnd(columnIndex, mod, avg) <= |tags|
      && Shown(r) == tags[ColumnStart(columnIndex, mod, avg)..ColumnEnd(columnIndex, mod, avg)]
    ensures forall k :: 0 <= k < |r| ==> r[k].key == Key(columnIndex, 0)
  {
    LayoutSlice(tags, columnIndex, mod, avg);
    var shown := ColumnTags(tags, columnIndex, mod, avg);
    seq(|shown|, k requires 0 <= k < |shown| => KeyValuePair(Key(columnIndex, 0), shown[k].name, shown[k].value))
  }

  /**
   * getColumnsContent with `tagIndex` counting the tags of the column, as the key template intends: the same
   * tags are shown, and the keys of the column are distinct.
   */
  function GetColumnsContentKeyed(tags: seq<ResourceTag>, columnIndex: nat, mod: nat, avg: nat)
    : (r: seq<KeyValuePair>)
    ensures Shown(r) == ColumnTags(tags, columnIndex, mod, avg)
    ensures InLayout(|tags|, columnIndex, mod, avg) ==>
      && ColumnEnd(columnIndex, mod, avg) <= |tags|
      && Shown(r) == tags[ColumnStart(columnIndex, mod, avg)..ColumnEnd(columnIndex, mod, avg)]
    ensures KeysDistinct(r) && forall k :: 0 <= k < |r| ==> r[k].key.columnIndex == columnIndex
  {
    LayoutSlice(tags, columnIndex, mod, avg);
    var shown := ColumnTags(tags, columnIndex, mod, avg);
    seq(|shown|, k requires 0 <= k < |shown| => KeyValuePair(Key(columnIndex, k), shown[k].name, shown[k].value))
  }

  /** `tagsCount > 3 ? 3 : tagsCount`: as many columns as tags, but never more than three. */
  function ColumnsCount(tagsCount: nat): (c: nat)
    ensures c <= 3 && c <= tagsCount
    ensures c == 3 || c == tagsCount
  {
    if tagsCount > 3 then 3 else tagsCount
  }

  /**
   * ResourceTagsDetails: one column per index below the column count, each rendered by getColumnsContent with
   * `mod = n % columns` and `avg = floor(n / columns)`. With no tags there is no column (and `0 % 0` is never used).
   */
  function Columns(tags: seq<ResourceTag>, keyed: bool): (r: seq<seq<KeyValuePair>>)
    ensures |r| == ColumnsCount(|tags|)
  {
    var columnsCount := ColumnsCount(|tags|);
    if columnsCount == 0 then []
    else
      var mod := |tags| % columnsCount;
      var avg := |tags| / columnsCount;
      seq(columnsCount, i requires 0 <= i < columnsCount =>
        if keyed then GetColumnsContentKeyed(tags, i, mod, avg) else GetColumnsContent(tags, i, mod, avg))
  }

  /** The labels and values a column shows, in order. */
  function Shown(column: seq<KeyValuePair>): (r: seq<ResourceTag>)
    ensures |r| == |column| && forall k :: 0 <= k < |r| ==> r[k] == ResourceTag(column[k].caption, column[k].value)
  {
    seq(|column|, k requires 0 <= k < |column| => ResourceTag(column[k].caption, column[k].value))
  }

  /** The columns read one after the other. */
  function ShownInOrder(columns: seq<seq<KeyValuePair>>): seq<ResourceTag>
    decreases |columns|
  {
    if columns == [] then [] else ShownInOrder(columns[..|columns| - 1]) + Shown(columns[|columns| - 1])
  }

  // ---------------------------------------------------------------------------------------------------------
  // The partition

  /** Column `i + 1` starts where column `i` ends; the first column starts at 0. */
  lemma ColumnsContiguous(i: nat, mod: nat, avg: nat)
    ensures ColumnStart(0, mod, avg) == 0
    ensures ColumnStart(i + 1, mod, avg) == ColumnStart(i, mod, avg) + ColumnLength(i, mod, avg)
  {
    if i + 1 < mod {
      assert (i + 1) * (avg + 1) == i * (avg + 1) + (avg + 1);
    } else if i < mod {
      assert i + 1 == mod;
      assert mod * (avg + 1) + (i + 1 - mod) * avg == i * (avg + 1) + (avg + 1);
    } else {
      assert (i + 1 - mod) * avg == (i - mod) * avg + avg;
    }
  }

  /** The columns end exactly at the last tag: `mod` longer columns and the rest of length `avg` make n. */
  lemma ColumnsEndAtCount(n: nat, columnsCount: nat)
    requires 0 < columnsCount
    ensures n % columnsCount <= columnsCount
    ensures ColumnStart(columnsCount, n % columnsCount, n / columnsCount) == n
  {
    var mod := n % columnsCount;
    var avg := n / columnsCount;
    assert n == columnsCount * avg + mod;
    if columnsCount < mod {
    } else {
      calc {
        ColumnStart(columnsCount, mod, avg);
        mod * (avg + 1) + (columnsCount - mod) * avg;
        { assert (columnsCount - mod) * avg == columnsCount * avg - mod * avg; }
        mod * avg + mod + columnsCount * avg - mod * avg;
        n;
      }
    }
  }

  /** Before the last column, every column's slice lies within the tags, so nothing is clamped. */
  lemma ColumnWithin(n: nat, columnsCount: nat, i: nat)
    requires 0 < columnsCount && i < columnsCount
    ensures ColumnStart(i, n % columnsCount, n / columnsCount) + ColumnLength(i, n % columnsCount, n / columnsCount) <= n
    decreases columnsCount - i
  {
    var mod := n % columnsCount;
    var avg := n / columnsCount;
    ColumnsContiguous(i, mod, avg);
    if i + 1 == columnsCount {
      ColumnsEndAtCount(n, columnsCount);
    } else {
      ColumnWithin(n, columnsCount, i + 1);
      ColumnsContiguous(i + 1, mod, avg);
    }
  }

  /** Each column shows exactly the tags from its start to its end, in order. */
  lemma ColumnShowsSlice(tags: seq<ResourceTag>, keyed: bool, i: nat)
    requires i < ColumnsCount(|tags|)
    ensures var c := ColumnsCount(|tags|);
      var start := ColumnStart(i, |tags| % c, |tags| / c);
      var end := start + ColumnLength(i, |tags| % c, |tags| / c);
      end <= |tags| && Shown(Columns(tags, keyed)[i]) == tags[start..end]
  {
    var c := ColumnsCount(|tags|);
    ColumnWithin(|tags|, c, i);
  }

  /** The first `i` columns, read in order, show the tags before column `i` starts. */
  lemma {:induction false} ShownPrefix(tags: seq<ResourceTag>, keyed: bool, i: nat)
    requires i <= ColumnsCount(|tags|) && 0 < |tags|
    ensures var c := ColumnsCount(|tags|);
      ColumnStart(i, |tags| % c, |tags| / c) <= |tags| &&
      ShownInOrder(Columns(tags, keyed)[..i]) == tags[..ColumnStart(i, |tags| % c, |tags| / c)]
  {
    var c := ColumnsCount(|tags|);
    var mod := |tags| % c;
    var avg := |tags| / c;
    var cols := Columns(tags, keyed);
    if i == 0 {
      ColumnsContiguous(0, mod, avg);
      assert cols[..0] == [];
    } else {
      ShownPrefix(tags, keyed, i - 1);
      ColumnShowsSlice(tags, keyed, i - 1);
      ColumnsContiguous(i - 1, mod, avg);
      ShownStep(cols, i, tags, ColumnStart(i - 1, mod, avg), ColumnStart(i, mod, avg));
    }
  }

  /** Reading one more column that shows the next slice extends the prefix shown. */
  lemma ShownStep(cols: seq<seq<KeyValuePair>>, i: nat, tags: seq<ResourceTag>, before: nat, after: nat)
    requires 0 < i <= |cols| && before <= after <= |tags|
    requires ShownInOrder(cols[..i - 1]) == tags[..before] && Shown(cols[i - 1]) == tags[before..after]
    ensures ShownInOrder(cols[..i]) == tags[..after]
  {
    assert cols[..i][..i - 1] == cols[..i - 1];
    assert tags[..before] + tags[before..after] == tags[..after];
  }

  /**
   * The layout shows every tag exactly once and in order: reading the columns one after the other gives back
   * the tags.
   */
  lemma ColumnsPartition(tags: seq<ResourceTag>, keyed: bool)
    ensures ShownInOrder(Columns(tags, keyed)) == tags
  {
    var c := ColumnsCount(|tags|);
    if c > 0 {
      ShownPrefix(tags, keyed, c);
      ColumnsEndAtCount(|tags|, c);
      assert Columns(tags, keyed)[..c] == Columns(tags, keyed);
    }
  }

  /**
   * The columns are balanced: the first `n % columns` of them hold `floor(n / columns) + 1` tags, the others
   * `floor(n / columns)`; so any two differ by at most one.
   */
  lemma ColumnsBalanced(tags: seq<ResourceTag>, keyed: bool, i: nat, j: nat)
    requires i < ColumnsCount(|tags|) && j < ColumnsCount(|tags|)
    ensures var c := ColumnsCount(|tags|);
      |Columns(tags, keyed)[i]| == (if i < |tags| % c then |tags| / c + 1 else |tags| / c)
    ensures |Columns(tags, keyed)[i]| <= |Columns(tags, keyed)[j]| + 1
  {
    ColumnShowsSlice(tags, keyed, i);
    ColumnShowsSlice(tags, keyed, j);
  }

  // ---------------------------------------------------------------------------------------------------------
  // The keys

  /** No two elements of a column share a key. */
  ghost predicate KeysDistinct(column: seq<KeyValuePair>) {
    forall k, l :: 0 <= k < l < |column| ==> column[k].key != column[l].key
  }

  /**
   * As written, a column that shows two or more tags gives them the same key: four tags make three columns, the
   * first with two tags, both keyed `0-0`.
   */
  lemma DuplicateKeysAsWritten(tags: seq<ResourceTag>, i: nat)
    requires i < ColumnsCount(|tags|) && |Columns(tags, false)[i]| >= 2
    ensures !KeysDistinct(Columns(tags, false)[i])
    ensures |tags| == 4 ==> |Columns(tags, false)[0]| == 2
  {
    var column := Columns(tags, false)[i];
    assert column[0].key == column[1].key;
    if |tags| == 4 {
      ColumnsBalanced(tags, false, 0, 0);
    }
  }

  /** With `tagIndex` counting the column's tags, every column's keys are distinct. */
  lemma KeysDistinctKeyed(tags: seq<ResourceTag>, i: nat)
    requires i < ColumnsCount(|tags|)
    ensures KeysDistinct(Columns(tags, true)[i])
  {
  }
}
