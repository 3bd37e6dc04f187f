/**
 * The computation inside `FileService.sort_csv_by_time` (Services/fileService.py):
 * the file's lines are read as CSV rows, the first row is the header, the time column
 * is looked up in it, and the remaining rows are put in ascending order of their parsed
 * timestamp by a stable sort (`list.sort` with a key); the rows are then written back,
 * header first. Quoting and escaping are not modelled: a row is its line split at commas.
 */
module CsvSort {
  import opened Text
  import opened Timestamps
  import opened Wrappers

  type Row = seq<string>

  datatype SortError =
    | NoRows          // `rows[0]` on a file without lines (IndexError)
    | MissingColumn   // `header.index(time_column)` finds no such column (ValueError)
    | BadTimestamp    // a row lacks the column (IndexError) or its value does not parse (ValueError)

  /** `csv.reader` on one line: an empty line is an empty row, otherwise the comma-separated fields. */
  function ParseRow(line: string): Row
  {
    if line == "" then [] else Split(line, ',')
  }

  /** `csv.writer.writerow` without the terminator: the fields joined by commas. */
  function FormatRow(row: Row): string
  {
    JoinWith(row, ',')
  }

  /** Writing back a parsed line reproduces the line. */
  lemma {:induction false} FormatParseRow(line: string)
    ensures FormatRow(ParseRow(line)) == line
  {
    if line != "" {
      JoinSplit(line, ',');
    }
  }

  /** `list.index`: the first position of `x`, or None when `x` is absent (the ValueError). */
  function IndexOf(xs: seq<string>, x: string): (r: Option<nat>)
    ensures r.None? <==> x !in xs
    ensures r.Some? ==> r.value < |xs| && xs[r.value] == x && x !in xs[..r.value]
  {
    if xs == [] then None
    else if xs[0] == x then Some(0)
    else
      var r := IndexOf(xs[1..], x);
      if r.None? then None
      else
        assert xs[..r.value + 1] == [xs[0]] + xs[1..][..r.value];
        Some(r.value + 1)
  }

  /** The key `datetime.strptime(row[time_idx], fmt)`: None when the row is too short or the value does not parse. */
  function KeyOf(row: Row, idx: nat): Option<Timestamp>
  {
    if idx < |row| then ParseTime(row[idx]) else None
  }

  predicate Keyed(rows: seq<Row>, idx: nat)
  {
    forall i :: 0 <= i < |rows| ==> KeyOf(rows[i], idx).Some?
  }

  /** A row paired with its parsed key, as `list.sort(key=...)` computes the keys before sorting. */
  datatype Entry<R> = Entry(key: Timestamp, row: R)

  function Map<A, B>(f: A -> B, s: seq<A>): (r: seq<B>)
    ensures |r| == |s|
    ensures forall i :: 0 <= i < |s| ==> r[i] == f(s[i])
  {
    if s == [] then [] else Map(f, s[..|s| - 1]) + [f(s[|s| - 1])]
  }

  lemma {:induction false} MapAppend<A, B>(f: A -> B, a: seq<A>, b: seq<A>)
    ensures Map(f, a + b) == Map(f, a) + Map(f, b)
  {
  }

  lemma {:induction false} MapTail<A, B>(f: A -> B, s: seq<A>)
    requires s != []
    ensures Map(f, s)[1..] == Map(f, s[1..])
  {
  }

  lemma {:induction false} MapRemove<A, B>(f: A -> B, b: seq<A>, j: nat)
    requires j < |b|
    ensures multiset(Map(f, b)) == multiset(Map(f, b[..j] + b[j + 1..])) + multiset{f(b[j])}
  {
    var b1, b2 := b[..j], b[j + 1..];
    assert b == (b1 + [b[j]]) + b2;
    var l, r := Map(f, b1), Map(f, b2);
    MapAppend(f, b1, [b[j]]);
    assert Map(f, [b[j]]) == [f(b[j])];
    MapAppend(f, b1 + [b[j]], b2);
    assert Map(f, b) == (l + [f(b[j])]) + r;
    MapAppend(f, b1, b2);
    assert multiset((l + [f(b[j])]) + r) == multiset(l) + multiset{f(b[j])} + multiset(r);
  }

  /** Mapping two permutations of each other gives two permutations of each other. */
  lemma {:induction false} MapPermutation<A, B>(f: A -> B, a: seq<A>, b: seq<A>)
    requires multiset(a) == multiset(b)
    ensures multiset(Map(f, a)) == multiset(Map(f, b))
    decreases |a|
  {
    if a != [] {
      var x := a[|a| - 1];
      var a' := a[..|a| - 1];
      assert a == a' + [x];
      assert x in multiset(b);
      var j :| 0 <= j < |b| && b[j] == x;
      var b' := b[..j] + b[j + 1..];
      assert b == b[..j] + [x] + b[j + 1..];
      assert multiset(b') == multiset(b) - multiset{x};
      MapPermutation(f, a', b');
      MapAppend(f, a', [x]);
      MapRemove(f, b, j);
    }
  }

  /** Pair every row with its key. */
  function Decorate(rows: seq<Row>, idx: nat): (r: seq<Entry<Row>>)
    requires Keyed(rows, idx)
    ensures |r| == |rows|
    ensures forall i :: 0 <= i < |rows| ==> r[i] == Entry(KeyOf(rows[i], idx).value, rows[i])
  {
    seq(|rows|, i requires 0 <= i < |rows| && KeyOf(rows[i], idx).Some? => Entry(KeyOf(rows[i], idx).value, rows[i]))
  }

  function RowOf(e: Entry<Row>): Row
  {
    e.row
  }

  /** Ascending by key. */
  predicate Sorted<R>(s: seq<Entry<R>>)
  {
    forall i, j :: 0 <= i < j < |s| ==> NotAfter(s[i].key, s[j].key)
  }

  /** Appending an entry whose key is not before any key of a sorted sequence keeps it sorted. */
  lemma {:induction false} SortedAppend<R>(s: seq<Entry<R>>, x: Entry<R>)
    requires Sorted(s)
    requires forall i :: 0 <= i < |s| ==> NotAfter(s[i].key, x.key)
    ensures Sorted(s + [x])
  {
    var t := s + [x];
    forall i, j | 0 <= i < j < |t| ensures NotAfter(t[i].key, t[j].key) {
      if j < |s| {
        assert t[i] == s[i] && t[j] == s[j];
      } else {
        assert t[i] == s[i] && t[j] == x;
      }
    }
  }

  /** In a sorted sequence, every key is not after the last one. */
  lemma {:induction false} SortedBelowLast<R>(s: seq<Entry<R>>, x: Entry<R>)
    requires Sorted(s) && s != [] && NotAfter(s[|s| - 1].key, x.key)
    ensures forall i :: 0 <= i < |s| ==> NotAfter(s[i].key, x.key)
  {
    forall i | 0 <= i < |s| ensures NotAfter(s[i].key, x.key) {
      if i < |s| - 1 {
        NotAfterTransitive(s[i].key, s[|s| - 1].key, x.key);
      }
    }
  }

  /** Insert `e` after every entry whose key is not after its own: the step of a stable insertion sort. */
  function Insert<R>(e: Entry<R>, sorted: seq<Entry<R>>): seq<Entry<R>>
  {
    if sorted == [] then [e]
    else
      var init, last := sorted[..|sorted| - 1], sorted[|sorted| - 1];
      if NotAfter(last.key, e.key) then sorted + [e] else Insert(e, init) + [last]
  }

  /** Insertion adds exactly `e`. */
  lemma {:induction false} InsertPermutes<R>(e: Entry<R>, sorted: seq<Entry<R>>)
    ensures multiset(Insert(e, sorted)) == multiset(sorted) + multiset{e}
    decreases |sorted|
  {
    if sorted != [] {
      var init, last := sorted[..|sorted| - 1], sorted[|sorted| - 1];
      assert sorted == init + [last];
      if !NotAfter(last.key, e.key) {
        InsertPermutes(e, init);
      }
    }
  }

  /** Insertion into a sorted sequence keeps it sorted. */
  lemma {:induction false} InsertSorted<R>(e: Entry<R>, sorted: seq<Entry<R>>)
    requires Sorted(sorted)
    ensures Sorted(Insert(e, sorted))
    decreases |sorted|
  {
    if sorted != [] {
      var init, last := sorted[..|sorted| - 1], sorted[|sorted| - 1];
      if NotAfter(last.key, e.key) {
        SortedBelowLast(sorted, e);
        SortedAppend(sorted, e);
      } else {
        var ins := Insert(e, init);
        assert Sorted(init);
        InsertSorted(e, init);
        InsertPermutes(e, init);
        NotAfterTotal(last.key, e.key);
        forall i | 0 <= i < |ins| ensures NotAfter(ins[i].key, last.key) {
          assert ins[i] in multiset(init) + multiset{e};
        }
        SortedAppend(ins, last);
      }
    }
  }

  /** The entries in ascending key order, entries of equal key in their original order. */
  function StableSort<R>(s: seq<Entry<R>>): (r: seq<Entry<R>>)
    ensures multiset(r) == multiset(s)
    ensures Sorted(r)
  {
    if s == [] then []
    else
      var init, last := s[..|s| - 1], s[|s| - 1];
      var sorted := StableSort(init);
      assert s == init + [last];
      InsertPermutes(last, sorted);
      InsertSorted(last, sorted);
      Insert(last, sorted)
  }

  /** The entries whose key is `k`, in their order. */
  function WithKey<R>(s: seq<Entry<R>>, k: Timestamp): seq<Entry<R>>
  {
    if s == [] then []
    else
      var last := s[|s| - 1];
      WithKey(s[..|s| - 1], k) + (if last.key == k then [last] else [])
  }

  lemma {:induction false} WithKeyAppend<R>(s: seq<Entry<R>>, x: Entry<R>, k: Timestamp)
    ensures WithKey(s + [x], k) == WithKey(s, k) + (if x.key == k then [x] else [])
  {
    var t := s + [x];
    assert t[..|t| - 1] == s;
  }

  lemma {:induction false} WithKeyInsert<R>(e: Entry<R>, sorted: seq<Entry<R>>, k: Timestamp)
    ensures WithKey(Insert(e, sorted), k) == WithKey(sorted, k) + (if e.key == k then [e] else [])
    decreases |sorted|
  {
    if sorted == [] {
      assert Insert(e, sorted) == [] + [e];
      WithKeyAppend([], e, k);
    } else {
      var init, last := sorted[..|sorted| - 1], sorted[|sorted| - 1];
      assert sorted == init + [last];
      if NotAfter(last.key, e.key) {
        assert Insert(e, sorted) == sorted + [e];
        WithKeyAppend(sorted, e, k);
      } else {
        var ins := Insert(e, init);
        assert Insert(e, sorted) == ins + [last];
        WithKeyAppend(ins, last, k);
        WithKeyInsert(e, init, k);
        WithKeyAppend(init, last, k);
        if e.key == k {
          assert last.key != k;
        }
      }
    }
  }

  /** Stability: for every key, the entries with that key keep their relative order. */
  lemma {:induction false} StableSortStable<R>(s: seq<Entry<R>>, k: Timestamp)
    ensures WithKey(StableSort(s), k) == WithKey(s, k)
    decreases |s|
  {
    if s != [] {
      var init := s[..|s| - 1];
      StableSortStable(init, k);
      WithKeyInsert(s[|s| - 1], StableSort(init), k);
    }
  }

  /** Sorting entries that are already in order changes nothing. */
  lemma {:induction false} StableSortSorted<R>(s: seq<Entry<R>>)
    requires Sorted(s)
    ensures StableSort(s) == s
    decreases |s|
  {
    if s != [] {
      var init := s[..|s| - 1];
      assert Sorted(init);
      StableSortSorted(init);
      assert init + [s[|s| - 1]] == s;
    }
  }

  /** Every entry pairs its row with that row's key. */
  predicate Consistent(s: seq<Entry<Row>>, idx: nat)
  {
    forall i :: 0 <= i < |s| ==> KeyOf(s[i].row, idx) == Some(s[i].key)
  }

  /** Rows taken from consistent entries are decorated back into the same entries. */
  lemma {:induction false} DecorateRows(s: seq<Entry<Row>>, idx: nat)
    requires Consistent(s, idx)
    ensures Keyed(Map(RowOf, s), idx) && Decorate(Map(RowOf, s), idx) == s
  {
  }

  lemma {:induction false} ConsistentPermutation(a: seq<Entry<Row>>, b: seq<Entry<Row>>, idx: nat)
    requires Consistent(a, idx) && multiset(a) == multiset(b)
    ensures Consistent(b, idx)
  {
    forall i | 0 <= i < |b| ensures KeyOf(b[i].row, idx) == Some(b[i].key) {
      assert b[i] in multiset(a);
    }
  }

  /**
   * `sort_csv_by_time` on the rows of a file: header unchanged, data rows sorted by the
   * parsed value of the time column, or the error that aborts it.
   */
  function SortRows(rows: seq<Row>, column: string): Result<seq<Row>, SortError>
  {
    if rows == [] then Err(NoRows)
    else
      var header, data := rows[0], rows[1..];
      var idx := IndexOf(header, column);
      if idx.None? then Err(MissingColumn)
      else if !Keyed(data, idx.value) then Err(BadTimestamp)
      else Ok([header] + Map(RowOf, StableSort(Decorate(data, idx.value))))
  }

  /** The error cases of the sort, each exactly when its cause is present. */
  lemma {:induction false} SortRowsFails(rows: seq<Row>, column: string)
    ensures SortRows(rows, column) == Err(NoRows) <==> rows == []
    ensures SortRows(rows, column) == Err(MissingColumn) <==> rows != [] && column !in rows[0]
    ensures SortRows(rows, column) == Err(BadTimestamp) <==>
            rows != [] && column in rows[0] &&
            exists i :: 1 <= i < |rows| && KeyOf(rows[i], IndexOf(rows[0], column).value).None?
  {
    if rows != [] && column in rows[0] {
      var idx := IndexOf(rows[0], column).value;
      var data := rows[1..];
      if !Keyed(data, idx) {
        var i :| 0 <= i < |data| && KeyOf(data[i], idx).None?;
        assert data[i] == rows[i + 1];
      } else {
        forall i | 1 <= i < |rows| ensures KeyOf(rows[i], idx).Some? {
          assert rows[i] == data[i - 1];
        }
      }
    }
  }

  /**
   * A successful sort keeps the header and returns a permutation of the data rows in
   * ascending order of the time column, rows with equal timestamps in their original order.
   */
  lemma {:induction false} SortRowsCorrect(rows: seq<Row>, column: string)
    requires SortRows(rows, column).Ok?
    ensures var out := SortRows(rows, column).value;
            var idx := IndexOf(rows[0], column).value;
            && |out| == |rows| && out[0] == rows[0]
            && multiset(out[1..]) == multiset(rows[1..])
            && Keyed(out[1..], idx)
            && Sorted(Decorate(out[1..], idx))
            && forall k :: WithKey(Decorate(out[1..], idx), k) == WithKey(Decorate(rows[1..], idx), k)
  {
    var out := SortRows(rows, column).value;
    var idx := IndexOf(rows[0], column).value;
    var data := rows[1..];
    var entries := Decorate(data, idx);
    var sorted := StableSort(entries);
    assert out[1..] == Map(RowOf, sorted);
    assert Consistent(entries, idx);
    ConsistentPermutation(entries, sorted, idx);
    DecorateRows(sorted, idx);
    DecorateRows(entries, idx);
    assert Map(RowOf, entries) == data;
    MapPermutation(RowOf, sorted, entries);
    forall k ensures WithKey(Decorate(out[1..], idx), k) == WithKey(Decorate(data, idx), k) {
      StableSortStable(entries, k);
    }
  }

  /** Sorting a file whose rows the sort has just ordered reproduces it. */
  lemma {:induction false} SortRowsIdempotent(rows: seq<Row>, column: string)
    requires SortRows(rows, column).Ok?
    ensures SortRows(SortRows(rows, column).value, column) == SortRows(rows, column)
  {
    var out := SortRows(rows, column).value;
    var idx := IndexOf(rows[0], column).value;
    SortRowsCorrect(rows, column);
    var sorted := StableSort(Decorate(rows[1..], idx));
    assert out[1..] == Map(RowOf, sorted);
    ConsistentPermutation(Decorate(rows[1..], idx), sorted, idx);
    DecorateRows(sorted, idx);
    StableSortSorted(sorted);
    assert out == [out[0]] + out[1..];
  }

  // ---------------------------------------------------------------------------
  // The same at the level of the file's lines

  /** The lines `sort_csv_by_time` writes back (with the "\n" terminator) when it succeeds. */
  function SortLines(lines: seq<string>, column: string): Result<seq<string>, SortError>
  {
    var r := SortRows(Map(ParseRow, lines), column);
    if r.Err? then Err(r.error) else Ok(Map(FormatRow, r.value))
  }

  lemma {:induction false} FormatParseRows(lines: seq<string>)
    ensures Map(FormatRow, Map(ParseRow, lines)) == lines
  {
    forall i | 0 <= i < |lines| ensures Map(FormatRow, Map(ParseRow, lines))[i] == lines[i] {
      FormatParseRow(lines[i]);
    }
  }

  /**
   * The data lines `out` are in ascending order of their time column `idx`, and for every
   * timestamp the lines carrying it come in the same order as in `data`.
   */
  ghost predicate OrderedByTime(out: seq<string>, data: seq<string>, idx: nat)
  {
    var o, d := Map(ParseRow, out), Map(ParseRow, data);
    && Keyed(o, idx) && Keyed(d, idx)
    && Sorted(Decorate(o, idx))
    && forall k :: WithKey(Decorate(o, idx), k) == WithKey(Decorate(d, idx), k)
  }

  /** A sequence with the same first element and a permutation of the rest draws its elements from `b`. */
  lemma {:induction false} HeadPermutationMembers<A>(a: seq<A>, b: seq<A>)
    requires a != [] && b != [] && a[0] == b[0] && multiset(a[1..]) == multiset(b[1..])
    ensures forall i :: 0 <= i < |a| ==> a[i] in b
  {
    forall i | 0 <= i < |a| ensures a[i] in b {
      if i > 0 {
        assert a[i] == a[1..][i - 1];
        assert a[i] in multiset(b[1..]);
        assert a[i] in b[1..];
      }
    }
  }

  /** Rows that were parsed from lines survive a write and a read. */
  lemma {:induction false} ParseFormatParsed(s: seq<Row>, lines: seq<string>)
    requires forall i :: 0 <= i < |s| ==> s[i] in Map(ParseRow, lines)
    ensures Map(ParseRow, Map(FormatRow, s)) == s
  {
    forall i | 0 <= i < |s| ensures ParseRow(FormatRow(s[i])) == s[i] {
      var j :| 0 <= j < |lines| && Map(ParseRow, lines)[j] == s[i];
      FormatParseRow(lines[j]);
    }
  }

  /** Reading back the lines the sort writes gives the sorted rows. */
  lemma {:induction false} SortLinesRows(lines: seq<string>, column: string)
    requires SortLines(lines, column).Ok?
    ensures Map(ParseRow, SortLines(lines, column).value) == SortRows(Map(ParseRow, lines), column).value
  {
    var rows := Map(ParseRow, lines);
    var sorted := SortRows(rows, column).value;
    SortRowsCorrect(rows, column);
    HeadPermutationMembers(sorted, rows);
    ParseFormatParsed(sorted, lines);
  }

  /**
   * At the level of lines: the header line is unchanged, the other lines are a permutation
   * of the input's other lines, in ascending order of the time column, lines with equal
   * timestamps in their input order.
   */
  lemma {:induction false} SortLinesCorrect(lines: seq<string>, column: string)
    requires SortLines(lines, column).Ok?
    ensures var out := SortLines(lines, column).value;
            && |out| == |lines| && out[0] == lines[0]
            && multiset(out[1..]) == multiset(lines[1..])
            && column in ParseRow(lines[0])
            && OrderedByTime(out[1..], lines[1..], IndexOf(ParseRow(lines[0]), column).value)
  {
    var rows := Map(ParseRow, lines);
    var sorted := SortRows(rows, column).value;
    var out := SortLines(lines, column).value;
    SortRowsCorrect(rows, column);
    FormatParseRow(lines[0]);
    MapTail(FormatRow, sorted);
    MapTail(FormatRow, rows);
    MapPermutation(FormatRow, sorted[1..], rows[1..]);
    FormatParseRows(lines);
    SortLinesRows(lines, column);
    MapTail(ParseRow, out);
    MapTail(ParseRow, lines);
  }
}
