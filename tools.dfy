/**
 * The file-list and chunking helpers of tools.py. Directory enumeration is
 * not modelled: `FileList` receives the names of the folder's entries (the
 * last path component of each), in the order the folder yields them.
 */
module Tools {
  import opened Wrappers
  import opened Seqs

  /**
   * The identifier of a file: its name up to the first `.` (Python's
   * `name.split(".")[0]`), so a name without a dot is its own identifier.
   */
  function Stem(name: string): (id: string)
    ensures '.' !in id
    ensures id <= name
    ensures |id| < |name| ==> name[|id|] == '.'
  {
    if name == [] || name[0] == '.' then [] else [name[0]] + Stem(name[1..])
  }

  /** `get_filelist`: one identifier per entry, in folder order, none containing a dot. */
  function FileList(entries: seq<string>): (ids: seq<string>)
    ensures |ids| == |entries|
    ensures forall i :: 0 <= i < |entries| ==>
      '.' !in ids[i] && ids[i] <= entries[i] && (|ids[i]| < |entries[i]| ==> entries[i][|ids[i]|] == '.')
  {
    seq(|entries|, i requires 0 <= i < |entries| => Stem(entries[i]))
  }

  /** Python's `range` raises ValueError when its step is zero. */
  datatype ChunkError = ZeroStep

  /** Where a slice `items[..j]` of a list of length n really ends: Python clamps j to n. */
  function SliceEnd(j: int, n: int): int { if j <= n then j else n }

  /** k is the ceiling of n / size when chunks of `size` cover n items and the last is not empty. */
  lemma CeilingDiv(n: int, size: int, k: int)
    requires n >= 0 && k >= 0 && size > 0
    requires (k == 0 && n == 0) || (k > 0 && (k - 1) * size < n <= k * size)
    ensures k == (n + size - 1) / size
  {
    var q, r := (n + size - 1) / size, (n + size - 1) % size;
    assert n + size - 1 == q * size + r && 0 <= r < size;
    var d := q - k;
    assert d * size == q * size - k * size;
    assert k > 0 ==> (k - 1) * size == k * size - size;
    assert -size < d * size < size;
    OnlyZeroIsSmallMultiple(d, size);
  }

  /** The only multiple of a positive number strictly between its negation and itself is zero. */
  lemma OnlyZeroIsSmallMultiple(d: int, size: int)
    requires size > 0 && -size < d * size < size
    ensures d == 0
  {
    assert d >= 1 ==> d * size >= size;
    assert d <= -1 ==> d * size <= -size;
  }

  /** k * size as repeated addition, which keeps products out of the loop's reasoning. */
  function Times(k: nat, size: int): (r: int)
    ensures r == k * size
  {
    if k == 0 then 0 else Times(k - 1, size) + size
  }

  /** The loop state of `chunk_list` after yielding `chunks`, with `i` the next start. */
  ghost predicate ChunkedSoFar<T>(items: seq<T>, size: int, chunks: seq<seq<T>>, i: int)
  {
    size > 0 && i == Times(|chunks|, size) &&
    (chunks != [] ==> Times(|chunks| - 1, size) < |items|) &&
    Flatten(chunks) == items[..SliceEnd(i, |items|)] &&
    (forall c :: 0 <= c < |chunks| - 1 ==> |chunks[c]| == size) &&
    (i <= |items| ==> forall c :: 0 <= c < |chunks| ==> |chunks[c]| == size) &&
    (chunks != [] ==> 0 < |chunks[|chunks| - 1]| <= size)
  }

  lemma ChunkStep<T>(items: seq<T>, size: int, chunks: seq<seq<T>>, i: int)
    requires ChunkedSoFar(items, size, chunks, i) && i < |items|
    ensures ChunkedSoFar(items, size, chunks + [items[i..SliceEnd(i + size, |items|)]], i + size)
  {
    var a := items[i..SliceEnd(i + size, |items|)];
    FlattenSnoc(chunks, a);
    assert items[..i] + a == items[..SliceEnd(i + size, |items|)];
    assert Times(|chunks| + 1, size) == Times(|chunks|, size) + size;
  }

  lemma ChunkedAll<T>(items: seq<T>, size: int, chunks: seq<seq<T>>, i: int)
    requires ChunkedSoFar(items, size, chunks, i) && i >= |items|
    ensures Flatten(chunks) == items
    ensures |chunks| == (|items| + size - 1) / size
    ensures forall c :: 0 <= c < |chunks| - 1 ==> |chunks[c]| == size
    ensures chunks != [] ==> 0 < |chunks[|chunks| - 1]| <= size
  {
    assert items[..SliceEnd(i, |items|)] == items;
    assert |chunks| > 0 ==> Times(|chunks| - 1, size) == (|chunks| - 1) * size;
    CeilingDiv(|items|, size, |chunks|);
  }

  /**
   * `chunk_list`: consecutive slices of `size` items (the last may be
   * shorter); a negative size yields no chunks, since `range(0, n, size)` is
   * then empty, and size zero is an error.
   */
  method ChunkList<T>(items: seq<T>, size: int) returns (r: Result<seq<seq<T>>, ChunkError>)
    ensures r.Err? <==> size == 0
    ensures size < 0 ==> r == Ok([])
    ensures size > 0 ==> r.Ok? && Flatten(r.value) == items
    ensures size > 0 ==> r.Ok? && |r.value| == (|items| + size - 1) / size
    ensures size > 0 ==> r.Ok? && forall c :: 0 <= c < |r.value| - 1 ==> |r.value[c]| == size
    ensures size > 0 && r.Ok? && |r.value| > 0 ==> 0 < |r.value[|r.value| - 1]| <= size
  {
    if size == 0 {
      return Err(ZeroStep);
    }
    var chunks: seq<seq<T>> := [];
    if size > 0 {
      var i := 0;
      while i < |items|
        invariant ChunkedSoFar(items, size, chunks, i)
      {
        var a := items[i..SliceEnd(i + size, |items|)];
        ChunkStep(items, size, chunks, i);
        chunks := chunks + [a];
        i := i + size;
      }
      ChunkedAll(items, size, chunks, i);
    }
    return Ok(chunks);
  }
}
