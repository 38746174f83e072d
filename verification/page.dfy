/** `IEnumerableExtensions.Page`: the `pageNumber`-th slice of `pageSize` elements of a sequence. */
module EnumerableExtensions {
  import opened Wrappers

  /** The exceptions `Page` throws for bad arguments. */
  datatype PageError = ArgumentNull | PageNumberOutOfRange | PageSizeOutOfRange

  function Min(a: int, b: int): int { if a <= b then a else b }

  /** LINQ `Skip(count)`: a non-positive count skips nothing, a count past the end leaves nothing. */
  function Skip<T>(source: seq<T>, count: int): (r: seq<T>)
    ensures count <= 0 ==> r == source
    ensures 0 <= count <= |source| ==> r == source[count..]
    ensures count >= |source| ==> r == []
  {
    if count <= 0 then source else if count >= |source| then [] else source[count..]
  }

  /** LINQ `Take(count)`: the first `count` elements, or all of them when there are fewer. */
  function Take<T>(source: seq<T>, count: int): (r: seq<T>)
    ensures count <= 0 ==> r == []
    ensures 0 <= count <= |source| ==> r == source[..count]
    ensures count >= |source| ==> r == source
  {
    if count <= 0 then [] else if count >= |source| then source else source[..count]
  }

  /** Skipping `count` then taking `limit` is the slice between the two clamped positions. */
  lemma SkipThenTake<T>(source: seq<T>, count: int, limit: nat)
    requires 0 <= count
    ensures Take(Skip(source, count), limit) == source[Min(count, |source|)..Min(count + limit, |source|)]
  {
    if count < |source| {
      assert Skip(source, count) == source[count..];
    }
  }

  lemma MulNonNegative(a: nat, b: nat)
    ensures 0 <= a * b
  {
  }

  /** The offset of a page when `(pageNumber - 1) * pageSize` fits in an `int`. */
  predicate OffsetFits(pageNumber: int, pageSize: int)
  {
    (pageNumber - 1) * pageSize <= Int32Max
  }

  /** `(pageNumber - 1) * pageSize` in unchecked 32-bit arithmetic. */
  function PageOffset(pageNumber: Int32, pageSize: Int32): (offset: Int32)
    requires pageNumber >= 1 && pageSize >= 1
    ensures OffsetFits(pageNumber, pageSize) ==> offset == (pageNumber - 1) * pageSize >= 0
  {
    MulNonNegative(pageNumber - 1, pageSize);
    Wrap32((pageNumber - 1) * pageSize)
  }

  /**
   * `source.Page(pageNumber, pageSize)`. The offset is computed with unchecked 32-bit
   * arithmetic, as C# does by default.
   */
  function Page<T>(source: Option<seq<T>>, pageNumber: Int32, pageSize: Int32): (r: Result<seq<T>, PageError>)
    ensures source.None? ==> r == Err(ArgumentNull)
    ensures source.Some? && pageNumber < 1 ==> r == Err(PageNumberOutOfRange)
    ensures source.Some? && pageNumber >= 1 && pageSize < 1 ==> r == Err(PageSizeOutOfRange)
    ensures source.Some? && pageNumber >= 1 && pageSize >= 1 ==> r.Ok? && |r.value| <= pageSize
    ensures source.Some? && pageNumber >= 1 && pageSize >= 1 && OffsetFits(pageNumber, pageSize) ==>
      var s := source.value;
      var offset := PageOffset(pageNumber, pageSize);
      r == Ok(s[Min(offset, |s|)..Min(offset + pageSize, |s|)])
  {
    if source.None? then Err(ArgumentNull)
    else if pageNumber < 1 then Err(PageNumberOutOfRange)
    else if pageSize < 1 then Err(PageSizeOutOfRange)
    else
      var offset := PageOffset(pageNumber, pageSize);
      var limit := pageSize;
      var items := Take(Skip(source.value, offset), limit);
      assert OffsetFits(pageNumber, pageSize) ==>
        items == source.value[Min(offset, |source.value|)..Min(offset + limit, |source.value|)] by {
        if OffsetFits(pageNumber, pageSize) { SkipThenTake(source.value, offset, limit); }
      }
      Ok(items)
  }

  /** The page size `Page` uses when the caller gives none. */
  const DefaultPageSize: Int32 := 100

  /** `source.Page(pageNumber)`: the optional `pageSize` left at its default. */
  function PageDefault<T>(source: Option<seq<T>>, pageNumber: Int32): (r: Result<seq<T>, PageError>)
    ensures source.None? ==> r == Err(ArgumentNull)
    ensures source.Some? && pageNumber < 1 ==> r == Err(PageNumberOutOfRange)
    ensures source.Some? && pageNumber >= 1 ==> r.Ok? && |r.value| <= DefaultPageSize
    ensures source.Some? && pageNumber >= 1 && OffsetFits(pageNumber, DefaultPageSize) ==>
      var s := source.value;
      r == Ok(s[Min((pageNumber - 1) * DefaultPageSize, |s|)..Min(pageNumber * DefaultPageSize, |s|)])
  {
    Page(source, pageNumber, DefaultPageSize)
  }

  /** A page whose offset reaches the end of the sequence is empty, and only such a page. */
  lemma PageEmptyIffPastEnd<T>(source: seq<T>, pageNumber: Int32, pageSize: Int32)
    requires pageNumber >= 1 && pageSize >= 1 && OffsetFits(pageNumber, pageSize)
    ensures Page(Some(source), pageNumber, pageSize) == Ok([]) <==> (pageNumber - 1) * pageSize >= |source|
  {
  }

  /** The first page is a prefix of the sequence. */
  lemma FirstPageIsPrefix<T>(source: seq<T>, pageSize: Int32)
    requires pageSize >= 1
    ensures var p := Page(Some(source), 1, pageSize).value;
      p == source[..|p|] && |p| == Min(pageSize, |source|)
  {
  }

  /** Pages `1..count` put one after another, for a page size whose offsets all fit. */
  function Pages<T>(source: seq<T>, pageSize: Int32, count: nat): seq<T>
    requires pageSize >= 1 && count < Int32Max && OffsetFits(count, pageSize)
  {
    if count == 0 then []
    else
      assert (count - 2) * pageSize <= (count - 1) * pageSize;
      Pages(source, pageSize, count - 1) + Page(Some(source), count, pageSize).value
  }

  /** Reading pages `1..count` in turn yields the first `count * pageSize` elements: nothing skipped, nothing repeated. */
  lemma {:induction false} PagesArePrefix<T>(source: seq<T>, pageSize: Int32, count: nat)
    requires pageSize >= 1 && count < Int32Max && OffsetFits(count, pageSize)
    ensures Pages(source, pageSize, count) == source[..Min(count * pageSize, |source|)]
  {
    if count > 0 {
      assert (count - 2) * pageSize <= (count - 1) * pageSize;
      PagesArePrefix(source, pageSize, count - 1);
      var a := Min((count - 1) * pageSize, |source|);
      var b := Min(count * pageSize, |source|);
      assert (count - 1) * pageSize + pageSize == count * pageSize;
      assert source[..a] + source[a..b] == source[..b];
    }
  }
}
