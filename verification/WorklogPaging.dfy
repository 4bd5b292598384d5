/**
 Reading the worklog page by page: a page stops at an item limit, a byte limit, or a number of scanned documents,
 and hands out a cursor to go on from. Following the cursors gives every item of every document once, in order.
 */
module WorklogPaging {
  import opened Wrappers
  import opened Sequences

  const MAX_COLLECTION_DOCUMENTS_PER_READ := 32
  const MAX_COLLECTION_RESULT_BYTES := 32768

  datatype PageError = InvalidCursor | ItemTooLarge
  datatype Cursor = Cursor(location: Option<string>, offset: nat)
  datatype Page<T> = Page(items: seq<T>, next: Option<Cursor>)
  datatype Batch<T> = Batch(items: seq<T>, bytes: nat, next: Option<nat>)

  predicate Distinct(paths: seq<string>) {
    forall i, j | 0 <= i < j < |paths| :: paths[i] != paths[j]
  }

  function Drop<T>(s: seq<T>, n: nat): seq<T> {
    if n <= |s| then s[n..] else []
  }

  // ---- The longest prefix that fits --------------------------------------------------------------

  function Bytes<T>(s: seq<T>, size: T -> nat): nat {
    if s == [] then 0 else size(s[0]) + Bytes(s[1..], size)
  }

  /** How many items fit, taking them one by one. */
  function FitCount<T>(s: seq<T>, size: T -> nat, limit: nat, bytes: nat): (k: nat)
    ensures k <= |s| && k <= limit
  {
    if s == [] || limit == 0 || size(s[0]) > bytes then 0 else 1 + FitCount(s[1..], size, limit - 1, bytes - size(s[0]))
  }

  predicate Fits<T>(s: seq<T>, size: T -> nat, limit: nat, bytes: nat) {
    |s| <= limit && Bytes(s, size) <= bytes
  }

  /** Taking items one by one gives the longest prefix that fits. */
  lemma {:induction false} FitCountIsLongest<T>(s: seq<T>, size: T -> nat, limit: nat, bytes: nat, k: nat)
    requires k <= |s|
    ensures Fits(s[..k], size, limit, bytes) <==> k <= FitCount(s, size, limit, bytes)
  {
    if k == 0 {
    } else {
      assert s[..k][1..] == s[1..][..k - 1];
      if limit > 0 && size(s[0]) <= bytes {
        FitCountIsLongest(s[1..], size, limit - 1, bytes - size(s[0]), k - 1);
      }
    }
  }

  lemma {:induction false} BytesOfBoth<T>(a: seq<T>, b: seq<T>, size: T -> nat)
    ensures Bytes(a + b, size) == Bytes(a, size) + Bytes(b, size)
  {
    if a == [] {
      assert a + b == b;
    } else {
      assert (a + b)[1..] == a[1..] + b;
      BytesOfBoth(a[1..], b, size);
    }
  }

  lemma {:induction false} FitCountOfBoth<T>(a: seq<T>, b: seq<T>, size: T -> nat, limit: nat, bytes: nat)
    ensures var k := FitCount(a, size, limit, bytes);
            if k < |a| then
              FitCount(a + b, size, limit, bytes) == k
            else
              |a| <= limit && Bytes(a, size) <= bytes
              && FitCount(a + b, size, limit, bytes) == |a| + FitCount(b, size, limit - |a|, bytes - Bytes(a, size))
  {
    if a == [] {
      assert a + b == b;
    } else {
      assert (a + b)[1..] == a[1..] + b;
      if limit > 0 && size(a[0]) <= bytes {
        FitCountOfBoth(a[1..], b, size, limit - 1, bytes - size(a[0]));
      }
    }
  }

  function TakenFrom<T>(values: seq<T>, start: nat, size: T -> nat, limit: nat, bytes: nat)
    : Result<Batch<T>, PageError>
  {
    var tail := Drop(values, start);
    var k := FitCount(tail, size, limit, bytes);
    if k < |tail| && size(tail[k]) > MAX_COLLECTION_RESULT_BYTES then
      Err(ItemTooLarge)
    else
      Ok(Batch(tail[..k], Bytes(tail[..k], size), if k < |tail| then Some(start + k) else None))
  }

  lemma FitCountStep<T>(tail: seq<T>, n: nat, size: T -> nat, limit: nat, bytes: nat)
    requires n < |tail|
    ensures FitCount(tail[n..], size, limit, bytes)
         == if limit == 0 || size(tail[n]) > bytes then 0
            else 1 + FitCount(tail[n + 1..], size, limit - 1, bytes - size(tail[n]))
    ensures Bytes(tail[..n + 1], size) == Bytes(tail[..n], size) + size(tail[n])
  {
    assert tail[n..][1..] == tail[n + 1..];
    assert tail[..n + 1] == tail[..n] + [tail[n]];
    BytesOfBoth(tail[..n], [tail[n]], size);
  }

  lemma NoBytes<T>(size: T -> nat)
    ensures Bytes([], size) == 0
  {
  }

  method TakeWorklogItems<T>(values: seq<T>, start: nat, size: T -> nat, limit: nat, byteLimit: nat)
    returns (r: Result<Batch<T>, PageError>)
    requires byteLimit <= MAX_COLLECTION_RESULT_BYTES
    ensures r == TakenFrom(values, start, size, limit, byteLimit)
  {
    hide FitCount, Bytes;
    var items, bytes := [], 0;
    var index := start;
    ghost var tail := Drop(values, start);
    assert tail[..0] == [] && tail[0..] == tail;
    NoBytes(size);
    while index < |values|
      invariant start <= index && (index <= |values| || index == start)
      invariant index - start <= |tail| && items == tail[..index - start]
      invariant |items| <= limit && bytes == Bytes(items, size) <= byteLimit
      invariant FitCount(tail, size, limit, byteLimit)
             == |items| + FitCount(tail[index - start..], size, limit - |items|, byteLimit - bytes)
    {
      FitCountStep(tail, index - start, size, limit - |items|, byteLimit - bytes);
      var valueBytes := size(values[index]);
      if valueBytes > MAX_COLLECTION_RESULT_BYTES {
        return Err(ItemTooLarge);
      }
      if |items| == limit || bytes + valueBytes > byteLimit {
        return Ok(Batch(items, bytes, Some(index)));
      }
      items := items + [values[index]];
      bytes := bytes + valueBytes;
      index := index + 1;
    }
    assert tail[..|tail|] == tail;
    return Ok(Batch(items, bytes, None));
  }

  // ---- Positions and what is left from there -----------------------------------------------------

  datatype Position = Position(document: nat, offset: nat)

  function IndexOf(paths: seq<string>, path: string): (i: nat)
    ensures i <= |paths| && (i < |paths| ==> paths[i] == path)
    ensures path in paths ==> i < |paths|
    ensures forall k | 0 <= k < i :: paths[k] != path
  {
    if paths == [] || paths[0] == path then 0 else 1 + IndexOf(paths[1..], path)
  }

  function PositionOf(paths: seq<string>, cursor: Cursor): (r: Option<Position>)
    ensures r.Some? ==> r.value.document <= |paths|
  {
    match cursor.location
    case None => Some(Position(0, 0))
    case Some(path) =>
      var i := IndexOf(paths, path);
      if i == |paths| then None else Some(Position(i, cursor.offset))
  }

  /** The items of the documents before `end`, from a position on. */
  function Span<T>(docs: seq<seq<T>>, p: Position, end: nat): seq<T>
    requires end <= |docs|
    decreases end - p.document
  {
    if p.document >= end then [] else Drop(docs[p.document], p.offset) + Span(docs, Position(p.document + 1, 0), end)
  }

  /** All items from a position on. */
  function Rest<T>(docs: seq<seq<T>>, p: Position): seq<T> {
    Span(docs, p, |docs|)
  }

  function ScanEnd<T>(docs: seq<seq<T>>, p: Position): (end: nat)
    ensures end <= |docs|
  {
    var last := p.document + MAX_COLLECTION_DOCUMENTS_PER_READ;
    if last < |docs| then last else |docs|
  }

  /** The position of the `k`th item from a position on. */
  function Locate<T>(docs: seq<seq<T>>, p: Position, end: nat, k: nat): (r: Position)
    requires end <= |docs| && k < |Span(docs, p, end)|
    ensures p.document <= r.document < end
    decreases end - p.document
  {
    var here := Drop(docs[p.document], p.offset);
    if k < |here| then
      Position(p.document, p.offset + k)
    else
      Locate(docs, Position(p.document + 1, 0), end, k - |here|)
  }

  /** The position from which the documents from `i` on are left to read. */
  function After(p: Position, i: nat): Position {
    if i == p.document then p else Position(i, 0)
  }

  lemma SpanStep<T>(docs: seq<seq<T>>, p: Position, end: nat)
    requires p.document < end <= |docs|
    ensures Span(docs, p, end) == Drop(docs[p.document], p.offset) + Span(docs, Position(p.document + 1, 0), end)
  {
  }

  lemma SuffixOfBoth<T>(a: seq<T>, b: seq<T>, k: nat)
    requires k <= |a| + |b|
    ensures (a + b)[k..] == if k < |a| then a[k..] + b else b[k - |a|..]
    ensures (a + b)[..k] == if k < |a| then a[..k] else a + b[..k - |a|]
  {
  }

  lemma DropMore<T>(s: seq<T>, n: nat, k: nat)
    requires k < |Drop(s, n)|
    ensures Drop(s, n + k) == Drop(s, n)[k..]
  {
  }

  lemma {:induction false} SpanFromLocated<T>(docs: seq<seq<T>>, p: Position, end: nat, k: nat)
    requires end <= |docs| && k < |Span(docs, p, end)|
    ensures Span(docs, Locate(docs, p, end, k), end) == Span(docs, p, end)[k..]
    decreases end - p.document
  {
    hide Drop, Span;
    InSpan(docs, p, end);
    SpanStep(docs, p, end);
    var here, next := Drop(docs[p.document], p.offset), Position(p.document + 1, 0);
    SuffixOfBoth(here, Span(docs, next, end), k);
    if k < |here| {
      DropMore(docs[p.document], p.offset, k);
      SpanStep(docs, Position(p.document, p.offset + k), end);
    } else {
      SpanFromLocated(docs, next, end, k - |here|);
    }
  }

  lemma InSpan<T>(docs: seq<seq<T>>, p: Position, end: nat)
    requires end <= |docs|
    ensures Span(docs, p, end) != [] ==> p.document < end
    ensures p.document >= end ==> Span(docs, p, end) == []
  {
  }

  lemma {:induction false} SpanInTwo<T>(docs: seq<seq<T>>, p: Position, i: nat, end: nat)
    requires p.document <= i <= end <= |docs|
    ensures Span(docs, p, end) == Span(docs, p, i) + Span(docs, After(p, i), end)
    decreases i - p.document
  {
    hide Drop, Span;
    if p.document == i {
      InSpan(docs, p, i);
    } else {
      var next := Position(p.document + 1, 0);
      SpanInTwo(docs, next, i, end);
      SpanStep(docs, p, i);
      SpanStep(docs, p, end);
      Regroup(Drop(docs[p.document], p.offset), Span(docs, next, i), Span(docs, After(p, i), end));
    }
  }

  lemma {:induction false} LocateLater<T>(docs: seq<seq<T>>, p: Position, i: nat, end: nat, k: nat)
    requires p.document <= i <= end <= |docs| && k < |Span(docs, After(p, i), end)|
    ensures var n := |Span(docs, p, i)| + k;
            n < |Span(docs, p, end)| && Locate(docs, p, end, n) == Locate(docs, After(p, i), end, k)
    decreases i - p.document
  {
    hide Drop, Span;
    SpanInTwo(docs, p, i, end);
    if p.document == i {
      InSpan(docs, p, i);
    } else {
      LocateLater(docs, Position(p.document + 1, 0), i, end, k);
      SpanStep(docs, p, i);
      SpanStep(docs, p, end);
    }
  }

  // ---- One page ----------------------------------------------------------------------------------

  function ItemsAt<T>(contents: map<string, seq<T>>, path: string): seq<T> {
    if path in contents then contents[path] else []
  }

  function Documents<T>(contents: map<string, seq<T>>, paths: seq<string>): (docs: seq<seq<T>>)
    ensures |docs| == |paths| && forall i | 0 <= i < |paths| :: docs[i] == ItemsAt(contents, paths[i])
    ensures forall i | 0 <= i < |paths| :: docs[i] == if paths[i] in contents then contents[paths[i]] else []
  {
    seq(|paths|, i requires 0 <= i < |paths| => ItemsAt(contents, paths[i]))
  }

  /** The page for a cursor: the longest prefix that fits of what the next documents hold. */
  function PageOf<T>(docs: seq<seq<T>>, paths: seq<string>, size: T -> nat, cursor: Cursor, limit: nat)
    : Result<Page<T>, PageError>
    requires |docs| == |paths|
  {
    match PositionOf(paths, cursor)
    case None => Err(InvalidCursor)
    case Some(p) =>
      var end := ScanEnd(docs, p);
      var window := Span(docs, p, end);
      var k := FitCount(window, size, limit, MAX_COLLECTION_RESULT_BYTES);
      if k == |window| then
        Ok(Page(window, if end < |paths| then Some(Cursor(Some(paths[end]), 0)) else None))
      else if size(window[k]) > MAX_COLLECTION_RESULT_BYTES then
        Err(ItemTooLarge)
      else
        var q := Locate(docs, p, end, k);
        Ok(Page(window[..k], Some(Cursor(Some(paths[q.document]), q.offset))))
  }

  /** The items of the documents scanned so far all fit. */
  ghost predicate Scanned<T>(docs: seq<seq<T>>, p: Position, i: nat, items: seq<T>, size: T -> nat, limit: nat) {
    && p.document <= i <= |docs| && items == Span(docs, p, i)
    && Fits(items, size, limit, MAX_COLLECTION_RESULT_BYTES)
  }

  lemma FitCountAfter<T>(items: seq<T>, rest: seq<T>, size: T -> nat, limit: nat, bytes: nat)
    requires Fits(items, size, limit, bytes)
    ensures FitCount(items + rest, size, limit, bytes)
         == |items| + FitCount(rest, size, limit - |items|, bytes - Bytes(items, size))
  {
    hide FitCount, Bytes;
    FitCountOfBoth(items, rest, size, limit, bytes);
    FitCountIsLongest(items, size, limit, bytes, |items|);
    assert items[..|items|] == items;
  }

  /** How many of the items of the document at `i` fit after those scanned before it. */
  function FitHere<T>(tail: seq<T>, items: seq<T>, size: T -> nat, limit: nat): (k: nat)
    requires Fits(items, size, limit, MAX_COLLECTION_RESULT_BYTES)
    ensures k <= |tail|
  {
    FitCount(tail, size, limit - |items|, MAX_COLLECTION_RESULT_BYTES - Bytes(items, size))
  }

  lemma FitsInWindow<T>(items: seq<T>, tail: seq<T>, rest: seq<T>, size: T -> nat, limit: nat)
    requires Fits(items, size, limit, MAX_COLLECTION_RESULT_BYTES)
    ensures var k := FitHere(tail, items, size, limit);
            if k < |tail| then
              FitCount(items + (tail + rest), size, limit, MAX_COLLECTION_RESULT_BYTES) == |items| + k
            else
              Fits(items + tail, size, limit, MAX_COLLECTION_RESULT_BYTES)
  {
    hide FitCount, Bytes;
    FitCountAfter(items, tail + rest, size, limit, MAX_COLLECTION_RESULT_BYTES);
    FitCountOfBoth(tail, rest, size, limit - |items|, MAX_COLLECTION_RESULT_BYTES - Bytes(items, size));
    BytesOfBoth(items, tail, size);
  }

  lemma WindowParts<T>(items: seq<T>, tail: seq<T>, rest: seq<T>, k: nat)
    requires k < |tail|
    ensures var window := items + (tail + rest);
            |items| + k < |window| && window[|items| + k] == tail[k] && window[..|items| + k] == items + tail[..k]
  {
    SuffixOfBoth(items, tail + rest, |items| + k);
    SuffixOfBoth(tail, rest, k);
  }

  /** The window before, in and after the document at `i`. */
  lemma WindowAround<T>(docs: seq<seq<T>>, p: Position, i: nat, end: nat)
    requires p.document <= i < end <= |docs|
    ensures Span(docs, p, end)
         == Span(docs, p, i) + (Drop(docs[i], After(p, i).offset) + Span(docs, Position(i + 1, 0), end))
    ensures Span(docs, p, i + 1) == Span(docs, p, i) + Drop(docs[i], After(p, i).offset)
  {
    hide Drop, Span;
    SpanInTwo(docs, p, i, end);
    SpanStep(docs, After(p, i), end);
    SpanInTwo(docs, p, i, i + 1);
    SpanStep(docs, After(p, i), i + 1);
    InSpan(docs, Position(i + 1, 0), i + 1);
    assert Drop(docs[i], After(p, i).offset) + [] == Drop(docs[i], After(p, i).offset);
  }

  lemma LocateInDocument<T>(docs: seq<seq<T>>, p: Position, i: nat, end: nat, k: nat)
    requires p.document <= i < end <= |docs| && k < |Drop(docs[i], After(p, i).offset)|
    ensures var n := |Span(docs, p, i)| + k;
            n < |Span(docs, p, end)| && Locate(docs, p, end, n) == Position(i, After(p, i).offset + k)
  {
    hide Drop, Span, Locate;
    SpanStep(docs, After(p, i), end);
    LocateLater(docs, p, i, end, k);
    LocateHere(docs, After(p, i), end, k);
  }

  lemma LocateHere<T>(docs: seq<seq<T>>, p: Position, end: nat, k: nat)
    requires p.document < end <= |docs| && k < |Drop(docs[p.document], p.offset)| && k < |Span(docs, p, end)|
    ensures Locate(docs, p, end, k) == Position(p.document, p.offset + k)
  {
  }

  /** Scanning one more document either stops inside it, where the page ends, or takes all of it. */
  lemma ScanStep<T>(docs: seq<seq<T>>, p: Position, i: nat, end: nat, items: seq<T>, size: T -> nat, limit: nat)
    requires Scanned(docs, p, i, items, size, limit) && i < end <= |docs|
    ensures var window, offset := Span(docs, p, end), After(p, i).offset;
            var tail := Drop(docs[i], offset);
            var k := FitHere(tail, items, size, limit);
            var n := |items| + k;
            if k < |tail| then
              && FitCount(window, size, limit, MAX_COLLECTION_RESULT_BYTES) == n < |window|
              && window[n] == tail[k] && window[..n] == items + tail[..k]
              && Locate(docs, p, end, n) == Position(i, offset + k)
            else
              Scanned(docs, p, i + 1, items + tail, size, limit)
  {
    hide FitCount, FitHere, Fits, Drop, Span, Locate;
    var tail, rest := Drop(docs[i], After(p, i).offset), Span(docs, Position(i + 1, 0), end);
    var k := FitHere(tail, items, size, limit);
    WindowAround(docs, p, i, end);
    FitsInWindow(items, tail, rest, size, limit);
    if k < |tail| {
      WindowParts(items, tail, rest, k);
      LocateInDocument(docs, p, i, end, k);
    }
  }

  /** How a page goes on after the batch of one document. */
  ghost predicate Continues<T>(
    docs: seq<seq<T>>, p: Position, i: nat, end: nat, items: seq<T>, size: T -> nat, limit: nat,
    batch: Result<Batch<T>, PageError>)
    requires end <= |docs|
  {
    var window := Span(docs, p, end);
    var n := FitCount(window, size, limit, MAX_COLLECTION_RESULT_BYTES);
    if batch.Err? then
      batch.error == ItemTooLarge && n < |window| && size(window[n]) > MAX_COLLECTION_RESULT_BYTES
    else
      var b := batch.value;
      && Bytes(items + b.items, size) == Bytes(items, size) + b.bytes
      && if b.next.None? then
           Scanned(docs, p, i + 1, items + b.items, size, limit)
         else
           && n < |window| && size(window[n]) <= MAX_COLLECTION_RESULT_BYTES
           && window[..n] == items + b.items && Locate(docs, p, end, n) == Position(i, b.next.value)
  }

  lemma BatchStep<T>(docs: seq<seq<T>>, p: Position, i: nat, end: nat, items: seq<T>, size: T -> nat, limit: nat)
    requires Scanned(docs, p, i, items, size, limit) && i < end <= |docs|
    ensures |items| <= limit && Bytes(items, size) <= MAX_COLLECTION_RESULT_BYTES
    ensures var batch :=
              TakenFrom(docs[i], After(p, i).offset, size, limit - |items|,
                  MAX_COLLECTION_RESULT_BYTES - Bytes(items, size));
            Continues(docs, p, i, end, items, size, limit, batch)
  {
    hide FitCount, Span, Locate, Drop, Scanned, Bytes, TakenFrom, FitHere, Fits, After, ScanEnd;
    ScannedItems(docs, p, i, items, size, limit);
    var tail := Drop(docs[i], After(p, i).offset);
    BatchHere(docs[i], After(p, i).offset, items, size, limit);
    ScanStep(docs, p, i, end, items, size, limit);
    var k := FitHere(tail, items, size, limit);
    BytesOfBoth(items, tail[..k], size);
  }

  lemma BatchHere<T>(values: seq<T>, start: nat, items: seq<T>, size: T -> nat, limit: nat)
    requires Fits(items, size, limit, MAX_COLLECTION_RESULT_BYTES)
    ensures var tail := Drop(values, start);
            var k := FitHere(tail, items, size, limit);
            var batch := TakenFrom(values, start, size, limit - |items|,
              MAX_COLLECTION_RESULT_BYTES - Bytes(items, size));
            if k == |tail| then batch == Ok(Batch(tail, Bytes(tail, size), None))
            else if size(tail[k]) > MAX_COLLECTION_RESULT_BYTES then batch == Err(ItemTooLarge)
            else batch == Ok(Batch(tail[..k], Bytes(tail[..k], size), Some(start + k)))
    ensures var tail := Drop(values, start); tail[..|tail|] == tail
  {
    hide FitCount, Bytes, Drop;
    var tail := Drop(values, start);
    assert tail[..|tail|] == tail;
  }

  lemma ScanDone<T>(docs: seq<seq<T>>, p: Position, end: nat, items: seq<T>, size: T -> nat, limit: nat)
    requires Scanned(docs, p, end, items, size, limit)
    ensures FitCount(Span(docs, p, end), size, limit, MAX_COLLECTION_RESULT_BYTES) == |items|
  {
    hide FitCount;
    FitCountIsLongest(items, size, limit, MAX_COLLECTION_RESULT_BYTES, |items|);
    assert items[..|items|] == items;
  }

  method CollectWorklogPage<T>(
    paths: seq<string>, contents: map<string, seq<T>>, size: T -> nat, cursor: Cursor, limit: nat)
    returns (r: Result<Page<T>, PageError>)
    requires Distinct(paths)
    ensures r == PageOf(Documents(contents, paths), paths, size, cursor, limit)
  {
    hide FitCount, Span, Locate, Fits, Bytes, Drop, Scanned, IndexOf, Documents, ItemsAt, TakenFrom;
    var items, itemBytes, nextCursor, scanned := [], 0, None, 0;
    var started := cursor.location.None?;
    ghost var docs := Documents(contents, paths);
    ghost var position := PositionOf(paths, cursor);
    ghost var p := if position.Some? then position.value else Position(|paths|, 0);
    NothingScanned(docs, p, size, limit);
    ghost var end := ScanEnd(docs, p);
    var index := 0;
    while index < |paths|
      invariant index <= |paths|
      invariant started ==> position.Some? && p.document <= index <= end && scanned == index - p.document
      invariant !started ==>
        cursor.location.Some? && index <= p.document && scanned == 0 && items == [] && itemBytes == 0
      invariant started ==> Scanned(docs, p, index, items, size, limit) && itemBytes == Bytes(items, size)
      invariant nextCursor.None?
    {
      var path := paths[index];
      if !started {
        started := path == cursor.location.value;
        if !started {
          index := index + 1;
          continue;
        }
      }
      if scanned == MAX_COLLECTION_DOCUMENTS_PER_READ {
        ScanDone(docs, p, end, items, size, limit);
        ScannedItems(docs, p, end, items, size, limit);
        nextCursor := Some(Cursor(Some(path), 0));
        break;
      }
      scanned := scanned + 1;
      var pathItems := ItemsAt(contents, path);
      var start := if Some(path) == cursor.location then cursor.offset else 0;
      assert start == After(p, index).offset;
      ScannedItems(docs, p, index, items, size, limit);
      var batch := TakeWorklogItems(pathItems, start, size, limit - |items|, MAX_COLLECTION_RESULT_BYTES - itemBytes);
      BatchStep(docs, p, index, end, items, size, limit);
      if batch.Err? {
        return Err(batch.error);
      }
      items := items + batch.value.items;
      itemBytes := itemBytes + batch.value.bytes;
      if batch.value.next.Some? {
        nextCursor := Some(Cursor(Some(path), batch.value.next.value));
        break;
      }
      index := index + 1;
    }
    if !started {
      return Err(InvalidCursor);
    }
    if nextCursor.None? {
      ScanDone(docs, p, end, items, size, limit);
      ScannedItems(docs, p, end, items, size, limit);
    }
    return Ok(Page(items, nextCursor));
  }

  lemma NothingScanned<T>(docs: seq<seq<T>>, p: Position, size: T -> nat, limit: nat)
    requires p.document <= |docs|
    ensures Scanned(docs, p, p.document, [], size, limit) && Bytes([], size) == 0
  {
  }

  lemma ScannedItems<T>(docs: seq<seq<T>>, p: Position, i: nat, items: seq<T>, size: T -> nat, limit: nat)
    requires Scanned(docs, p, i, items, size, limit)
    ensures items == Span(docs, p, i) && Fits(items, size, limit, MAX_COLLECTION_RESULT_BYTES)
    ensures |items| <= limit && Bytes(items, size) <= MAX_COLLECTION_RESULT_BYTES
  {
  }

  // ---- Following the cursors ---------------------------------------------------------------------

  /** What is left to read for a cursor. */
  function Remaining<T>(docs: seq<seq<T>>, paths: seq<string>, next: Option<Cursor>): seq<T>
    requires next.Some? ==> PositionOf(paths, next.value).Some?
  {
    if next.None? then [] else Rest(docs, PositionOf(paths, next.value).value)
  }

  /** A page holds items of the documents that it reads, no more than a full scan, and its cursor does not go beyond. */
  ghost predicate WithinScan<T>(docs: seq<seq<T>>, paths: seq<string>, p: Position, page: Page<T>) {
    && page.items <= Span(docs, p, ScanEnd(docs, p))
    && match page.next
       case None => |docs| <= p.document + MAX_COLLECTION_DOCUMENTS_PER_READ
       case Some(next) =>
         var q := PositionOf(paths, next);
         q.Some? && p.document <= q.value.document <= p.document + MAX_COLLECTION_DOCUMENTS_PER_READ
  }

  /** A page with a cursor is a full scan, or the next item does not fit on it but would on a page of its own. */
  ghost predicate FullPage<T>(docs: seq<seq<T>>, paths: seq<string>, size: T -> nat, p: Position, limit: nat,
      page: Page<T>)
    requires page.next.Some? ==> PositionOf(paths, page.next.value).Some?
  {
    page.next.Some? ==>
      || PositionOf(paths, page.next.value) == Some(Position(p.document + MAX_COLLECTION_DOCUMENTS_PER_READ, 0))
      || NextDoesNotFit(page.items, Remaining(docs, paths, page.next), size, limit)
  }

  ghost predicate NextDoesNotFit<T>(items: seq<T>, rest: seq<T>, size: T -> nat, limit: nat) {
    && rest != [] && size(rest[0]) <= MAX_COLLECTION_RESULT_BYTES
    && !Fits(items + [rest[0]], size, limit, MAX_COLLECTION_RESULT_BYTES)
  }

  /** What one page says about itself, whatever the cursor. */
  ghost predicate GoodPage<T>(docs: seq<seq<T>>, paths: seq<string>, size: T -> nat, cursor: Cursor, limit: nat,
      page: Page<T>)
    requires |docs| == |paths| && PositionOf(paths, cursor).Some?
  {
    && Fits(page.items, size, limit, MAX_COLLECTION_RESULT_BYTES)
    && (page.next.Some? ==> PositionOf(paths, page.next.value).Some?)
    && page.items + Remaining(docs, paths, page.next) == Remaining(docs, paths, Some(cursor))
    && WithinScan(docs, paths, PositionOf(paths, cursor).value, page)
    && FullPage(docs, paths, size, PositionOf(paths, cursor).value, limit, page)
  }

  /** Without a location reading begins at the start; a location that is no path is an invalid cursor. */
  lemma PositionMeans(paths: seq<string>, cursor: Cursor)
    requires Distinct(paths)
    ensures cursor.location.None? ==> PositionOf(paths, cursor) == Some(Position(0, 0))
    ensures cursor.location.Some? && cursor.location.value !in paths ==> PositionOf(paths, cursor).None?
    ensures forall i | 0 <= i < |paths| && cursor.location == Some(paths[i]) ::
      PositionOf(paths, cursor) == Some(Position(i, cursor.offset))
  {
    forall i | 0 <= i < |paths| && cursor.location == Some(paths[i])
      ensures PositionOf(paths, cursor) == Some(Position(i, cursor.offset))
    {
      IndexOfDistinct(paths, i);
    }
  }

  lemma NextItem<T>(docs: seq<seq<T>>, p: Position, end: nat, k: nat, size: T -> nat, limit: nat)
    requires p.document <= end <= |docs| && k < |Span(docs, p, end)|
    requires k == FitCount(Span(docs, p, end), size, limit, MAX_COLLECTION_RESULT_BYTES)
    requires size(Span(docs, p, end)[k]) <= MAX_COLLECTION_RESULT_BYTES
    ensures NextDoesNotFit(Span(docs, p, end)[..k], Rest(docs, Locate(docs, p, end, k)), size, limit)
  {
    hide Span, Locate, FitCount, Fits;
    var window, q := Span(docs, p, end), Locate(docs, p, end, k);
    SpanFromLocated(docs, p, end, k);
    SpanInTwo(docs, q, end, |docs|);
    assert Rest(docs, q)[0] == window[k..][0];
    assert window[..k] + [window[k]] == window[..k + 1];
    FitCountIsLongest(window, size, limit, MAX_COLLECTION_RESULT_BYTES, k + 1);
  }

  lemma IndexOfDistinct(paths: seq<string>, i: nat)
    requires Distinct(paths) && i < |paths|
    ensures IndexOf(paths, paths[i]) == i
  {
  }

  lemma CursorPosition(paths: seq<string>, i: nat, offset: nat)
    requires Distinct(paths) && i < |paths|
    ensures PositionOf(paths, Cursor(Some(paths[i]), offset)) == Some(Position(i, offset))
  {
    IndexOfDistinct(paths, i);
  }

  lemma RestFromLocated<T>(docs: seq<seq<T>>, p: Position, end: nat, k: nat)
    requires p.document <= end <= |docs| && k < |Span(docs, p, end)|
    ensures Span(docs, p, end)[..k] + Rest(docs, Locate(docs, p, end, k)) == Rest(docs, p)
  {
    hide Span, Locate;
    var window, q := Span(docs, p, end), Locate(docs, p, end, k);
    SpanFromLocated(docs, p, end, k);
    SpanInTwo(docs, p, end, |docs|);
    SpanInTwo(docs, q, end, |docs|);
    InSpan(docs, p, end);
    assert window[..k] + window[k..] == window;
    Regroup(window[..k], window[k..], Span(docs, After(p, end), |docs|));
  }

  /** A page takes the first of the remaining items and leaves the others to its cursor. */
  lemma PageTiles<T>(docs: seq<seq<T>>, paths: seq<string>, size: T -> nat, cursor: Cursor, limit: nat)
    requires Distinct(paths) && |docs| == |paths| && PositionOf(paths, cursor).Some?
    requires PageOf(docs, paths, size, cursor, limit).Ok?
    ensures GoodPage(docs, paths, size, cursor, limit, PageOf(docs, paths, size, cursor, limit).value)
  {
    hide Span, Locate, FitCount, Fits, NextDoesNotFit;
    var p := PositionOf(paths, cursor).value;
    var end := ScanEnd(docs, p);
    var window := Span(docs, p, end);
    var k := FitCount(window, size, limit, MAX_COLLECTION_RESULT_BYTES);
    FitCountIsLongest(window, size, limit, MAX_COLLECTION_RESULT_BYTES, k);
    if k < |window| {
      InSpan(docs, p, end);
      RestFromLocated(docs, p, end, k);
      NextItem(docs, p, end, k, size, limit);
      var q := Locate(docs, p, end, k);
      CursorPosition(paths, q.document, q.offset);
    } else {
      assert window[..k] == window;
      if p.document <= end {
        SpanInTwo(docs, p, end, |docs|);
        InSpan(docs, After(p, end), |docs|);
      }
      if end < |paths| {
        CursorPosition(paths, end, 0);
      }
    }
  }

  ghost predicate AllFit<T>(docs: seq<seq<T>>, size: T -> nat) {
    forall i, j | 0 <= i < |docs| && 0 <= j < |docs[i]| :: size(docs[i][j]) <= MAX_COLLECTION_RESULT_BYTES
  }

  lemma {:induction false} SpanFits<T>(docs: seq<seq<T>>, p: Position, end: nat, size: T -> nat, k: nat)
    requires AllFit(docs, size) && end <= |docs| && k < |Span(docs, p, end)|
    ensures size(Span(docs, p, end)[k]) <= MAX_COLLECTION_RESULT_BYTES
    decreases end - p.document
  {
    var here := Drop(docs[p.document], p.offset);
    if k < |here| {
      assert here[k] == docs[p.document][p.offset + k];
    } else {
      SpanFits(docs, Position(p.document + 1, 0), end, size, k - |here|);
    }
  }

  /** The reading that is left to do: one page takes an item off it or a full scan of documents. */
  function Work<T>(docs: seq<seq<T>>, p: Position): nat {
    MAX_COLLECTION_DOCUMENTS_PER_READ * |Rest(docs, p)| + if p.document < |docs| then |docs| - p.document else 0
  }

  lemma NonemptyPage<T>(window: seq<T>, size: T -> nat, limit: nat)
    requires limit > 0 && window != [] && size(window[0]) <= MAX_COLLECTION_RESULT_BYTES
    ensures FitCount(window, size, limit, MAX_COLLECTION_RESULT_BYTES) > 0
  {
  }

  /** When every item fits there is always a page, and a page with a cursor does a page's worth of work. */
  lemma PageProgresses<T>(docs: seq<seq<T>>, paths: seq<string>, size: T -> nat, cursor: Cursor, limit: nat)
    requires Distinct(paths) && |docs| == |paths| && AllFit(docs, size) && limit > 0
    requires PositionOf(paths, cursor).Some?
    ensures PageOf(docs, paths, size, cursor, limit).Ok?
    ensures var next := PageOf(docs, paths, size, cursor, limit).value.next;
            next.Some? ==>
              && PositionOf(paths, next.value).Some?
              && Work(docs, PositionOf(paths, next.value).value) + MAX_COLLECTION_DOCUMENTS_PER_READ
                 <= Work(docs, PositionOf(paths, cursor).value)
  {
    hide Span, Locate, FitCount, Fits, AllFit;
    var p := PositionOf(paths, cursor).value;
    var end := ScanEnd(docs, p);
    var window := Span(docs, p, end);
    var k := FitCount(window, size, limit, MAX_COLLECTION_RESULT_BYTES);
    if k < |window| {
      SpanFits(docs, p, end, size, k);
      SpanFits(docs, p, end, size, 0);
      NonemptyPage(window, size, limit);
      InSpan(docs, p, end);
      RestFromLocated(docs, p, end, k);
      var q := Locate(docs, p, end, k);
      CursorPosition(paths, q.document, q.offset);
    } else if end < |paths| {
      CursorPosition(paths, end, 0);
      SpanInTwo(docs, p, end, |docs|);
    }
  }

  /** The pages that a reader gets who starts with a cursor and follows each page's cursor to the end. */
  function AllPages<T>(docs: seq<seq<T>>, paths: seq<string>, size: T -> nat, cursor: Cursor, limit: nat)
    : (pages: seq<Page<T>>)
    requires Distinct(paths) && |docs| == |paths| && AllFit(docs, size) && limit > 0
    requires PositionOf(paths, cursor).Some?
    ensures pages != []
    decreases Work(docs, PositionOf(paths, cursor).value)
  {
    PageProgresses(docs, paths, size, cursor, limit);
    var page := PageOf(docs, paths, size, cursor, limit).value;
    [page] + if page.next.None? then [] else AllPages(docs, paths, size, page.next.value, limit)
  }

  function AllItems<T>(pages: seq<Page<T>>): seq<T> {
    if pages == [] then [] else pages[0].items + AllItems(pages[1..])
  }

  /** Every page is a good one for the cursor of the page before it, and only the last has no cursor. */
  ghost predicate Followed<T>(docs: seq<seq<T>>, paths: seq<string>, size: T -> nat, cursor: Cursor, limit: nat,
      pages: seq<Page<T>>)
    requires |docs| == |paths|
    decreases |pages|
  {
    && pages != [] && PositionOf(paths, cursor).Some? && GoodPage(docs, paths, size, cursor, limit, pages[0])
    && match pages[0].next
       case None => |pages| == 1
       case Some(next) => Followed(docs, paths, size, next, limit, pages[1..])
  }

  /**
   Following the cursors of a worklog visits every remaining item exactly once and in order, in finitely many pages:
   no more than one for each item and for each full scan of documents, and one more.
   */
  lemma {:induction false} CursorsTile<T>(docs: seq<seq<T>>, paths: seq<string>, size: T -> nat, cursor: Cursor,
      limit: nat)
    requires Distinct(paths) && |docs| == |paths| && AllFit(docs, size) && limit > 0
    requires PositionOf(paths, cursor).Some?
    ensures var pages := AllPages(docs, paths, size, cursor, limit);
            && AllItems(pages) == Remaining(docs, paths, Some(cursor))
            && Followed(docs, paths, size, cursor, limit, pages)
            && MAX_COLLECTION_DOCUMENTS_PER_READ * (|pages| - 1) <= Work(docs, PositionOf(paths, cursor).value)
    decreases Work(docs, PositionOf(paths, cursor).value)
  {
    hide PageOf, PositionOf, Fits, WithinScan, AllFit, Work, Rest;
    PageProgresses(docs, paths, size, cursor, limit);
    PageTiles(docs, paths, size, cursor, limit);
    var page := PageOf(docs, paths, size, cursor, limit).value;
    var pages := AllPages(docs, paths, size, cursor, limit);
    if page.next.Some? {
      CursorsTile(docs, paths, size, page.next.value, limit);
      assert pages[1..] == AllPages(docs, paths, size, page.next.value, limit);
    } else {
      assert pages[1..] == [];
    }
  }

  /** From the start: the concatenation of the pages is the concatenation of the documents. */
  lemma WholeWorklogIsRead<T>(docs: seq<seq<T>>, paths: seq<string>, size: T -> nat, limit: nat)
    requires Distinct(paths) && |docs| == |paths| && AllFit(docs, size) && limit > 0
    ensures AllItems(AllPages(docs, paths, size, Cursor(None, 0), limit)) == Flatten(docs)
  {
    hide AllPages, AllItems, AllFit, Span, Flatten;
    CursorsTile(docs, paths, size, Cursor(None, 0), limit);
    SpanIsFlatten(docs, 0);
    assert docs[0..] == docs;
  }

  function Flatten<T>(docs: seq<seq<T>>): seq<T> {
    if docs == [] then [] else docs[0] + Flatten(docs[1..])
  }

  lemma {:induction false} SpanIsFlatten<T>(docs: seq<seq<T>>, i: nat)
    requires i <= |docs|
    ensures Rest(docs, Position(i, 0)) == Flatten(docs[i..])
    decreases |docs| - i
  {
    if i == |docs| {
    } else {
      SpanIsFlatten(docs, i + 1);
      assert docs[i..][1..] == docs[i + 1..];
    }
  }

  /** A reader is stopped only by an item that could stand on no page, and only once it is next. */
  lemma OnlyOversizedItemsStop<T>(docs: seq<seq<T>>, paths: seq<string>, size: T -> nat, cursor: Cursor, limit: nat)
    requires Distinct(paths) && |docs| == |paths| && PositionOf(paths, cursor).Some?
    ensures var rest := Remaining(docs, paths, Some(cursor));
            PageOf(docs, paths, size, cursor, limit).Err? ==>
              exists k | 0 <= k < |rest| ::
                size(rest[k]) > MAX_COLLECTION_RESULT_BYTES && Fits(rest[..k], size, limit, MAX_COLLECTION_RESULT_BYTES)
  {
    hide Span, FitCount, Fits;
    var p := PositionOf(paths, cursor).value;
    var end := ScanEnd(docs, p);
    var window := Span(docs, p, end);
    var k := FitCount(window, size, limit, MAX_COLLECTION_RESULT_BYTES);
    if k < |window| {
      InSpan(docs, p, end);
      SpanInTwo(docs, p, end, |docs|);
      FitCountIsLongest(window, size, limit, MAX_COLLECTION_RESULT_BYTES, k);
      var rest := Remaining(docs, paths, Some(cursor));
      assert rest[k] == window[k] && rest[..k] == window[..k];
    }
  }
}
