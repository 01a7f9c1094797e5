/** A sequence kept in chunks of raw storage, in which elements are constructed, moved and destroyed by hand. */
module ChunkedBuffer {
  import opened Values

  datatype Cell<T> = Raw | Live(value: T)

  function Elements<T>(cells: seq<Cell<T>>): (r: seq<T>)
    requires forall i :: 0 <= i < |cells| ==> cells[i].Live?
    ensures |r| == |cells|
  {
    seq(|cells|, i requires 0 <= i < |cells| => cells[i].value)
  }

  /** The first `n` cells hold elements and no other does. */
  predicate FilledTo<T>(cells: seq<Cell<T>>, n: nat) {
    && n <= |cells|
    && (forall i :: 0 <= i < n ==> cells[i].Live?)
    && (forall i :: n <= i < |cells| ==> cells[i].Raw?)
  }

  /** All chunks are full but the last, which holds `current` elements, or none after a constructor that threw. */
  predicate Layout<T>(data: seq<seq<Cell<T>>>, size: nat, current: nat) {
    && size >= 1 && current <= size
    && forall c :: 0 <= c < |data| ==> |data[c]| == size && FilledTo(data[c], if c + 1 == |data| then current else size)
  }

  function Contents<T>(data: seq<seq<Cell<T>>>, size: nat, current: nat): seq<T>
    requires Layout(data, size, current)
  {
    if data == [] then []
    else Contents(data[..|data| - 1], size, size) + Elements(data[|data| - 1][..current])
  }

  /** How many elements `n` chunks hold. */
  function Held(n: nat, size: nat, current: nat): nat { if n == 0 then 0 else (n - 1) * size + current }

  lemma HeldSteps(n: nat, size: nat, current: nat)
    requires n > 0
    ensures Held(n, size, current) == (n - 1) * size + current == Held(n - 1, size, size) + current
  {
    if n > 1 { assert (n - 2) * size + size == (n - 1) * size; }
  }

  /** The last chunk and what stands before it. */
  lemma LastChunk<T>(data: seq<seq<Cell<T>>>, size: nat, current: nat)
    requires Layout(data, size, current) && data != []
    ensures var n := |data| - 1;
      && Layout(data[..n], size, size) && |data[n]| == size && FilledTo(data[n], current) && current <= size
      && Contents(data, size, current) == Contents(data[..n], size, size) + Elements(data[n][..current])
  {
  }

  lemma {:induction false} ContentsLength<T>(data: seq<seq<Cell<T>>>, size: nat, current: nat)
    requires Layout(data, size, current)
    ensures |Contents(data, size, current)| == Held(|data|, size, current)
    decreases |data|
  {
    if data != [] {
      hide Layout, Held, Contents;
      LastChunk(data, size, current);
      ContentsLength(data[..|data| - 1], size, size);
      HeldSteps(|data|, size, current);
    }
  }

  lemma DivideBack(n: nat, k: nat, size: nat)
    requires k < size
    ensures (n * size + k) / size == n && (n * size + k) % size == k
  {
    var i := n * size + k;
    var q, r := i / size, i % size;
    assert (n - q) * size == n * size - q * size == r - k;
    if n > q { AtLeast(n - q, size); }
    if q > n { AtLeast(q - n, size); }
  }

  lemma AtLeast(a: int, size: int)
    requires a >= 1 && size >= 0
    ensures a * size >= size && (-a) * size <= -size
  {
  }

  /** Element `i` is in cell `i % size` of chunk `i / size`. */
  lemma {:induction false} ContentsAt<T>(data: seq<seq<Cell<T>>>, size: nat, current: nat, i: nat)
    requires Layout(data, size, current) && i < |Contents(data, size, current)| && size > 0
    ensures i / size < |data| && i % size < |data[i / size]|
    ensures data[i / size][i % size] == Live(Contents(data, size, current)[i])
    decreases |data|
  {
    hide Layout, Held, Contents, FilledTo;
    ContentsLength(data, size, current);
    if data == [] {
      NoneHeld(size, current);
    } else {
      var n := |data| - 1;
      LastChunk(data, size, current);
      ContentsLength(data[..n], size, size);
      HeldSteps(n + 1, size, current);
      if i < |Contents(data[..n], size, size)| {
        ContentsAt(data[..n], size, size, i);
      } else {
        FullChunks(n, size);
        DivideBack(n, i - n * size, size);
        ElementAt(data[n], current, i - n * size);
      }
    }
  }

  lemma NoneHeld(size: nat, current: nat)
    ensures Held(0, size, current) == 0
  {
  }

  lemma FullChunks(n: nat, size: nat)
    ensures Held(n, size, size) == n * size
  {
    if n > 0 { assert (n - 1) * size + size == n * size; }
  }

  lemma ElementAt<T>(cells: seq<Cell<T>>, current: nat, k: nat)
    requires FilledTo(cells, current) && k < current
    ensures cells[k] == Live(Elements(cells[..current])[k])
  {
  }

  /** The two counters fit the chunks: the total is the full chunks and what the last one holds. */
  predicate Counted<T>(data: seq<seq<Cell<T>>>, size: nat, current: nat, total: nat) {
    && Layout(data, size, current)
    && total == |Contents(data, size, current)|
    && (data == [] ==> current == 0)
    && (data != [] ==> total == (|data| - 1) * size + current)
  }

  lemma CountsFit<T>(data: seq<seq<Cell<T>>>, size: nat, current: nat, total: nat)
    requires Layout(data, size, current) && total == |Contents(data, size, current)| && (data == [] ==> current == 0)
    ensures Counted(data, size, current, total)
  {
    hide Layout, Contents;
    ContentsLength(data, size, current);
  }

  lemma CountedIsLayout<T>(data: seq<seq<Cell<T>>>, size: nat, current: nat, total: nat)
    requires Counted(data, size, current, total)
    ensures Layout(data, size, current) && total == |Contents(data, size, current)| && size >= 1 && current <= size
  {
  }

  /**
   * `constructed` and `destroyed` are the values whose constructor and destructor ran in cells of this buffer; they
   * grow only in `ConstructAt` and `DestroyAt`, and a move hands the whole record over with the chunks.
   */
  class ChunkedBuffer<T> {
    const chunkSize: nat
    var chunks: seq<array<Cell<T>>>
    var currentChunkCount: nat
    var totalSize: nat
    ghost var constructed: multiset<T>
    ghost var destroyed: multiset<T>

    ghost function Data(): (data: seq<seq<Cell<T>>>)
      reads this`chunks, chunks
      ensures |data| == |chunks|
      ensures forall c :: 0 <= c < |data| ==> data[c] == chunks[c][..]
    {
      var all := chunks;
      seq(|all|, c requires 0 <= c < |all| reads all => all[c][..])
    }

    lemma DataIs(data: seq<seq<Cell<T>>>)
      requires |data| == |chunks| && forall c :: 0 <= c < |chunks| ==> chunks[c][..] == data[c]
      ensures Data() == data
    {
    }

    ghost predicate Valid()
      reads this, chunks
    {
      && (forall b, c :: 0 <= b < c < |chunks| ==> chunks[b] != chunks[c])
      && Counted(Data(), chunkSize, currentChunkCount, totalSize)
      && constructed == multiset(Contents(Data(), chunkSize, currentChunkCount)) + destroyed
    }

    ghost function Items(): seq<T>
      requires Valid()
      reads this, chunks
    {
      Contents(Data(), chunkSize, currentChunkCount)
    }

    constructor (size: nat)
      requires size >= 1
      ensures Valid() && Items() == [] && chunkSize == size && chunks == []
      ensures constructed == multiset{} && destroyed == multiset{}
    {
      chunkSize := size;
      chunks, currentChunkCount, totalSize := [], 0, 0;
      constructed, destroyed := multiset{}, multiset{};
    }

    /** The move constructor: the chunks change hands and the other buffer is left empty. */
    constructor MoveFrom(other: ChunkedBuffer<T>)
      requires other.Valid()
      modifies other
      ensures Valid() && Items() == old(other.Items()) && chunkSize == other.chunkSize && chunks == old(other.chunks)
      ensures constructed == old(other.constructed) && destroyed == old(other.destroyed)
      ensures other.Valid() && other.Items() == [] && other.chunks == []
      ensures other.constructed == other.destroyed == multiset{}
    {
      chunkSize := other.chunkSize;
      chunks, currentChunkCount, totalSize := other.chunks, other.currentChunkCount, other.totalSize;
      constructed, destroyed := other.constructed, other.destroyed;
      new;
      hide Counted, Contents;
      ghost var data := other.Data();
      assert Data() == data;
      other.NonEmptyChunks();
      other.Release();
      assert forall c :: 0 <= c < |chunks| ==> Data()[c] == data[c];
      assert Data() == data;
    }

    /** What a call of `emplace_back` meets: memory for a new chunk may be refused, and the constructor may throw. */
    method EmplaceBack(value: T, memory: bool, constructs: bool) returns (ok: bool)
      requires Valid()
      modifies this, chunks
      ensures Valid() && (forall c :: c in chunks ==> c in old(chunks) || fresh(c))
      ensures ok <==> constructs && (memory || (old(chunks) != [] && old(currentChunkCount) < chunkSize))
      ensures Items() == if ok then old(Items()) + [value] else old(Items())
      ensures constructed == (if ok then old(constructed) + multiset{value} else old(constructed)) && destroyed == old(destroyed)
    {
      hide Counted, Layout, Contents;
      NonEmptyChunks();
      if chunks == [] || currentChunkCount == chunkSize {
        if !memory { return false; }
        AllocateChunk();
      }
      if !constructs { return false; }
      ConstructLast(value);
      ok := true;
    }

    lemma InBalance()
      requires Valid()
      ensures constructed == multiset(Items()) + destroyed
    {
    }

    lemma NonEmptyChunks()
      requires Valid()
      ensures chunkSize >= 1 && currentChunkCount <= chunkSize && Layout(Data(), chunkSize, currentChunkCount)
      ensures totalSize == |Items()|
    {
      CountedIsLayout(Data(), chunkSize, currentChunkCount, totalSize);
    }

    /** Placement new: a constructor runs in a raw cell. */
    method ConstructAt(chunk: array<Cell<T>>, i: nat, value: T)
      requires i < chunk.Length && chunk[i].Raw?
      modifies chunk, this`constructed
      ensures chunk[..] == old(chunk[..])[i := Live(value)]
      ensures constructed == old(constructed) + multiset{value}
    {
      chunk[i] := Live(value);
      constructed := constructed + multiset{value};
    }

    /** The destructor of a live element, which leaves its cell raw. */
    method DestroyAt(chunk: array<Cell<T>>, i: nat) returns (value: T)
      requires i < chunk.Length && chunk[i].Live?
      modifies chunk, this`destroyed
      ensures value == old(chunk[i]).value && chunk[..] == old(chunk[..])[i := Raw]
      ensures destroyed == old(destroyed) + multiset{value}
    {
      value := chunk[i].value;
      chunk[i] := Raw;
      destroyed := destroyed + multiset{value};
    }

    /** Placement new in the first free cell of the last chunk. */
    method ConstructLast(value: T)
      requires Valid() && chunks != [] && currentChunkCount < chunkSize
      modifies this`currentChunkCount, this`totalSize, this`constructed, chunks[|chunks| - 1]
      ensures Valid() && Items() == old(Items()) + [value] && chunks == old(chunks)
      ensures constructed == old(constructed) + multiset{value}
    {
      hide Counted, Layout, Contents, FilledTo, WithLast;
      NonEmptyChunks();
      ghost var before, was, ran := Data(), currentChunkCount, constructed;
      ConstructsOne(before, chunkSize, was, value);
      FreeCell(before, chunkSize, was);
      PutLast(value);
      currentChunkCount := currentChunkCount + 1;
      totalSize := totalSize + 1;
      CountsFit(Data(), chunkSize, was + 1, totalSize);
      OneMoreBalances(ran, Contents(before, chunkSize, was), destroyed, value);
    }

    method PutLast(value: T)
      requires chunks != [] && currentChunkCount < chunks[|chunks| - 1].Length
      requires forall b, c :: 0 <= b < c < |chunks| ==> chunks[b] != chunks[c]
      requires chunks[|chunks| - 1][currentChunkCount].Raw?
      modifies this`constructed, chunks[|chunks| - 1]
      ensures Data() == WithLast(old(Data()), currentChunkCount, value)
      ensures constructed == old(constructed) + multiset{value}
    {
      var last := chunks[|chunks| - 1];
      ghost var before := Data();
      ConstructAt(last, currentChunkCount, value);
      ghost var after := WithLast(before, currentChunkCount, value);
      assert forall c :: 0 <= c < |chunks| ==> chunks[c][..] == after[c];
      DataIs(after);
    }

    method AllocateChunk()
      requires Valid() && (chunks == [] || currentChunkCount == chunkSize)
      modifies this`chunks, this`currentChunkCount
      ensures Valid() && Items() == old(Items()) && currentChunkCount == 0
      ensures |chunks| == |old(chunks)| + 1 && chunks[..|chunks| - 1] == old(chunks) && fresh(chunks[|chunks| - 1])
    {
      hide Counted, Layout, Contents, FilledTo;
      NonEmptyChunks();
      ghost var before, was := Data(), currentChunkCount;
      var chunk := new Cell<T>[chunkSize](_ => Raw);
      EmptyChunk(chunk[..]);
      chunks := chunks + [chunk];
      currentChunkCount := 0;
      assert Data() == before + [chunk[..]];
      AddsChunk(before, chunkSize, was, chunk[..]);
      CountsFit(Data(), chunkSize, 0, totalSize);
    }

    /** `operator[]`: the cell it computes holds the element of that place. */
    method Get(index: nat) returns (value: T)
      requires Valid() && index < totalSize
      ensures value == Items()[index]
    {
      hide Counted, Layout, Contents, FilledTo;
      NonEmptyChunks();
      ContentsAt(Data(), chunkSize, currentChunkCount, index);
      var chunk := chunks[index / chunkSize];
      assert chunk[..] == Data()[index / chunkSize];
      assert chunk[index % chunkSize] == chunk[..][index % chunkSize];
      value := chunk[index % chunkSize].value;
    }

    /** `at`: None for the exception it throws. */
    method At(index: nat) returns (value: Option<T>)
      requires Valid()
      ensures value == if index < |Items()| then Some(Items()[index]) else None
    {
      if index >= totalSize { return None; }
      var v := Get(index);
      value := Some(v);
    }

    method Back() returns (value: Option<T>)
      requires Valid()
      ensures value == if Items() == [] then None else Some(Items()[|Items()| - 1])
    {
      if totalSize == 0 { return None; }
      var v := Get(totalSize - 1);
      value := Some(v);
    }

    function CountIn(c: nat): nat
      requires c < |chunks|
      reads this
    {
      if c + 1 == |chunks| then currentChunkCount else chunkSize
    }

    /** `to_vector`: all elements, chunk by chunk. */
    method ToVector() returns (result: seq<T>)
      requires Valid()
      ensures result == Items()
    {
      hide Counted, Layout, Contents, FilledTo;
      result := [];
      NonEmptyChunks();
      NoChunks(Data(), chunkSize, currentChunkCount);
      for c := 0 to |chunks|
        invariant c < |chunks| ==> Layout(Data()[..c], chunkSize, chunkSize) && result == Contents(Data()[..c], chunkSize, chunkSize)
        invariant c == |chunks| ==> result == Items()
      {
        NextChunk(Data(), chunkSize, currentChunkCount, c);
        assert chunks[c][..] == Data()[c];
        var piece := ReadChunk(chunks[c], CountIn(c));
        result := result + piece;
      }
    }

    /** `to_vector` of a temporary: the elements move out, and the shells they leave are destroyed. */
    method MoveToVector() returns (result: seq<T>)
      requires Valid()
      modifies this, chunks
      ensures Valid() && Items() == [] && chunks == [] && AllRaw(old(chunks))
      ensures result == old(Items())
      ensures constructed == old(constructed) && destroyed == old(destroyed) + multiset(result)
    {
      result := ToVector();
      var shells := Clear();
    }

    /** `for_each_chunk`: what the callback is given, one piece after the other, and never an empty one. */
    method ForEachChunk() returns (pieces: seq<seq<T>>)
      requires Valid()
      ensures Flat(pieces) == Items()
      ensures forall i :: 0 <= i < |pieces| ==> 1 <= |pieces[i]| <= chunkSize
    {
      hide Counted, Layout, Contents, FilledTo, Flat;
      pieces := [];
      NothingFlat<T>();
      NonEmptyChunks();
      NoChunks(Data(), chunkSize, currentChunkCount);
      for c := 0 to |chunks|
        invariant c < |chunks| ==> Layout(Data()[..c], chunkSize, chunkSize) && Flat(pieces) == Contents(Data()[..c], chunkSize, chunkSize)
        invariant c == |chunks| ==> Flat(pieces) == Items()
        invariant forall i :: 0 <= i < |pieces| ==> 1 <= |pieces[i]| <= chunkSize
      {
        NextChunk(Data(), chunkSize, currentChunkCount, c);
        assert chunks[c][..] == Data()[c];
        if CountIn(c) > 0 {
          var piece := ReadChunk(chunks[c], CountIn(c));
          FlatSnoc(pieces, piece);
          pieces := pieces + [piece];
        }
      }
    }

    /** `clear`: the destructor runs once on each element, in order, and leaves every cell raw. */
    method Clear() returns (gone: seq<T>)
      requires Valid()
      modifies this, chunks
      ensures Valid() && Items() == [] && chunks == [] && AllRaw(old(chunks))
      ensures gone == old(Items())
      ensures constructed == old(constructed) && destroyed == old(destroyed) + multiset(gone)
    {
      hide Counted, Layout, Contents, FilledTo, Elements;
      NonEmptyChunks();
      gone := DestroyAll();
      Forget();
    }

    /** The loops over the chunks and their elements. */
    method DestroyAll() returns (gone: seq<T>)
      requires forall b, c :: 0 <= b < c < |chunks| ==> chunks[b] != chunks[c]
      requires Layout(Data(), chunkSize, currentChunkCount)
      modifies this`destroyed, chunks
      ensures AllRaw(chunks) && gone == Contents(old(Data()), chunkSize, currentChunkCount)
      ensures destroyed == old(destroyed) + multiset(gone)
    {
      hide Layout, Contents, FilledTo, Elements;
      ghost var before := Data();
      gone := [];
      NoChunks(before, chunkSize, currentChunkCount);
      for c := 0 to |chunks|
        invariant forall d :: c <= d < |chunks| ==> chunks[d][..] == before[d]
        invariant forall d :: 0 <= d < c ==> FilledTo(chunks[d][..], 0)
        invariant c < |chunks| ==> Layout(before[..c], chunkSize, chunkSize) && gone == Contents(before[..c], chunkSize, chunkSize)
        invariant c == |chunks| ==> gone == Contents(before, chunkSize, currentChunkCount)
        invariant destroyed == old(destroyed) + multiset(gone)
      {
        NextChunk(before, chunkSize, currentChunkCount, c);
        var piece := DestroyChunk(chunks[c], CountIn(c));
        CountTogether(gone, piece, old(destroyed));
        gone := gone + piece;
      }
    }

    /** The elements of a chunk destroyed one by one. */
    method DestroyChunk(chunk: array<Cell<T>>, count: nat) returns (gone: seq<T>)
      requires FilledTo(chunk[..], count)
      modifies chunk, this`destroyed
      ensures gone == Elements(old(chunk[..])[..count])
      ensures FilledTo(chunk[..], 0) && destroyed == old(destroyed) + multiset(gone)
    {
      ghost var before := chunk[..];
      gone := [];
      for i := 0 to count
        invariant forall k :: i <= k < chunk.Length ==> chunk[k] == before[k]
        invariant forall k :: 0 <= k < i ==> chunk[k].Raw?
        invariant gone == Elements(before[..i])
        invariant destroyed == old(destroyed) + multiset(gone)
      {
        assert before[..i + 1] == before[..i] + [chunk[i]];
        ghost var was := chunk[..];
        var value := DestroyAt(chunk, i);
        assert forall k :: 0 <= k < chunk.Length ==> chunk[k] == chunk[..][k] && was[k] == if k < i then Raw else before[k];
        gone := gone + [value];
      }
    }

    /** The fields of an empty buffer, whose elements are all destroyed or gone elsewhere. */
    method Forget()
      requires chunkSize >= 1 && constructed == destroyed
      modifies this`chunks, this`currentChunkCount, this`totalSize
      ensures Valid() && Items() == [] && chunks == []
    {
      chunks, currentChunkCount, totalSize := [], 0, 0;
    }

    /** The chunks were taken over, and with them the record of what was constructed and destroyed. */
    method Release()
      requires chunkSize >= 1
      modifies this`chunks, this`currentChunkCount, this`totalSize, this`constructed, this`destroyed
      ensures Valid() && Items() == [] && chunks == [] && constructed == destroyed == multiset{}
    {
      constructed, destroyed := multiset{}, multiset{};
      Forget();
    }

    /** Move assignment: the old elements are destroyed and the others taken over; assigning to itself does nothing. */
    method Assign(other: ChunkedBuffer<T>) returns (gone: seq<T>)
      requires Valid() && other.Valid() && other.chunkSize == chunkSize
      requires other != this ==> forall c :: c in chunks ==> c !in other.chunks
      modifies this, chunks, other
      ensures Valid() && other.Valid()
      ensures Items() == old(other.Items()) && chunks == old(other.chunks)
      ensures other == this ==> gone == [] && constructed == old(constructed) && destroyed == old(destroyed)
      ensures other != this ==> gone == old(Items()) && AllRaw(old(chunks))
      ensures other != this ==> other.Items() == [] && other.chunks == [] && other.constructed == other.destroyed == multiset{}
      ensures other != this ==> constructed == old(constructed) + old(other.constructed)
      ensures other != this ==> destroyed == old(destroyed) + multiset(gone) + old(other.destroyed)
    {
      hide Counted, Layout, Contents, FilledTo;
      if other == this { return []; }
      ghost var data := other.Data();
      ghost var all := other.chunks;
      assert forall c :: 0 <= c < |all| ==> data[c] == all[c][..] && all[c] in all && all[c] !in chunks;
      gone := Clear();
      assert forall c :: 0 <= c < |all| ==> all[c][..] == data[c];
      assert other.Data() == data;
      TakeOver(other);
    }

    method TakeOver(other: ChunkedBuffer<T>)
      requires other != this && other.Valid() && Valid() && Items() == [] && other.chunkSize == chunkSize
      modifies this`chunks, this`currentChunkCount, this`totalSize, this`constructed, this`destroyed
      modifies other`chunks, other`currentChunkCount, other`totalSize, other`constructed, other`destroyed
      ensures Valid() && other.Valid() && Items() == old(other.Items()) && other.Items() == []
      ensures chunks == old(other.chunks) && other.chunks == []
      ensures constructed == old(constructed) + old(other.constructed) && destroyed == old(destroyed) + old(other.destroyed)
      ensures other.constructed == other.destroyed == multiset{}
    {
      hide Counted, Layout, Contents;
      ghost var data := other.Data();
      other.NonEmptyChunks();
      constructed, destroyed := constructed + other.constructed, destroyed + other.destroyed;
      chunks, currentChunkCount, totalSize := other.chunks, other.currentChunkCount, other.totalSize;
      other.Release();
      assert forall c :: 0 <= c < |chunks| ==> chunks[c][..] == data[c];
      DataIs(data);
      JoinRecords(multiset(Contents(data, chunkSize, currentChunkCount)), old(destroyed), old(other.destroyed));
    }
  }

  lemma JoinRecords<T>(items: multiset<T>, a: multiset<T>, b: multiset<T>)
    ensures multiset{} + a + (items + b) == items + (a + b)
    ensures a + (items + b) == items + (a + b)
  {
  }

  lemma CountTogether<T>(gone: seq<T>, piece: seq<T>, before: multiset<T>)
    ensures before + multiset(gone) + multiset(piece) == before + multiset(gone + piece)
  {
  }

  lemma OneMoreBalances<T>(constructed: multiset<T>, items: seq<T>, destroyed: multiset<T>, value: T)
    requires constructed == multiset(items) + destroyed
    ensures constructed + multiset{value} == multiset(items + [value]) + destroyed
  {
  }

  /** No cell of these chunks holds an element. */
  ghost predicate AllRaw<T>(chunks: seq<array<Cell<T>>>)
    reads chunks
  {
    forall c :: 0 <= c < |chunks| ==> FilledTo(chunks[c][..], 0)
  }

  method ReadChunk<T>(chunk: array<Cell<T>>, count: nat) returns (piece: seq<T>)
    requires FilledTo(chunk[..], count)
    ensures piece == Elements(chunk[..][..count])
  {
    piece := [];
    for i := 0 to count
      invariant piece == Elements(chunk[..][..i])
    {
      assert chunk[..][..i + 1] == chunk[..][..i] + [chunk[i]];
      piece := piece + [chunk[i].value];
    }
  }

  function Flat<T>(pieces: seq<seq<T>>): seq<T> { if pieces == [] then [] else Flat(pieces[..|pieces| - 1]) + pieces[|pieces| - 1] }

  lemma NothingFlat<T>()
    ensures Flat<T>([]) == []
  {
  }

  lemma FlatSnoc<T>(pieces: seq<seq<T>>, piece: seq<T>)
    ensures Flat(pieces + [piece]) == Flat(pieces) + piece
  {
    assert (pieces + [piece])[..|pieces|] == pieces;
  }

  /** The last chunk with an element in one more cell. */
  function WithLast<T>(data: seq<seq<Cell<T>>>, current: nat, value: T): (r: seq<seq<Cell<T>>>)
    requires data != [] && current < |data[|data| - 1]|
    ensures |r| == |data|
  {
    data[|data| - 1 := data[|data| - 1][current := Live(value)]]
  }

  lemma ConstructsOne<T>(data: seq<seq<Cell<T>>>, size: nat, current: nat, value: T)
    requires Layout(data, size, current) && data != [] && current < size
    ensures current < |data[|data| - 1]|
    ensures var after := WithLast(data, current, value);
      Layout(after, size, current + 1) && Contents(after, size, current + 1) == Contents(data, size, current) + [value]
  {
    var n := |data| - 1;
    var after := WithLast(data, current, value);
    assert after[..n] == data[..n];
    assert after[n][..current + 1] == data[n][..current] + [Live(value)];
  }

  lemma AddsChunk<T>(data: seq<seq<Cell<T>>>, size: nat, current: nat, chunk: seq<Cell<T>>)
    requires Layout(data, size, current) && (data == [] || current == size)
    requires |chunk| == size && FilledTo(chunk, 0)
    ensures Layout(data + [chunk], size, 0) && Contents(data + [chunk], size, 0) == Contents(data, size, current)
  {
    assert (data + [chunk])[..|data|] == data;
  }

  lemma EmptyChunk<T>(cells: seq<Cell<T>>)
    requires forall i :: 0 <= i < |cells| ==> cells[i].Raw?
    ensures FilledTo(cells, 0)
  {
  }

  lemma NoChunks<T>(data: seq<seq<Cell<T>>>, size: nat, current: nat)
    requires Layout(data, size, current)
    ensures Layout(data[..0], size, size) && Contents(data[..0], size, size) == []
    ensures data == [] ==> Contents(data, size, current) == []
  {
  }

  lemma FreeCell<T>(data: seq<seq<Cell<T>>>, size: nat, current: nat)
    requires Layout(data, size, current) && data != [] && current < size
    ensures |data[|data| - 1]| == size && data[|data| - 1][current].Raw?
  {
  }

  lemma NextChunk<T>(data: seq<seq<Cell<T>>>, size: nat, current: nat, c: nat)
    requires Layout(data, size, current) && c < |data|
    ensures Layout(data[..c], size, size)
    ensures var count := if c + 1 == |data| then current else size;
      && FilledTo(data[c], count)
      && Layout(data[..c + 1], size, count)
      && Contents(data[..c + 1], size, count) == Contents(data[..c], size, size) + Elements(data[c][..count])
    ensures c + 1 == |data| ==> data[..c + 1] == data
  {
    assert data[..c + 1][..c] == data[..c];
  }

  // ---------------------------------------------------------------------------------------------
  // Lifetimes over whole runs of two buffers
  // ---------------------------------------------------------------------------------------------

  /** A call on the first buffer, or on the second. Renewed: a new buffer is move-constructed from it and takes its place. */
  datatype Event<T> =
    | Emplaced(first: bool, value: T, memory: bool, constructs: bool)
    | Cleared(first: bool)
    | MovedOut(first: bool)
    | Assigned(first: bool)
    | SelfAssigned(first: bool)
    | Renewed(first: bool)

  datatype Pair<T> = Pair(first: seq<T>, second: seq<T>)

  /** The sequences a call leaves of its own buffer and of the other; `ok` tells whether an emplacement went well. */
  function Effect<T>(own: seq<T>, other: seq<T>, e: Event<T>, ok: bool): Pair<T> {
    match e
    case Emplaced(_, value, _, _) => Pair(if ok then own + [value] else own, other)
    case Cleared(_) => Pair([], other)
    case MovedOut(_) => Pair([], other)
    case Assigned(_) => Pair(other, [])
    case SelfAssigned(_) => Pair(own, other)
    case Renewed(_) => Pair(own, other)
  }

  function Step<T>(p: Pair<T>, e: Event<T>, ok: bool): Pair<T> {
    if e.first then Effect(p.first, p.second, e, ok)
    else var q := Effect(p.second, p.first, e, ok); Pair(q.second, q.first)
  }

  function After<T>(events: seq<Event<T>>, oks: seq<bool>): Pair<T>
    requires |oks| == |events|
  {
    var n := |events| - 1;
    if n < 0 then Pair([], []) else Step(After(events[..n], oks[..n]), events[n], oks[n])
  }

  /** An emplacement goes well when its constructor returns and there is memory for a chunk it may need. */
  predicate Agrees<T>(e: Event<T>, ok: bool) {
    match e
    case Emplaced(_, _, memory, constructs) => (ok ==> constructs) && (memory && constructs ==> ok)
    case _ => ok
  }

  function Built<T>(e: Event<T>, ok: bool): seq<T> { if e.Emplaced? && ok then [e.value] else [] }

  function AllBuilt<T>(events: seq<Event<T>>, oks: seq<bool>): seq<T>
    requires |oks| == |events|
  {
    var n := |events| - 1;
    if n < 0 then [] else AllBuilt(events[..n], oks[..n]) + Built(events[n], oks[n])
  }

  ghost predicate Apart<T>(x: ChunkedBuffer<T>, y: ChunkedBuffer<T>)
    reads x, y, x.chunks, y.chunks
  {
    && x != y && x.Valid() && y.Valid() && x.chunkSize == y.chunkSize
    && forall i, j :: 0 <= i < |x.chunks| && 0 <= j < |y.chunks| ==> x.chunks[i] != y.chunks[j]
  }

  /** A new buffer takes everything over, and the destructor of the old one finds nothing left to destroy. */
  method Renew<T>(x: ChunkedBuffer<T>) returns (z: ChunkedBuffer<T>)
    requires x.Valid()
    modifies x
    ensures fresh(z) && z.Valid() && z.Items() == old(x.Items()) && z.chunks == old(x.chunks) && z.chunkSize == x.chunkSize
    ensures z.constructed == old(x.constructed) && z.destroyed == old(x.destroyed)
  {
    hide ChunkedBuffer.Valid, ChunkedBuffer.Items, ChunkedBuffer.Data;
    z := new ChunkedBuffer<T>.MoveFrom(x);
    var gone := x.Clear();
  }

  method Emplace<T>(x: ChunkedBuffer<T>, y: ChunkedBuffer<T>, value: T, memory: bool, constructs: bool) returns (ok: bool)
    requires Apart(x, y)
    modifies x, x.chunks
    ensures Apart(x, y) && y.Items() == old(y.Items()) && forall c :: c in x.chunks ==> c in old(x.chunks) || fresh(c)
    ensures (ok ==> constructs) && (memory && constructs ==> ok)
    ensures x.Items() == if ok then old(x.Items()) + [value] else old(x.Items())
    ensures x.constructed == old(x.constructed) + multiset(if ok then [value] else []) && x.destroyed == old(x.destroyed)
  {
    hide ChunkedBuffer.Valid, ChunkedBuffer.Items, ChunkedBuffer.Data;
    ghost var was := x.chunks;
    assert forall c :: c in was ==> exists i :: 0 <= i < |was| && was[i] == c;
    assert forall c :: c in y.chunks ==> exists j :: 0 <= j < |y.chunks| && y.chunks[j] == c;
    ok := x.EmplaceBack(value, memory, constructs);
    forall i, j | 0 <= i < |x.chunks| && 0 <= j < |y.chunks| ensures x.chunks[i] != y.chunks[j] {
      assert x.chunks[i] in x.chunks && y.chunks[j] in y.chunks;
    }
  }

  method TakeFrom<T>(x: ChunkedBuffer<T>, y: ChunkedBuffer<T>)
    requires Apart(x, y)
    modifies x, y, x.chunks
    ensures Apart(x, y) && x.chunks == old(y.chunks) && y.chunks == []
    ensures x.Items() == old(y.Items()) && y.Items() == []
    ensures x.constructed + y.constructed == old(x.constructed) + old(y.constructed)
    ensures x.destroyed + y.destroyed == old(x.destroyed) + old(y.destroyed) + multiset(old(x.Items()))
  {
    hide ChunkedBuffer.Valid, ChunkedBuffer.Items, ChunkedBuffer.Data;
    var gone := x.Assign(y);
  }

  /** One call on `x`, with `y` the other buffer; `z` stands in the place of `x` afterwards. */
  method Perform<T>(x: ChunkedBuffer<T>, y: ChunkedBuffer<T>, e: Event<T>) returns (z: ChunkedBuffer<T>, ok: bool)
    requires Apart(x, y)
    modifies x, y, x.chunks
    ensures Apart(z, y) && (z == x || fresh(z))
    ensures forall c :: c in z.chunks ==> c in old(x.chunks) || c in old(y.chunks) || fresh(c)
    ensures forall c :: c in y.chunks ==> c in old(y.chunks)
    ensures Agrees(e, ok) && Pair(z.Items(), y.Items()) == Effect(old(x.Items()), old(y.Items()), e, ok)
    ensures z.constructed + y.constructed == old(x.constructed) + old(y.constructed) + multiset(Built(e, ok))
    ensures z.destroyed + y.destroyed == old(x.destroyed) + old(y.destroyed) + multiset(Ended(old(x.Items()), e))
  {
    hide ChunkedBuffer.Valid, ChunkedBuffer.Items, ChunkedBuffer.Data;
    z, ok := x, true;
    match e {
      case Emplaced(_, value, memory, constructs) => ok := Emplace(x, y, value, memory, constructs);
      case Cleared(_) => var gone := x.Clear();
      case MovedOut(_) => var result := x.MoveToVector();
      case Assigned(_) => TakeFrom(x, y);
      case SelfAssigned(_) => var gone := x.Assign(x);
      case Renewed(_) => z := Renew(x);
    }
  }

  /** The elements whose destructors a call runs. */
  function Ended<T>(own: seq<T>, e: Event<T>): seq<T> { if e.Cleared? || e.MovedOut? || e.Assigned? then own else [] }

  /**
   * Any run of calls on two buffers that begin empty: their sequences are those of the run, their constructors ran
   * for exactly the values emplaced, and each of these is in one of the buffers or was destroyed, exactly once.
   */
  method RunAll<T>(size: nat, events: seq<Event<T>>) returns (a: ChunkedBuffer<T>, b: ChunkedBuffer<T>, oks: seq<bool>)
    requires size >= 1
    ensures fresh(a) && fresh(b) && Apart(a, b) && forall c :: c in a.chunks || c in b.chunks ==> fresh(c)
    ensures |oks| == |events| && forall n :: 0 <= n < |events| ==> Agrees(events[n], oks[n])
    ensures Pair(a.Items(), b.Items()) == After(events, oks)
    ensures a.constructed + b.constructed == multiset(AllBuilt(events, oks))
    ensures multiset(AllBuilt(events, oks)) == multiset(a.Items()) + multiset(b.Items()) + (a.destroyed + b.destroyed)
  {
    hide ChunkedBuffer.Valid, ChunkedBuffer.Items, ChunkedBuffer.Data, Step, After, AllBuilt, Built, Effect, Agrees;
    a := new ChunkedBuffer<T>(size);
    b := new ChunkedBuffer<T>(size);
    oks := [];
    StartsApart(a, b);
    NothingBuilt<T>();
    assert events[..0] == [];
    for n := 0 to |events|
      invariant fresh(a) && fresh(b) && Apart(a, b) && forall c :: c in a.chunks || c in b.chunks ==> fresh(c)
      invariant |oks| == n && forall m :: 0 <= m < n ==> Agrees(events[m], oks[m])
      invariant Pair(a.Items(), b.Items()) == After(events[..n], oks)
      invariant a.constructed + b.constructed == multiset(AllBuilt(events[..n], oks))
    {
      assert forall i :: 0 <= i < |a.chunks| ==> a.chunks[i] in a.chunks;
      assert forall i :: 0 <= i < |b.chunks| ==> b.chunks[i] in b.chunks;
      var ok;
      a, b, ok := PerformOn(a, b, events[n]);
      assert events[..n + 1] == events[..n] + [events[n]];
      BuiltMore(events[..n], oks, events[n], ok);
      oks := oks + [ok];
    }
    assert events[..|events|] == events;
    Balances(a, b);
  }

  lemma StartsApart<T>(a: ChunkedBuffer<T>, b: ChunkedBuffer<T>)
    requires a != b && a.Valid() && b.Valid() && a.chunkSize == b.chunkSize && a.chunks == []
    ensures Apart(a, b)
  {
  }

  lemma NothingBuilt<T>()
    ensures After<T>([], []) == Pair([], []) && AllBuilt<T>([], []) == []
  {
  }

  lemma Balances<T>(a: ChunkedBuffer<T>, b: ChunkedBuffer<T>)
    requires Apart(a, b)
    ensures a.constructed + b.constructed == multiset(a.Items()) + multiset(b.Items()) + (a.destroyed + b.destroyed)
  {
    hide ChunkedBuffer.Valid, ChunkedBuffer.Items;
    a.InBalance();
    b.InBalance();
  }

  /** The call on the buffer it names. */
  method PerformOn<T>(a: ChunkedBuffer<T>, b: ChunkedBuffer<T>, e: Event<T>) returns (c: ChunkedBuffer<T>, d: ChunkedBuffer<T>, ok: bool)
    requires Apart(a, b)
    modifies a, b, a.chunks, b.chunks
    ensures Apart(c, d) && (c == a || fresh(c)) && (d == b || fresh(d))
    ensures forall x :: x in c.chunks || x in d.chunks ==> x in old(a.chunks) || x in old(b.chunks) || fresh(x)
    ensures Agrees(e, ok) && Pair(c.Items(), d.Items()) == Step(Pair(old(a.Items()), old(b.Items())), e, ok)
    ensures c.constructed + d.constructed == old(a.constructed) + old(b.constructed) + multiset(Built(e, ok))
  {
    hide ChunkedBuffer.Valid, ChunkedBuffer.Items, ChunkedBuffer.Data, Effect, Built, Ended;
    if e.first {
      d := b;
      c, ok := Perform(a, b, e);
    } else {
      c := a;
      d, ok := Perform(b, a, e);
      assert c.constructed + d.constructed == d.constructed + c.constructed;
      assert old(a.constructed) + old(b.constructed) == old(b.constructed) + old(a.constructed);
    }
  }

  lemma BuiltMore<T>(events: seq<Event<T>>, oks: seq<bool>, e: Event<T>, ok: bool)
    requires |oks| == |events|
    ensures multiset(AllBuilt(events + [e], oks + [ok])) == multiset(AllBuilt(events, oks)) + multiset(Built(e, ok))
    ensures After(events + [e], oks + [ok]) == Step(After(events, oks), e, ok)
  {
    assert (events + [e])[..|events|] == events && (oks + [ok])[..|oks|] == oks;
  }

  /** The destructor: every value whose constructor ran was destroyed. */
  method End<T>(x: ChunkedBuffer<T>)
    requires x.Valid()
    modifies x, x.chunks
    ensures x.destroyed == x.constructed == old(x.constructed) && AllRaw(old(x.chunks))
  {
    hide ChunkedBuffer.Valid, ChunkedBuffer.Items, ChunkedBuffer.Data;
    var gone := x.Clear();
    x.InBalance();
  }

  /** Nothing leaks: when both buffers have ended, the destructors ran for exactly the values the constructors ran for. */
  method NothingLeaks<T>(size: nat, events: seq<Event<T>>) returns (a: ChunkedBuffer<T>, b: ChunkedBuffer<T>, oks: seq<bool>)
    requires size >= 1
    ensures |oks| == |events| && forall n :: 0 <= n < |events| ==> Agrees(events[n], oks[n])
    ensures a != b && a.constructed + b.constructed == multiset(AllBuilt(events, oks))
    ensures a.destroyed + b.destroyed == multiset(AllBuilt(events, oks))
  {
    hide ChunkedBuffer.Valid, ChunkedBuffer.Items, ChunkedBuffer.Data, AllBuilt, After;
    a, b, oks := RunAll(size, events);
    assert forall i :: 0 <= i < |a.chunks| ==> a.chunks[i] in a.chunks;
    assert forall i :: 0 <= i < |b.chunks| ==> b.chunks[i] in b.chunks;
    End(a);
    End(b);
  }
}
