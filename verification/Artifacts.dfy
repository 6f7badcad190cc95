/** apps/runner/src/artifacts.ts: the first and last MiB of a stream, and the caps of an artifact. */
module Artifacts {
  type Byte(==, !new)

  type Chunk = seq<Byte>

  /** STREAM_HALF_BYTES. */
  const HALF := 1_048_576

  datatype Ring = Ring(head: seq<Chunk>, tail: seq<Chunk>, headBytes: int, tailBytes: int, elided: int)

  const EMPTY := Ring([], [], 0, 0, 0)

  /** The loop that drops the oldest chunks of the tail. */
  function Trimmed(r: Ring): Ring
    decreases |r.tail|
  {
    if r.tailBytes > HALF && |r.tail| > 1 then
      Trimmed(r.(tail := r.tail[1..], tailBytes := r.tailBytes - |r.tail[0]|, elided := r.elided + |r.tail[0]|))
    else r
  }

  function Pushed(r: Ring, chunk: Chunk): Ring {
    if r.headBytes < HALF then r.(head := r.head + [chunk], headBytes := r.headBytes + |chunk|)
    else Trimmed(r.(tail := r.tail + [chunk], tailBytes := r.tailBytes + |chunk|))
  }

  class StreamRingBuffer {
    var head: seq<Chunk>
    var tail: seq<Chunk>
    var headBytes: int
    var tailBytes: int
    var elided: int

    function State(): Ring
      reads this
    {
      Ring(head, tail, headBytes, tailBytes, elided)
    }

    constructor ()
      ensures State() == EMPTY
    {
      head, tail := [], [];
      headBytes, tailBytes, elided := 0, 0, 0;
    }

    method Push(chunk: Chunk)
      modifies this
      ensures State() == Pushed(old(State()), chunk)
    {
      if headBytes < HALF {
        head := head + [chunk];
        headBytes := headBytes + |chunk|;
        return;
      }
      tail := tail + [chunk];
      tailBytes := tailBytes + |chunk|;
      ghost var start := State();
      while tailBytes > HALF && |tail| > 1
        invariant Trimmed(State()) == Trimmed(start)
        decreases |tail|
      {
        var dropped := tail[0];
        tail := tail[1..];
        tailBytes := tailBytes - |dropped|;
        elided := elided + |dropped|;
      }
    }
  }

  // ---------------------------------------------------------------- what a whole stream leaves

  function Bytes(chunks: seq<Chunk>): nat {
    if chunks == [] then 0 else Bytes(chunks[..|chunks| - 1]) + |chunks[|chunks| - 1]|
  }

  function Joined(chunks: seq<Chunk>): seq<Byte> {
    if chunks == [] then [] else Joined(chunks[..|chunks| - 1]) + chunks[|chunks| - 1]
  }

  function Run(chunks: seq<Chunk>): Ring {
    if chunks == [] then EMPTY else Pushed(Run(chunks[..|chunks| - 1]), chunks[|chunks| - 1])
  }

  lemma {:induction false} BytesAppend(a: seq<Chunk>, b: seq<Chunk>)
    ensures Bytes(a + b) == Bytes(a) + Bytes(b)
  {
    if b == [] {
      assert a + b == a;
    } else {
      var n := |b| - 1;
      assert (a + b)[..|a + b| - 1] == a + b[..n];
      BytesAppend(a, b[..n]);
    }
  }

  lemma {:induction false} JoinedAppend(a: seq<Chunk>, b: seq<Chunk>)
    ensures Joined(a + b) == Joined(a) + Joined(b)
  {
    if b == [] {
      assert a + b == a;
    } else {
      var n := |b| - 1;
      assert (a + b)[..|a + b| - 1] == a + b[..n];
      JoinedAppend(a, b[..n]);
    }
  }

  lemma {:induction false} JoinedLength(chunks: seq<Chunk>)
    ensures |Joined(chunks)| == Bytes(chunks)
  {
    if chunks != [] {
      JoinedLength(chunks[..|chunks| - 1]);
    }
  }

  lemma SuffixFrom(chunks: seq<Chunk>, j: nat)
    requires j < |chunks|
    ensures Bytes(chunks[j..]) == |chunks[j]| + Bytes(chunks[j + 1..])
    ensures Bytes(chunks[..j + 1]) == Bytes(chunks[..j]) + |chunks[j]|
  {
    assert chunks[..j + 1][..j] == chunks[..j];
    assert chunks[j..] == [chunks[j]] + chunks[j + 1..];
    BytesAppend([chunks[j]], chunks[j + 1..]);
    assert [chunks[j]][..0] == [];
  }

  /** `h` chunks are the shortest prefix of half the cap, or all there are. */
  ghost predicate IsHead(chunks: seq<Chunk>, h: nat) {
    && h <= |chunks| && (h < |chunks| ==> Bytes(chunks[..h]) >= HALF)
    && forall i :: 0 <= i < h ==> Bytes(chunks[..i]) < HALF
  }

  /** Dropping `j` chunks leaves the longest suffix within half the cap, or the last chunk alone. */
  ghost predicate IsTail(rest: seq<Chunk>, j: nat) {
    && j <= |rest| && (rest != [] ==> j < |rest|)
    && (Bytes(rest[j..]) <= HALF || j == |rest| - 1)
    && forall i :: 0 <= i < j ==> Bytes(rest[i..]) > HALF
  }

  /** The ring holds the two ends of the stream and the size of what lies between. */
  ghost predicate HoldsEnds(chunks: seq<Chunk>, r: Ring, h: nat, j: nat) {
    && IsHead(chunks, h) && IsTail(chunks[h..], j)
    && r.head == chunks[..h] && r.headBytes == Bytes(r.head)
    && r.tail == chunks[h..][j..] && r.tailBytes == Bytes(r.tail)
    && r.elided == Bytes(chunks[h..][..j])
  }

  /** Trimming from a position before the right one ends at the right one. */
  lemma {:induction false} TrimmedTo(rest: seq<Chunk>, r: Ring, i: nat) returns (j: nat)
    requires i < |rest| && r.tail == rest[i..] && r.tailBytes == Bytes(r.tail) && r.elided == Bytes(rest[..i])
    requires forall k :: 0 <= k < i ==> Bytes(rest[k..]) > HALF
    ensures IsTail(rest, j)
    ensures Trimmed(r) == r.(tail := rest[j..], tailBytes := Bytes(rest[j..]), elided := Bytes(rest[..j]))
    decreases |rest| - i
  {
    hide Bytes;
    if r.tailBytes > HALF && |r.tail| > 1 {
      SuffixFrom(rest, i);
      assert rest[i..][1..] == rest[i + 1..];
      j := TrimmedTo(rest, r.(tail := r.tail[1..], tailBytes := r.tailBytes - |r.tail[0]|, elided := r.elided + |r.tail[0]|), i + 1);
    } else {
      j := i;
    }
  }

  lemma GrownHead(front: seq<Chunk>, chunk: Chunk, r: Ring, h: nat, j: nat)
    requires HoldsEnds(front, r, h, j) && r.headBytes < HALF
    ensures HoldsEnds(front + [chunk], Pushed(r, chunk), h + 1, 0)
  {
    assert h == |front| && front[..h] == front;
    var chunks := front + [chunk];
    assert chunks[..h + 1] == chunks && chunks[..h] == front;
    assert chunks[h + 1..] == [] && front[h..] == [];
    forall i | 0 <= i < h + 1 ensures Bytes(chunks[..i]) < HALF {
      assert chunks[..i] == front[..i];
    }
  }

  lemma HeadStays(front: seq<Chunk>, chunk: Chunk, h: nat)
    requires IsHead(front, h) && Bytes(front[..h]) >= HALF
    ensures IsHead(front + [chunk], h) && (front + [chunk])[..h] == front[..h]
  {
    assert (front + [chunk])[..h] == front[..h];
    forall i | 0 <= i < h ensures Bytes((front + [chunk])[..i]) < HALF {
      assert (front + [chunk])[..i] == front[..i];
    }
  }

  /** What was too much before the new chunk is too much with it, so trimming goes on from where it was. */
  lemma TailGrows(rest: seq<Chunk>, chunk: Chunk, r: Ring, j: nat) returns (j': nat)
    requires IsTail(rest, j) && r.tail == rest[j..] && r.tailBytes == Bytes(r.tail) && r.elided == Bytes(rest[..j])
    ensures var more := rest + [chunk];
            IsTail(more, j')
            && Trimmed(r.(tail := r.tail + [chunk], tailBytes := r.tailBytes + |chunk|)) ==
               r.(tail := more[j'..], tailBytes := Bytes(more[j'..]), elided := Bytes(more[..j']))
  {
    var more := rest + [chunk];
    assert more[j..] == rest[j..] + [chunk] && more[..j] == rest[..j];
    assert (r.tail + [chunk])[..|r.tail|] == r.tail;
    forall k | 0 <= k < j ensures Bytes(more[k..]) > HALF {
      assert more[k..] == rest[k..] + [chunk];
      BytesAppend(rest[k..], [chunk]);
    }
    hide Trimmed;
    j' := TrimmedTo(more, r.(tail := r.tail + [chunk], tailBytes := r.tailBytes + |chunk|), j);
  }

  lemma GrownTail(front: seq<Chunk>, chunk: Chunk, r: Ring, h: nat, j: nat) returns (j': nat)
    requires HoldsEnds(front, r, h, j) && r.headBytes >= HALF
    ensures HoldsEnds(front + [chunk], Pushed(r, chunk), h, j')
  {
    HeadStays(front, chunk, h);
    assert (front + [chunk])[h..] == front[h..] + [chunk];
    j' := TailGrows(front[h..], chunk, r, j);
  }

  /** Over any stream the buffer keeps, of whole chunks, the shortest prefix of a MiB and the longest
      suffix within one, and counts every byte between them. */
  lemma {:induction false} RunHoldsEnds(chunks: seq<Chunk>) returns (h: nat, j: nat)
    ensures HoldsEnds(chunks, Run(chunks), h, j)
  {
    if chunks == [] {
      h, j := 0, 0;
    } else {
      var front, last := chunks[..|chunks| - 1], chunks[|chunks| - 1];
      assert chunks == front + [last];
      h, j := RunHoldsEnds(front);
      if Run(front).headBytes < HALF {
        GrownHead(front, last, Run(front), h, j);
        h, j := h + 1, 0;
      } else {
        j := GrownTail(front, last, Run(front), h, j);
      }
    }
  }

  lemma SplitAt(chunks: seq<Chunk>, n: nat)
    requires n <= |chunks|
    ensures Bytes(chunks) == Bytes(chunks[..n]) + Bytes(chunks[n..])
    ensures Joined(chunks) == Joined(chunks[..n]) + Joined(chunks[n..])
    ensures Bytes(chunks[..n]) == 0 ==> Joined(chunks[..n]) == []
  {
    hide Bytes, Joined;
    assert chunks == chunks[..n] + chunks[n..];
    BytesAppend(chunks[..n], chunks[n..]);
    JoinedAppend(chunks[..n], chunks[n..]);
    JoinedLength(chunks[..n]);
  }

  /** No byte is unaccounted for, and an untruncated buffer holds the whole stream. */
  lemma BytesAddUp(chunks: seq<Chunk>)
    ensures var r := Run(chunks);
            && r.headBytes + r.tailBytes + r.elided == Bytes(chunks)
            && (r.elided > 0 || Joined(r.head) + Joined(r.tail) == Joined(chunks))
  {
    hide Bytes, Joined, Run;
    var h, j := RunHoldsEnds(chunks);
    SplitAt(chunks, h);
    SplitAt(chunks[h..], j);
    assert Bytes(chunks[h..][..j]) == 0 ==> Joined(chunks[h..]) == [] + Joined(chunks[h..][j..]);
  }

  /** However long the stream, what is held stays within the cap and a chunk at each end. */
  lemma HeldIsBounded(chunks: seq<Chunk>, largest: nat)
    requires forall c :: c in chunks ==> |c| <= largest
    ensures Run(chunks).headBytes < HALF + largest || Run(chunks).headBytes == 0
    ensures Run(chunks).tailBytes <= HALF || Run(chunks).tailBytes <= largest
  {
    var r := Run(chunks);
    var h, j := RunHoldsEnds(chunks);
    hide Run;
    if h > 0 {
      assert chunks[..h][..h - 1] == chunks[..h - 1] && chunks[h - 1] in chunks;
    }
    if r.tailBytes > HALF {
      assert r.tail == [chunks[|chunks| - 1]] && r.tail[..0] == [];
      assert Bytes(r.tail) == |r.tail[0]|;
      assert r.tail[0] in chunks;
    }
  }

  // ---------------------------------------------------------------- the first and the last MiB

  /** Byte `i` of the stream is still there. */
  predicate Holds(chunks: seq<Chunk>, r: Ring, i: int) {
    i < r.headBytes || Bytes(chunks) - r.tailBytes <= i
  }

  /** What the head and the tail hold are the two ends of the stream. */
  ghost predicate HoldsTwoEnds(r: Ring, all: seq<Byte>) {
    && Joined(r.head) <= all && |Joined(r.head)| == r.headBytes
    && 0 <= r.tailBytes <= |all| && all[|all| - r.tailBytes..] == Joined(r.tail)
  }

  lemma HeldBytes(chunks: seq<Chunk>)
    ensures HoldsTwoEnds(Run(chunks), Joined(chunks)) && |Joined(chunks)| == Bytes(chunks)
  {
    hide Run, Joined, Bytes, HoldsTwoEnds, HoldsEnds;
    var h, j := RunHoldsEnds(chunks);
    EndsHeld(chunks, Run(chunks), h, j);
    JoinedLength(chunks);
  }

  lemma EndsHeld(chunks: seq<Chunk>, r: Ring, h: nat, j: nat)
    requires HoldsEnds(chunks, r, h, j)
    ensures HoldsTwoEnds(r, Joined(chunks))
  {
    hide Joined, Bytes;
    var rest := chunks[h..];
    SplitAt(chunks, h);
    SplitAt(rest, j);
    JoinedLength(r.head);
    JoinedLength(r.tail);
    hide IsHead, IsTail;
    EndsOf(Joined(r.head), Joined(rest[..j]), Joined(r.tail));
  }

  lemma EndsOf(a: seq<Byte>, b: seq<Byte>, c: seq<Byte>)
    ensures a <= a + (b + c) && (a + (b + c))[|a + (b + c)| - |c|..] == c
  {
    assert a + (b + c) == a + b + c;
  }

  ghost predicate HoldsFirst(chunks: seq<Chunk>, r: Ring) {
    forall i :: 0 <= i < Bytes(chunks) && i < 1_048_576 ==> Holds(chunks, r, i)
  }

  ghost predicate HoldsLast(chunks: seq<Chunk>, r: Ring) {
    forall i :: 0 <= i < Bytes(chunks) && Bytes(chunks) - 1_048_576 <= i ==> Holds(chunks, r, i)
  }

  /** The first MiB is never lost. */
  lemma FirstIsHeld(chunks: seq<Chunk>)
    ensures HoldsFirst(chunks, Run(chunks))
  {
    var h, j := RunHoldsEnds(chunks);
    hide Run;
    SplitAt(chunks, h);
    assert h == |chunks| ==> chunks[h..] == [];
  }

  lemma {:induction false} SuffixNoLonger(chunks: seq<Chunk>, i: nat, j: nat)
    requires i <= j <= |chunks|
    ensures Bytes(chunks[j..]) <= Bytes(chunks[i..])
  {
    SplitAt(chunks[i..], j - i);
    assert chunks[i..][j - i..] == chunks[j..];
  }

  /** Some suffix of the chunks is exactly a MiB long, or their last one is no shorter. */
  ghost predicate EndsInHalf(rest: seq<Chunk>) {
    || (rest != [] && |rest[|rest| - 1]| >= HALF)
    || exists i :: 0 <= i <= |rest| && Bytes(rest[i..]) == HALF
  }

  lemma LastChunk(rest: seq<Chunk>)
    requires rest != []
    ensures Bytes(rest[|rest| - 1..]) == |rest[|rest| - 1]|
  {
    var n := |rest| - 1;
    SuffixFrom(rest, n);
    assert rest[n + 1..] == [];
  }

  lemma TailIsHalfIff(rest: seq<Chunk>, j: nat)
    requires IsTail(rest, j) && Bytes(rest) > HALF
    ensures Bytes(rest[j..]) >= HALF <==> EndsInHalf(rest)
  {
    hide Bytes;
    assert rest[0..] == rest;
    assert rest != [] by {
      NoBytes();
    }
    var n := |rest| - 1;
    LastChunk(rest);
    if |rest[n]| >= HALF {
      SuffixNoLonger(rest, j, n);
    }
    if i :| 0 <= i <= |rest| && Bytes(rest[i..]) == HALF {
      assert j <= i;
      SuffixNoLonger(rest, j, i);
    }
  }

  lemma NoBytes()
    ensures Bytes([]) == 0
  {
  }

  /** Where the head of the stream ends. */
  lemma HeadIsUnique(chunks: seq<Chunk>, h: nat, h': nat)
    requires IsHead(chunks, h) && IsHead(chunks, h')
    ensures h == h'
  {
  }

  /** The last MiB is held exactly when what follows the head fits into one, ends in a chunk that long, or has a
      suffix of whole chunks of exactly that length. */
  lemma LastIsHeldIff(chunks: seq<Chunk>, h: nat)
    requires IsHead(chunks, h)
    ensures HoldsLast(chunks, Run(chunks)) <==> Bytes(chunks[h..]) <= HALF || EndsInHalf(chunks[h..])
  {
    var h', j := RunHoldsEnds(chunks);
    HeadIsUnique(chunks, h, h');
    var r, rest := Run(chunks), chunks[h..];
    hide Run, IsHead, Bytes, EndsInHalf;
    SplitAt(chunks, h);
    SplitAt(rest, j);
    assert rest[0..] == rest;
    if Bytes(rest) <= HALF {
      assert j == 0;
      assert rest[..0] == [];
      NoBytes();
    } else {
      TailIsHalfIff(rest, j);
      if r.tailBytes < HALF {
        assert !Holds(chunks, r, Bytes(chunks) - r.tailBytes - 1) by {
          DroppedByte(rest, j);
        }
      }
    }
  }

  /** If the tail is less than half the cap though there was more, some byte was dropped just before it. */
  lemma DroppedByte(rest: seq<Chunk>, j: nat)
    requires IsTail(rest, j) && Bytes(rest) > HALF && Bytes(rest[j..]) < HALF
    ensures Bytes(rest[..j]) > 0
  {
    SplitAt(rest, j);
  }

  lemma BytesOfThree(a: Chunk, b: Chunk, c: Chunk)
    ensures Bytes([a, b, c]) == |a| + |b| + |c|
  {
    assert [a, b, c][..2] == [a, b] && [a, b][..1] == [a] && [a][..0] == [];
    assert Bytes([a]) == |a|;
    assert Bytes([a, b]) == |a| + |b|;
  }

  /** One MiB and then two chunks of six tenths each: the first of them goes, and four tenths of the last MiB with it. */
  lemma LastIsLost(a: Chunk, b: Chunk, c: Chunk)
    requires |a| == HALF && |b| == |c| == 629_146
    ensures Run([a, b, c]).tail == [c] && Run([a, b, c]).elided == |b| && !HoldsLast([a, b, c], Run([a, b, c]))
  {
    var all := [a, b, c];
    assert all[..2] == [a, b] && [a, b][..1] == [a] && [a][..0] == [];
    assert Run([a]) == Ring([a], [], HALF, 0, 0);
    assert Run([a, b]) == Ring([a], [b], HALF, |b|, 0);
    var left := Ring([a], [c], HALF, |c|, |b|);
    assert Trimmed(left) == left;
    assert [b, c][1..] == [c] && [b] + [c] == [b, c];
    assert Trimmed(Ring([a], [b, c], HALF, |b| + |c|, 0)) == Trimmed(left);
    hide Trimmed;
    assert Run(all) == left;
    BytesOfThree(a, b, c);
    hide Run, Bytes;
    assert !Holds(all, left, HALF + |b| - 1);
  }

  // ---------------------------------------------------------------- artifacts

  datatype Collected = Collected(kept: seq<Byte>, truncated: bool)

  /** The smaller of the two caps; a spent budget leaves nothing. */
  function Cap(maxBytes: int, runBudget: int): nat {
    var cap := if maxBytes < runBudget then maxBytes else runBudget;
    if cap < 0 then 0 else cap
  }

  function Collect(body: seq<Byte>, maxBytes: int, runBudget: int): Collected {
    var cap := Cap(maxBytes, runBudget);
    if |body| > cap then Collected(body[..cap], true) else Collected(body, false)
  }

  /** Neither cap is exceeded, what is kept is a prefix, and it is cut only as far as a cap demands. */
  lemma CollectedFits(body: seq<Byte>, maxBytes: int, runBudget: int)
    ensures var c := Collect(body, maxBytes, runBudget);
            && c.kept <= body && (c.truncated <==> c.kept != body)
            && (c.kept == [] || (|c.kept| <= maxBytes && |c.kept| <= runBudget))
            && (c.truncated ==> |c.kept| == Cap(maxBytes, runBudget))
  {
    var cap := Cap(maxBytes, runBudget);
    if |body| > cap {
      assert |body[..cap]| == cap;
    }
  }
}
