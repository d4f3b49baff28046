/**
 Splitting a customer information report into `NotifyCustomerInformation` chunks that fit the wire
 field (src/customer_information.rs). Text is its UTF-8 bytes.
 */
module CustomerInformation {
  import opened Options
  import opened Utf8

  const CHUNK_SIZE := 512

  // --- The splitter ------------------------------------------------------------------------------

  /** The last boundary at or before `end`. */
  function LastBoundary(s: seq<byte>, end: nat): (b: nat)
    requires end <= |s|
    ensures b <= end && IsCharBoundary(s, b)
    ensures forall i :: b < i <= end ==> !IsCharBoundary(s, i)
  {
    if end == 0 || IsCharBoundary(s, end) then end else LastBoundary(s, end - 1)
  }

  /** Where the next piece of non-empty text ends: as far as `maxBytes` reaches, but at least one character. */
  function PieceEnd(rest: seq<byte>, maxBytes: nat): (end: nat)
    requires Valid(rest) && rest != []
    ensures 0 < end <= |rest|
  {
    var b := LastBoundary(rest, if |rest| < maxBytes then |rest| else maxBytes);
    if b == 0 then CharLength(rest[0]) else b
  }

  lemma PieceEndIsBoundary(rest: seq<byte>, maxBytes: nat)
    requires Valid(rest) && rest != []
    ensures IsCharBoundary(rest, PieceEnd(rest, maxBytes))
    ensures Valid(rest[..PieceEnd(rest, maxBytes)]) && Valid(rest[PieceEnd(rest, maxBytes)..])
  {
    var n := CharLength(rest[0]);
    if n < |rest| {
      assert rest[n] == rest[n..][0];
    }
    BoundarySplits(rest, PieceEnd(rest, maxBytes));
  }

  function Pieces(rest: seq<byte>, maxBytes: nat): seq<seq<byte>>
    requires Valid(rest)
    decreases |rest|
  {
    if rest == [] then []
    else
      PieceEndIsBoundary(rest, maxBytes);
      var end := PieceEnd(rest, maxBytes);
      [rest[..end]] + Pieces(rest[end..], maxBytes)
  }

  /** Empty text still makes one, empty, piece. */
  function Split(data: seq<byte>, maxBytes: nat): seq<seq<byte>>
    requires Valid(data)
  {
    if data == [] then [[]] else Pieces(data, maxBytes)
  }

  /** The inner loop: back from the limit to a boundary, or on to the end of the first character. */
  method FindPieceEnd(rest: seq<byte>, maxBytes: nat) returns (end: nat)
    requires Valid(rest) && rest != []
    ensures end == PieceEnd(rest, maxBytes)
  {
    end := if |rest| < maxBytes then |rest| else maxBytes;
    ghost var furthest := end;
    while end > 0 && !IsCharBoundary(rest, end)
      invariant end <= furthest
      invariant LastBoundary(rest, end) == LastBoundary(rest, furthest)
    {
      end := end - 1;
    }
    if end == 0 {
      end := CharLength(rest[0]);
    }
  }

  method SplitAtCharBoundaries(data: seq<byte>, maxBytes: nat) returns (parts: seq<seq<byte>>)
    requires Valid(data)
    ensures parts == Split(data, maxBytes)
  {
    if data == [] {
      return [[]];
    }
    parts := [];
    var rest := data;
    while rest != []
      invariant Valid(rest)
      invariant parts + Pieces(rest, maxBytes) == Pieces(data, maxBytes)
      decreases |rest|
    {
      var end := FindPieceEnd(rest, maxBytes);
      PieceEndIsBoundary(rest, maxBytes);
      assert parts + Pieces(rest, maxBytes) == (parts + [rest[..end]]) + Pieces(rest[end..], maxBytes);
      parts := parts + [rest[..end]];
      rest := rest[end..];
    }
    assert parts + [] == parts;
  }

  // --- What a split is ---------------------------------------------------------------------------

  function Concat(parts: seq<seq<byte>>): seq<byte> {
    if parts == [] then [] else parts[0] + Concat(parts[1..])
  }

  /** `parts` is a way to cut `data` into valid text of at most `maxBytes` bytes each. */
  ghost predicate IsSplit(data: seq<byte>, maxBytes: nat, parts: seq<seq<byte>>) {
    && parts != [] && Concat(parts) == data
    && (forall i :: 0 <= i < |parts| ==> Valid(parts[i]) && |parts[i]| <= maxBytes)
  }

  /** A non-empty piece of valid text within the limit, or a single character that is wider than it. */
  predicate IsPiece(piece: seq<byte>, maxBytes: nat) {
    Valid(piece) && piece != [] && (|piece| <= maxBytes || IsChar(piece))
  }

  lemma FirstPieceIsSound(rest: seq<byte>, maxBytes: nat)
    requires Valid(rest) && rest != []
    ensures IsPiece(rest[..PieceEnd(rest, maxBytes)], maxBytes)
  {
    PieceEndIsBoundary(rest, maxBytes);
  }

  lemma Halves(s: seq<byte>, k: nat)
    requires k <= |s|
    ensures s[..k] + s[k..] == s
  {
  }

  lemma ConcatCons(first: seq<byte>, others: seq<seq<byte>>)
    ensures Concat([first] + others) == first + Concat(others)
  {
  }

  /** For every limit: the pieces are sound, and they rejoin to the text. */
  lemma {:induction false} PiecesAreSound(rest: seq<byte>, maxBytes: nat)
    requires Valid(rest)
    ensures Concat(Pieces(rest, maxBytes)) == rest
    ensures forall i :: 0 <= i < |Pieces(rest, maxBytes)| ==> IsPiece(Pieces(rest, maxBytes)[i], maxBytes)
    decreases |rest|
  {
    if rest != [] {
      var end := PieceEnd(rest, maxBytes);
      PieceEndIsBoundary(rest, maxBytes);
      FirstPieceIsSound(rest, maxBytes);
      var others := Pieces(rest[end..], maxBytes);
      PiecesAreSound(rest[end..], maxBytes);
      ConcatCons(rest[..end], others);
      Halves(rest, end);
    }
  }

  /** A limit of at least four bytes, the widest character, is always kept. */
  lemma SplitIsASplit(data: seq<byte>, maxBytes: nat)
    requires Valid(data) && 4 <= maxBytes
    ensures IsSplit(data, maxBytes, Split(data, maxBytes))
  {
    PiecesAreSound(data, maxBytes);
    if data == [] {
      var only: seq<seq<byte>> := [[]];
      assert only[1..] == [] && Concat(only[1..]) == [];
    }
  }

  // --- Optimality --------------------------------------------------------------------------------

  /** A piece started inside another one, at a boundary, reaches at least as far. */
  lemma LaterStartReachesAsFar(s: seq<byte>, k: nat, maxBytes: nat)
    requires Valid(s) && 0 < k <= |s| && Valid(s[k..]) && IsCharBoundary(s, k)
    requires s != [] && k < PieceEnd(s, maxBytes)
    ensures PieceEnd(s, maxBytes) <= k + PieceEnd(s[k..], maxBytes)
  {
    var e := PieceEnd(s, maxBytes);
    PieceEndIsBoundary(s, maxBytes);
    if e > maxBytes {
      NoBoundaryInsideFirstChar(s, k);
    }
    BoundaryShift(s, k, e);
  }

  /** `t` is what is left of `s` from one of its character boundaries on. */
  predicate Continues(s: seq<byte>, t: seq<byte>) {
    |t| <= |s| && s[|s| - |t|..] == t && IsCharBoundary(s, |s| - |t|)
  }

  lemma SuffixContinues(s: seq<byte>, e: nat, reach: nat)
    requires Valid(s) && e <= reach <= |s| && IsCharBoundary(s, e) && IsCharBoundary(s, reach)
    ensures Continues(s[e..], s[reach..])
  {
  }

  /** Starting later, at a character boundary, never needs more pieces. */
  lemma {:induction false} LaterStartNeedsNoMore(s: seq<byte>, t: seq<byte>, maxBytes: nat)
    requires Valid(s) && Valid(t) && Continues(s, t)
    ensures |Pieces(t, maxBytes)| <= |Pieces(s, maxBytes)|
    decreases |s|
  {
    if t != [] && t != s {
      var rest, later := PastFirstPiece(s, t, maxBytes);
      LaterStartNeedsNoMore(rest, later, maxBytes);
    }
  }

  /** Both starts moved on by at most one piece, after which the one that was later still is. */
  lemma PastFirstPiece(s: seq<byte>, t: seq<byte>, maxBytes: nat) returns (rest: seq<byte>, later: seq<byte>)
    requires Valid(s) && Valid(t) && Continues(s, t) && t != [] && t != s
    ensures Valid(rest) && Valid(later) && Continues(rest, later) && |rest| < |s|
    ensures |Pieces(s, maxBytes)| == 1 + |Pieces(rest, maxBytes)|
    ensures |Pieces(t, maxBytes)| <= 1 + |Pieces(later, maxBytes)|
  {
    var e := OnePiece(s, maxBytes);
    var reach := Reach(s, |s| - |t|, maxBytes);
    rest, later := s[e..], s[reach..];
    SuffixContinues(s, e, reach);
  }

  /** Where the first piece ends; the others are those of the remaining text. */
  lemma OnePiece(s: seq<byte>, maxBytes: nat) returns (end: nat)
    requires Valid(s) && s != []
    ensures end == PieceEnd(s, maxBytes) && IsCharBoundary(s, end)
    ensures Valid(s[end..]) && |Pieces(s, maxBytes)| == 1 + |Pieces(s[end..], maxBytes)|
  {
    end := PieceEnd(s, maxBytes);
    PieceEndIsBoundary(s, maxBytes);
  }

  lemma DropTwice(s: seq<byte>, k: nat, n: nat)
    requires k + n <= |s|
    ensures s[k..][n..] == s[k + n..]
  {
  }

  /** The same boundary, counted from `k` and from the start. */
  lemma SameBoundary(s: seq<byte>, k: nat, n: nat)
    requires Valid(s) && k + n <= |s| && IsCharBoundary(s, k) && IsCharBoundary(s[k..], n)
    ensures IsCharBoundary(s, k + n) && s[k..][n..] == s[k + n..]
  {
    BoundaryShift(s, k, k + n);
    DropTwice(s, k, n);
  }

  /** The first piece from `k` on, seen in the whole text. */
  lemma CoveringPiece(s: seq<byte>, k: nat, maxBytes: nat) returns (reach: nat)
    requires Valid(s) && 0 < k < |s| && IsCharBoundary(s, k) && Valid(s[k..])
    requires k < PieceEnd(s, maxBytes)
    ensures PieceEnd(s, maxBytes) <= reach <= |s| && IsCharBoundary(s, reach)
    ensures Valid(s[reach..]) && |Pieces(s[k..], maxBytes)| == 1 + |Pieces(s[reach..], maxBytes)|
  {
    LaterStartReachesAsFar(s, k, maxBytes);
    var end := OnePiece(s[k..], maxBytes);
    SameBoundary(s, k, end);
    reach := k + end;
  }

  /** A boundary not before the end of the first piece, at most one piece on from `k`. */
  lemma Reach(s: seq<byte>, k: nat, maxBytes: nat) returns (reach: nat)
    requires Valid(s) && 0 < k < |s| && IsCharBoundary(s, k) && Valid(s[k..])
    ensures PieceEnd(s, maxBytes) <= reach <= |s| && IsCharBoundary(s, reach)
    ensures Valid(s[reach..]) && |Pieces(s[k..], maxBytes)| <= 1 + |Pieces(s[reach..], maxBytes)|
  {
    if k < PieceEnd(s, maxBytes) {
      reach := CoveringPiece(s, k, maxBytes);
    } else {
      reach := k;
    }
  }

  lemma {:induction false} PiecesAreFewest(data: seq<byte>, maxBytes: nat, parts: seq<seq<byte>>)
    requires Valid(data) && Concat(parts) == data
    requires forall i :: 0 <= i < |parts| ==> Valid(parts[i]) && |parts[i]| <= maxBytes
    ensures |Pieces(data, maxBytes)| <= |parts|
    decreases |parts|
  {
    if parts != [] {
      var first, others := parts[0], Concat(parts[1..]);
      assert data[..|first|] == first && data[|first|..] == others;
      ConcatIsValid(parts[1..]);
      BoundarySplits(data, |first|);
      PiecesAreFewest(others, maxBytes, parts[1..]);
      if first != [] {
        var e := PieceEnd(data, maxBytes);
        PieceEndIsBoundary(data, maxBytes);
        SuffixContinues(data, |first|, e);
        LaterStartNeedsNoMore(others, data[e..], maxBytes);
      }
    }
  }

  lemma {:induction false} ConcatIsValid(parts: seq<seq<byte>>)
    requires forall i :: 0 <= i < |parts| ==> Valid(parts[i])
    ensures Valid(Concat(parts))
  {
    if parts != [] {
      ConcatIsValid(parts[1..]);
      JoinIsValid(parts[0], Concat(parts[1..]));
    }
  }

  lemma Joined(a: seq<byte>, b: seq<byte>, n: nat)
    requires n <= |a|
    ensures (a + b)[..n] == a[..n] && (a + b)[n..] == a[n..] + b
  {
  }

  lemma {:induction false} JoinIsValid(a: seq<byte>, b: seq<byte>)
    requires Valid(a) && Valid(b)
    ensures Valid(a + b)
    decreases |a|
  {
    if a == [] {
      assert a + b == b;
    } else {
      var n := CharLength(a[0]);
      Joined(a, b, n);
      JoinIsValid(a[n..], b);
      CharThenValid(a + b, n);
    }
  }

  /** Greedy is optimal: no way to cut the text within the limit has fewer pieces, whatever the limit. */
  lemma SplitIsOptimal(data: seq<byte>, maxBytes: nat, parts: seq<seq<byte>>)
    requires Valid(data) && IsSplit(data, maxBytes, parts)
    ensures |Split(data, maxBytes)| <= |parts|
  {
    PiecesAreFewest(data, maxBytes, parts);
  }

  // --- How full the pieces are -------------------------------------------------------------------

  /** Only the last piece may fall more than three bytes short of the limit. */
  lemma {:induction false} AllButLastAreNearlyFull(rest: seq<byte>, maxBytes: nat, i: nat)
    requires Valid(rest) && 4 <= maxBytes && i + 1 < |Pieces(rest, maxBytes)|
    ensures maxBytes - 3 <= |Pieces(rest, maxBytes)[i]|
    decreases |rest|
  {
    var end := PieceEnd(rest, maxBytes);
    PieceEndIsBoundary(rest, maxBytes);
    if i > 0 {
      AllButLastAreNearlyFull(rest[end..], maxBytes, i - 1);
    } else {
      assert rest[end..] != [];
      var j := BoundaryNearby(rest, if |rest| < maxBytes then |rest| else maxBytes);
    }
  }

  /** `n` bytes make at most `n / (limit - 3)` pieces, rounded up. */
  lemma {:induction false} PieceCountBound(rest: seq<byte>, maxBytes: nat)
    requires Valid(rest) && 4 <= maxBytes
    ensures |Pieces(rest, maxBytes)| * (maxBytes - 3) < |rest| + (maxBytes - 3)
    decreases |rest|
  {
    if rest != [] {
      PieceEndIsBoundary(rest, maxBytes);
      var others := rest[PieceEnd(rest, maxBytes)..];
      if 1 < |Pieces(rest, maxBytes)| {
        AllButLastAreNearlyFull(rest, maxBytes, 0);
      }
      PieceCountBound(others, maxBytes);
      OneMore(|Pieces(others, maxBytes)|, maxBytes - 3, |others|, |rest|);
    }
  }

  lemma OneMore(pieces: nat, least: nat, fewer: nat, bytes: nat)
    requires pieces * least < fewer + least && fewer < bytes
    requires 0 < pieces ==> fewer + least <= bytes
    ensures (1 + pieces) * least < bytes + least
  {
  }

  // --- The chunks --------------------------------------------------------------------------------

  datatype Chunk = Chunk(seqNo: int, tbc: bool, data: seq<byte>)

  function Chunks(data: seq<byte>): seq<Chunk>
    requires Valid(data)
  {
    var parts := Split(data, CHUNK_SIZE);
    seq(|parts|, i requires 0 <= i < |parts| => Chunk(i, i + 1 < |parts|, parts[i]))
  }

  /** A receiver that checks the numbering and collects until a chunk says none follows. */
  function Received(messages: seq<Chunk>, expected: int): Option<seq<byte>> {
    if messages == [] || messages[0].seqNo != expected then None
    else if !messages[0].tbc then Some(messages[0].data)
    else
      match Received(messages[1..], expected + 1)
      case None => None
      case Some(others) => Some(messages[0].data + others)
  }

  lemma {:induction false} SuffixIsReceived(data: seq<byte>, k: nat, later: seq<Chunk>)
    requires Valid(data) && k < |Chunks(data)|
    ensures Received(Chunks(data)[k..] + later, k) == Some(Concat(Split(data, CHUNK_SIZE)[k..]))
    decreases |Chunks(data)| - k
  {
    var chunks, parts := Chunks(data), Split(data, CHUNK_SIZE);
    var tail := chunks[k..] + later;
    assert tail[0] == chunks[k];
    assert parts[k..][0] == parts[k];
    if k + 1 < |chunks| {
      assert tail[1..] == chunks[k + 1..] + later;
      assert parts[k..][1..] == parts[k + 1..];
      SuffixIsReceived(data, k + 1, later);
    } else {
      assert Concat(parts[k..][1..]) == [];
      assert parts[k] + [] == parts[k];
    }
  }

  /**
   For every valid text, empty included: each chunk is valid text of at most 512 bytes, they are
   numbered from zero, exactly the last one ends the report, and the receiver gets the text back
   whatever follows it. `n` bytes take at most `n / 509` chunks, rounded up, or one.
   */
  lemma ChunksRoundTrip(data: seq<byte>, later: seq<Chunk>)
    requires Valid(data)
    ensures Received(Chunks(data) + later, 0) == Some(data)
    ensures forall i :: 0 <= i < |Chunks(data)| ==>
              && Chunks(data)[i].seqNo == i
              && (Chunks(data)[i].tbc <==> i + 1 < |Chunks(data)|)
              && Valid(Chunks(data)[i].data) && |Chunks(data)[i].data| <= 512
    ensures 1 <= |Chunks(data)| && (data != [] ==> |Chunks(data)| <= (|data| + 508) / 509)
  {
    SplitIsASplit(data, CHUNK_SIZE);
    assert Chunks(data)[0..] == Chunks(data);
    assert Split(data, CHUNK_SIZE)[0..] == Split(data, CHUNK_SIZE);
    SuffixIsReceived(data, 0, later);
    if data != [] {
      PieceCountBound(data, CHUNK_SIZE);
    }
  }
}
