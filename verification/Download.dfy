/** The BEP 9 piece loop: a window of requests, checks on every answer, reassembly. */
module Download {
  import opened Bytes
  import opened Net
  import opened Seqs

  const PIECE: nat := 16384

  datatype Error = WriteFailed | ReadFailed | Timeout | TotalSizeMismatch | OutOfRange | WrongLength
    | Rejected | MissingPiece | SizeZero | TooLarge

  datatype Result = Ok(data: seq<Byte>) | Err(error: Error)

  /** What one turn of the loop reads: a metadata answer, a rejection, another message or an answer that
      does not parse, a frame that does not decode, or a failed read. */
  datatype Event = Data(piece: nat, totalSize: nat, data: seq<Byte>) | Reject | Other | Undecodable | ReadError

  function PieceCount(size: nat): nat
  {
    (size + PIECE - 1) / PIECE
  }

  function PieceLen(size: nat, count: nat, i: nat): nat
    requires count == PieceCount(size) && i < count
  {
    if i + 1 == count then size - i * PIECE else PIECE
  }

  // ------------------------------------------------------------ the protocol without a window

  /** The data of the first of n events that answers for piece i. */
  function FirstData(events: seq<Event>, n: nat, i: nat): Option<seq<Byte>>
    requires n <= |events|
  {
    if n == 0 then None
    else
      var earlier := FirstData(events, n - 1, i);
      if earlier.None? && events[n - 1].Data? && events[n - 1].piece == i then Some(events[n - 1].data) else earlier
  }

  predicate Complete(events: seq<Event>, n: nat, count: nat)
    requires n <= |events|
  {
    forall i | 0 <= i < count :: FirstData(events, n, i).Some?
  }

  /** Why an event ends the download, if it does. An undecodable frame leaves some piece missing. */
  function Fault(e: Event, size: nat): Option<Error>
  {
    match e
    case Data(piece, totalSize, data) =>
      var count := PieceCount(size);
      if totalSize != size then Some(TotalSizeMismatch)
      else if piece >= count then Some(OutOfRange)
      else if |data| != PieceLen(size, count, piece) then Some(WrongLength)
      else None
    case Reject => Some(Rejected)
    case Other => None
    case Undecodable => Some(MissingPiece)
    case ReadError => Some(ReadFailed)
  }

  /** The first k pieces in order, each as first answered. */
  function Join(events: seq<Event>, n: nat, k: nat): seq<Byte>
    requires n <= |events| && Complete(events, n, k)
  {
    if k == 0 then [] else Join(events, n, k - 1) + FirstData(events, n, k - 1).value
  }

  /** What the download comes to, from event n on; the deadline passes after the last event. */
  function Outcome(events: seq<Event>, n: nat, size: nat): Result
    requires n <= |events|
    decreases |events| - n
  {
    if Complete(events, n, PieceCount(size)) then Ok(Join(events, n, PieceCount(size)))
    else if n == |events| then Err(Timeout)
    else if Fault(events[n], size).Some? then Err(Fault(events[n], size).value)
    else Outcome(events, n + 1, size)
  }

  predicate Clean(events: seq<Event>, n: nat, size: nat)
    requires n <= |events|
  {
    forall k | 0 <= k < n :: Fault(events[k], size).None?
  }

  /** The first k pieces span k full pieces, except that all of them span the size. */
  function Span(size: nat, k: nat): nat
    requires k <= PieceCount(size)
  {
    if k == PieceCount(size) then size else k * PIECE
  }

  /** Piece lengths sum to the metadata size. */
  lemma SpanStep(size: nat, k: nat)
    requires k < PieceCount(size)
    ensures Span(size, k) == k * PIECE
    ensures Span(size, k + 1) == Span(size, k) + PieceLen(size, PieceCount(size), k)
    ensures 1 <= PieceLen(size, PieceCount(size), k) <= PIECE
  {
    assert size + PIECE - 1 == PieceCount(size) * PIECE + (size + PIECE - 1) % PIECE;
  }

  lemma {:induction false} FirstDataLength(events: seq<Event>, n: nat, i: nat, size: nat)
    requires n <= |events| && Clean(events, n, size) && FirstData(events, n, i).Some?
    ensures i < PieceCount(size) && |FirstData(events, n, i).value| == PieceLen(size, PieceCount(size), i)
  {
    if FirstData(events, n - 1, i).Some? {
      FirstDataLength(events, n - 1, i, size);
    } else {
      assert Fault(events[n - 1], size).None?;
    }
  }

  /** Piece i, as first answered, lies in data where the pieces before it end. */
  ghost predicate Placed(events: seq<Event>, n: nat, size: nat, data: seq<Byte>, i: nat)
    requires n <= |events| && i < PieceCount(size)
  {
    && Span(size, i) <= Span(size, i + 1) <= |data|
    && FirstData(events, n, i) == Some(data[Span(size, i)..Span(size, i + 1)])
  }

  lemma PlacedLonger(events: seq<Event>, n: nat, size: nat, data: seq<Byte>, more: seq<Byte>, i: nat)
    requires n <= |events| && i < PieceCount(size) && Placed(events, n, size, data, i)
    ensures Placed(events, n, size, data + more, i)
  {
    assert (data + more)[Span(size, i)..Span(size, i + 1)] == data[Span(size, i)..Span(size, i + 1)];
  }

  /** Where each piece lies in the assembled metadata. */
  lemma {:induction false} JoinPlaces(events: seq<Event>, n: nat, k: nat, size: nat)
    requires n <= |events| && Clean(events, n, size) && k <= PieceCount(size) && Complete(events, n, k)
    ensures |Join(events, n, k)| == Span(size, k)
    ensures forall i: nat | i < k :: Placed(events, n, size, Join(events, n, k), i)
  {
    hide Placed, PieceLen, PieceCount, Fault;
    if k == 0 {
      NothingSpanned(size);
    } else {
      JoinPlaces(events, n, k - 1, size);
      FirstDataLength(events, n, k - 1, size);
      SpanStep(size, k - 1);
      var front, last := Join(events, n, k - 1), FirstData(events, n, k - 1).value;
      forall i: nat | i < k
        ensures Placed(events, n, size, front + last, i)
      {
        if i < k - 1 {
          PlacedLonger(events, n, size, front, last, i);
        } else {
          PlacedLast(events, n, size, front, last, i);
        }
      }
    }
  }

  lemma NothingSpanned(size: nat)
    ensures Span(size, 0) == 0
  {
  }

  lemma PlacedLast(events: seq<Event>, n: nat, size: nat, front: seq<Byte>, last: seq<Byte>, i: nat)
    requires n <= |events| && i < PieceCount(size)
    requires FirstData(events, n, i) == Some(last) && |front| == Span(size, i) && |front| + |last| == Span(size, i + 1)
    ensures Placed(events, n, size, front + last, i)
  {
    assert (front + last)[|front|..|front| + |last|] == last;
  }

  ghost predicate Assembled(events: seq<Event>, m: nat, size: nat, data: seq<Byte>)
    requires m <= |events|
  {
    && Clean(events, m, size)
    && |data| == size
    && (forall i: nat | i < PieceCount(size) :: Placed(events, m, size, data, i))
  }

  lemma {:induction false} OkIsComplete(events: seq<Event>, n: nat, size: nat) returns (m: nat)
    requires n <= |events| && Clean(events, n, size) && Outcome(events, n, size).Ok?
    ensures n <= m <= |events| && Assembled(events, m, size, Outcome(events, n, size).data)
    ensures Complete(events, m, PieceCount(size))
    decreases |events| - n
  {
    hide Placed;
    m := n;
    if Complete(events, n, PieceCount(size)) {
      JoinPlaces(events, n, PieceCount(size), size);
    } else {
      m := OkIsComplete(events, n + 1, size);
    }
  }

  /** An Ok result has exactly the advertised size and holds, piece by piece in order, the first data
      accepted for each index; nothing read until then was at fault. */
  lemma OkIsAssembled(events: seq<Event>, n: nat, size: nat)
    requires n <= |events| && Clean(events, n, size) && Outcome(events, n, size).Ok?
    ensures exists m | n <= m <= |events| :: Assembled(events, m, size, Outcome(events, n, size).data)
  {
    var _ := OkIsComplete(events, n, size);
  }

  /** It succeeds exactly when the answers complete before anything is at fault. */
  lemma {:induction false} OkExactly(events: seq<Event>, n: nat, size: nat)
    requires n <= |events| && Clean(events, n, size)
    ensures Outcome(events, n, size).Ok?
            <==> exists m | n <= m <= |events| :: Clean(events, m, size) && Complete(events, m, PieceCount(size))
    decreases |events| - n
  {
    if Complete(events, n, PieceCount(size)) {
      assert Clean(events, n, size);
    } else if n < |events| {
      if Fault(events[n], size).None? {
        OkExactly(events, n + 1, size);
      } else {
        assert forall m | n < m <= |events| :: !Clean(events, m, size);
      }
    }
  }

  // ------------------------------------------------------------ the outcome, stated on the events

  /** Data for a piece that exists, with the advertised total size and as long as that piece is, or a message of
      another kind. */
  predicate Acceptable(e: Event, size: nat)
  {
    e.Other? || (e.Data? && e.totalSize == size && e.piece * 16384 < size
                 && |e.data| == if (e.piece + 1) * 16384 <= size then 16384 else size - e.piece * 16384)
  }

  predicate AcceptableUntil(events: seq<Event>, n: nat, size: nat)
    requires n <= |events|
  {
    forall k | 0 <= k < n :: Acceptable(events[k], size)
  }

  /** One of the first n events is data for piece i. */
  ghost predicate AnsweredBy(events: seq<Event>, n: nat, i: nat)
    requires n <= |events|
  {
    exists k :: 0 <= k < n && events[k].Data? && events[k].piece == i
  }

  ghost predicate AllAnsweredBy(events: seq<Event>, n: nat, size: nat)
    requires n <= |events|
  {
    forall i: nat | i * 16384 < size :: AnsweredBy(events, n, i)
  }

  lemma PieceExists(size: nat, i: nat)
    ensures i < PieceCount(size) <==> i * 16384 < size
    ensures i < PieceCount(size) ==>
              PieceLen(size, PieceCount(size), i) == if (i + 1) * 16384 <= size then 16384 else size - i * 16384
    ensures i + 1 <= PieceCount(size) ==> Span(size, i) == i * 16384
  {
    assert size + PIECE - 1 == PieceCount(size) * PIECE + (size + PIECE - 1) % PIECE;
  }

  lemma FaultExact(e: Event, size: nat)
    ensures Fault(e, size).None? <==> Acceptable(e, size)
  {
    hide PieceCount, PieceLen;
    if e.Data? {
      PieceExists(size, e.piece);
    }
  }

  lemma CleanExact(events: seq<Event>, n: nat, size: nat)
    requires n <= |events|
    ensures Clean(events, n, size) <==> AcceptableUntil(events, n, size)
  {
    hide Fault, Acceptable;
    forall k | 0 <= k < n
      ensures Fault(events[k], size).None? <==> Acceptable(events[k], size)
    {
      FaultExact(events[k], size);
    }
  }

  lemma CompleteExact(events: seq<Event>, n: nat, size: nat)
    requires n <= |events|
    ensures Complete(events, n, PieceCount(size)) <==> AllAnsweredBy(events, n, size)
  {
    hide FirstData, PieceCount, AnsweredBy;
    forall i: nat
      ensures i < PieceCount(size) <==> i * 16384 < size
      ensures FirstData(events, n, i).Some? <==> AnsweredBy(events, n, i)
    {
      PieceExists(size, i);
      FirstDataIsAnswer(events, n, i);
    }
  }

  lemma FirstDataIsAnswer(events: seq<Event>, n: nat, i: nat)
    requires n <= |events|
    ensures FirstData(events, n, i).Some? <==> AnsweredBy(events, n, i)
  {
    FirstDataExists(events, n, i);
  }

  /** The download succeeds exactly when some first events are all acceptable and answer every piece. */
  lemma SuccessExact(events: seq<Event>, size: nat)
    ensures Outcome(events, 0, size).Ok?
            <==> exists m | 0 <= m <= |events| :: AcceptableUntil(events, m, size) && AllAnsweredBy(events, m, size)
  {
    hide Clean, Complete, AcceptableUntil, AllAnsweredBy, Outcome;
    assert Clean(events, 0, size) by { CleanNothing(events, size); }
    OkExactly(events, 0, size);
    forall m | 0 <= m <= |events|
      ensures Clean(events, m, size) <==> AcceptableUntil(events, m, size)
      ensures Complete(events, m, PieceCount(size)) <==> AllAnsweredBy(events, m, size)
    {
      CleanExact(events, m, size);
      CompleteExact(events, m, size);
    }
  }

  lemma CleanNothing(events: seq<Event>, size: nat)
    ensures Clean(events, 0, size)
  {
  }

  /** Event k is the first data for its piece. */
  ghost predicate FirstFor(events: seq<Event>, k: nat)
    requires k < |events|
  {
    events[k].Data? && forall j | 0 <= j < k :: !(events[j].Data? && events[j].piece == events[k].piece)
  }

  lemma {:induction false} FirstDataOf(events: seq<Event>, n: nat, k: nat)
    requires k < n <= |events| && FirstFor(events, k)
    ensures FirstData(events, n, events[k].piece) == Some(events[k].data)
  {
    if n == k + 1 {
      FirstDataExists(events, k, events[k].piece);
    } else {
      FirstDataOf(events, n - 1, k);
    }
  }

  /** What a success returns: as many bytes as were advertised, each piece in its place as first received. */
  lemma SuccessData(events: seq<Event>, size: nat)
    requires Outcome(events, 0, size).Ok?
    ensures var data := Outcome(events, 0, size).data;
            && |data| == size
            && exists m | 0 <= m <= |events| :: AcceptableUntil(events, m, size) && AllAnsweredBy(events, m, size)
                 && forall k: nat | k < m && FirstFor(events, k) :: PieceIn(data, events[k].piece, events[k].data)
  {
    hide Outcome, Placed, Acceptable, AllAnsweredBy, PieceIn, Complete, Clean;
    var data := Outcome(events, 0, size).data;
    CleanNothing(events, size);
    var m := OkIsComplete(events, 0, size);
    CleanExact(events, m, size);
    CompleteExact(events, m, size);
    forall k: nat | k < m && FirstFor(events, k)
      ensures PieceIn(data, events[k].piece, events[k].data)
    {
      PlacedIs(events, m, k, size, data);
    }
  }

  /** The bytes of data from the start of piece i on begin with piece. */
  predicate PieceIn(data: seq<Byte>, i: nat, piece: seq<Byte>)
  {
    i * 16384 + |piece| <= |data| && data[i * 16384..i * 16384 + |piece|] == piece
  }

  lemma PlacedIs(events: seq<Event>, m: nat, k: nat, size: nat, data: seq<Byte>)
    requires k < m <= |events| && FirstFor(events, k) && AcceptableUntil(events, m, size)
    requires forall i: nat | i < PieceCount(size) :: Placed(events, m, size, data, i)
    ensures PieceIn(data, events[k].piece, events[k].data)
  {
    hide PieceCount, FirstData, PieceLen, Span;
    var i := events[k].piece;
    assert Acceptable(events[k], size);
    PieceExists(size, i);
    FirstDataOf(events, m, k);
    assert Placed(events, m, size, data, i);
  }

  lemma {:induction false} OutcomeLater(events: seq<Event>, m: nat, n: nat, size: nat)
    requires m <= n <= |events| && Clean(events, n, size)
    requires forall k | m <= k < n :: !Complete(events, k, PieceCount(size))
    ensures Outcome(events, m, size) == Outcome(events, n, size)
    decreases n - m
  {
    hide Complete, Fault;
    if m < n {
      OutcomeLater(events, m + 1, n, size);
    }
  }

  lemma AnsweredMore(events: seq<Event>, k: nat, n: nat, size: nat)
    requires k <= n <= |events| && AllAnsweredBy(events, k, size)
    ensures AllAnsweredBy(events, n, size)
  {
    forall i: nat | i * 16384 < size
      ensures AnsweredBy(events, n, i)
    {
      assert AnsweredBy(events, k, i);
    }
  }

  /** With a piece unanswered, the first event that is not acceptable names the error; if there is none, the
      deadline passes. */
  lemma FailureExact(events: seq<Event>, n: nat, size: nat)
    requires n <= |events| && AcceptableUntil(events, n, size) && !AllAnsweredBy(events, n, size)
    ensures n == |events| ==> Outcome(events, 0, size) == Err(Timeout)
    ensures n < |events| && !Acceptable(events[n], size) ==>
              Outcome(events, 0, size) == Err(match events[n]
                                              case Reject => Rejected
                                              case ReadError => ReadFailed
                                              case Undecodable => MissingPiece
                                              case Data(piece, totalSize, _) =>
                                                if totalSize != size then TotalSizeMismatch
                                                else if piece * 16384 >= size then OutOfRange
                                                else WrongLength
                                              case Other => Timeout)
  {
    hide Complete, Clean, PieceCount, PieceLen, AllAnsweredBy, AcceptableUntil;
    CleanExact(events, n, size);
    forall k | 0 <= k <= n
      ensures !Complete(events, k, PieceCount(size))
    {
      CompleteExact(events, k, size);
      if AllAnsweredBy(events, k, size) {
        AnsweredMore(events, k, n, size);
      }
    }
    OutcomeLater(events, 0, n, size);
    if n < |events| && events[n].Data? {
      PieceExists(size, events[n].piece);
    }
  }

  // ------------------------------------------------------------ honest peers

  function Slice(content: seq<Byte>, i: nat): seq<Byte>
    requires i < PieceCount(|content|)
  {
    SpanStep(|content|, i);
    content[i * PIECE..i * PIECE + PieceLen(|content|, PieceCount(|content|), i)]
  }

  /** Answers are the true pieces, in any order and number, among messages of other kinds. */
  predicate Honest(events: seq<Event>, content: seq<Byte>)
  {
    forall e | e in events ::
      e.Other? || (e.Data? && e.totalSize == |content| && e.piece < PieceCount(|content|) && e.data == Slice(content, e.piece))
  }

  predicate Answered(events: seq<Event>, i: nat)
  {
    exists k :: 0 <= k < |events| && events[k].Data? && events[k].piece == i
  }

  lemma {:induction false} FirstDataExists(events: seq<Event>, n: nat, i: nat)
    requires n <= |events|
    ensures FirstData(events, n, i).Some? <==> exists k :: 0 <= k < n && events[k].Data? && events[k].piece == i
  {
    if n > 0 {
      FirstDataExists(events, n - 1, i);
      if events[n - 1].Data? && events[n - 1].piece == i {
        assert FirstData(events, n, i).Some?;
      }
    }
  }

  lemma {:induction false} HonestData(events: seq<Event>, n: nat, i: nat, content: seq<Byte>)
    requires n <= |events| && Honest(events, content) && i < PieceCount(|content|) && FirstData(events, n, i).Some?
    ensures FirstData(events, n, i).value == Slice(content, i)
  {
    if FirstData(events, n - 1, i).Some? {
      HonestData(events, n - 1, i, content);
    } else {
      assert events[n - 1] in events;
    }
  }

  lemma {:induction false} HonestJoin(events: seq<Event>, n: nat, k: nat, content: seq<Byte>)
    requires n <= |events| && Honest(events, content) && k <= PieceCount(|content|) && Complete(events, n, k)
    ensures Span(|content|, k) <= |content| && Join(events, n, k) == content[..Span(|content|, k)]
  {
    hide Honest, FirstData;
    if k > 0 {
      SpanStep(|content|, k - 1);
      HonestJoin(events, n, k - 1, content);
      HonestData(events, n, k - 1, content);
    }
  }

  /** Whatever the order, the duplicates and the chatter, an honest peer's content comes back exactly, as
      soon as every piece has been answered; until then the deadline decides. */
  lemma {:induction false} HonestRoundTrip(events: seq<Event>, n: nat, content: seq<Byte>)
    requires n <= |events| && Honest(events, content)
    ensures Outcome(events, n, |content|)
            == if forall i | 0 <= i < PieceCount(|content|) :: Answered(events, i) then Ok(content) else Err(Timeout)
    decreases |events| - n
  {
    var size, count := |content|, PieceCount(|content|);
    if Complete(events, n, count) {
      forall i | 0 <= i < count
        ensures Answered(events, i)
      {
        FirstDataExists(events, n, i);
      }
      HonestJoin(events, n, count, content);
      assert content[..size] == content;
    } else if n == |events| {
      var i :| 0 <= i < count && FirstData(events, n, i).None?;
      FirstDataExists(events, n, i);
      assert !Answered(events, i);
    } else {
      assert events[n] in events;
      if events[n].Data? {
        SpanStep(size, events[n].piece);
      }
      HonestRoundTrip(events, n + 1, content);
    }
  }

  // ------------------------------------------------------------ the window

  /** The bookkeeping of requests: in_flight counts the outstanding ones, at most maxOutstanding, and every
      piece asked for so far is outstanding or stored. */
  ghost predicate Window(requested: set<nat>, inFlight: nat, next: nat, pieces: seq<Option<seq<Byte>>>, maxOutstanding: nat)
  {
    && inFlight == |requested| <= maxOutstanding
    && next <= |pieces|
    && (forall i | i in requested :: i < next)
    && (forall i: nat | i < next :: i in requested || pieces[i].Some?)
  }

  predicate ToppedUp(inFlight: nat, next: nat, count: nat, maxOutstanding: nat)
  {
    next == count || inFlight >= maxOutstanding
  }

  /** No stall: while a piece is missing and the window is topped up, some request is outstanding. */
  lemma NoStall(requested: set<nat>, inFlight: nat, next: nat, pieces: seq<Option<seq<Byte>>>, maxOutstanding: nat)
    requires Window(requested, inFlight, next, pieces, maxOutstanding) && maxOutstanding >= 1
    requires ToppedUp(inFlight, next, |pieces|, maxOutstanding)
    requires exists i :: 0 <= i < |pieces| && pieces[i].None?
    ensures inFlight >= 1 && requested != {}
  {
    var i :| 0 <= i < |pieces| && pieces[i].None?;
    if next == |pieces| {
      assert i in requested;
      assert {i} <= requested && |{i}| == 1;
      SubsetSize({i}, requested);
    } else {
      assert |requested| >= 1;
    }
  }

  /** The requests that the first n events answered: data for a piece that had been asked for by then. */
  function Replied(events: seq<Event>, n: nat, count: nat, maxOutstanding: nat): set<nat>
    requires n <= |events|
    decreases n, 0
  {
    if n == 0 then {}
    else
      var earlier, e := Replied(events, n - 1, count, maxOutstanding), events[n - 1];
      if e.Data? && e.piece < Asked(events, n - 1, count, maxOutstanding) then earlier + {e.piece} else earlier
  }

  /** How many requests have been made when the loop reads after n events: as many as were answered and
      maxOutstanding more, as far as there are pieces. */
  function Asked(events: seq<Event>, n: nat, count: nat, maxOutstanding: nat): nat
    requires n <= |events|
    decreases n, 1
  {
    Min(count, |Replied(events, n, count, maxOutstanding)| + maxOutstanding)
  }

  /** The first n events leave the download undecided. */
  ghost predicate Undecided(events: seq<Event>, n: nat, size: nat)
    requires n <= |events|
  {
    Clean(events, n, size) && forall k | 0 <= k < n :: !Complete(events, k, PieceCount(size))
  }

  /** The write that fails is made: written requests succeed, and one more is due after some n events that
      leave the download undecided. The events that complete it count as well: requests go out before the
      loop looks whether it is done. */
  ghost predicate WriteFails(events: seq<Event>, size: nat, maxOutstanding: nat, written: Option<nat>)
  {
    written.Some? && exists n | 0 <= n <= |events| ::
      Undecided(events, n, size) && Asked(events, n, PieceCount(size), maxOutstanding) > written.value
  }

  lemma {:induction false} AskedGrows(events: seq<Event>, k: nat, n: nat, count: nat, maxOutstanding: nat)
    requires k <= n <= |events|
    ensures Replied(events, k, count, maxOutstanding) <= Replied(events, n, count, maxOutstanding)
    ensures Asked(events, k, count, maxOutstanding) <= Asked(events, n, count, maxOutstanding)
  {
    if k < n {
      AskedGrows(events, k, n - 1, count, maxOutstanding);
    }
    SubsetSize(Replied(events, k, count, maxOutstanding), Replied(events, n, count, maxOutstanding));
  }

  /** The set the loop keeps is that of the requests made and not answered. */
  ghost predicate Tracks(requested: set<nat>, next: nat, events: seq<Event>, n: nat, count: nat, maxOutstanding: nat)
    requires n <= |events|
  {
    && (forall i | i in requested :: i < next)
    && (forall i: nat | i < next :: i in requested <==> i !in Replied(events, n, count, maxOutstanding))
    && (forall i | i in Replied(events, n, count, maxOutstanding) :: i < next)
  }

  lemma {:induction false} PartsOfRange(a: set<nat>, b: set<nat>, n: nat)
    requires (forall i | i in a || i in b :: i < n) && (forall i: nat | i < n :: i in a <==> i !in b)
    ensures |a| + |b| == n
  {
    if n == 0 {
      assert a == {} && b == {};
    } else if n - 1 in a {
      PartsOfRange(a - {n - 1}, b, n - 1);
    } else {
      PartsOfRange(a, b - {n - 1}, n - 1);
    }
  }

  lemma TracksSize(requested: set<nat>, next: nat, events: seq<Event>, n: nat, count: nat, maxOutstanding: nat)
    requires n <= |events| && Tracks(requested, next, events, n, count, maxOutstanding)
    ensures |requested| <= next
    ensures Asked(events, n, count, maxOutstanding) == Min(count, next - |requested| + maxOutstanding)
  {
    PartsOfRange(requested, Replied(events, n, count, maxOutstanding), next);
  }

  lemma TracksStep(requested: set<nat>, events: seq<Event>, n: nat, count: nat, maxOutstanding: nat)
    requires n < |events| && Tracks(requested, Asked(events, n, count, maxOutstanding), events, n, count, maxOutstanding)
    ensures var left := if events[n].Data? then requested - {events[n].piece} else requested;
            Tracks(left, Asked(events, n, count, maxOutstanding), events, n + 1, count, maxOutstanding)
  {
    RepliedStep(events, n, count, maxOutstanding);
    hide Asked, Replied;
  }

  lemma RepliedStep(events: seq<Event>, n: nat, count: nat, maxOutstanding: nat)
    requires n < |events|
    ensures Replied(events, n + 1, count, maxOutstanding)
            == if events[n].Data? && events[n].piece < Asked(events, n, count, maxOutstanding)
               then Replied(events, n, count, maxOutstanding) + {events[n].piece} else Replied(events, n, count, maxOutstanding)
  {
    hide Asked;
  }

  /** Once the download is decided after n events, no later request counts. */
  lemma NoWriteFails(events: seq<Event>, n: nat, size: nat, maxOutstanding: nat, written: Option<nat>)
    requires n <= |events|
    requires written.Some? ==> Asked(events, n, PieceCount(size), maxOutstanding) <= written.value
    requires n == |events| || Complete(events, n, PieceCount(size)) || Fault(events[n], size).Some?
    ensures !WriteFails(events, size, maxOutstanding, written)
  {
    hide Asked, Complete, Fault, PieceCount;
    if written.Some? {
      forall k | 0 <= k <= |events| && Undecided(events, k, size)
        ensures Asked(events, k, PieceCount(size), maxOutstanding) <= written.value
      {
        AskedGrows(events, k, if k < n then n else k, PieceCount(size), maxOutstanding);
        assert k <= n;
      }
    }
  }

  function Stored(pieces: seq<Option<seq<Byte>>>): nat
  {
    if |pieces| == 0 then 0 else Stored(pieces[..|pieces| - 1]) + if pieces[|pieces| - 1].Some? then 1 else 0
  }

  lemma {:induction false} StoredAll(pieces: seq<Option<seq<Byte>>>)
    ensures Stored(pieces) <= |pieces|
    ensures Stored(pieces) == |pieces| <==> forall i | 0 <= i < |pieces| :: pieces[i].Some?
  {
    if |pieces| > 0 {
      var init := pieces[..|pieces| - 1];
      StoredAll(init);
      assert forall i | 0 <= i < |init| :: init[i] == pieces[i];
    }
  }

  lemma {:induction false} StoredNone(pieces: seq<Option<seq<Byte>>>)
    requires forall i | 0 <= i < |pieces| :: pieces[i].None?
    ensures Stored(pieces) == 0
  {
    if |pieces| > 0 {
      StoredNone(pieces[..|pieces| - 1]);
    }
  }

  lemma {:induction false} StoredUpdate(pieces: seq<Option<seq<Byte>>>, i: nat, data: seq<Byte>)
    requires i < |pieces| && pieces[i].None?
    ensures Stored(pieces[i := Some(data)]) == Stored(pieces) + 1
  {
    var last := |pieces| - 1;
    var after := pieces[i := Some(data)];
    if i == last {
      assert after[..last] == pieces[..last];
    } else {
      assert after[..last] == pieces[..last][i := Some(data)];
      StoredUpdate(pieces[..last], i, data);
    }
  }

  // ------------------------------------------------------------ the loop as written

  /** How far the requesting loop gets when every write succeeds. */
  function Target(inFlight: nat, next: nat, count: nat, maxOutstanding: nat): nat
    requires next <= count && inFlight <= maxOutstanding
  {
    Min(count, next + (maxOutstanding - inFlight))
  }

  /** The requesting loop: written says how many writes succeed before one fails, if one does. */
  method TopUp(requested0: set<nat>, inFlight0: nat, next0: nat, ghost pieces: seq<Option<seq<Byte>>>, count: nat,
               maxOutstanding: nat, written: Option<nat>)
    returns (ok: bool, requested: set<nat>, inFlight: nat, next: nat)
    requires Window(requested0, inFlight0, next0, pieces, maxOutstanding) && count == |pieces|
    requires written.Some? ==> next0 <= written.value
    ensures Window(requested, inFlight, next, pieces, maxOutstanding)
    ensures next0 <= next && forall i: nat :: i in requested <==> i in requested0 || next0 <= i < next
    ensures ok <==> written.None? || Target(inFlight0, next0, count, maxOutstanding) <= written.value
    ensures ok ==> next == Target(inFlight0, next0, count, maxOutstanding) && ToppedUp(inFlight, next, count, maxOutstanding)
    ensures written.Some? ==> next <= written.value
  {
    requested, inFlight, next := requested0, inFlight0, next0;
    while next < count && inFlight < maxOutstanding
      invariant Window(requested, inFlight, next, pieces, maxOutstanding)
      invariant next0 <= next && forall i: nat :: i in requested <==> i in requested0 || next0 <= i < next
      invariant inFlight - inFlight0 == next - next0 && (written.Some? ==> next <= written.value)
    {
      if written.Some? && next >= written.value {
        return false, requested, inFlight, next;
      }
      requested := requested + {next};
      next := next + 1;
      inFlight := inFlight + 1;
    }
    ok := true;
  }

  /** Topped up, the loop has made the requests that are due, or one of them fails. */
  lemma TopUpTracks(requested: set<nat>, inFlight: nat, next: nat, requested': set<nat>, next': nat, events: seq<Event>, n: nat,
                    count: nat, maxOutstanding: nat)
    requires n <= |events| && Tracks(requested, next, events, n, count, maxOutstanding)
    requires inFlight == |requested| <= maxOutstanding && next <= next' && next <= count
    requires forall i: nat :: i in requested' <==> i in requested || next <= i < next'
    ensures Target(inFlight, next, count, maxOutstanding) == Asked(events, n, count, maxOutstanding)
    ensures Tracks(requested', next', events, n, count, maxOutstanding)
  {
    hide Asked;
    TracksSize(requested, next, events, n, count, maxOutstanding);
  }

  lemma WindowShrinks(requested: set<nat>, inFlight: nat, next: nat, pieces: seq<Option<seq<Byte>>>, maxOutstanding: nat,
                      i: nat, data: seq<Byte>)
    requires Window(requested, inFlight, next, pieces, maxOutstanding) && i < |pieces|
    ensures var left := if pieces[i].None? then pieces[i := Some(data)] else pieces;
            && Window(requested - {i}, if i in requested then inFlight - 1 else inFlight, next, left, maxOutstanding)
            && (i in requested ==> inFlight >= 1) && (i !in requested ==> requested - {i} == requested)
  {
    var left := if pieces[i].None? then pieces[i := Some(data)] else pieces;
    forall j: nat | j < next
      ensures j in requested - {i} || left[j].Some?
    {
    }
    if i !in requested {
      assert requested - {i} == requested;
    }
  }

  /** The stored pieces are the first answers so far. */
  ghost predicate Mirrors(pieces: seq<Option<seq<Byte>>>, events: seq<Event>, n: nat)
    requires n <= |events|
  {
    forall i | 0 <= i < |pieces| :: pieces[i] == FirstData(events, n, i)
  }

  lemma MirrorsStep(pieces: seq<Option<seq<Byte>>>, events: seq<Event>, n: nat)
    requires n < |events| && Mirrors(pieces, events, n)
    ensures var e := events[n];
            Mirrors(if e.Data? && e.piece < |pieces| && pieces[e.piece].None? then pieces[e.piece := Some(e.data)] else pieces,
                    events, n + 1)
  {
  }

  lemma MirrorsComplete(pieces: seq<Option<seq<Byte>>>, events: seq<Event>, n: nat)
    requires n <= |events| && Mirrors(pieces, events, n)
    ensures Complete(events, n, |pieces|) <==> Stored(pieces) == |pieces|
  {
    StoredAll(pieces);
  }

  /** A well-formed answer: the first one for its piece is stored, later ones are dropped. */
  method Accept(pieces: array<Option<seq<Byte>>>, received: nat, e: Event, ghost events: seq<Event>, ghost n: nat)
    returns (received': nat)
    requires n < |events| && e == events[n] && e.Data? && e.piece < pieces.Length
    requires Mirrors(pieces[..], events, n) && received == Stored(pieces[..])
    modifies pieces
    ensures pieces[..] == if old(pieces[e.piece]).None? then old(pieces[..])[e.piece := Some(e.data)] else old(pieces[..])
    ensures Mirrors(pieces[..], events, n + 1) && received' == Stored(pieces[..]) <= pieces.Length
  {
    ghost var before := pieces[..];
    MirrorsStep(before, events, n);
    received' := received;
    if pieces[e.piece].None? {
      StoredUpdate(before, e.piece, e.data);
      pieces[e.piece] := Some(e.data);
      assert pieces[..] == before[e.piece := Some(e.data)];
      received' := received + 1;
    }
    StoredAll(pieces[..]);
  }

  /** What holds whenever the loop reads: the window, the stored pieces, the count of them. */
  ghost predicate Held(pieces: seq<Option<seq<Byte>>>, requested: set<nat>, inFlight: nat, next: nat, received: nat,
                       maxOutstanding: nat, events: seq<Event>, n: nat, size: nat)
  {
    && n <= |events| && Mirrors(pieces, events, n) && Clean(events, n, size) && |pieces| == PieceCount(size)
    && Window(requested, inFlight, next, pieces, maxOutstanding)
    && received == Stored(pieces) <= |pieces|
  }

  /** The arms of the match on a decoded frame: the answer is checked, then stored. */
  method Receive(pieces: array<Option<seq<Byte>>>, size: nat, requested: set<nat>, inFlight: nat, received: nat, e: Event,
                 ghost events: seq<Event>, ghost n: nat, ghost next: nat, ghost maxOutstanding: nat)
    returns (error: Option<Error>, requested': set<nat>, inFlight': nat, received': nat)
    requires n < |events| && e == events[n] && !e.Undecodable? && !e.ReadError?
    requires Held(pieces[..], requested, inFlight, next, received, maxOutstanding, events, n, size)
    modifies pieces
    ensures error == Fault(e, size)
    ensures error.None? ==> Held(pieces[..], requested', inFlight', next, received', maxOutstanding, events, n + 1, size)
    ensures error.None? ==> requested' == if e.Data? then requested - {e.piece} else requested
  {
    hide Window, Mirrors, Stored, PieceCount, PieceLen;
    error, requested', inFlight', received' := None, requested, inFlight, received;
    match e {
      case Reject =>
        error := Some(Rejected);
      case Data(piece, totalSize, data) =>
        var count := PieceCount(size);
        if totalSize != size {
          error := Some(TotalSizeMismatch);
        } else if piece >= count {
          error := Some(OutOfRange);
        } else if |data| != PieceLen(size, count, piece) {
          error := Some(WrongLength);
        } else {
          WindowShrinks(requested, inFlight, next, pieces[..], maxOutstanding, piece, data);
          if piece in requested {
            requested' := requested - {piece};
            inFlight' := inFlight - 1;
          }
          received' := Accept(pieces, received, e, events, n);
        }
      case Other =>
        MirrorsStep(pieces[..], events, n);
    }
  }

  /** The piece loop of fetch_from_stream_with_limit. Its answer is that of the protocol without a window,
      except exactly when the write that fails is made. */
  method FetchPieces(size: nat, maxOutstanding: nat, events: seq<Event>, written: Option<nat>) returns (r: Result)
    requires size > 0 && maxOutstanding >= 1
    ensures r == if WriteFails(events, size, maxOutstanding, written) then Err(WriteFailed) else Outcome(events, 0, size)
  {
    hide Held, Mirrors, Stored, Outcome, Fault, Complete, PieceCount, Window, Tracks, WriteFails, Undecided, Asked, Target;
    var count := PieceCount(size);
    var pieces := new Option<seq<Byte>>[count](_ => None);
    var received := 0;
    NothingYet(pieces[..], events, maxOutstanding);
    NothingAsked(events, size, maxOutstanding);
    var ok, requested, inFlight, next := TopUp({}, 0, 0, pieces[..], count, maxOutstanding, written);
    TopUpTracks({}, 0, 0, requested, next, events, 0, count, maxOutstanding);
    if !ok {
      FailsNow(events, 0, size, maxOutstanding, written);
      return Err(WriteFailed);
    }
    StillHeld(pieces[..], requested, inFlight, next, received, maxOutstanding, events, 0, size);
    var n := 0;
    while received < count
      invariant n <= |events|
      invariant Held(pieces[..], requested, inFlight, next, received, maxOutstanding, events, n, size)
      invariant ToppedUp(inFlight, next, count, maxOutstanding)
      invariant Tracks(requested, next, events, n, count, maxOutstanding) && next == Asked(events, n, count, maxOutstanding)
      invariant written.Some? ==> next <= written.value
      invariant Undecided(events, n, size)
      invariant Outcome(events, 0, size) == Outcome(events, n, size)
      decreases |events| - n
    {
      Turn(pieces[..], requested, inFlight, next, received, maxOutstanding, events, n, size);
      assert inFlight >= 1;
      if n == |events| {
        NoWriteFails(events, n, size, maxOutstanding, written);
        return Err(Timeout);
      }
      var e := events[n];
      if e.ReadError? {
        NoWriteFails(events, n, size, maxOutstanding, written);
        return Err(ReadFailed);
      }
      if e.Undecodable? {
        break;
      }
      ghost var before := requested;
      TracksStep(before, events, n, count, maxOutstanding);
      var error: Option<Error>;
      error, requested, inFlight, received := Receive(pieces, size, requested, inFlight, received, e, events, n, next, maxOutstanding);
      if error.Some? {
        NoWriteFails(events, n, size, maxOutstanding, written);
        return Err(error.value);
      }
      UndecidedStep(events, n, size);
      n := n + 1;
      HeldWindow(pieces[..], requested, inFlight, next, received, maxOutstanding, events, n, size);
      ghost var before', inFlight', next' := requested, inFlight, next;
      ok, requested, inFlight, next := TopUp(requested, inFlight, next, pieces[..], count, maxOutstanding, written);
      WindowFacts(before', inFlight', next', pieces[..], maxOutstanding);
      TopUpTracks(before', inFlight', next', requested, next, events, n, count, maxOutstanding);
      if !ok {
        FailsNow(events, n, size, maxOutstanding, written);
        return Err(WriteFailed);
      }
      StillHeld(pieces[..], requested, inFlight, next, received, maxOutstanding, events, n, size);
    }
    HeldWindow(pieces[..], requested, inFlight, next, received, maxOutstanding, events, n, size);
    Finish(pieces[..], events, n, size);
    NoWriteFails(events, n, size, maxOutstanding, written);
    r := Assemble(pieces, events, n, size);
  }

  /** The end of fetch_from_stream_with_limit, from the advertised size on. */
  method Fetch(size: nat, limit: nat, reqq: nat, events: seq<Event>, written: Option<nat>) returns (r: Result)
    ensures size == 0 ==> r == Err(SizeZero)
    ensures size > limit ==> r == Err(TooLarge)
    ensures 0 < size <= limit ==>
              r == if WriteFails(events, size, Clamped(reqq), written) then Err(WriteFailed) else Outcome(events, 0, size)
  {
    if size == 0 {
      return Err(SizeZero);
    }
    if size > limit {
      return Err(TooLarge);
    }
    r := FetchPieces(size, Clamped(reqq), events, written);
  }

  /** The window, from the number of requests the peer says it queues. */
  function Clamped(reqq: nat): (window: nat)
    ensures 1 <= window <= 64 && (1 <= reqq <= 64 ==> window == reqq)
    ensures reqq == 0 ==> window == 1
  {
    if reqq < 1 then 1 else if reqq > 64 then 64 else reqq
  }

  lemma NothingAsked(events: seq<Event>, size: nat, maxOutstanding: nat)
    ensures Tracks({}, 0, events, 0, PieceCount(size), maxOutstanding) && Undecided(events, 0, size)
  {
  }

  lemma FailsNow(events: seq<Event>, n: nat, size: nat, maxOutstanding: nat, written: Option<nat>)
    requires n <= |events| && Undecided(events, n, size)
    requires written.Some? && Asked(events, n, PieceCount(size), maxOutstanding) > written.value
    ensures WriteFails(events, size, maxOutstanding, written)
  {
    hide Asked, Undecided;
  }

  lemma UndecidedStep(events: seq<Event>, n: nat, size: nat)
    requires n < |events| && Undecided(events, n, size)
    requires Fault(events[n], size).None? && !Complete(events, n, PieceCount(size))
    ensures Undecided(events, n + 1, size)
  {
    hide Complete, Fault, PieceCount;
  }

  lemma WindowFacts(requested: set<nat>, inFlight: nat, next: nat, pieces: seq<Option<seq<Byte>>>, maxOutstanding: nat)
    requires Window(requested, inFlight, next, pieces, maxOutstanding)
    ensures inFlight == |requested| <= maxOutstanding && next <= |pieces|
  {
  }

  lemma NothingYet(pieces: seq<Option<seq<Byte>>>, events: seq<Event>, maxOutstanding: nat)
    requires forall i | 0 <= i < |pieces| :: pieces[i].None?
    ensures Stored(pieces) == 0 && Mirrors(pieces, events, 0) && Window({}, 0, 0, pieces, maxOutstanding)
  {
    StoredNone(pieces);
  }

  lemma StillHeld(pieces: seq<Option<seq<Byte>>>, requested: set<nat>, inFlight: nat, next: nat, received: nat,
                  maxOutstanding: nat, events: seq<Event>, n: nat, size: nat)
    requires n <= |events| && Mirrors(pieces, events, n) && Clean(events, n, size) && |pieces| == PieceCount(size)
    requires Window(requested, inFlight, next, pieces, maxOutstanding) && received == Stored(pieces)
    ensures Held(pieces, requested, inFlight, next, received, maxOutstanding, events, n, size)
  {
    StoredAll(pieces);
  }

  lemma HeldWindow(pieces: seq<Option<seq<Byte>>>, requested: set<nat>, inFlight: nat, next: nat, received: nat,
                   maxOutstanding: nat, events: seq<Event>, n: nat, size: nat)
    requires Held(pieces, requested, inFlight, next, received, maxOutstanding, events, n, size)
    ensures n <= |events| && Mirrors(pieces, events, n) && Clean(events, n, size) && |pieces| == PieceCount(size)
    ensures Window(requested, inFlight, next, pieces, maxOutstanding) && received == Stored(pieces) <= |pieces|
  {
  }

  /** One turn of the loop while some piece is missing: a request is outstanding, and the protocol either
      ends here or goes on with the next event. */
  lemma Turn(pieces: seq<Option<seq<Byte>>>, requested: set<nat>, inFlight: nat, next: nat, received: nat,
             maxOutstanding: nat, events: seq<Event>, n: nat, size: nat)
    requires Held(pieces, requested, inFlight, next, received, maxOutstanding, events, n, size)
    requires ToppedUp(inFlight, next, |pieces|, maxOutstanding) && maxOutstanding >= 1 && received < |pieces|
    ensures inFlight >= 1 && n <= |events|
    ensures !Complete(events, n, PieceCount(size))
    ensures n == |events| ==> Outcome(events, n, size) == Err(Timeout)
    ensures n < |events| && (events[n].ReadError? || events[n].Undecodable?) ==> Fault(events[n], size).Some?
    ensures n < |events| ==> (events[n].ReadError? ==> Outcome(events, n, size) == Err(ReadFailed))
                             && (events[n].Undecodable? ==> Outcome(events, n, size) == Err(MissingPiece))
                             && (match Fault(events[n], size)
                                 case Some(error) => Outcome(events, n, size) == Err(error)
                                 case None => Outcome(events, n, size) == Outcome(events, n + 1, size))
  {
    hide Mirrors, Window, Stored, Join;
    MirrorsComplete(pieces, events, n);
    NoStallHere(requested, inFlight, next, pieces, maxOutstanding);
  }

  lemma Finish(pieces: seq<Option<seq<Byte>>>, events: seq<Event>, n: nat, size: nat)
    requires n <= |events| && Mirrors(pieces, events, n) && |pieces| == PieceCount(size)
    ensures Complete(events, n, PieceCount(size)) <==> Stored(pieces) == |pieces|
    ensures Complete(events, n, PieceCount(size)) ==> Outcome(events, n, size) == Ok(Join(events, n, PieceCount(size)))
  {
    MirrorsComplete(pieces, events, n);
  }

  lemma NoStallHere(requested: set<nat>, inFlight: nat, next: nat, pieces: seq<Option<seq<Byte>>>, maxOutstanding: nat)
    requires Window(requested, inFlight, next, pieces, maxOutstanding) && maxOutstanding >= 1
    requires ToppedUp(inFlight, next, |pieces|, maxOutstanding) && Stored(pieces) < |pieces|
    ensures inFlight >= 1
  {
    StoredAll(pieces);
    NoStall(requested, inFlight, next, pieces, maxOutstanding);
  }

  /** The loop that concatenates the pieces, and the checks after it. */
  method Assemble(pieces: array<Option<seq<Byte>>>, ghost events: seq<Event>, ghost n: nat, size: nat) returns (r: Result)
    requires size > 0 && pieces.Length == PieceCount(size)
    requires n <= |events| && Mirrors(pieces[..], events, n) && Clean(events, n, size)
    ensures r == if Complete(events, n, PieceCount(size)) then Ok(Join(events, n, PieceCount(size))) else Err(MissingPiece)
  {
    var all := [];
    var i := 0;
    while i < pieces.Length
      invariant 0 <= i <= pieces.Length && Complete(events, n, i) && all == Join(events, n, i)
    {
      assert pieces[..][i] == FirstData(events, n, i);
      if pieces[i].None? {
        return Err(MissingPiece);
      }
      all := all + pieces[i].value;
      i := i + 1;
    }
    JoinPlaces(events, n, pieces.Length, size);
    if |all| != size {
      assert false;
    }
    return Ok(all);
  }
}
