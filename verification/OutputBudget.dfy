/**
 The shared output budget of native/src/job.rs: two reader threads drain one atomic
 counter through a weak compare-and-exchange loop. Load, successful exchange, failed
 exchange, append, overflow swap and wake write are separate steps that interleave freely.
 */
module OutputBudget {
  import opened UInt64
  import opened Wrappers

  /** Size of the buffer one `read` fills. */
  const BUFFER_BYTES := 8192

  /** Where a reader thread is between two steps. */
  datatype Place =
    | Reading
    | Loading(chunk: Bytes)
    | Trying(chunk: Bytes, available: u64)
    | Appending(chunk: Bytes, keep: u64)
    | Swapping
    | Waking
    | Ended
    | ReadFailed

  /** `consumed` is all that was read from the stream so far, `output` what was kept. */
  datatype Reader = Reader(place: Place, consumed: Bytes, output: Bytes)

  datatype Shared = Shared(readers: seq<Reader>, remaining: u64, overflow: bool, wakes: nat)

  /** `FailExchange` covers both a lost race and a spurious failure. */
  datatype Move =
    | Read(chunk: Bytes)
    | Eof
    | ReadError
    | Load
    | Exchange
    | FailExchange
    | Append
    | Swap
    | Wake

  function Start(limit: u64): Shared {
    var reader := Reader(Reading, [], []);
    Shared([reader, reader], limit, false, 0)
  }

  /** What one step of one reader can see and change. */
  datatype View = View(reader: Reader, remaining: u64, overflow: bool, wakes: nat)

  predicate Possible(v: View, m: Move) {
    match (m, v.reader.place)
    case (Read(chunk), Reading) => 0 < |chunk| <= BUFFER_BYTES
    case (Eof, Reading) => true
    case (ReadError, Reading) => true
    case (Load, Loading(_)) => true
    case (Exchange, Trying(_, available)) => v.remaining == available
    case (FailExchange, Trying(_, _)) => true
    case (Append, Appending(_, _)) => true
    case (Swap, Swapping) => true
    case (Wake, Waking) => true
    case _ => false
  }

  function Claim(requested: nat, available: u64): u64 {
    if requested <= available then requested else available
  }

  /** The part of the chunk that a claim lets through. */
  function Kept(place: Place): Bytes
    requires place.Appending?
  {
    if place.keep <= |place.chunk| then place.chunk[..place.keep] else place.chunk
  }

  function ReaderStep(v: View, m: Move): View
    requires Possible(v, m)
  {
    var r := v.reader;
    match m
    case Read(chunk) => v.(reader := r.(place := Loading(chunk), consumed := r.consumed + chunk))
    case Eof => v.(reader := r.(place := Ended))
    case ReadError => v.(reader := r.(place := ReadFailed))
    case Load => v.(reader := r.(place := Trying(r.place.chunk, v.remaining)))
    case FailExchange => v.(reader := r.(place := Trying(r.place.chunk, v.remaining)))
    case Exchange =>
      var keep := Claim(|r.place.chunk|, r.place.available);
      v.(reader := r.(place := Appending(r.place.chunk, keep)), remaining := v.remaining - keep)
    case Append =>
      var place := if r.place.keep < |r.place.chunk| then Swapping else Reading;
      v.(reader := r.(place := place, output := r.output + Kept(r.place)))
    case Swap => v.(reader := r.(place := if v.overflow then Reading else Waking), overflow := true)
    case Wake => v.(reader := r.(place := Reading), wakes := v.wakes + 1)
  }

  function ViewOf(s: Shared, i: nat): View
    requires i < |s.readers|
  {
    View(s.readers[i], s.remaining, s.overflow, s.wakes)
  }

  function Step(s: Shared, i: nat, m: Move): Shared
    requires i < |s.readers| && Possible(ViewOf(s, i), m)
  {
    var v := ReaderStep(ViewOf(s, i), m);
    Shared(s.readers[i := v.reader], v.remaining, v.overflow, v.wakes)
  }

  /** An interleaving: which reader moves, and how. */
  datatype Turn = Turn(reader: nat, move: Move)

  function Run(s: Shared, turns: seq<Turn>): Shared
    decreases |turns|
  {
    if turns == [] || turns[0].reader >= |s.readers| || !Possible(ViewOf(s, turns[0].reader), turns[0].move) then s
    else Run(Step(s, turns[0].reader, turns[0].move), turns[1..])
  }

  // -------------------------------------------------------------- invariant

  /** What a reader has read and already decided about. */
  function Decided(r: Reader): Bytes {
    match r.place
    case Loading(chunk) => Prefix(r.consumed, chunk)
    case Trying(chunk, _) => Prefix(r.consumed, chunk)
    case _ => r.consumed
  }

  function Prefix(consumed: Bytes, chunk: Bytes): Bytes {
    if |chunk| <= |consumed| then consumed[..|consumed| - |chunk|] else []
  }

  /** What a reader holds of the limit: its output and a claim not yet appended. */
  function Held(r: Reader): Bytes {
    if r.place.Appending? then r.output + Kept(r.place) else r.output
  }

  ghost predicate Consistent(r: Reader, remaining: u64, overflow: bool) {
    && Held(r) <= Decided(r)
    && Decided(r) <= r.consumed
    && (r.place.Loading? || r.place.Trying? ==>
          0 < |r.place.chunk| <= |r.consumed| && r.consumed == Decided(r) + r.place.chunk)
    && (r.place.Appending? ==> 0 < |r.place.chunk| && r.place.keep <= |r.place.chunk|)
    && (|Held(r)| < |Decided(r)| ==> remaining == 0 && (overflow || AboutToSwap(r)))
    && (AboutToSwap(r) ==> |Held(r)| < |Decided(r)|)
    && (r.place.Waking? ==> overflow)
  }

  /** A truncated claim that has not set the flag yet. */
  predicate AboutToSwap(r: Reader) {
    r.place.Swapping? || (r.place.Appending? && r.place.keep < |r.place.chunk|)
  }

  predicate Truncated(r: Reader) {
    |Held(r)| < |Decided(r)|
  }

  ghost predicate Invariant(s: Shared, limit: u64) {
    && |s.readers| == 2
    && (forall i :: 0 <= i < 2 ==> Consistent(s.readers[i], s.remaining, s.overflow))
    && |Held(s.readers[0])| + |Held(s.readers[1])| + s.remaining == limit
    && (s.overflow ==> Truncated(s.readers[0]) || Truncated(s.readers[1]))
    && s.wakes + AsNumber(s.readers[0].place.Waking?) + AsNumber(s.readers[1].place.Waking?) == AsNumber(s.overflow)
  }

  /** A claim continues the prefix, or is empty because an earlier one was truncated. */
  lemma ExchangeIsConsistent(v: View)
    requires Possible(v, Exchange) && Consistent(v.reader, v.remaining, v.overflow)
    ensures var w := ReaderStep(v, Exchange);
            && Consistent(w.reader, w.remaining, w.overflow)
            && |Held(w.reader)| + w.remaining == |Held(v.reader)| + v.remaining
            && (Truncated(v.reader) ==> Truncated(w.reader))
  {
    var r := v.reader;
    var w := ReaderStep(v, Exchange);
    if |Held(r)| == |Decided(r)| {
      assert r.output == Decided(r);
      assert Held(w.reader) <= r.consumed;
    } else {
      assert Held(w.reader) == r.output;
    }
  }

  /** A step of one reader keeps its own consistency and moves bytes without losing any. */
  lemma ReaderStepIsConsistent(v: View, m: Move)
    requires Possible(v, m) && Consistent(v.reader, v.remaining, v.overflow)
    ensures var w := ReaderStep(v, m);
            && Consistent(w.reader, w.remaining, w.overflow)
            && |Held(w.reader)| + w.remaining == |Held(v.reader)| + v.remaining
            && (Truncated(v.reader) ==> Truncated(w.reader))
  {
    var r := v.reader;
    match m {
      case Read(chunk) => assert Decided(ReaderStep(v, m).reader) == r.consumed;
      case Append => assert Held(ReaderStep(v, m).reader) == Held(r);
      case Exchange => ExchangeIsConsistent(v);
      case _ =>
    }
  }

  /** What the other reader sees changes only downwards: a claim of zero stays zero. */
  lemma OtherStaysConsistent(v: View, m: Move, other: Reader)
    requires Possible(v, m) && Consistent(other, v.remaining, v.overflow)
    ensures var w := ReaderStep(v, m); Consistent(other, w.remaining, w.overflow)
  {
  }

  lemma FlagFollowsTruncation(v: View, m: Move)
    requires Possible(v, m) && Consistent(v.reader, v.remaining, v.overflow)
    ensures var w := ReaderStep(v, m);
            && (w.overflow ==> v.overflow || Truncated(w.reader))
            && w.wakes + AsNumber(w.reader.place.Waking?) - AsNumber(w.overflow)
               == v.wakes + AsNumber(v.reader.place.Waking?) - AsNumber(v.overflow)
  {
  }

  /** The invariant does not care which reader comes first. */
  lemma InvariantFrom(s: Shared, limit: u64, i: nat)
    requires |s.readers| == 2 && i < 2
    ensures Invariant(s, limit) <==>
            var r, o := s.readers[i], s.readers[1 - i];
            && Consistent(r, s.remaining, s.overflow)
            && Consistent(o, s.remaining, s.overflow)
            && |Held(r)| + |Held(o)| + s.remaining == limit
            && (s.overflow ==> Truncated(r) || Truncated(o))
            && s.wakes + AsNumber(r.place.Waking?) + AsNumber(o.place.Waking?) == AsNumber(s.overflow)
  {
    hide Consistent, Held, Truncated;
  }

  lemma StepKeepsInvariant(s: Shared, limit: u64, i: nat, m: Move)
    requires Invariant(s, limit) && i < 2 && Possible(ViewOf(s, i), m)
    ensures Invariant(Step(s, i, m), limit)
  {
    var v := ViewOf(s, i);
    var w, t := ReaderStep(v, m), Step(s, i, m);
    assert t == Shared(s.readers[i := w.reader], w.remaining, w.overflow, w.wakes);
    assert |s.readers| == 2 && v == View(s.readers[i], s.remaining, s.overflow, s.wakes);
    hide *;
    InvariantFrom(s, limit, i);
    ReaderStepIsConsistent(v, m);
    OtherStaysConsistent(v, m, s.readers[1 - i]);
    FlagFollowsTruncation(v, m);
    InvariantFrom(t, limit, i);
  }

  lemma {:induction false} RunKeepsInvariant(s: Shared, limit: u64, turns: seq<Turn>)
    requires Invariant(s, limit)
    ensures Invariant(Run(s, turns), limit)
    decreases |turns|
  {
    if turns != [] && turns[0].reader < 2 && Possible(ViewOf(s, turns[0].reader), turns[0].move) {
      StepKeepsInvariant(s, limit, turns[0].reader, turns[0].move);
      hide Invariant, Step, Possible;
      RunKeepsInvariant(Step(s, turns[0].reader, turns[0].move), limit, turns[1..]);
    }
  }

  lemma EveryRunKeepsInvariant(limit: u64, turns: seq<Turn>)
    ensures Invariant(Run(Start(limit), turns), limit)
  {
    RunKeepsInvariant(Start(limit), limit, turns);
  }

  // ------------------------------------------------------------ conclusions

  /**
   At every moment of every interleaving: no byte of the budget is lost, each output is a
   prefix of what its stream delivered, and at most one wake byte is attempted.
   */
  lemma BudgetIsConserved(limit: u64, turns: seq<Turn>)
    ensures var s := Run(Start(limit), turns);
            && |s.readers| == 2
            && |Held(s.readers[0])| + |Held(s.readers[1])| + s.remaining == limit
            && s.readers[0].output <= s.readers[0].consumed && s.readers[1].output <= s.readers[1].consumed
            && s.wakes <= 1
  {
    EveryRunKeepsInvariant(limit, turns);
    hide Run, Start;
    var s := Run(Start(limit), turns);
    OutputIsPrefix(s.readers[0], s.remaining, s.overflow);
    OutputIsPrefix(s.readers[1], s.remaining, s.overflow);
    hide Consistent;
  }

  lemma OutputIsPrefix(r: Reader, remaining: u64, overflow: bool)
    requires Consistent(r, remaining, overflow)
    ensures r.output <= r.consumed
  {
    assert r.output <= Held(r);
  }

  predicate Finished(s: Shared) {
    forall i :: 0 <= i < |s.readers| ==> s.readers[i].place.Ended?
  }

  /**
   When both readers have reached the end of their streams, `overflow` is set exactly if
   the streams together were longer than the limit, the outputs together are as long as
   the limit allows, and one wake byte was attempted exactly if `overflow` is set.
   */
  lemma OverflowIsExact(limit: u64, turns: seq<Turn>)
    requires Finished(Run(Start(limit), turns))
    ensures |Run(Start(limit), turns).readers| == 2
    ensures var s := Run(Start(limit), turns);
            var total := |s.readers[0].consumed| + |s.readers[1].consumed|;
            && (s.overflow <==> total > limit)
            && |s.readers[0].output| + |s.readers[1].output| == (if total <= limit then total else limit)
            && s.wakes == AsNumber(s.overflow)
  {
    EveryRunKeepsInvariant(limit, turns);
    hide Run, Start;
  }

  // ------------------------------------------------------------ no dead ends

  predicate Busy(place: Place) {
    place.Loading? || place.Trying? || place.Appending? || place.Swapping? || place.Waking?
  }

  /** Not at the end of its stream. */
  predicate Running(r: Reader) {
    Busy(r.place) || r.place.Reading?
  }

  /** What a reader that has a chunk in hand does next when nobody interferes. */
  function NextMove(v: View): Move
    requires Busy(v.reader.place)
  {
    match v.reader.place
    case Loading(_) => Load
    case Trying(_, available) => if v.remaining == available then Exchange else FailExchange
    case Appending(_, _) => Append
    case Swapping => Swap
    case Waking => Wake
  }

  function MovesLeft(v: View): nat {
    match v.reader.place
    case Loading(_) => 5
    case Trying(_, available) => if v.remaining == available then 4 else 5
    case Appending(_, _) => 3
    case Swapping => 2
    case Waking => 1
    case _ => 0
  }

  lemma NextMoveGoesOn(v: View)
    requires Busy(v.reader.place)
    ensures Possible(v, NextMove(v)) && MovesLeft(ReaderStep(v, NextMove(v))) < MovesLeft(v) <= 5
    ensures var r := ReaderStep(v, NextMove(v)).reader;
      r.consumed == v.reader.consumed && (Busy(r.place) || r.place.Reading?)
  {
  }

  lemma {:induction false} RunOn(s: Shared, turns: seq<Turn>, more: seq<Turn>)
    requires Goes(s, turns)
    ensures Run(s, turns + more) == Run(Run(s, turns), more)
    decreases |turns|
  {
    if turns == [] {
      assert [] + more == more;
    } else {
      assert (turns + more)[0] == turns[0] && (turns + more)[1..] == turns[1..] + more;
      hide Possible, Step;
      RunOn(Step(s, turns[0].reader, turns[0].move), turns[1..], more);
    }
  }

  /** Every turn can be taken. */
  predicate Goes(s: Shared, turns: seq<Turn>)
    decreases |turns|
  {
    turns != [] ==>
      && turns[0].reader < |s.readers| && Possible(ViewOf(s, turns[0].reader), turns[0].move)
      && Goes(Step(s, turns[0].reader, turns[0].move), turns[1..])
  }

  /** A run of reader `i` alone that leaves it at `place`, having read `bytes` in all. */
  ghost predicate Brings(s: Shared, i: nat, turns: seq<Turn>, place: Place, bytes: Bytes) {
    var t := Run(s, turns);
    && Goes(s, turns) && |s.readers| == |t.readers| == 2 && i < 2
    && t.readers[i].place == place && t.readers[i].consumed == bytes && t.readers[1 - i] == s.readers[1 - i]
  }

  lemma BringsFirst(s: Shared, i: nat, m: Move, more: seq<Turn>, place: Place, bytes: Bytes)
    requires |s.readers| == 2 && i < 2 && Possible(ViewOf(s, i), m) && Brings(Step(s, i, m), i, more, place, bytes)
    ensures Brings(s, i, [Turn(i, m)] + more, place, bytes)
  {
    var turns := [Turn(i, m)] + more;
    assert turns[0] == Turn(i, m) && turns[1..] == more;
    hide Possible, ReaderStep;
  }

  lemma BringsNothing(s: Shared, i: nat)
    requires |s.readers| == 2 && i < 2
    ensures Brings(s, i, [], s.readers[i].place, s.readers[i].consumed)
  {
  }

  lemma BringsBoth(s: Shared, i: nat, a: seq<Turn>, place: Place, bytes: Bytes, b: seq<Turn>, last: Place, all: Bytes)
    requires Brings(s, i, a, place, bytes) && Brings(Run(s, a), i, b, last, all)
    ensures Brings(s, i, a + b, last, all)
  {
    RunOn(s, a, b);
    GoesOn(s, a, b);
    hide Run, Goes;
  }

  lemma {:induction false} GoesOn(s: Shared, a: seq<Turn>, b: seq<Turn>)
    requires Goes(s, a) && Goes(Run(s, a), b)
    ensures Goes(s, a + b)
    decreases |a|
  {
    if a == [] {
      assert [] + b == b;
    } else {
      assert (a + b)[0] == a[0] && (a + b)[1..] == a[1..] + b;
      hide Possible, Step;
      GoesOn(Step(s, a[0].reader, a[0].move), a[1..], b);
    }
  }

  /** A reader always gets done with the chunk it has in hand. */
  lemma {:induction false} ChunkIsHandled(s: Shared, i: nat) returns (turns: seq<Turn>)
    requires |s.readers| == 2 && i < 2 && Running(s.readers[i])
    ensures Brings(s, i, turns, Reading, s.readers[i].consumed)
    decreases MovesLeft(ViewOf(s, i))
  {
    if s.readers[i].place.Reading? {
      turns := [];
      BringsNothing(s, i);
    } else {
      var m := NextMove(ViewOf(s, i));
      NextMoveGoesOn(ViewOf(s, i));
      hide Brings, Possible, NextMove, ReaderStep, Busy, MovesLeft;
      var more := ChunkIsHandled(Step(s, i, m), i);
      BringsFirst(s, i, m, more, Reading, s.readers[i].consumed);
      turns := [Turn(i, m)] + more;
    }
  }

  function Joined(chunks: seq<Bytes>): Bytes {
    if chunks == [] then [] else chunks[0] + Joined(chunks[1..])
  }

  predicate Readable(chunks: seq<Bytes>) {
    forall k :: 0 <= k < |chunks| ==> 0 < |chunks[k]| <= BUFFER_BYTES
  }

  lemma ReadTakesChunk(s: Shared, i: nat, chunk: Bytes)
    requires |s.readers| == 2 && i < 2 && s.readers[i].place.Reading? && 0 < |chunk| <= BUFFER_BYTES
    ensures Possible(ViewOf(s, i), Read(chunk))
    ensures var t := Step(s, i, Read(chunk));
      && |t.readers| == 2 && t.readers[1 - i] == s.readers[1 - i] && t.remaining == s.remaining
      && t.readers[i] == Reader(Loading(chunk), s.readers[i].consumed + chunk, s.readers[i].output)
  {
  }

  lemma {:induction false} StreamIsRead(s: Shared, i: nat, chunks: seq<Bytes>) returns (turns: seq<Turn>)
    requires |s.readers| == 2 && i < 2 && s.readers[i].place.Reading? && Readable(chunks)
    ensures Brings(s, i, turns, Reading, s.readers[i].consumed + Joined(chunks))
    decreases |chunks|
  {
    if chunks == [] {
      turns := [];
      BringsNothing(s, i);
      assert s.readers[i].consumed + [] == s.readers[i].consumed;
    } else {
      var before, chunk := s.readers[i].consumed, chunks[0];
      ReadTakesChunk(s, i, chunk);
      var t := Step(s, i, Read(chunk));
      var handled := ChunkIsHandled(t, i);
      BringsFirst(s, i, Read(chunk), handled, Reading, before + chunk);
      var first := [Turn(i, Read(chunk))] + handled;
      var u := Run(s, first);
      assert Readable(chunks[1..]);
      var rest := StreamIsRead(u, i, chunks[1..]);
      assert before + chunk + Joined(chunks[1..]) == before + Joined(chunks);
      hide Possible, ReaderStep, Joined, Run, Goes;
      BringsBoth(s, i, first, Reading, before + chunk, rest, Reading, before + Joined(chunks));
      turns := first + rest;
    }
  }

  lemma EndIsReached(s: Shared, i: nat)
    requires |s.readers| == 2 && i < 2 && s.readers[i].place.Reading?
    ensures Brings(s, i, [Turn(i, Eof)], Ended, s.readers[i].consumed)
    ensures Possible(ViewOf(s, i), ReadError) && Step(s, i, ReadError).readers[i].place.ReadFailed?
  {
    assert [Turn(i, Eof)][1..] == [];
  }

  /** One reader alone, from its place to the end of a stream that still brings `chunks`. */
  lemma ReaderCanEnd(s: Shared, i: nat, chunks: seq<Bytes>) returns (turns: seq<Turn>)
    requires |s.readers| == 2 && i < 2 && Running(s.readers[i]) && Readable(chunks)
    ensures Brings(s, i, turns, Ended, s.readers[i].consumed + Joined(chunks))
  {
    var before := s.readers[i].consumed;
    var a := ChunkIsHandled(s, i);
    var b := StreamIsRead(Run(s, a), i, chunks);
    BringsBoth(s, i, a, Reading, before, b, Reading, before + Joined(chunks));
    EndIsReached(Run(s, a + b), i);
    BringsBoth(s, i, a + b, Reading, before + Joined(chunks), [Turn(i, Eof)], Ended, before + Joined(chunks));
    turns := a + b + [Turn(i, Eof)];
    hide *;
  }

  /**
   No reader is ever stuck: wherever two readers are that still run, and whatever their
   streams still bring, a run takes both to the end with exactly those bytes read.
   */
  lemma StreamsCanBeRead(limit: u64, past: seq<Turn>, a: seq<Bytes>, b: seq<Bytes>) returns (turns: seq<Turn>)
    requires Readable(a) && Readable(b)
    requires |Run(Start(limit), past).readers| == 2
    requires var s := Run(Start(limit), past); Running(s.readers[0]) && Running(s.readers[1])
    ensures var s, t := Run(Start(limit), past), Run(Run(Start(limit), past), turns);
      && |s.readers| == |t.readers| == 2 && Finished(t)
      && t.readers[0].consumed == s.readers[0].consumed + Joined(a)
      && t.readers[1].consumed == s.readers[1].consumed + Joined(b)
  {
    hide *;
    var s := Run(Start(limit), past);
    var first := ReaderCanEnd(s, 0, a);
    BroughtTo(s, 0, first, s.readers[0].consumed + Joined(a));
    var second := ReaderCanEnd(Run(s, first), 1, b);
    BroughtTo(Run(s, first), 1, second, s.readers[1].consumed + Joined(b));
    RunOn(s, first, second);
    turns := first + second;
    BothEnded(Run(s, turns));
  }

  lemma BroughtTo(s: Shared, i: nat, turns: seq<Turn>, bytes: Bytes)
    requires Brings(s, i, turns, Ended, bytes)
    ensures var t := Run(s, turns);
      && Goes(s, turns) && i < 2 && |s.readers| == |t.readers| == 2
      && t.readers[i].place.Ended? && t.readers[i].consumed == bytes && t.readers[1 - i] == s.readers[1 - i]
  {
    hide Run, Goes;
  }

  lemma BothEnded(s: Shared)
    requires |s.readers| == 2 && s.readers[0].place.Ended? && s.readers[1].place.Ended?
    ensures Finished(s)
  {
  }

  // ------------------------------------------------- the compare-and-swap loop

  /**
   What happens just before an attempt: another thread leaves `remaining`, and the weak exchange
   may fail spuriously.
   */
  datatype Interference = Interference(remaining: u64, spurious: bool)

  class Budget {
    var remaining: u64

    constructor (limit: u64)
      ensures remaining == limit
    {
      remaining := limit;
    }

    /**
     `claim_output_bytes` among other threads, which after `others` leave it alone: it
     takes effect at one instant, at which the budget was `before`, what the last of the
     `met` interferences left.
     */
    method ClaimOutputBytes(requested: nat, others: seq<Interference>)
      returns (claimed: u64, ghost before: u64, ghost met: nat)
      modifies this
      ensures met <= |others| && (others != [] ==> met > 0)
      ensures before == if met == 0 then old(remaining) else others[met - 1].remaining
      ensures claimed <= requested && claimed <= before && (claimed == requested || claimed == before)
      ensures remaining == before - claimed
    {
      var available: u64 := remaining;
      var attempt := 0;
      while true
        invariant attempt <= |others|
        invariant remaining == if attempt == 0 then old(remaining) else others[attempt - 1].remaining
        decreases |others| - attempt, remaining != available
      {
        claimed := Claim(requested, available);
        var spurious := false;
        if attempt < |others| {
          remaining := others[attempt].remaining;
          spurious := others[attempt].spurious;
          attempt := attempt + 1;
        }
        if !spurious && remaining == available {
          before, met := remaining, attempt;
          remaining := available - claimed;
          return;
        }
        available := remaining;
      }
    }
  }
}
