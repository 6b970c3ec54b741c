/**
 The reordering buffer of an application node: out-of-order messages wait in a map keyed by their
 wrapped distance from `offset`, the sequence number that was expected when the map last became
 non-empty.
 */
module Resequencing {
  import opened Bounded

  /** A message together with the sequence number it was published under. */
  datatype Tagged<M> = Tagged(seqNumber: U8, body: M)

  datatype Phase = Good | ReSequencing(offset: U8)

  datatype ProcessResult<T> =
    | MessageNextInSequence(message: T)
    | OutOfSequenceMessageInserted
    | DuplicateMessageSequence

  datatype DrainResult<T> =
    | Message(message: T)
    | Empty
    | SequenceMissing

  /** The value of a resequencer. */
  datatype ReorderState<T> = ReorderState(buffer: map<U8, T>, nextSeq: U8, phase: Phase) {
    /** `ReSequencing` holds exactly while something is buffered. */
    ghost predicate Valid() {
      phase.ReSequencing? <==> buffer != map[]
    }
  }

  function Fresh<T>(): ReorderState<T> {
    ReorderState(map[], 0, Good)
  }

  /** The smallest key: the head of the source's ordered map. */
  function FirstKey<T>(m: map<U8, T>): (k: U8)
    requires m != map[]
    ensures k in m && forall j :: j in m ==> k <= j
  {
    FirstKeyFrom(m, 0)
  }

  function FirstKeyFrom<T>(m: map<U8, T>, lo: nat): (k: U8)
    requires m != map[] && lo <= 256 && forall j :: j in m ==> lo <= j
    ensures k in m && forall j :: j in m ==> k <= j
    decreases 256 - lo
  {
    assert lo < 256 by { var j :| j in m; }
    if lo in m then lo else FirstKeyFrom(m, lo + 1)
  }

  function Processed<T>(s: ReorderState<T>, seqNumber: U8, message: T): (ReorderState<T>, ProcessResult<T>) {
    if s.nextSeq == seqNumber then
      if s.phase.ReSequencing? && Sub8(seqNumber, s.phase.offset) in s.buffer
      then (s, DuplicateMessageSequence)
      else (s.(nextSeq := Succ8(s.nextSeq)), MessageNextInSequence(message))
    else
      var offset := if s.phase.ReSequencing? then s.phase.offset else s.nextSeq;
      var key := Sub8(seqNumber, offset);
      if key in s.buffer
      then (s.(phase := ReSequencing(offset)), DuplicateMessageSequence)
      else (ReorderState(s.buffer[key := message], s.nextSeq, ReSequencing(offset)), OutOfSequenceMessageInserted)
  }

  function Drained<T>(s: ReorderState<T>): (ReorderState<T>, DrainResult<T>)
    requires s.Valid()
  {
    if s.phase.Good? then (s, Empty)
    else
      var key := FirstKey(s.buffer);
      if Add8(key, s.phase.offset) != s.nextSeq then (s, SequenceMissing)
      else
        var rest := s.buffer - {key};
        (ReorderState(rest, Succ8(s.nextSeq), if rest == map[] then Good else s.phase), Message(s.buffer[key]))
  }

  lemma ProcessedKeepsValid<T>(s: ReorderState<T>, seqNumber: U8, message: T)
    requires s.Valid()
    ensures Processed(s, seqNumber, message).0.Valid()
    // the outcome is decided by the number alone
    ensures var r := Processed(s, seqNumber, message).1;
            r == (if s.phase.ReSequencing? && Sub8(seqNumber, s.phase.offset) in s.buffer then DuplicateMessageSequence
                  else if seqNumber == s.nextSeq then MessageNextInSequence(message)
                  else OutOfSequenceMessageInserted)
  {
    var s' := Processed(s, seqNumber, message).0;
    if s'.buffer != s.buffer {
      var offset := if s.phase.ReSequencing? then s.phase.offset else s.nextSeq;
      assert Sub8(seqNumber, offset) in s'.buffer;
    }
  }

  lemma DrainedKeepsValid<T>(s: ReorderState<T>)
    requires s.Valid()
    ensures Drained(s).0.Valid()
    ensures Drained(s).1.Message? ==> |Drained(s).0.buffer| < |s.buffer|
  {
    if s.phase.ReSequencing? {
      var key := FirstKey(s.buffer);
      var rest := s.buffer - {key};
      assert rest.Keys == s.buffer.Keys - {key};
      assert |rest.Keys| == |s.buffer.Keys| - 1;
    }
  }

  class Resequencer<T> {
    var buffer: map<U8, T>
    var nextSeq: U8
    var phase: Phase

    ghost function Model(): ReorderState<T>
      reads this
    {
      ReorderState(buffer, nextSeq, phase)
    }

    ghost predicate Valid()
      reads this
    {
      Model().Valid()
    }

    constructor ()
      ensures Valid() && Model() == Fresh()
    {
      buffer, nextSeq, phase := map[], 0, Good;
    }

    method SetNextSequence(next: U8)
      modifies this
      ensures Model() == old(Model()).(nextSeq := next)
    {
      nextSeq := next;
    }

    method IncrementNextSeq()
      modifies this
      ensures Model() == old(Model()).(nextSeq := Succ8(old(nextSeq)))
    {
      nextSeq := Succ8(nextSeq);
    }

    method Process(seqNumber: U8, message: T) returns (r: ProcessResult<T>)
      requires Valid()
      modifies this
      ensures Valid()
      ensures (Model(), r) == Processed(old(Model()), seqNumber, message)
    {
      ProcessedKeepsValid(Model(), seqNumber, message);
      if nextSeq == seqNumber {
        if phase.ReSequencing? && Sub8(seqNumber, phase.offset) in buffer {
          return DuplicateMessageSequence;
        }
        IncrementNextSeq();
        return MessageNextInSequence(message);
      }
      var offset;
      match phase {
        case ReSequencing(o) => offset := o;
        case Good =>
          phase := ReSequencing(nextSeq);
          offset := nextSeq;
      }
      var key := Sub8(seqNumber, offset);
      if key in buffer {
        r := DuplicateMessageSequence;
      } else {
        buffer := buffer[key := message];
        r := OutOfSequenceMessageInserted;
      }
    }

    method Drain() returns (r: DrainResult<T>)
      requires Valid()
      modifies this
      ensures Valid()
      ensures (Model(), r) == Drained(old(Model()))
    {
      DrainedKeepsValid(Model());
      if phase.Good? {
        assert buffer == map[];  // the source asserts this at run time
        return Empty;
      }
      var key := FirstKey(buffer);
      if Add8(key, phase.offset) != nextSeq {
        return SequenceMissing;
      }
      var message := buffer[key];
      buffer := buffer - {key};
      IncrementNextSeq();
      if buffer == map[] {
        phase := Good;
      }
      r := Message(message);
    }

    method Reset()
      modifies this
      ensures Valid() && Model() == Fresh()
    {
      buffer, nextSeq, phase := map[], 0, Good;
    }
  }
}
