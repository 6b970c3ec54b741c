/**
 What every run of a resequencer keeps, whatever sequence numbers are supplied: nothing is lost or
 duplicated, and what comes out is numbered consecutively.
 */
module ReorderSafety {
  import opened Bounded
  import opened Resequencing

  datatype Op<M> =
    | Supply(message: Tagged<M>)
    | TakeNext
    | Clear
    | Expect(next: U8)

  /** What a run did. `anchor` is how much had come out when the expected number was last set, to `anchorSeq`. */
  datatype History<M(==)> = History(supplied: multiset<Tagged<M>>, emitted: seq<Tagged<M>>,
                                rejected: multiset<Tagged<M>>, cleared: multiset<Tagged<M>>,
                                anchor: nat, anchorSeq: U8)

  /** The messages in a buffer, as a bag. */
  ghost function Contents<T>(m: map<U8, T>, bound: nat := 256): multiset<T>
    requires bound <= 256
  {
    if bound == 0 then multiset{}
    else if bound - 1 in m then Contents(m, bound - 1) + multiset{m[bound - 1]}
    else Contents(m, bound - 1)
  }

  lemma {:induction false} ContentsAgree<T>(m: map<U8, T>, m': map<U8, T>, bound: nat)
    requires bound <= 256
    requires forall k: U8 | k < bound :: (k in m <==> k in m') && (k in m ==> m[k] == m'[k])
    ensures Contents(m, bound) == Contents(m', bound)
  {
    if bound > 0 {
      ContentsAgree(m, m', bound - 1);
    }
  }

  lemma BagSwap<T>(a: multiset<T>, b: multiset<T>, c: multiset<T>)
    ensures a + b + c == a + c + b
  {
  }

  lemma {:induction false} ContentsInsert<T>(m: map<U8, T>, key: U8, v: T, bound: nat := 256)
    requires key !in m && key < bound <= 256
    ensures Contents(m[key := v], bound) == Contents(m, bound) + multiset{v}
  {
    if bound - 1 == key {
      ContentsAgree(m, m[key := v], key);
    } else {
      ContentsInsert(m, key, v, bound - 1);
      if bound - 1 in m {
        BagSwap(Contents(m, bound - 1), multiset{v}, multiset{m[bound - 1]});
      }
    }
  }

  lemma ContentsRemove<T>(m: map<U8, T>, key: U8)
    requires key in m
    ensures Contents(m) == Contents(m - {key}) + multiset{m[key]}
  {
    ContentsInsert(m - {key}, key, m[key]);
    assert m == (m - {key})[key := m[key]];
  }

  lemma {:induction false} ContentsEmpty<T>(m: map<U8, T>, bound: nat := 256)
    requires m == map[] && bound <= 256
    ensures Contents(m, bound) == multiset{}
  {
    if bound > 0 {
      ContentsEmpty(m, bound - 1);
    }
  }

  ghost function StepOf<M>(s: ReorderState<Tagged<M>>, h: History<M>, op: Op<M>): (ReorderState<Tagged<M>>, History<M>)
    requires s.Valid()
  {
    match op
    case Supply(t) =>
      var (s', r) := Processed(s, t.seqNumber, t);
      var h' := h.(supplied := h.supplied + multiset{t});
      (match r
       case MessageNextInSequence(t') => (s', h'.(emitted := h'.emitted + [t']))
       case OutOfSequenceMessageInserted => (s', h')
       case DuplicateMessageSequence => (s', h'.(rejected := h'.rejected + multiset{t})))
    case TakeNext =>
      var (s', r) := Drained(s);
      (match r
       case Message(t) => (s', h.(emitted := h.emitted + [t]))
       case _ => (s', h))
    case Clear =>
      (Fresh(), h.(cleared := h.cleared + Contents(s.buffer), anchor := |h.emitted|, anchorSeq := 0))
    case Expect(n) =>
      (s.(nextSeq := n), h.(anchor := |h.emitted|, anchorSeq := n))
  }

  /** Buffered messages sit under the key of their own number. */
  ghost predicate Keyed<M>(s: ReorderState<Tagged<M>>) {
    s.phase.ReSequencing? ==> forall k :: k in s.buffer ==> s.buffer[k].seqNumber == Add8(k, s.phase.offset)
  }

  /** Nothing is lost or doubled. */
  ghost predicate Conserved<M>(s: ReorderState<Tagged<M>>, h: History<M>) {
    h.supplied == multiset(h.emitted) + Contents(s.buffer) + h.rejected + h.cleared
  }

  /** What came out since the expected number was set is numbered consecutively from it. */
  ghost predicate Consecutive<M>(s: ReorderState<Tagged<M>>, h: History<M>) {
    && h.anchor <= |h.emitted|
    && (forall i :: h.anchor <= i < |h.emitted| ==> h.emitted[i].seqNumber == (h.anchorSeq + i - h.anchor) % 256)
    && s.nextSeq == (h.anchorSeq + |h.emitted| - h.anchor) % 256
  }

  lemma SupplyKeepsKeyed<M>(s: ReorderState<Tagged<M>>, t: Tagged<M>)
    requires s.Valid() && Keyed(s)
    ensures var (s', r) := Processed(s, t.seqNumber, t);
            && s'.Valid() && Keyed(s')
            && s'.nextSeq == (if r.MessageNextInSequence? then Succ8(t.seqNumber) else s.nextSeq)
            && (r.MessageNextInSequence? ==> r.message == t && t.seqNumber == s.nextSeq)
  {
    ProcessedKeepsValid(s, t.seqNumber, t);
    SubAdd(t.seqNumber, if s.phase.ReSequencing? then s.phase.offset else s.nextSeq);
  }

  lemma TakeKeepsKeyed<M>(s: ReorderState<Tagged<M>>)
    requires s.Valid() && Keyed(s)
    ensures var (s', d) := Drained(s);
            && s'.Valid() && Keyed(s')
            && (if d.Message? then d.message.seqNumber == s.nextSeq && s'.nextSeq == Succ8(s.nextSeq) else s' == s)
  {
    DrainedKeepsValid(s);
  }

  lemma StepKeepsKeyed<M>(s: ReorderState<Tagged<M>>, h: History<M>, op: Op<M>)
    requires s.Valid() && Keyed(s)
    ensures var s' := StepOf(s, h, op).0; s'.Valid() && Keyed(s')
  {
    match op
    case Supply(t) => SupplyKeepsKeyed(s, t);
    case TakeNext => TakeKeepsKeyed(s);
    case _ =>
  }

  lemma AddSupplied<T>(
      supplied: multiset<T>, emitted: seq<T>, held: multiset<T>, rejected: multiset<T>, cleared: multiset<T>, t: T)
    requires supplied == multiset(emitted) + held + rejected + cleared
    ensures supplied + multiset{t} == multiset(emitted + [t]) + held + rejected + cleared
    ensures supplied + multiset{t} == multiset(emitted) + (held + multiset{t}) + rejected + cleared
    ensures supplied + multiset{t} == multiset(emitted) + held + (rejected + multiset{t}) + cleared
  {
    assert multiset(emitted + [t]) == multiset(emitted) + multiset{t};
  }

  lemma SupplyConserves<M>(s: ReorderState<Tagged<M>>, h: History<M>, t: Tagged<M>)
    requires s.Valid() && Conserved(s, h)
    ensures var (s', h') := StepOf(s, h, Supply(t)); Conserved(s', h')
  {
    AddSupplied(h.supplied, h.emitted, Contents(s.buffer), h.rejected, h.cleared, t);
    var (s', r) := Processed(s, t.seqNumber, t);
    if r.OutOfSequenceMessageInserted? {
      var key := Sub8(t.seqNumber, if s.phase.ReSequencing? then s.phase.offset else s.nextSeq);
      ContentsInsert(s.buffer, key, t);
    } else {
      assert s'.buffer == s.buffer;
    }
  }

  lemma TakeConserves<M>(s: ReorderState<Tagged<M>>, h: History<M>)
    requires s.Valid() && Conserved(s, h)
    ensures var (s', h') := StepOf(s, h, TakeNext); Conserved(s', h')
  {
    if s.phase.ReSequencing? {
      ContentsRemove(s.buffer, FirstKey(s.buffer));
    }
  }

  lemma StepConserves<M>(s: ReorderState<Tagged<M>>, h: History<M>, op: Op<M>)
    requires s.Valid() && Conserved(s, h)
    ensures var (s', h') := StepOf(s, h, op); Conserved(s', h')
  {
    match op
    case Supply(t) => SupplyConserves(s, h, t);
    case TakeNext => TakeConserves(s, h);
    case Clear => ContentsEmpty<Tagged<M>>(map[]);
    case Expect(n) =>
  }

  lemma StepKeepsConsecutive<M>(s: ReorderState<Tagged<M>>, h: History<M>, op: Op<M>)
    requires s.Valid() && Keyed(s) && Consecutive(s, h)
    ensures var (s', h') := StepOf(s, h, op); Consecutive(s', h')
  {
    match op
    case Supply(t) =>
      SupplyKeepsKeyed(s, t);
      hide Processed, Keyed, Consecutive;
      var (s', r) := Processed(s, t.seqNumber, t);
      if r.MessageNextInSequence? {
        OneMoreInSequence(s, h, s', StepOf(s, h, op).1, t);
      } else {
        NothingMore(s, h, s', StepOf(s, h, op).1);
      }
    case TakeNext =>
      TakeKeepsKeyed(s);
      hide Drained, Keyed, Consecutive;
      var (s', d) := Drained(s);
      if d.Message? {
        OneMoreInSequence(s, h, s', StepOf(s, h, op).1, d.message);
      }
    case _ =>
  }

  lemma OneMoreInSequence<M>(
      s: ReorderState<Tagged<M>>, h: History<M>, s': ReorderState<Tagged<M>>, h': History<M>, t: Tagged<M>)
    requires Consecutive(s, h) && t.seqNumber == s.nextSeq && s'.nextSeq == Succ8(s.nextSeq)
    requires h'.emitted == h.emitted + [t] && h'.anchor == h.anchor && h'.anchorSeq == h.anchorSeq
    ensures Consecutive(s', h')
  {
    SuccOfMod(h.anchorSeq + |h.emitted| - h.anchor);
    hide Succ8;
  }

  lemma NothingMore<M>(s: ReorderState<Tagged<M>>, h: History<M>, s': ReorderState<Tagged<M>>, h': History<M>)
    requires Consecutive(s, h) && s'.nextSeq == s.nextSeq
    requires h'.emitted == h.emitted && h'.anchor == h.anchor && h'.anchorSeq == h.anchorSeq
    ensures Consecutive(s', h')
  {
  }

  ghost function Start<M>(): (ReorderState<Tagged<M>>, History<M>) {
    (Fresh(), History(multiset{}, [], multiset{}, multiset{}, 0, 0))
  }

  /**
   The state and history after any run of operations on a new resequencer. That this function is total
   says that the run-time assertion and the `unwrap` in `drain` cannot fail.
   */
  ghost function Run<M>(ops: seq<Op<M>>): (r: (ReorderState<Tagged<M>>, History<M>))
    ensures r.0.Valid() && Keyed(r.0)
  {
    if ops == [] then Start()
    else
      var (s, h) := Run(ops[..|ops| - 1]);
      StepKeepsKeyed(s, h, ops[|ops| - 1]);
      StepOf(s, h, ops[|ops| - 1])
  }

  lemma {:induction false} RunConserves<M>(ops: seq<Op<M>>)
    ensures var (s, h) := Run(ops); Conserved(s, h)
  {
    if ops == [] {
      ContentsEmpty<Tagged<M>>(map[]);
    } else {
      RunConserves(ops[..|ops| - 1]);
      var (s, h) := Run(ops[..|ops| - 1]);
      StepConserves(s, h, ops[|ops| - 1]);
    }
  }

  lemma {:induction false} RunIsConsecutive<M>(ops: seq<Op<M>>)
    ensures var (s, h) := Run(ops); Consecutive(s, h)
  {
    if ops != [] {
      RunIsConsecutive(ops[..|ops| - 1]);
      var (s, h) := Run(ops[..|ops| - 1]);
      StepKeepsConsecutive(s, h, ops[|ops| - 1]);
    }
  }

  ghost predicate Setting<M>(op: Op<M>) {
    op.Clear? || op.Expect?
  }

  /** The number the last `reset` or `set_next_sequence` of a run asked for, 0 when there was none. */
  ghost function Asked<M>(ops: seq<Op<M>>): U8 {
    if ops == [] then 0
    else match ops[|ops| - 1]
      case Clear => 0
      case Expect(n) => n
      case _ => Asked(ops[..|ops| - 1])
  }

  /** How much had come out by then. */
  ghost function OutBefore<M>(ops: seq<Op<M>>): nat {
    if ops == [] then 0
    else if Setting(ops[|ops| - 1]) then |Run(ops[..|ops| - 1]).1.emitted|
    else OutBefore(ops[..|ops| - 1])
  }

  lemma StepAnchor<M>(s: ReorderState<Tagged<M>>, h: History<M>, op: Op<M>)
    requires s.Valid()
    ensures var h' := StepOf(s, h, op).1;
            && h'.anchor == (if Setting(op) then |h.emitted| else h.anchor)
            && h'.anchorSeq == (match op case Clear => 0 case Expect(n) => n case _ => h.anchorSeq)
  {
  }

  lemma {:induction false} AnchorIsLastSetting<M>(ops: seq<Op<M>>)
    ensures Run(ops).1.anchor == OutBefore(ops) && Run(ops).1.anchorSeq == Asked(ops)
  {
    hide StepOf;
    if ops != [] {
      var before, op := ops[..|ops| - 1], ops[|ops| - 1];
      AnchorIsLastSetting(before);
      StepAnchor(Run(before).0, Run(before).1, op);
    }
  }

  /** Whatever arrives, no message is lost or doubled, and `ReSequencing` holds exactly while something is buffered. */
  lemma EveryRunConserves<M>(ops: seq<Op<M>>)
    ensures var (s, h) := Run(ops);
            && (s.phase.ReSequencing? <==> s.buffer != map[])
            && h.supplied == multiset(h.emitted) + Contents(s.buffer) + h.rejected + h.cleared
  {
    RunConserves(ops);
  }

  lemma ConsecutiveAt<M>(s: ReorderState<Tagged<M>>, h: History<M>, i: nat)
    requires Consecutive(s, h) && h.anchor <= i < |h.emitted|
    ensures h.emitted[i].seqNumber == (h.anchorSeq + i - h.anchor) % 256
  {
  }

  /** Whatever arrives, what came out since the last setting is numbered consecutively from it. */
  lemma EveryRunEmitsConsecutively<M>(ops: seq<Op<M>>, i: nat)
    requires OutBefore(ops) <= i < |Run(ops).1.emitted|
    ensures Run(ops).1.emitted[i].seqNumber == (Asked(ops) + i - OutBefore(ops)) % 256
  {
    hide *;
    AnchorIsLastSetting(ops);
    RunIsConsecutive(ops);
    ConsecutiveAt(Run(ops).0, Run(ops).1, i);
  }
}
