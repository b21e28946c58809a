/** The trace ring against the whole history of a run. */
module Trace {
  import opened Bytes
  import opened Memory
  import opened Cpu
  import opened Runs

  /** Every (pc, opcode) the run fetched, oldest first. */
  function History(s: State, es: seq<Event>): seq<(word, byte)> {
    if es == [] then []
    else
      var t := Run(s, es[..|es| - 1]);
      History(s, es[..|es| - 1]) +
      (if es[|es| - 1].StepEvent? && !t.halted then [(t.pc, ReadValue(t.mem, t.pc))] else [])
  }

  /** The `back`-th newest entry, or a pair of zeros before the beginning. */
  function Newest(h: seq<(word, byte)>, back: nat): (word, byte)
    requires back > 0
  {
    if back <= |h| then h[|h| - back] else (0, 0)
  }

  function EmptyRing(): Ring { Ring(seq(TRACE_LEN, _ => 0), seq(TRACE_LEN, _ => 0), 0) }

  function SlotBack(t: Ring, back: nat): Slot
    requires back <= TRACE_LEN
  {
    (t.idx + TRACE_LEN - back) % TRACE_LEN
  }

  ghost predicate Holds(t: Ring, h: seq<(word, byte)>) {
    forall back: nat {:trigger Newest(h, back)} :: 0 < back <= TRACE_LEN ==>
      (t.pcs[SlotBack(t, back)], t.ops[SlotBack(t, back)]) == Newest(h, back)
  }

  lemma EmptyHolds()
    ensures Holds(EmptyRing(), [])
  {
    forall back: nat | 0 < back <= TRACE_LEN
      ensures (EmptyRing().pcs[SlotBack(EmptyRing(), back)], EmptyRing().ops[SlotBack(EmptyRing(), back)])
           == Newest([], back)
    {}
  }

  lemma RecordHolds(t: Ring, h: seq<(word, byte)>, pc: word, op: byte)
    requires Holds(t, h)
    ensures Holds(Record(t, pc, op), h + [(pc, op)])
  {
    var r, g := Record(t, pc, op), h + [(pc, op)];
    forall back: nat | 0 < back <= TRACE_LEN
      ensures (r.pcs[SlotBack(r, back)], r.ops[SlotBack(r, back)]) == Newest(g, back)
    {
      if back > 1 {
        assert SlotBack(r, back) == SlotBack(t, back - 1) != t.idx;
        assert Newest(g, back) == Newest(h, back - 1);
      } else {
        assert SlotBack(r, 1) == t.idx;
      }
    }
  }

  lemma EventTraced(s: State, e: Event)
    ensures Apply(s, e).trace ==
            if e.StepEvent? && !s.halted then Record(s.trace, s.pc, ReadValue(s.mem, s.pc)) else s.trace
  {
    match e
    case StepEvent => if !s.halted { var n := StepSummary(s); }
    case IrqEvent => if Accepts(s) { IrqSummary(s); }
    case KeyEvent(_) =>
  }

  lemma {:induction false} RunHolds(s: State, es: seq<Event>)
    requires s.trace == EmptyRing()
    ensures Holds(Run(s, es).trace, History(s, es))
  {
    hide Apply, Record, ReadValue;
    EmptyHolds();
    if es != [] {
      var t := Run(s, es[..|es| - 1]);
      RunHolds(s, es[..|es| - 1]);
      EventTraced(t, es[|es| - 1]);
      RecordHolds(t.trace, History(s, es[..|es| - 1]), t.pc, ReadValue(t.mem, t.pc));
      assert History(s, es[..|es| - 1]) + [] == History(s, es[..|es| - 1]);
    }
  }

  /** How many fetches ago entry `k` of a dump of `count` was: a dump of more than the ring holds starts with a part of
      what it ends with. */
  function Age(count: int, k: int): (back: nat)
    requires 0 <= k < count
    ensures 1 <= back <= 64 && (count <= 64 ==> back == count - k)
  {
    (count - k - 1) % 64 + 1
  }

  /** After any run from power-on, a dump of `count` entries is the tail of the history, oldest first. */
  lemma DumpIsHistory(s: State, es: seq<Event>, count: int, k: int)
    requires s.trace == EmptyRing() && 0 <= k < count <= 64 + Run(s, es).trace.idx
    ensures Dumped(Run(s, es).trace, count, k) == Newest(History(s, es), Age(count, k))
    ensures count <= 64 ==> Dumped(Run(s, es).trace, count, k) == Newest(History(s, es), count - k)
  {
    hide Run, History;
    RunHolds(s, es);
    var t := Run(s, es).trace;
    assert (t.idx + TRACE_LEN - count + k) % TRACE_LEN == SlotBack(t, Age(count, k));
  }

  /** When a step halts the machine, the newest entry is the instruction that did it, at pc - 1, and from then on
      steps and interrupts change nothing. */
  lemma HaltIsTraced(s: State, es: seq<Event>)
    requires !s.halted && Step(s).halted && forall e :: e in es ==> !e.KeyEvent?
    ensures var h := Step(s); var last := Dumped(h.trace, 1, 0);
      && last.0 == s.pc == (h.pc - 1) % 65536 && StopsOn(last.1)
      && Run(h, es) == h
  {
    var n := StepSummary(s);
    StaysHalted(Step(s), es);
  }

  lemma {:induction false} StaysHalted(s: State, es: seq<Event>)
    requires s.halted && forall e :: e in es ==> !e.KeyEvent?
    ensures Run(s, es) == s
  {
    if es != [] {
      StaysHalted(s, es[..|es| - 1]);
    }
  }
}
