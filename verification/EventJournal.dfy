/**
 * The event journal: a ring of 256 lines that any task appends to, and readers that give up
 * the lock between lines, so that the ring moves under them. A reader's run is described by a
 * schedule: what the writers append each time before the reader gets the lock again.
 */
module EventJournal {
  import opened Common

  const CAPACITY: nat := 256
  const LINE_SIZE: nat := 160
  const PERSIST_LINES: nat := 120
  const FOLLOW_BACKLOG: nat := 20

  /** `snprintf` into a line buffer. */
  function Clip(text: string): (line: string)
    ensures line <= text && |line| <= 159
    ensures |text| <= 159 ==> line == text
  {
    text[..Min(LINE_SIZE - 1, |text|)]
  }

  function ClipAll(texts: seq<string>): (lines: seq<string>)
    ensures |lines| == |texts|
    ensures forall i | 0 <= i < |texts| :: lines[i] == Clip(texts[i])
  {
    seq(|texts|, i requires 0 <= i < |texts| => Clip(texts[i]))
  }

  /** One line as a reader emitted it: its place in the history since boot, and how many lines there were then. */
  datatype Emitted = Emitted(number: nat, text: string, written: nat)

  ghost predicate Increasing(out: seq<Emitted>) {
    forall i, j | 0 <= i < j < |out| :: out[i].number < out[j].number && out[i].written <= out[j].written
  }

  /** Every emitted line is a line of the history, numbered `from` or later, with its own text. */
  ghost predicate Genuine(out: seq<Emitted>, history: seq<string>, from: nat) {
    forall e | e in out :: from <= e.number < e.written <= |history| && e.text == history[e.number]
  }

  /** The line a reader wants next. */
  function NextAfter(out: seq<Emitted>, from: nat): nat {
    if out == [] then from else out[|out| - 1].number + 1
  }

  /** Each time a reader goes on with the next line, or jumps to the oldest line the ring held at that moment. */
  ghost predicate JumpsOnlyOverEvicted(out: seq<Emitted>, from: nat)
    decreases |out|
  {
    out != [] ==>
      var rest, last := out[..|out| - 1], out[|out| - 1];
      && JumpsOnlyOverEvicted(rest, from)
      && (|| last.number == NextAfter(rest, from)
          || (last.number > NextAfter(rest, from) && last.number + 256 == last.written))
  }

  ghost predicate WrittenSince(out: seq<Emitted>, since: nat) {
    forall i | 0 <= i < |out| :: since <= out[i].written
  }

  /**
   * The line number at which the 32-bit sequence number last was 0. A line is known to readers by its
   * distance from there.
   */
  function Epoch(n: nat): (e: nat)
    ensures e + Wrap32(n) == n
  {
    n - Wrap32(n)
  }

  /** Between n and m lines the sequence number does not wrap, neither then nor within the lines retained at n. */
  predicate Steady(n: nat, m: nat) {
    Epoch(n) == Epoch(m) && Wrap32(n) >= Min(n, CAPACITY)
  }

  class EventLog {
    const lines: array<string>
    var head: nat
    var count: nat
    var sequence: nat          // uint32_t in the code
    ghost var history: seq<string>

    ghost predicate Valid()
      reads this, lines
    {
      && lines.Length == CAPACITY
      && head == |history| % CAPACITY
      && count == Min(|history|, CAPACITY)
      && sequence == Wrap32(|history|)
      && forall i | |history| - count <= i < |history| :: lines[i % CAPACITY] == history[i]
    }

    constructor ()
      ensures Valid() && history == [] && fresh(lines)
    {
      lines := new string[CAPACITY](_ => "");
      head, count, sequence := 0, 0, 0;
      history := [];
    }

    /** Appends one line, unless the lock cannot be had within its 50 ms. */
    method Log(text: string, locked: bool)
      requires Valid()
      modifies this, lines
      ensures Valid()
      ensures history == if locked then old(history) + [Clip(text)] else old(history)
    {
      if !locked { return; }
      lines[head] := Clip(text);
      head := (head + 1) % CAPACITY;
      if count < CAPACITY {
        count := count + 1;
      }
      sequence := Wrap32(sequence + 1);
      RingAdvances(|history|);
      history := history + [Clip(text)];
    }

    /** Writers at work while a reader does not hold the lock. */
    method Write(texts: seq<string>)
      requires Valid()
      modifies this, lines
      ensures Valid() && history == old(history) + ClipAll(texts)
    {
      var i := 0;
      while i < |texts|
        invariant i <= |texts| && Valid()
        invariant history == old(history) + ClipAll(texts)[..i]
      {
        Log(texts[i], true);
        i := i + 1;
      }
    }

    /** The writers of one round of a schedule, if there is one left. */
    method WriteRound(schedule: seq<seq<string>>, used: nat, ghost first: seq<string>) returns (after: nat)
      requires Valid() && used <= |schedule| && history == first + ClipAll(Flatten(schedule[..used]))
      modifies this, lines
      ensures Valid() && after == Min(used + 1, |schedule|)
      ensures history == first + ClipAll(Flatten(schedule[..after])) && old(history) <= history
      ensures after == used ==> sequence == old(sequence)
    {
      hide ClipAll, Flatten;
      if used == |schedule| { return used; }
      TakesOne(schedule, used);
      Write(schedule[used]);
      Associates(first, ClipAll(Flatten(schedule[..used])), ClipAll(schedule[used]));
      return used + 1;
    }

    /** One critical section of a sequence-driven reader: the line to emit next, or none. */
    method LookOnce(next: nat) returns (more: bool, at: nat, line: string)
      requires Valid() && next < TWO32
      ensures next <= at < TWO32
      ensures more ==> Epoch(|history|) + at < |history| && line == history[Epoch(|history|) + at]
      ensures more ==> at == next || Epoch(|history|) + at + CAPACITY == |history|
      ensures !more && sequence >= count ==> at == next >= sequence
      ensures sequence < count ==> !more && sequence < TWO32 - count <= at
    {
      hide Sub32, Wrap32;
      LookMeans(|history|, next);
      var look := LookFor(sequence, count, next);
      if look.Stop? { return false, look.at, ""; }
      SlotOf(Epoch(|history|) + look.at);
      var slot := (head + CAPACITY - count + (look.at - Sub32(sequence, count))) % CAPACITY;
      return true, look.at, lines[slot];
    }

    /** One critical section of a position-driven reader. */
    method LineAt(index: nat) returns (line: string)
      requires Valid() && index < count
      ensures line == history[|history| - count + index]
    {
      SlotOf(|history| - count + index);
      line := lines[(head + CAPACITY - count + index) % CAPACITY];
    }

    /**
     * `eventLogForEachSince`. However many lines were ever written, it emits strictly increasing line
     * numbers from `from` on, each with its own text. Unless the sequence number wraps meanwhile it
     * skips a line only if the ring has lost it by then, and it stops when it has caught up, if the
     * number has not wrapped within the ring either. If it has, the reader is sent ahead of the writers.
     */
    method ForEachSince(from: nat, schedule: seq<seq<string>>)
      returns (texts: seq<string>, next: nat, used: nat, ghost out: seq<Emitted>)
      requires Valid() && from < TWO32
      modifies this, lines
      ensures Valid() && used <= |schedule| && history == old(history) + ClipAll(Flatten(schedule[..used]))
      ensures |texts| == |out| && forall i | 0 <= i < |out| :: texts[i] == out[i].text
      ensures WrittenSince(out, |old(history)|) && from <= next < TWO32
      ensures Reported(out, history, Epoch(|old(history)|) + from, Epoch(|history|) + next)
      ensures var first := Epoch(|old(history)|) + from;
              Epoch(|old(history)|) == Epoch(|history|) ==>
                && JumpsOnlyOverEvicted(out, first)
                && (Wrap32(|history|) >= count ==>
                      Epoch(|history|) + next == NextAfter(out, first) == if first >= |history| then first else |history|)
      ensures Wrap32(|history|) < count ==> Wrap32(|history|) < TWO32 - count <= next
    {
      hide Reads, ClipAll, Flatten, Wrap32, Epoch, JumpsOnlyOverEvicted, NextAfter, Reported, WrittenSince;
      texts, out, next, used := [], [], from, 0;
      StartsReading(history, schedule, from);
      while true
        invariant Valid() && used <= |schedule| && history == old(history) + ClipAll(Flatten(schedule[..used]))
        invariant from <= next < TWO32 && Reads(out, |old(history)|, history, from, next)
        invariant |texts| == |out| && forall i | 0 <= i < |out| :: texts[i] == out[i].text
        decreases |schedule| - used, if next < sequence then sequence - next else 0
      {
        // The writers of this round, then the lock.
        ghost var before := history;
        used := WriteRound(schedule, used, old(history));
        ReadsOn(out, |old(history)|, before, history, from, next);
        var more, at, line := LookOnce(next);
        if !more {
          StopsReading(out, |old(history)|, history, from, next, at);
          return texts, at, used, out;
        }
        ghost var emitted := Emitted(Epoch(|history|) + at, line, |history|);
        EmitsNext(out, |old(history)|, history, from, next, at, emitted);
        texts, out := texts + [line], out + [emitted];
        next := at + 1;
      }
    }

    /**
     * `eventLogForEach`: walks by position while the ring moves. Still strictly increasing and
     * genuine, never more than 256 lines however fast the writers are, and exactly the retained
     * lines when nobody writes.
     */
    method ForEach(schedule: seq<seq<string>>) returns (texts: seq<string>, ghost out: seq<Emitted>)
      requires Valid()
      modifies this, lines
      ensures Valid() && |out| == |texts| <= 256
      ensures forall i | 0 <= i < |texts| :: texts[i] == out[i].text
      ensures Increasing(out) && Genuine(out, history, |old(history)| - old(count))
      ensures schedule == [] ==> history == old(history) && Consecutive(out, |history| - old(count)) && |out| == old(count)
    {
      hide Genuine, Increasing, Consecutive, ClipAll;
      texts, out := [], [];
      ghost var first := |history| - count;
      var index, used := 0, 0;
      StartsEmpty(history, [], first);
      while true
        invariant Valid() && used <= |schedule| && |old(history)| <= |history|
        invariant index == |out| == |texts| <= count && first <= |history| - count
        invariant forall i | 0 <= i < |texts| :: texts[i] == out[i].text
        invariant Reported(out, history, first, |history| - count + index)
        invariant schedule == [] ==> history == old(history) && Consecutive(out, first)
        decreases CAPACITY - index
      {
        if used < |schedule| {
          ghost var before, reach := history, |history| - count + index;
          Write(schedule[used]);
          used := used + 1;
          StillReported(out, before, history, first, reach, |history| - count + index);
        }
        if index >= count { return; }
        var line := LineAt(index);
        EmitsByPosition(out, history, first, |history| - count + index);
        texts, out := texts + [line], out + [Emitted(|history| - count + index, line, |history|)];
        index := index + 1;
      }
    }

    /**
     * `cmdLogs follow`: backlog first, then one call after another from where the last one stopped. No
     * line is reported twice, however often the sequence number wraps; while it does not, none is lost
     * but to the ring.
     */
    method Follow(rounds: seq<seq<seq<string>>>)
      returns (texts: seq<string>, start: nat, next: nat, ghost out: seq<Emitted>)
      requires Valid()
      modifies this, lines
      ensures Valid() && old(history) <= history
      ensures start == if Wrap32(|old(history)|) > 20 then Wrap32(|old(history)|) - 20 else 0
      ensures |texts| == |out| && forall i | 0 <= i < |out| :: texts[i] == out[i].text
      ensures Increasing(out) && Genuine(out, history, Epoch(|old(history)|) + start)
      ensures Steady(|old(history)|, |history|) ==>
                && JumpsOnlyOverEvicted(out, Epoch(|old(history)|) + start)
                && Epoch(|history|) + next == NextAfter(out, Epoch(|old(history)|) + start) <= |history|
    {
      hide Increasing, Genuine, JumpsOnlyOverEvicted, ClipAll, NextAfter, Wrap32, Epoch;
      start := if sequence > FOLLOW_BACKLOG then sequence - FOLLOW_BACKLOG else 0;
      texts, out, next := [], [], start;
      ghost var first := Epoch(|history|) + start;
      StartsEmpty(history, [], first);
      var rest := rounds;
      while rest != []
        invariant Valid() && old(history) <= history
        invariant start <= next < TWO32
        invariant Reported(out, history, first, Epoch(|history|) + next) && first <= Epoch(|history|) + next
        invariant |texts| == |out| && forall i | 0 <= i < |out| :: texts[i] == out[i].text
        invariant Steady(|old(history)|, |history|) ==>
                    Continues(out, first, Epoch(|history|) + next) && Epoch(|history|) + next <= |history|
        decreases |rest|
      {
        ghost var before := history;
        var lines, after, used;
        ghost var more;
        lines, after, used, more := ForEachSince(next, rest[0]);
        SteadyParts(|old(history)|, |before|, |history|);
        Chains(out, more, before, history, first, Epoch(|before|) + next, Epoch(|history|) + after);
        texts, out, next := texts + lines, out + more, after;
        rest := rest[1..];
      }
    }

    /**
     * The suffix that a snapshot starts from. The count and the sequence are read under two separate
     * locks, and for every line that arrives in between the snapshot loses one of the lines retained
     * when the count was read: it covers the last 120 of those exactly if no line arrives.
     */
    method PersistFrom(between: seq<string>) returns (from: nat, ghost start: nat)
      requires Valid()
      modifies this, lines
      ensures Valid() && history == old(history) + ClipAll(between)
      ensures from == Wrap32(start) && |history| - 120 <= start <= |history|
      ensures start == |history| - Min(120, old(count))
      ensures start >= |history| - count
      ensures var first := |old(history)| - Min(120, old(count));
              && start == first + |between|
              && (start <= first <==> between == [])
    {
      hide ClipAll, Wrap32, Sub32;
      var total := count;
      Write(between);
      from := Sub32(sequence, if total > PERSIST_LINES then PERSIST_LINES else total);
      start := |history| - Min(PERSIST_LINES, total);
      WrapBack(|history|, Min(PERSIST_LINES, total));
    }

    /** The ring slot of line number m is the one the readers compute from head and count. */
    lemma SlotOf(m: nat)
      requires Valid() && |history| - count <= m < |history|
      ensures (head + CAPACITY - count + (m - (|history| - count))) % CAPACITY == m % CAPACITY
      ensures lines[m % CAPACITY] == history[m]
    {
      RingSlot(|history|, count, m);
    }
  }

  lemma RingSlot(n: nat, count: nat, m: nat)
    requires count == Min(n, CAPACITY) && n - count <= m < n
    ensures (n % CAPACITY + CAPACITY - count + (m - (n - count))) % CAPACITY == m % CAPACITY
  {
    var q := n / CAPACITY;
    assert n == CAPACITY * q + n % CAPACITY;
    assert n % CAPACITY + CAPACITY - count + (m - (n - count)) == m + CAPACITY * (1 - q);
    AddMultiple(m, 1 - q);
  }

  lemma AddMultiple(m: int, k: int)
    ensures (m + CAPACITY * k) % CAPACITY == m % CAPACITY
  {
    var q := m / CAPACITY;
    assert m + CAPACITY * k == CAPACITY * (q + k) + m % CAPACITY;
  }

  lemma SlotsDiffer(i: nat, n: nat)
    requires i < n < i + CAPACITY
    ensures i % CAPACITY != n % CAPACITY
  {
    var p, q := i / CAPACITY, n / CAPACITY;
    assert i == CAPACITY * p + i % CAPACITY && n == CAPACITY * q + n % CAPACITY;
  }

  lemma WrapNext(n: nat)
    ensures Wrap32(Wrap32(n) + 1) == Wrap32(n + 1)
  {
    var q := n / TWO32;
    assert n == TWO32 * q + Wrap32(n);
  }

  /** Slots of the retained lines are distinct, so an append overwrites only the oldest. */
  lemma RingAdvances(n: nat)
    ensures (n % CAPACITY + 1) % CAPACITY == (n + 1) % CAPACITY
    ensures Wrap32(Wrap32(n) + 1) == Wrap32(n + 1)
    ensures forall i: nat | n + 1 - CAPACITY <= i < n :: i % CAPACITY != n % CAPACITY
  {
    WrapNext(n);
    forall i: nat | n + 1 - CAPACITY <= i < n ensures i % CAPACITY != n % CAPACITY { SlotsDiffer(i, n); }
  }

  // ------------------------------------------------------------------------------------
  // A reader's decision, in 32-bit arithmetic
  // ------------------------------------------------------------------------------------

  datatype Look = Stop(at: nat) | Emit(at: nat)

  function LookFor(sequence: nat, count: nat, from: nat): Look {
    var oldest := Sub32(sequence, count);
    var f := if from < oldest then oldest else from;
    if f >= sequence then Stop(f) else Emit(f)
  }

  /** Below 2^32 lines the reader stops exactly when it has caught up, and otherwise never looks too early. */
  lemma LookIsExact(n: nat, from: nat)
    requires n < TWO32
    ensures var count := Min(n, CAPACITY);
            LookFor(Wrap32(n), count, from) ==
              if from >= n then Stop(from) else Emit(if from < n - count then n - count else from)
    ensures Sub32(Wrap32(n), Min(n, CAPACITY)) == n - Min(n, CAPACITY)
  {
  }

  /** And for any number of lines ever written: what it finds, or where it stops. */
  lemma LookMeans(n: nat, from: nat)
    requires from < TWO32
    ensures var count, wrapped, look := Min(n, CAPACITY), Wrap32(n), LookFor(Wrap32(n), Min(n, CAPACITY), from);
            && from <= look.at < TWO32
            && (look.Emit? ==>
                  && Sub32(wrapped, count) == wrapped - count && wrapped - count <= look.at < wrapped
                  && (look.at > from ==> Epoch(n) + look.at + CAPACITY == n))
            && (look.Stop? && wrapped >= count ==> look.at == from >= wrapped)
            && (look.Stop? && wrapped < count ==> wrapped < TWO32 - count <= look.at)
  {
    WrapBack(n, Min(n, CAPACITY));
  }

  lemma EpochGrows(n: nat, m: nat)
    requires n <= m
    ensures Epoch(n) <= Epoch(m)
    ensures Epoch(n) == Epoch(m) ==> Wrap32(n) <= Wrap32(m)
  {
  }

  /** Within one epoch, a ring that the sequence number has left behind stays so. */
  lemma SteadyParts(n: nat, k: nat, m: nat)
    requires n <= k <= m
    ensures Steady(n, m) ==> Steady(n, k) && Epoch(k) == Epoch(m) && Wrap32(m) >= Min(m, CAPACITY)
    ensures Epoch(n) <= Epoch(k) <= Epoch(m)
  {
    EpochGrows(n, k);
    EpochGrows(k, m);
  }

  /**
   * For any number of lines ever written, a reader with retained lines to read gets the next one
   * exactly when the sequence number has not wrapped within the lines the ring holds.
   */
  lemma ReadersGoOnExactlyOffTheWrap(n: nat, from: nat)
    requires n - Min(n, CAPACITY) <= from < n
    ensures LookFor(Wrap32(n), Min(n, CAPACITY), Wrap32(from)) == Emit(Wrap32(from)) <==> Wrap32(n) >= Min(n, CAPACITY)
  {
    var s, count := Wrap32(n), Min(n, CAPACITY);
    WrapBack(n, n - from);
    WrapBack(n, count);
  }

  lemma WrapBack(n: nat, d: nat)
    requires d <= n && d <= CAPACITY
    ensures Wrap32(n - d) == if Wrap32(n) >= d then Wrap32(n) - d else Wrap32(n) - d + TWO32
    ensures Sub32(Wrap32(n), d) == Wrap32(n - d)
  {
    var q, s := n / TWO32, Wrap32(n);
    assert n == TWO32 * q + s;
    if s >= d { assert n - d == TWO32 * q + (s - d); } else { assert n - d == TWO32 * (q - 1) + (s - d + TWO32); }
  }

  /**
   * From the 2^32nd line on a reader that is behind finds nothing to read, call after call, until the
   * wrapped sequence number overtakes it.
   */
  lemma FollowerStallsAtTheWrap(n: nat, from: nat)
    requires TWO32 - CAPACITY <= from < TWO32 && TWO32 <= n <= TWO32 + from
    ensures var look := LookFor(Wrap32(n), CAPACITY, from); look.Stop? && from <= look.at < TWO32
  {
    assert Wrap32(n) == n - TWO32;
  }

  // ------------------------------------------------------------------------------------
  // Facts about what has been emitted
  // ------------------------------------------------------------------------------------

  /** Emitted so far, in order and all below `next`. */
  ghost predicate Reported(out: seq<Emitted>, history: seq<string>, from: nat, next: nat) {
    Increasing(out) && Genuine(out, history, from) && forall e | e in out :: e.number < next
  }

  /** A sequence-driven reader that has lost nothing but to the ring, and wants line `next`. */
  ghost predicate Continues(out: seq<Emitted>, from: nat, next: nat) {
    JumpsOnlyOverEvicted(out, from) && next == NextAfter(out, from)
  }

  /** The state of such a reader, started at `from` after n lines, that will look at `next` next. */
  ghost predicate Reads(out: seq<Emitted>, n: nat, history: seq<string>, from: nat, next: nat) {
    && n <= |history| && from <= next
    && Reported(out, history, Epoch(n) + from, Epoch(|history|) + next) && WrittenSince(out, n)
    && Epoch(n) <= Epoch(|history|)
    && (Epoch(|history|) == Epoch(n) ==>
          Continues(out, Epoch(n) + from, Epoch(n) + next) && (next > from ==> next <= Wrap32(|history|)))
  }

  ghost predicate Consecutive(out: seq<Emitted>, first: int) {
    forall i | 0 <= i < |out| :: out[i].number == first + i
  }

  lemma StartsEmpty(history: seq<string>, schedule: seq<seq<string>>, from: nat)
    ensures Reported([], history, from, from) && Continues([], from, from) && Consecutive([], from)
    ensures WrittenSince([], |history|)
    ensures history == history + ClipAll(Flatten(schedule[..0]))
  {
    assert Flatten(schedule[..0]) == [];
  }

  lemma TakesOne(schedule: seq<seq<string>>, used: nat)
    requires used < |schedule|
    ensures |Flatten(schedule[used..])| == |schedule[used]| + |Flatten(schedule[used + 1..])|
    ensures ClipAll(Flatten(schedule[..used + 1])) == ClipAll(Flatten(schedule[..used])) + ClipAll(schedule[used])
    ensures |ClipAll(schedule[used])| == |schedule[used]|
  {
    assert schedule[..used + 1] == schedule[..used] + [schedule[used]];
    FlattenAppend(schedule[..used], schedule[used]);
    assert schedule[used..][1..] == schedule[used + 1..];
  }

  /** More history changes nothing about lines already emitted. */
  lemma StillReported(out: seq<Emitted>, before: seq<string>, after: seq<string>, from: nat, next: nat, next': nat)
    requires before <= after && Reported(out, before, from, next) && next <= next'
    ensures Reported(out, after, from, next')
  {
  }

  lemma EmitsByPosition(out: seq<Emitted>, history: seq<string>, from: nat, at: nat)
    requires from <= at < |history| && Reported(out, history, from, at)
    ensures Reported(out + [Emitted(at, history[at], |history|)], history, from, at + 1)
    ensures Consecutive(out, from) && at == from + |out| ==> Consecutive(out + [Emitted(at, history[at], |history|)], from)
  {
    assert forall i | 0 <= i < |out| :: out[i] in out;
  }

  lemma StartsReading(history: seq<string>, schedule: seq<seq<string>>, from: nat)
    ensures Reads([], |history|, history, from, from)
    ensures history == history + ClipAll(Flatten(schedule[..0]))
  {
    StartsEmpty(history, schedule, Epoch(|history|) + from);
    hide Reported, Continues, WrittenSince, Epoch;
  }

  lemma ReadsOn(out: seq<Emitted>, n: nat, before: seq<string>, history: seq<string>, from: nat, next: nat)
    requires before <= history && Reads(out, n, before, from, next)
    ensures Reads(out, n, history, from, next)
  {
    EpochGrows(|before|, |history|);
    StillReported(out, before, history, Epoch(n) + from, Epoch(|before|) + next, Epoch(|history|) + next);
    hide Reported, Continues, WrittenSince, Epoch, Wrap32;
  }

  /** Emitting the next line, or the oldest retained one if that has been overwritten. */
  lemma EmitsNext(out: seq<Emitted>, n: nat, history: seq<string>, from: nat, next: nat, at: nat, e: Emitted)
    requires Reads(out, n, history, from, next) && next <= at < Wrap32(|history|)
    requires e == Emitted(Epoch(|history|) + at, history[Epoch(|history|) + at], |history|)
    requires at > next ==> Epoch(|history|) + at + CAPACITY == |history|
    ensures Reads(out + [e], n, history, from, at + 1)
  {
    assert (out + [e])[..|out + [e]| - 1] == out;
    StillReported(out, history, history, Epoch(n) + from, Epoch(|history|) + next, e.number);
    EmitsByPosition(out, history, Epoch(n) + from, e.number);
    hide Reported, Epoch, Wrap32;
  }

  lemma StopsReading(out: seq<Emitted>, n: nat, history: seq<string>, from: nat, next: nat, at: nat)
    requires Reads(out, n, history, from, next) && next <= at
    requires Wrap32(|history|) >= Min(|history|, CAPACITY) ==> at == next >= Wrap32(|history|)
    ensures WrittenSince(out, n) && Reported(out, history, Epoch(n) + from, Epoch(|history|) + at)
    ensures var first := Epoch(n) + from;
            Epoch(n) == Epoch(|history|) ==>
              && JumpsOnlyOverEvicted(out, first)
              && (Wrap32(|history|) >= Min(|history|, CAPACITY) ==>
                    Epoch(|history|) + at == NextAfter(out, first) == if first >= |history| then first else |history|)
  {
    StillReported(out, history, history, Epoch(n) + from, Epoch(|history|) + next, Epoch(|history|) + at);
    hide Reported, WrittenSince, Epoch, Wrap32, JumpsOnlyOverEvicted;
  }

  /** Two calls in a row report like one. */
  lemma Chains(out: seq<Emitted>, more: seq<Emitted>, before: seq<string>, history: seq<string>,
               start: nat, middle: nat, next: nat)
    requires before <= history && start <= middle <= next && WrittenSince(more, |before|)
    requires Reported(out, before, start, middle) && Reported(more, history, middle, next)
    ensures Reported(out + more, history, start, next)
    ensures Continues(out, start, middle) && Continues(more, middle, next) ==> Continues(out + more, start, next)
  {
    ChainsOrder(out, more, before, history, start, middle);
    assert more == [] ==> out + more == out;
    if Continues(out, start, middle) && Continues(more, middle, next) {
      ChainsJumps(out, more, start, middle);
      assert more != [] ==> (out + more)[|out + more| - 1] == more[|more| - 1];
    }
    hide Increasing, Genuine, JumpsOnlyOverEvicted;
  }

  lemma ChainsOrder(out: seq<Emitted>, more: seq<Emitted>, before: seq<string>, history: seq<string>, start: nat, middle: nat)
    requires before <= history && Increasing(out) && Genuine(out, before, start) && forall e | e in out :: e.number < middle
    requires WrittenSince(more, |before|) && start <= middle && Increasing(more) && Genuine(more, history, middle)
    ensures Increasing(out + more) && Genuine(out + more, history, start)
  {
    forall i | 0 <= i < |out| ensures out[i] in out {}
    forall i | 0 <= i < |more| ensures more[i] in more {}
  }

  lemma {:induction false} ChainsJumps(out: seq<Emitted>, more: seq<Emitted>, start: nat, middle: nat)
    requires middle == NextAfter(out, start) && JumpsOnlyOverEvicted(out, start) && JumpsOnlyOverEvicted(more, middle)
    ensures JumpsOnlyOverEvicted(out + more, start)
    decreases |more|
  {
    if more == [] {
      assert out + more == out;
    } else {
      assert (out + more)[..|out + more| - 1] == out + more[..|more| - 1];
      ChainsJumps(out, more[..|more| - 1], start, middle);
    }
  }
}
