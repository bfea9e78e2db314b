/** The buffer behind the asynchronous-signal-safe log: appends into a fixed array, and a flush that resumes
    after partial and interrupted writes. */
module SignalSafeLog {
  // ---- Decimal text of integers ---------------------------------------------------------------------

  function Digit(d: nat): char
    requires d < 10
  {
    '0' + d as char
  }

  function NatText(n: nat): (text: string)
    ensures text != []
  {
    if n < 10 then [Digit(n)] else NatText(n / 10) + [Digit(n % 10)]
  }

  /** What `std::to_chars` writes for an integer. */
  function IntText(n: int): (text: string)
    ensures text != []
  {
    if n < 0 then "-" + NatText(-n) else NatText(n)
  }

  /** The number a text of digits stands for. */
  function NatValue(text: string): nat {
    if text == [] then 0
    else
      10 * NatValue(text[..|text| - 1])
      + if '0' <= text[|text| - 1] <= '9' then (text[|text| - 1] - '0') as nat else 0
  }

  function IntValue(text: string): int {
    if text != [] && text[0] == '-' then 0 - NatValue(text[1..]) else NatValue(text)
  }

  lemma {:induction false} NatTextReadsBack(n: nat)
    ensures NatValue(NatText(n)) == n && NatText(n)[0] != '-'
  {
    if n < 10 {
      assert NatText(n)[..0] == [];
    } else {
      NatTextReadsBack(n / 10);
      assert NatText(n)[..|NatText(n)| - 1] == NatText(n / 10);
    }
  }

  /** The text of an integer denotes it. */
  lemma IntTextReadsBack(n: int)
    ensures IntValue(IntText(n)) == n
  {
    NatTextReadsBack(if n < 0 then -n else n);
    if n < 0 {
      assert IntText(n)[1..] == NatText(-n);
    }
  }

  // ---- The buffer as a value --------------------------------------------------------------------------

  /** Bytes before `start` are written, `pending` waits, the rest of the capacity is free. */
  datatype Buffer = Buffer(capacity: nat, start: nat, pending: string) {
    predicate Valid() { start + |pending| <= capacity }

    function Room(): nat
      requires Valid()
    {
      capacity - start - |pending|
    }
  }

  datatype Value = Str(text: string) | Int(number: int)

  function Text(v: Value): string {
    match v
    case Str(text) => text
    case Int(number) => IntText(number)
  }

  /** The bytes of a value that go into `room` bytes: a string is cut, an integer is taken whole or not
      at all. */
  function Taken(v: Value, room: nat): (bytes: string)
    ensures |bytes| <= room && bytes <= Text(v)
  {
    if |Text(v)| <= room then Text(v) else if v.Str? then v.text[..room] else []
  }

  function Append(b: Buffer, v: Value): (r: Buffer)
    requires b.Valid()
    ensures r.Valid()
  {
    b.(pending := b.pending + Taken(v, b.Room()))
  }

  // ---- Flushing as a value -----------------------------------------------------------------------------

  /** The answer of one `write` call; it never writes more than it was given. */
  datatype Outcome = Wrote(count: nat) | Interrupted | Failed

  /** `Busy`: the answers ran out while the loop still waits for the next one. */
  datatype FlushResult = Flushed | Refused | Busy

  function Min(a: nat, b: nat): nat {
    if a <= b then a else b
  }

  /** The bytes the answers let through before the first failure. */
  function Progress(outcomes: seq<Outcome>): nat {
    if outcomes == [] || outcomes[0].Failed? then 0
    else (if outcomes[0].Wrote? then outcomes[0].count else 0) + Progress(outcomes[1..])
  }

  predicate Fails(outcomes: seq<Outcome>) {
    outcomes != [] && (outcomes[0].Failed? || Fails(outcomes[1..]))
  }

  /** What a flush does: the answers let a prefix of the pending bytes through. If that is all of them the
      buffer is rewound, otherwise the rest stays where it is. */
  function AfterFlush(b: Buffer, outcomes: seq<Outcome>): Buffer
    requires b.Valid()
  {
    var count := Progress(outcomes);
    if |b.pending| <= count then Buffer(b.capacity, 0, [])
    else Buffer(b.capacity, b.start + count, b.pending[count..])
  }

  function FlushWrites(b: Buffer, outcomes: seq<Outcome>): string {
    b.pending[..Min(Progress(outcomes), |b.pending|)]
  }

  function FlushVerdict(b: Buffer, outcomes: seq<Outcome>): FlushResult {
    if |b.pending| <= Progress(outcomes) then Flushed else if Fails(outcomes) then Refused else Busy
  }

  /** Flushing goes on from `c` as it would have gone on from `b`. */
  ghost predicate Continues(b: Buffer, outcomes: seq<Outcome>, received: string,
                            c: Buffer, rest: seq<Outcome>, now: string)
    requires b.Valid() && c.Valid()
  {
    && AfterFlush(b, outcomes) == AfterFlush(c, rest)
    && FlushVerdict(b, outcomes) == FlushVerdict(c, rest)
    && received + FlushWrites(b, outcomes) == now + FlushWrites(c, rest)
  }

  /** One answer of `write`, seen from the whole flush. */
  lemma FlushStep(b: Buffer, outcomes: seq<Outcome>, received: string)
    requires b.Valid() && b.pending != [] && outcomes != []
    ensures match outcomes[0]
            case Wrote(count) =>
              var k := Min(count, |b.pending|);
              Continues(b, outcomes, received,
                        Buffer(b.capacity, b.start + k, b.pending[k..]), outcomes[1..], received + b.pending[..k])
            case Interrupted => Continues(b, outcomes, received, b, outcomes[1..], received)
            case Failed =>
              AfterFlush(b, outcomes) == b && FlushVerdict(b, outcomes) == Refused && FlushWrites(b, outcomes) == []
  {
    if outcomes[0].Wrote? {
      var k := Min(outcomes[0].count, |b.pending|);
      var c := Buffer(b.capacity, b.start + k, b.pending[k..]);
      assert FlushWrites(b, outcomes) == b.pending[..k] + FlushWrites(c, outcomes[1..]);
    }
  }

  // ---- The class ------------------------------------------------------------------------------------------

  /** Standard error: the bytes it has received, and the answers it will give. */
  class StandardError {
    var received: string
    var outcomes: seq<Outcome>

    /** The `write` call. */
    method Write(data: string) returns (r: Outcome)
      requires outcomes != []
      modifies this
      ensures outcomes == old(outcomes)[1..]
      ensures r == if old(outcomes)[0].Wrote? then Wrote(Min(old(outcomes)[0].count, |data|)) else old(outcomes)[0]
      ensures received == old(received) + if r.Wrote? then data[..r.count] else []
    {
      r := outcomes[0];
      outcomes := outcomes[1..];
      if r.Wrote? {
        r := Wrote(Min(r.count, |data|));
        received := received + data[..r.count];
      }
    }
  }

  class SignalSafeBuffer {
    const buffer: array<char>
    var start: nat
    var end: nat

    ghost predicate Valid()
      reads this
    {
      start <= end <= buffer.Length
    }

    ghost function View(): (b: Buffer)
      requires Valid()
      reads this, buffer
      ensures b.Valid() && b.Room() == buffer.Length - end
    {
      Buffer(buffer.Length, start, buffer[start..end])
    }

    constructor (capacity: nat)
      ensures Valid() && fresh(buffer) && View() == Buffer(capacity, 0, [])
    {
      buffer := new char[capacity](_ => '\0');
      start, end := 0, 0;
    }

    method AppendString(s: string)
      requires Valid()
      modifies this`end, buffer
      ensures Valid() && View() == Append(old(View()), Str(s))
    {
      var length := Min(|s|, buffer.Length - end);
      var index := 0;
      while index < length
        invariant 0 <= index <= length && end == old(end) + index
        invariant buffer[start..end] == old(buffer[start..end]) + s[..index]
      {
        buffer[end] := s[index];
        end := end + 1;
        index := index + 1;
      }
    }

    /** `scribble` is what a failing conversion leaves in the free part of the array. */
    method AppendInt(n: int, scribble: string)
      requires Valid()
      modifies this`end, buffer
      ensures Valid() && View() == Append(old(View()), Int(n))
    {
      if end >= buffer.Length {
        return;
      }
      var text := IntText(n);
      if |text| <= buffer.Length - end {
        Place(text);
        assert buffer[start..end + |text|] == buffer[start..end] + buffer[end..end + |text|];
        end := end + |text|;
      } else {
        Place(scribble[..Min(|scribble|, buffer.Length - end)]);
      }
    }

    /** Writes into the free part of the array, which nobody reads yet. */
    method Place(text: string)
      requires Valid() && end + |text| <= buffer.Length
      modifies buffer
      ensures buffer[start..end] == old(buffer[start..end]) && buffer[end..end + |text|] == text
    {
      var i := 0;
      while i < |text|
        invariant 0 <= i <= |text|
        invariant buffer[start..end] == old(buffer[start..end]) && buffer[end..end + i] == text[..i]
      {
        buffer[end + i] := text[i];
        i := i + 1;
      }
      assert text[..i] == text;
    }

    method Flush(stderr: StandardError) returns (r: FlushResult)
      requires Valid()
      modifies this`start, this`end, stderr
      ensures Valid() && View() == AfterFlush(old(View()), old(stderr.outcomes))
      ensures r == FlushVerdict(old(View()), old(stderr.outcomes))
      ensures stderr.received == old(stderr.received) + FlushWrites(old(View()), old(stderr.outcomes))
    {
      while start < end
        invariant Valid() && end == old(end) && old(start) <= start
        invariant Continues(old(View()), old(stderr.outcomes), old(stderr.received), View(), stderr.outcomes,
                            stderr.received)
        decreases |stderr.outcomes|
      {
        if stderr.outcomes == [] {
          return Busy;
        }
        var written := WriteOnce(stderr);
        if written.Failed? {
          return Refused;
        }
      }
      start, end := 0, 0;
      return Flushed;
    }

    /** One round of the flush loop. */
    method WriteOnce(stderr: StandardError) returns (written: Outcome)
      requires Valid() && start < end && stderr.outcomes != []
      modifies this`start, stderr
      ensures Valid() && old(start) <= start && stderr.outcomes == old(stderr.outcomes)[1..]
      ensures !written.Failed? ==>
                Continues(old(View()), old(stderr.outcomes), old(stderr.received), View(), stderr.outcomes,
                          stderr.received)
      ensures written.Failed? ==>
                && start == old(start) && stderr.received == old(stderr.received)
                && AfterFlush(View(), old(stderr.outcomes)) == View()
                && FlushVerdict(View(), old(stderr.outcomes)) == Refused
                && FlushWrites(View(), old(stderr.outcomes)) == []
    {
      ghost var view := View();
      FlushStep(view, stderr.outcomes, stderr.received);
      written := stderr.Write(buffer[start..end]);
      if written.Wrote? {
        start := start + written.count;
        assert View().pending == view.pending[written.count..];
      }
    }
  }


  // ---- Any use of a buffer ---------------------------------------------------------------------------------

  datatype Call = Put(value: Value) | TryFlush(outcomes: seq<Outcome>)

  /** A buffer with the bytes standard error got from it and the bytes its appends took. */
  datatype Trace = Trace(buffer: Buffer, received: string, accepted: string)

  function Next(t: Trace, call: Call): (r: Trace)
    requires t.buffer.Valid()
    ensures r.buffer.Valid()
  {
    match call
    case Put(v) => Trace(Append(t.buffer, v), t.received, t.accepted + Taken(v, t.buffer.Room()))
    case TryFlush(outcomes) =>
      Trace(AfterFlush(t.buffer, outcomes), t.received + FlushWrites(t.buffer, outcomes), t.accepted)
  }

  function Exec(capacity: nat, calls: seq<Call>): (t: Trace)
    ensures t.buffer.Valid()
  {
    if calls == [] then Trace(Buffer(capacity, 0, []), [], [])
    else Next(Exec(capacity, calls[..|calls| - 1]), calls[|calls| - 1])
  }

  /** No byte is lost, doubled or reordered: over any sequence of appends and flushes, with any partial,
      interrupted or failed writes, the bytes written followed by the pending ones are the accepted ones,
      and the indices stay within the array. */
  lemma {:induction false} BytesAreConserved(capacity: nat, calls: seq<Call>)
    ensures var t := Exec(capacity, calls);
            && t.received + t.buffer.pending == t.accepted
            && t.buffer.start + |t.buffer.pending| <= t.buffer.capacity == capacity
  {
    if calls != [] {
      BytesAreConserved(capacity, calls[..|calls| - 1]);
      CallConserves(Exec(capacity, calls[..|calls| - 1]), calls[|calls| - 1]);
    }
  }

  lemma CallConserves(t: Trace, call: Call)
    requires t.buffer.Valid() && t.received + t.buffer.pending == t.accepted
    ensures Next(t, call).received + Next(t, call).buffer.pending == Next(t, call).accepted
    ensures Next(t, call).buffer.capacity == t.buffer.capacity
  {
    match call
    case Put(v) => Associates(t.received, t.buffer.pending, Taken(v, t.buffer.Room()));
    case TryFlush(outcomes) =>
      FlushSplits(t.buffer, outcomes);
      Associates(t.received, FlushWrites(t.buffer, outcomes), AfterFlush(t.buffer, outcomes).pending);
  }

  lemma Associates(a: string, b: string, c: string)
    ensures (a + b) + c == a + (b + c)
  {
  }

  lemma FlushSplits(b: Buffer, outcomes: seq<Outcome>)
    requires b.Valid()
    ensures FlushWrites(b, outcomes) + AfterFlush(b, outcomes).pending == b.pending
  {
    if |b.pending| <= Progress(outcomes) {
      assert b.pending[..|b.pending|] + [] == b.pending;
    }
  }

  /** A flush that was refused can be taken up again: two flushes write what the answers of both let through,
      as if the failure had not happened. */
  lemma FlushResumes(b: Buffer, first: seq<Outcome>, second: seq<Outcome>)
    requires b.Valid() && !FlushVerdict(b, first).Flushed?
    ensures FlushWrites(b, first) + FlushWrites(AfterFlush(b, first), second)
         == b.pending[..Min(Progress(first) + Progress(second), |b.pending|)]
    ensures FlushVerdict(AfterFlush(b, first), second).Flushed? <==> Progress(first) + Progress(second) >= |b.pending|
  {
    SlicesJoin(b.pending, Progress(first), Progress(second));
  }

  lemma SlicesJoin(s: string, i: nat, j: nat)
    requires i <= |s|
    ensures s[..Min(i, |s|)] + s[i..][..Min(j, |s[i..]|)] == s[..Min(i + j, |s|)]
  {
  }

  // ---- One log message -----------------------------------------------------------------------------------------

  function AppendAll(b: Buffer, values: seq<Value>): (r: Buffer)
    requires b.Valid()
    ensures r.Valid() && r.capacity == b.capacity && r.start == b.start && b.pending <= r.pending
  {
    if values == [] then b else Append(AppendAll(b, values[..|values| - 1]), values[|values| - 1])
  }

  function FullText(values: seq<Value>): string {
    if values == [] then [] else FullText(values[..|values| - 1]) + Text(values[|values| - 1])
  }

  /** A fresh buffer holds the whole message exactly when it fits; what does not fit is left out. */
  lemma {:induction false} CompleteIffFits(capacity: nat, values: seq<Value>)
    ensures var b := AppendAll(Buffer(capacity, 0, []), values);
            && (b.pending == FullText(values) <==> |FullText(values)| <= capacity)
            && |b.pending| <= |FullText(values)|
  {
    if values != [] {
      CompleteIffFits(capacity, values[..|values| - 1]);
    }
  }

  /** A message of strings only is cut once, at the end of the buffer. */
  lemma {:induction false} StringsAreCutAtCapacity(capacity: nat, values: seq<Value>)
    requires forall i :: 0 <= i < |values| ==> values[i].Str?
    ensures AppendAll(Buffer(capacity, 0, []), values).pending == FullText(values)[..Min(capacity, |FullText(values)|)]
  {
    if values != [] {
      StringsAreCutAtCapacity(capacity, values[..|values| - 1]);
    }
  }

  /** An integer that does not fit vanishes from the middle of a message. */
  lemma IntegerVanishesExample()
    ensures AppendAll(Buffer(3, 0, []), [Str("x"), Int(100), Str("yz")]).pending == "xyz"
  {
    var b := Buffer(3, 0, []);
    var values := [Str("x"), Int(100), Str("yz")];
    assert values[..2] == [Str("x"), Int(100)] && values[..2][..1] == [Str("x")] && values[..2][..1][..0] == [];
    assert AppendAll(b, values[..2][..1][..0]) == b;
    assert AppendAll(b, values[..2][..1]).pending == "x";
    assert |IntText(100)| == 3;
    assert AppendAll(b, values[..2]).pending == "x";
  }

  const LOG_CAPACITY := 1024

  /** The bytes of a message that its buffer takes. */
  function Kept(values: seq<Value>): string {
    AppendAll(Buffer(LOG_CAPACITY, 0, []), values + [Str("\n")]).pending
  }

  /** The appends of `signal_safe_log`. */
  method Compose(values: seq<Value>, scribble: string) returns (buffer: SignalSafeBuffer)
    ensures fresh(buffer) && buffer.Valid() && buffer.View() == Buffer(LOG_CAPACITY, 0, Kept(values))
  {
    buffer := new SignalSafeBuffer(LOG_CAPACITY);
    for i := 0 to |values|
      invariant buffer.Valid() && fresh(buffer) && fresh(buffer.buffer)
      invariant buffer.View() == AppendAll(Buffer(LOG_CAPACITY, 0, []), values[..i])
    {
      assert values[..i + 1][..i] == values[..i];
      match values[i]
      case Str(text) => buffer.AppendString(text);
      case Int(number) => buffer.AppendInt(number, scribble);
    }
    assert values[..|values|] == values == (values + [Str("\n")])[..|values|];
    buffer.AppendString("\n");
  }

  /** `signal_safe_log`: when it answers that the message was written, the whole message was written if and
      only if it fits the buffer of 1024 bytes together with its newline. Otherwise a prefix of what the
      buffer took was written. */
  method Log(values: seq<Value>, scribble: string, stderr: StandardError) returns (r: FlushResult)
    modifies stderr
    ensures r.Flushed? <==> Progress(old(stderr.outcomes)) >= |Kept(values)|
    ensures stderr.received ==
            old(stderr.received) + Kept(values)[..Min(Progress(old(stderr.outcomes)), |Kept(values)|)]
    ensures var message := FullText(values + [Str("\n")]);
            r.Flushed? ==> (stderr.received == old(stderr.received) + message <==> |message| <= LOG_CAPACITY)
  {
    var buffer := Compose(values, scribble);
    r := buffer.Flush(stderr);
    CompleteIffFits(LOG_CAPACITY, values + [Str("\n")]);
    if r.Flushed? {
      assert Kept(values)[..|Kept(values)|] == Kept(values);
      SameSuffix(old(stderr.received), Kept(values), FullText(values + [Str("\n")]));
    }
  }

  lemma SameSuffix(a: string, b: string, c: string)
    ensures a + b == a + c <==> b == c
  {
    assert (a + b)[|a|..] == b && (a + c)[|a|..] == c;
  }
}
