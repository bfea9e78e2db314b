/** The packed 64-bit word of one deadline:
    | timestamp: 32 bits | reserved: 28 bits | finished too early | reserved | stopped | running |.
    Words are naturals below 2^64; masks and shifts are written as remainders and quotients
    by powers of two (running = 2, stopped = 1, finished too early = 8). */
module DeadlineState {

  type U32 = n: nat | n < 0x1_0000_0000
  type Word = w: nat | w < 0x1_0000_0000_0000_0000

  /** A new word, and the word of a deadline that was stopped in time. */
  const DEFAULT: Word := 1

  predicate IsRunning(w: Word) {
    w / 2 % 2 == 1
  }

  predicate IsStopped(w: Word) {
    w % 2 == 1
  }

  predicate IsUnderrun(w: Word) {
    w / 8 % 2 == 1
  }

  function TimestampMs(w: Word): U32 {
    w / 0x1_0000_0000
  }

  function SetTimestampMs(w: Word, timestamp: U32): Word {
    timestamp * 0x1_0000_0000 + w % 16
  }

  function SetRunning(w: Word): Word {
    if IsRunning(w) then w else w + 2
  }

  function SetUnderrun(w: Word): Word {
    if IsUnderrun(w) then w else w + 8
  }

  /** The word of a deadline running until `timestamp`. */
  function Running(timestamp: U32): Word {
    timestamp * 0x1_0000_0000 + 3
  }

  /** The word of a deadline that was to run until `timestamp` and was stopped too early. */
  function Underrun(timestamp: U32): Word {
    timestamp * 0x1_0000_0000 + 11
  }

  lemma DefaultReadsBack()
    ensures !IsRunning(DEFAULT) && !IsUnderrun(DEFAULT) && IsStopped(DEFAULT) && TimestampMs(DEFAULT) == 0
  {
  }

  /** The low four bits of a word, read off its remainder modulo 16. */
  lemma LowFourBits(high: nat, low: nat)
    requires low == 3 || low == 11
    ensures var w := 16 * high + low;
            w / 2 % 2 == 1 && w % 2 == 1 && w % 16 == low && (w / 8 % 2 == 1 <==> low == 11)
  {
    if low == 3 {
      assert (16 * high + 3) / 2 == 8 * high + 1 && (16 * high + 3) / 8 == 2 * high;
    } else {
      assert (16 * high + 11) / 2 == 8 * high + 5 && (16 * high + 11) / 8 == 2 * high + 1;
    }
  }

  lemma RunningReadsBack(t: U32)
    ensures IsRunning(Running(t)) && !IsUnderrun(Running(t)) && IsStopped(Running(t)) && TimestampMs(Running(t)) == t
    ensures SetRunning(SetTimestampMs(DEFAULT, t)) == Running(t)
    ensures SetUnderrun(Running(t)) == Underrun(t)
    ensures Running(t) % 16 == 3
  {
    LowFourBits(t * 0x1000_0000, 3);
    SetRunningOnFresh(t * 0x1000_0000);
  }

  lemma SetRunningOnFresh(high: nat)
    ensures (16 * high + 1) / 2 % 2 == 0
  {
    var half := 4 * high;
    assert 16 * high + 1 == 4 * half + 1 && (4 * half + 1) / 2 == 2 * half;
  }

  lemma UnderrunReadsBack(t: U32)
    ensures IsRunning(Underrun(t)) && IsUnderrun(Underrun(t)) && IsStopped(Underrun(t)) && TimestampMs(Underrun(t)) == t
    ensures Underrun(t) % 16 == 11
  {
    LowFourBits(t * 0x1000_0000, 11);
  }
}
