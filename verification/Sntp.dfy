/** One SNTP client transaction: 64-bit timestamps there and back, and the clock offset
    computed from them (sections 3 and 5 of RFC 4330). */
module Sntp {

  import opened Wrappers

  const SECOND: int := 1_000_000_000
  const TWO32: int := 0x1_0000_0000
  const MAX_INT64: int := 0x7fff_ffff_ffff_ffff

  /** Seconds from 1900 to 1970. */
  const NTP_EPOCH_OFFSET: int := 2208988800

  /** An instant, in nanoseconds since 1970. */
  type Instant = int

  function Unix(t: Instant): int { t / SECOND }

  function Nanosecond(t: Instant): int { t % SECOND }

  /** 32 bits of seconds since 1900, the rest shifted out, and 32 bits of fraction. */
  function TimeToNTP(t: Instant): (v: int)
    ensures 0 <= v < TWO32 * TWO32
    ensures (v / TWO32 - NTP_EPOCH_OFFSET - Unix(t)) % TWO32 == 0
    ensures 0 <= Nanosecond(t) * TWO32 - v % TWO32 * SECOND < SECOND
  {
    var sec := (Unix(t) + NTP_EPOCH_OFFSET) % TWO32;
    var frac := Nanosecond(t) * TWO32 / SECOND;
    sec * TWO32 + frac
  }

  /** Nothing for the all-zero timestamp, which means there is none. */
  function NTPToTime(v: int): Option<Instant>
    requires 0 <= v < TWO32 * TWO32
  {
    if v == 0 then None
    else
      var sec := v / TWO32 - NTP_EPOCH_OFFSET;
      var nsec := v % TWO32 * SECOND / TWO32;
      Some(sec * SECOND + nsec)
  }

  /** Every product the two conversions form fits the integer it is formed in. */
  lemma ProductsFit(t: Instant, v: int)
    requires 0 <= v < TWO32 * TWO32
    ensures 0 <= Nanosecond(t) * TWO32 <= MAX_INT64
    ensures 0 <= v % TWO32 * SECOND <= MAX_INT64
  {
  }

  /** What the fraction loses: nothing when the nanoseconds are a multiple of 5 to the 9th,
      one nanosecond otherwise. */
  function Loss(t: Instant): int {
    if Nanosecond(t) % 1953125 == 0 then 0 else 1
  }

  lemma FifthPowersCarry(q: int)
    ensures q * 1953125 * TWO32 % SECOND == 0
  {
    assert q * 1953125 * TWO32 == q * 8388608 * SECOND;
  }

  /** The odd part of the divisor has nothing in common with a power of two. */
  lemma PowersOfTwoCancel(n: int, k: int)
    requires n * TWO32 == k * SECOND
    ensures n % 1953125 == 0
  {
    assert n * 8388608 == k * 1953125;
    assert 8388608 * 1241897 == 1 + 1953125 * 5333907;
    assert n == (k * 1241897 - n * 5333907) * 1953125;
  }

  /** 10 to the 9th divides n times 2 to the 32nd exactly when 5 to the 9th divides n. */
  lemma DividesIff(n: int)
    ensures n * TWO32 % SECOND == 0 <==> n % 1953125 == 0
  {
    if n % 1953125 == 0 {
      assert n == n / 1953125 * 1953125;
      FifthPowersCarry(n / 1953125);
    } else if n * TWO32 % SECOND == 0 {
      PowersOfTwoCancel(n, n * TWO32 / SECOND);
    }
  }

  lemma FractionBack(n: int)
    requires 0 <= n < SECOND
    ensures var frac := n * TWO32 / SECOND;
      0 <= frac < TWO32 && frac * SECOND / TWO32 == n - if n % 1953125 == 0 then 0 else 1
  {
    var frac, r := n * TWO32 / SECOND, n * TWO32 % SECOND;
    assert n * TWO32 == frac * SECOND + r;
    DividesIff(n);
  }

  /** The seconds a 32-bit timestamp can tell apart. */
  predicate InEra(t: Instant) {
    -NTP_EPOCH_OFFSET <= Unix(t) < TWO32 - NTP_EPOCH_OFFSET
  }

  /** The start of an era is the one instant whose timestamp is all zero. */
  predicate EraStart(t: Instant) {
    t % SECOND == 0 && (Unix(t) + NTP_EPOCH_OFFSET) % TWO32 == 0
  }

  /** There and back, for every instant: whole eras are lost, at most a nanosecond is, and
      nothing is ever gained; the start of an era is lost altogether. */
  lemma ThereAndBack(t: Instant)
    ensures NTPToTime(TimeToNTP(t)) ==
      if EraStart(t) then None
      else Some(t - Loss(t) - (Unix(t) + NTP_EPOCH_OFFSET) / TWO32 * TWO32 * SECOND)
  {
    var n := Nanosecond(t);
    FractionBack(n);
    var sec, frac := (Unix(t) + NTP_EPOCH_OFFSET) % TWO32, n * TWO32 / SECOND;
    var v := TimeToNTP(t);
    assert v / TWO32 == sec && v % TWO32 == frac;
    assert n >= 1 ==> frac >= 4;
    assert t == Unix(t) * SECOND + n;
  }

  /** The round trip is good to a nanosecond, and never late, if and only if the instant is
      in the first era and not its very start. */
  lemma RoundTripIff(t: Instant)
    ensures InEra(t) && !EraStart(t) <==>
      NTPToTime(TimeToNTP(t)).Some? && t - 1 <= NTPToTime(TimeToNTP(t)).value <= t
    ensures InEra(t) && !EraStart(t) ==> (NTPToTime(TimeToNTP(t)) == Some(t) <==> Nanosecond(t) % 1953125 == 0)
  {
    ThereAndBack(t);
    var eras := (Unix(t) + NTP_EPOCH_OFFSET) / TWO32;
    assert InEra(t) <==> eras == 0;
  }

  /** Within an era later instants have later timestamps. */
  lemma TimestampsOrdered(t: Instant, u: Instant)
    requires InEra(t) && InEra(u)
    ensures t < u <==> TimeToNTP(t) < TimeToNTP(u)
  {
    FractionsOrdered(Nanosecond(t), Nanosecond(u));
    FractionsOrdered(Nanosecond(u), Nanosecond(t));
    FractionBack(Nanosecond(t));
    FractionBack(Nanosecond(u));
    assert t == Unix(t) * SECOND + Nanosecond(t) && u == Unix(u) * SECOND + Nanosecond(u);
    hide TimeToNTP;
    StampIs(t);
    StampIs(u);
  }

  lemma StampIs(t: Instant)
    requires InEra(t)
    ensures TimeToNTP(t) == (Unix(t) + NTP_EPOCH_OFFSET) * TWO32 + Nanosecond(t) * TWO32 / SECOND
  {
  }

  lemma FractionsOrdered(m: int, n: int)
    requires 0 <= m && 0 <= n
    ensures m < n ==> m * TWO32 / SECOND < n * TWO32 / SECOND
  {
    assert m < n ==> n * TWO32 >= m * TWO32 + 4 * SECOND;
  }

  // ---------- One transaction ----------

  /** What the client reads of a reply. */
  datatype Reply = Reply(length: nat, leap: nat, mode: nat, stratum: nat, receive: int, transmit: int)

  datatype Answer = Offset(d: int) | Short | Unsynchronised | NotServer | KissOfDeath | NoTimestamps

  /** Division of signed integers rounds toward zero. */
  function Halved(d: int): int {
    if d >= 0 then d / 2 else -(-d / 2)
  }

  function NtpOffset(t1: Instant, t4: Instant, r: Reply): Answer
    requires 0 <= r.receive < TWO32 * TWO32 && 0 <= r.transmit < TWO32 * TWO32
  {
    if r.length < 48 then Short
    else if r.leap == 3 then Unsynchronised
    else if r.mode != 4 && r.mode != 5 then NotServer
    else if r.stratum == 0 then KissOfDeath
    else
      match (NTPToTime(r.receive), NTPToTime(r.transmit))
      case (Some(t2), Some(t3)) => Offset(Halved((t2 - t1) + (t3 - t4)))
      case _ => NoTimestamps
  }

  /** A reply from a synchronised server: its clock is ahead of ours by `theta`, the request
      took `out` and the answer `back`, and it held the request for `held`. */
  function ServerReply(t1: Instant, theta: int, out: nat, held: nat): Reply {
    Reply(48, 0, 4, 1, TimeToNTP(t1 + out + theta), TimeToNTP(t1 + out + held + theta))
  }

  predicate Dated(t: Instant) {
    InEra(t) && !EraStart(t)
  }

  /** The computed offset misses the true one by at most half the difference of the two
      delays, so by at most half the round trip, plus a nanosecond and a half. */
  lemma OffsetError(t1: Instant, theta: int, out: nat, held: nat, back: nat)
    requires Dated(t1 + out + theta) && Dated(t1 + out + held + theta)
    ensures var a := NtpOffset(t1, t1 + out + held + back, ServerReply(t1, theta, out, held));
      && a.Offset?
      && out - back - 3 <= 2 * (a.d - theta) <= out - back + 1
      && -(out + back) - 3 <= 2 * (a.d - theta) <= out + back + 1
  {
    hide TimeToNTP, NTPToTime, InEra, EraStart;
    RoundTripIff(t1 + out + theta);
    RoundTripIff(t1 + out + held + theta);
  }

  /** With equal delays the network drops out: what is left is at most the nanosecond the
      timestamps lose. */
  lemma SymmetricDelays(t1: Instant, theta: int, out: nat, held: nat)
    requires Dated(t1 + out + theta) && Dated(t1 + out + held + theta)
    ensures var a := NtpOffset(t1, t1 + out + held + out, ServerReply(t1, theta, out, held));
      a == Offset(theta) || a == Offset(theta - 1)
  {
    hide NtpOffset, ServerReply, InEra, EraStart;
    OffsetError(t1, theta, out, held, out);
  }

  /** With both clocks in the first era the sum of the two legs fits its integer. */
  lemma LegsFit(t1: Instant, t2: Instant, t3: Instant, t4: Instant)
    requires InEra(t1) && InEra(t2) && InEra(t3) && InEra(t4)
    ensures -MAX_INT64 <= (t2 - t1) + (t3 - t4) <= MAX_INT64
  {
    InEraBounds(t1);
    InEraBounds(t2);
    InEraBounds(t3);
    InEraBounds(t4);
  }

  lemma InEraBounds(t: Instant)
    requires InEra(t)
    ensures -NTP_EPOCH_OFFSET * SECOND <= t < (TWO32 - NTP_EPOCH_OFFSET) * SECOND
  {
    assert t == Unix(t) * SECOND + Nanosecond(t);
  }

  /** Once the server's clock passes the end of the first era the same transaction reads a
      whole era short. */
  lemma NextEraReadsShort(t1: Instant, out: nat, held: nat)
    requires InEra(t1 + out - TWO32 * SECOND) && !EraStart(t1 + out)
    requires InEra(t1 + out + held - TWO32 * SECOND) && !EraStart(t1 + out + held)
    ensures var a := NtpOffset(t1, t1 + out + held + out, ServerReply(t1, 0, out, held));
      a == Offset(-TWO32 * SECOND) || a == Offset(-TWO32 * SECOND - 1) || a == Offset(-TWO32 * SECOND + 1)
  {
    hide TimeToNTP, NTPToTime, EraStart, InEra;
    EraShift(t1 + out);
    EraShift(t1 + out + held);
  }

  lemma EraShift(x: Instant)
    requires InEra(x - TWO32 * SECOND) && !EraStart(x)
    ensures NTPToTime(TimeToNTP(x)) == Some(x - Loss(x) - TWO32 * SECOND)
  {
    ThereAndBack(x);
    assert Unix(x - TWO32 * SECOND) == Unix(x) - TWO32;
  }

  // ---------- The reply as it arrives ----------

  type Byte = b: int | 0 <= b < 256

  /** Big-endian, four bytes from `at`. */
  function Word(b: seq<Byte>, at: nat): (w: int)
    requires at + 4 <= |b|
    ensures 0 <= w < TWO32
  {
    0x100_0000 * (b[at] as int) + 0x1_0000 * (b[at + 1] as int) + 0x100 * (b[at + 2] as int) + (b[at + 3] as int)
  }

  /** What is read of a reply: the leap indicator and the mode from the first byte, the stratum
      from the second, and the receive and transmit timestamps.  A short one is not read. */
  function ReadReply(b: seq<Byte>): (r: Reply)
    ensures 0 <= r.receive < TWO32 * TWO32 && 0 <= r.transmit < TWO32 * TWO32
  {
    if |b| < 48 then Reply(|b|, 0, 0, 0, 0, 0)
    else Reply(|b|, b[0] / 64, b[0] % 8, b[1], Word(b, 32) * TWO32 + Word(b, 36), Word(b, 40) * TWO32 + Word(b, 44))
  }

  /** The instant a timestamp's two words stand for, in nanoseconds since 1970. */
  function Stamp(sec: int, frac: int): Instant {
    (sec - 2208988800) * 1_000_000_000 + frac * 1_000_000_000 / 0x1_0000_0000
  }

  /** Which replies count, for every reply: one of at least 48 bytes, from a server that says
      it is synchronised, in a server's mode, not a kiss of death, and with both timestamps;
      the first of these that fails is what is reported. */
  lemma ReplyIsRefused(t1: Instant, t4: Instant, b: seq<Byte>)
    ensures var a := NtpOffset(t1, t4, ReadReply(b));
      && (a == Short <==> |b| < 48)
      && (a == Unsynchronised <==> |b| >= 48 && b[0] >= 192)
      && (a == NotServer <==> |b| >= 48 && b[0] < 192 && b[0] % 8 !in {4, 5})
      && (a == KissOfDeath <==> |b| >= 48 && b[0] < 192 && b[0] % 8 in {4, 5} && b[1] == 0)
      && (a == NoTimestamps <==>
            && |b| >= 48 && b[0] < 192 && b[0] % 8 in {4, 5} && b[1] != 0
            && (Word(b, 32) == Word(b, 36) == 0 || Word(b, 40) == Word(b, 44) == 0))
  {
    hide Word, Halved;
  }

  /** And then the answer is half the sum of how far the server's receive timestamp is ahead of
      our sending and its transmit timestamp of our receiving, rounded toward zero. */
  lemma ReplyIsAnswered(t1: Instant, t4: Instant, b: seq<Byte>)
    requires |b| >= 48 && b[0] < 192 && b[0] % 8 in {4, 5} && b[1] != 0
    requires (Word(b, 32) != 0 || Word(b, 36) != 0) && (Word(b, 40) != 0 || Word(b, 44) != 0)
    ensures var sum := (Stamp(Word(b, 32), Word(b, 36)) - t1) + (Stamp(Word(b, 40), Word(b, 44)) - t4);
      && NtpOffset(t1, t4, ReadReply(b)).Offset?
      && var twice := 2 * NtpOffset(t1, t4, ReadReply(b)).d;
         twice == if sum % 2 == 0 then sum else if sum > 0 then sum - 1 else sum + 1
  {
    StampReads(Word(b, 32), Word(b, 36));
    StampReads(Word(b, 40), Word(b, 44));
    hide Word, Stamp, NTPToTime, Halved;
    HalvedIs((Stamp(Word(b, 32), Word(b, 36)) - t1) + (Stamp(Word(b, 40), Word(b, 44)) - t4));
  }

  lemma HalvedIs(sum: int)
    ensures 2 * Halved(sum) == if sum % 2 == 0 then sum else if sum > 0 then sum - 1 else sum + 1
  {
  }

  /** The bytes of a word, most significant first. */
  lemma WordReads(b: seq<Byte>, at: nat, w: int)
    requires at + 4 <= |b| && 0 <= w < 0x1_0000_0000
    requires b[at] == w / 0x100_0000 && b[at + 1] == w / 0x1_0000 % 0x100 && b[at + 2] == w / 0x100 % 0x100 && b[at + 3] == w % 0x100
    ensures Word(b, at) == w
  {
  }

  lemma StampReads(sec: int, frac: int)
    requires 0 <= sec < TWO32 && 0 <= frac < TWO32 && (sec != 0 || frac != 0)
    ensures 0 <= sec * TWO32 + frac < TWO32 * TWO32 && NTPToTime(sec * TWO32 + frac) == Some(Stamp(sec, frac))
  {
    assert (sec * TWO32 + frac) / TWO32 == sec && (sec * TWO32 + frac) % TWO32 == frac;
  }
}
