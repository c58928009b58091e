/** How long a refused notice waits for its next attempt. */
module FleetRetry {

  const SECOND: int := 1_000_000_000
  const RETRY_BASE: int := 5 * SECOND
  const RETRY_MAX: int := 300 * SECOND

  /** A 64-bit duration keeps the low 64 bits of a shift, as a signed number. */
  function Wrapped(n: int): int {
    (n + 0x8000_0000_0000_0000) % 0x1_0000_0000_0000_0000 - 0x8000_0000_0000_0000
  }

  function Pow2(k: nat): (p: nat)
    ensures p > 0
  {
    if k == 0 then 1 else 2 * Pow2(k - 1)
  }

  function Delay(base: int, attempts: nat): int
    requires attempts > 0
  {
    var shift := if attempts - 1 < 16 then attempts - 1 else 16;
    var delay := Wrapped(base * Pow2(shift));
    if delay > RETRY_MAX || delay <= 0 then RETRY_MAX else delay
  }

  lemma {:induction false} Pow2Grows(j: nat, k: nat)
    requires j <= k
    ensures Pow2(j) <= Pow2(k)
  {
    if j < k {
      Pow2Grows(j, k - 1);
    }
  }

  lemma Powers()
    ensures Pow2(0) == 1 && Pow2(1) == 2 && Pow2(2) == 4 && Pow2(3) == 8 && Pow2(4) == 16 && Pow2(5) == 32
    ensures Pow2(6) == 64 && Pow2(16) == 65536
  {
    assert Pow2(7) == 128 && Pow2(8) == 256 && Pow2(9) == 512 && Pow2(10) == 1024 && Pow2(11) == 2048;
    assert Pow2(12) == 4096 && Pow2(13) == 8192 && Pow2(14) == 16384 && Pow2(15) == 32768;
  }

  lemma SmallIsNotWrapped(n: int)
    requires 0 <= n < 0x4000_0000_0000_0000
    ensures Wrapped(n) == n
  {
  }

  lemma NoOverflow(shift: nat)
    requires shift <= 16
    ensures Wrapped(RETRY_BASE * Pow2(shift)) == RETRY_BASE * Pow2(shift)
  {
    Pow2Grows(shift, 16);
    Powers();
    SmallIsNotWrapped(RETRY_BASE * Pow2(shift));
  }

  lemma DelayIs(attempts: nat)
    requires attempts > 0
    ensures attempts <= 6 ==> Delay(RETRY_BASE, attempts) == RETRY_BASE * Pow2(attempts - 1) <= RETRY_MAX
    ensures attempts > 6 ==> Delay(RETRY_BASE, attempts) == RETRY_MAX
  {
    var shift := if attempts - 1 < 16 then attempts - 1 else 16;
    NoOverflow(shift);
    Powers();
    if attempts <= 6 {
      Pow2Grows(shift, 5);
    } else {
      Pow2Grows(6, shift);
    }
  }

  /** The delay doubles from five seconds and stays at five minutes: the shift
      never overflows, and no attempt waits longer than a later one. */
  lemma DelayDoublesToItsCap(attempts: nat)
    requires attempts > 0
    ensures RETRY_BASE <= Delay(RETRY_BASE, attempts) <= RETRY_MAX
    ensures Delay(RETRY_BASE, attempts) <= Delay(RETRY_BASE, attempts + 1)
    ensures Delay(RETRY_BASE, attempts) == if attempts <= 6 then RETRY_BASE * Pow2(attempts - 1) else RETRY_MAX
  {
    DelayIs(attempts);
    DelayIs(attempts + 1);
    if attempts <= 6 {
      Pow2Grows(attempts - 1, attempts);
    }
  }

  /** The refusals counted by monitor and the one timer armed per home. */
  class Retries {
    var refused: map<string, nat>
    var timers: map<string, int>
    var closed: bool

    ghost predicate Valid()
      reads this
    {
      && (forall ref :: ref in refused ==> refused[ref] > 0)
      && (forall peer :: peer in timers ==> RETRY_BASE <= timers[peer] <= RETRY_MAX)
      && (closed ==> timers == map[])
    }

    constructor ()
      ensures Valid() && refused == map[] && timers == map[] && !closed
    {
      refused, timers, closed := map[], map[], false;
    }

    /** A refusal always counts, and leaves its home with a timer unless the
        daemon is stopping; an armed timer is not moved. */
    method DeliveryRefused(peer: string, ref: string)
      requires Valid()
      modifies this
      ensures Valid() && closed == old(closed)
      ensures refused == old(refused)[ref := (if ref in old(refused) then old(refused)[ref] else 0) + 1]
      ensures !closed ==> peer in timers
      ensures timers == if closed || peer in old(timers) then old(timers)
                        else old(timers)[peer := Delay(RETRY_BASE, refused[ref])]
    {
      var count := (if ref in refused then refused[ref] else 0) + 1;
      refused := refused[ref := count];
      if closed || peer in timers {
        return;
      }
      DelayDoublesToItsCap(count);
      timers := timers[peer := Delay(RETRY_BASE, count)];
    }

    method DeliveryAdmitted(ref: string)
      requires Valid()
      modifies `refused
      ensures Valid() && refused == old(refused) - {ref}
    {
      refused := refused - {ref};
    }

    /** A timer fires once, and does nothing on a daemon that is stopping. */
    method TakeTimer(peer: string) returns (open: bool)
      requires Valid()
      modifies `timers
      ensures Valid() && timers == old(timers) - {peer} && open == !closed
    {
      timers := timers - {peer};
      open := !closed;
    }

    /** Every timer is stopped; the counts, and so what is owed, stay. */
    method StopRetries()
      requires Valid()
      modifies this
      ensures Valid() && closed && timers == map[] && refused == old(refused)
    {
      var left := timers;
      while left != map[]
        invariant left.Keys <= timers.Keys && timers.Keys <= left.Keys
        invariant refused == old(refused)
        decreases |left|
      {
        var peer :| peer in left;
        left := left - {peer};
        timers := timers - {peer};
      }
      closed := true;
    }
  }
}
