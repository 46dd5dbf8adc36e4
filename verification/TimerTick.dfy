/**
 * The INT 8h handler of lab-01/src/INT8.LST: the tick counter in two 16-bit words, the day
 * rollover byte and the countdown that switches the diskette motor off.
 */
module TimerTick {

  const WORD := 0x1_0000
  const TICKS_PER_DAY := 0x1800B0
  const COUNTER_RANGE := WORD * WORD

  /** The cells of the BIOS data area, with the counter read as one 32-bit number. */
  datatype Clock = Clock(
    count: nat,       // 0040:006E and 0040:006C
    rolled: nat,      // 0040:0070
    motor: nat,       // 0040:0040
    status: nat,      // 0040:003F
    motorOffs: nat)   // commands 0Ch written to port 3F2h

  /** One interrupt: the counter goes on or starts a new day, the countdown goes on or fires. */
  function Tick(c: Clock): Clock {
    var count := (c.count + 1) % COUNTER_RANGE;
    var motor := (c.motor + 255) % 256;
    Clock(
      if count == TICKS_PER_DAY then 0 else count,
      if count == TICKS_PER_DAY then 1 else c.rolled,
      motor,
      if motor == 0 then c.status - c.status % 16 else c.status,
      if motor == 0 then c.motorOffs + 1 else c.motorOffs)
  }

  function Ticks(c: Clock, n: nat): Clock {
    if n == 0 then c else Tick(Ticks(c, n - 1))
  }

  /** The counter goes on, except from the last tick of a day and from its largest value. */
  lemma TickCount(c: Clock)
    requires c.count < COUNTER_RANGE
    ensures Tick(c).count == if c.count + 1 == 0x1800B0 || c.count + 1 == 0x1_0000_0000 then 0 else c.count + 1
    ensures Tick(c).rolled == if c.count + 1 == 0x1800B0 then 1 else c.rolled
  {
    if c.count + 1 < COUNTER_RANGE { ModSmall(c.count + 1, COUNTER_RANGE); }
  }

  /** From any time of day, n ticks later it is n ticks later modulo a day, and the day byte tells of a wrap. */
  lemma {:induction false} DayCounter(c: Clock, n: nat)
    requires c.count < 0x1800B0
    ensures Ticks(c, n).count == (c.count + n) % 0x1800B0
    ensures Ticks(c, n).rolled == if c.count + n < 0x1800B0 then c.rolled else 1
  {
    if n > 0 {
      DayCounter(c, n - 1);
      TickCount(Ticks(c, n - 1));
      ModStep(c.count + n - 1, TICKS_PER_DAY);
      if c.count + n <= TICKS_PER_DAY { ModSmall(c.count + n - 1, TICKS_PER_DAY); }
    } else {
      ModSmall(c.count, TICKS_PER_DAY);
    }
  }

  lemma ModSmall(x: nat, m: nat)
    requires x < m
    ensures x % m == x
  {
  }

  lemma ModStep(x: nat, m: nat)
    requires m > 1
    ensures (x + 1) % m == if x % m + 1 == m then 0 else x % m + 1
    ensures (x + 1) / m == if x % m + 1 == m then x / m + 1 else x / m
  {
    var q, r := x / m, x % m;
    assert x == q * m + r;
    if r + 1 == m {
      assert x + 1 == (q + 1) * m;
      DivUnique(x + 1, m, q + 1, 0);
    } else {
      DivUnique(x + 1, m, q, r + 1);
    }
  }

  lemma ProductAtLeast(d: nat, m: nat)
    requires d > 0
    ensures d * m >= m
  {
  }

  lemma DivUnique(x: nat, m: nat, q: nat, r: nat)
    requires m > 0 && r < m && x == q * m + r
    ensures x / m == q && x % m == r
  {
    var q', r' := x / m, x % m;
    assert (q' - q) * m == r - r' && (q - q') * m == r' - r;
    if q' > q {
      ProductAtLeast(q' - q, m);
    } else if q' < q {
      ProductAtLeast(q - q', m);
    }
  }

  /** Countdown values 0 and 256 mean the same. */
  function Period(motor: nat): nat { if motor == 0 then 256 else motor }

  /** The motor is switched off every 256 ticks, first when the countdown runs out. */
  lemma {:induction false} MotorOffs(c: Clock, n: nat)
    requires c.motor < 256
    ensures var k := n + 256 - Period(c.motor);
            && Ticks(c, n).motorOffs == c.motorOffs + k / 256
            && Ticks(c, n).motor == (if k % 256 == 0 then 0 else 256 - k % 256)
    ensures Ticks(c, n).status == if n < Period(c.motor) then c.status else c.status - c.status % 16
  {
    var k := n + 256 - Period(c.motor);
    if n > 0 {
      MotorOffs(c, n - 1);
      ModStep(k - 1, 256);
      MotorStep(Ticks(c, n - 1).motor);
      assert k % 256 == 0 && k > 0 ==> k >= 256;
      StatusStep(c.status);
    }
  }

  lemma MotorStep(m: nat)
    requires m < 256
    ensures (m + 255) % 256 == if m == 0 then 255 else m - 1
  {
  }

  lemma StatusStep(s: nat)
    ensures s >= s % 16 && (s - s % 16) % 16 == 0
  {
  }

  /** A counter set beyond a day is not brought back: it first runs through the whole 32-bit range. */
  lemma {:induction false} BeyondADay(c: Clock, n: nat)
    requires 0x1800B0 <= c.count < 0x1_0000_0000
    ensures Ticks(c, n).count == if n < 0x1_0000_0000 - c.count then c.count + n
                                 else (n - (0x1_0000_0000 - c.count)) % 0x1800B0
  {
    var wrap := COUNTER_RANGE - c.count;
    if n > 0 {
      BeyondADay(c, n - 1);
      TickCount(Ticks(c, n - 1));
      if n > wrap { ModStep(n - 1 - wrap, TICKS_PER_DAY); }
    }
  }

  class Bios {
    var low: nat         // word at 0040:006C
    var high: nat        // word at 0040:006E
    var rolled: nat      // byte at 0040:0070
    var motor: nat       // byte at 0040:0040
    var status: nat      // byte at 0040:003F
    var motorOffs: nat   // commands 0Ch sent to port 3F2h

    ghost predicate Valid()
      reads this
    {
      low < WORD && high < WORD && rolled < 256 && motor < 256 && status < 256
    }

    ghost function View(): Clock
      reads this
    {
      Clock(high * WORD + low, rolled, motor, status, motorOffs)
    }

    /** The two-word increment with carry is one increment of the 32-bit number. */
    lemma CarrySums(lo: nat, hi: nat, lo': nat, hi': nat)
      requires lo < WORD && hi < WORD
      requires lo' == (lo + 1) % WORD && hi' == if lo' == 0 then (hi + 1) % WORD else hi
      ensures hi' * WORD + lo' == (hi * WORD + lo + 1) % COUNTER_RANGE
      ensures hi' * WORD + lo' == TICKS_PER_DAY <==> hi' == 0x18 && lo' == 0xB0
    {
      if lo + 1 < WORD {
        ModSmall(lo + 1, WORD);
        ModSmall(hi * WORD + lo + 1, COUNTER_RANGE);
      } else if hi + 1 < WORD {
        ModSmall(hi + 1, WORD);
        ModSmall(hi * WORD + lo + 1, COUNTER_RANGE);
      }
    }

    /** Lines 14-39 of the listing, instruction by instruction. */
    method Interrupt()
      requires Valid()
      modifies this
      ensures Valid() && View() == Tick(old(View()))
    {
      // inc word ptr [6Ch]; jnz
      low := (low + 1) % WORD;
      if low == 0 {
        high := (high + 1) % WORD;
      }
      CarrySums(old(low), old(high), low, high);
      // cmp [6Eh],18h; cmp [6Ch],0B0h
      if high == 0x18 && low == 0xB0 {
        high := 0;
        low := 0;
        rolled := 1;
      }
      // dec byte ptr [40h]; jnz
      motor := (motor + 255) % 256;
      if motor == 0 {
        status := status - status % 16;
        motorOffs := motorOffs + 1;
      }
    }

    /** n interrupts in a row. */
    method Run(n: nat)
      requires Valid()
      modifies this
      ensures Valid() && View() == Ticks(old(View()), n)
      ensures old(View()).count < 0x1800B0 ==> View().count == (old(View()).count + n) % 0x1800B0
    {
      ghost var c := View();
      for k := 0 to n
        invariant Valid() && View() == Ticks(c, k)
      {
        Interrupt();
      }
      if c.count < TICKS_PER_DAY { DayCounter(c, n); }
    }
  }
}
