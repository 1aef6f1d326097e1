/** The debt-carrying rate window (src/rate.h) and the gate the two droppable
planes put in front of it (src/motion.c, src/audio.c). */
module Rate {
  import opened Bytes

  /** `bytes` is what was spent since `start` and not yet repaid. */
  datatype Window = Window(start: nat, bytes: nat)

  const FRESH_WINDOW := Window(0, 0)

  /** What `windows` seconds repay, multiplied in 64 bits. */
  function Repaid(windows: nat, budget: nat): nat {
    windows * budget % TWO64
  }

  function Advance(w: Window, budget: nat, now: nat): Window {
    if budget == 0 || now < (w.start + 1000) % TWO64 then w
    else
      var windows := (now - w.start) % TWO64 / 1000;
      if windows >= w.bytes then Window(now, 0)
      else
        var repaid := Repaid(windows, budget);
        Window(w.start + windows * 1000, if repaid >= w.bytes then 0 else w.bytes - repaid)
  }

  /** The gate at the head of an offer. */
  predicate Open(w: Window, budget: nat, now: nat) {
    budget == 0 || Advance(w, budget, now).bytes < budget
  }

  /** The window once an offer costing `size` was made. */
  function Offered(w: Window, budget: nat, now: nat, size: nat): Window {
    if budget == 0 then w
    else
      var advanced := Advance(w, budget, now);
      if advanced.bytes >= budget then advanced else advanced.(bytes := advanced.bytes + size)
  }

  class RateWindow {
    var start: nat
    var bytes: nat
    const budget: nat

    ghost function View(): Window
      reads this
    {
      Window(start, bytes)
    }

    constructor (budget: nat)
      ensures View() == FRESH_WINDOW && this.budget == budget
    {
      start, bytes, this.budget := 0, 0, budget;
    }

    method AdvanceTo(now: nat)
      modifies this
      ensures View() == Advance(old(View()), budget, now)
    {
      if budget == 0 || now < (start + 1000) % TWO64 { return; }
      var windows := (now - start) % TWO64 / 1000;
      if windows >= bytes {
        start, bytes := now, 0;
        return;
      }
      var repaid := windows * budget % TWO64;
      bytes := if repaid >= bytes then 0 else bytes - repaid;
      start := start + windows * 1000;
    }

    method Charge(size: nat)
      modifies this`bytes
      ensures View() == Window(old(start), old(bytes) + (if budget == 0 then 0 else size))
    {
      if budget != 0 { bytes := bytes + size; }
    }
  }

  // ---- the ceiling ---------------------------------------------------------------------------

  datatype Attempt = Attempt(now: nat, size: nat)

  /** Bytes admitted along a run of offers. */
  function Admitted(w: Window, budget: nat, attempts: seq<Attempt>): nat
    decreases |attempts|
  {
    if attempts == [] then 0
    else
      var a := attempts[0];
      (if Open(w, budget, a.now) then a.size else 0) +
        Admitted(Offered(w, budget, a.now, a.size), budget, attempts[1..])
  }

  ghost predicate InOrder(attempts: seq<Attempt>, from: nat, until: nat) {
    && (attempts == [] ==> from <= until)
    && (attempts != [] ==> from <= attempts[0].now && attempts[|attempts| - 1].now <= until)
    && forall k :: 0 < k < |attempts| ==> attempts[k - 1].now <= attempts[k].now
  }

  /** No single admitted message costs more than `largest`. */
  ghost predicate Within(w: Window, budget: nat, attempts: seq<Attempt>, largest: nat)
    decreases |attempts|
  {
    attempts != [] ==>
      var a := attempts[0];
      (Open(w, budget, a.now) ==> a.size <= largest) &&
      Within(Offered(w, budget, a.now, a.size), budget, attempts[1..], largest)
  }

  /** Advance without the wrap of a clock that is not behind the window. */
  lemma AdvanceIs(w: Window, budget: nat, now: nat)
    requires budget > 0 && w.start <= now < TWO64
    ensures var (a, windows) := (Advance(w, budget, now), (now - w.start) / 1000);
            && (w.start + 1000 < TWO64 ==> (a == w || now >= w.start + 1000))
            && (a == w || a == if windows >= w.bytes then Window(now, 0)
                               else Window(w.start + windows * 1000, Max(0, w.bytes - Repaid(windows, budget))))
            && (w.start + 1000 <= now ==>
                  a.bytes == if windows >= w.bytes then 0 else Max(0, w.bytes - Repaid(windows, budget)))
  {
    hide Repaid;
    assert (now - w.start) % TWO64 == now - w.start;
  }

  /** Advancing repays at most what the time allows. */
  lemma AdvancePays(w: Window, budget: nat, now: nat)
    requires budget > 0 && w.start <= now < TWO64
    ensures var a := Advance(w, budget, now);
            && w.start <= a.start <= now && a.bytes <= w.bytes
            && budget * w.start + 1000 * w.bytes <= budget * a.start + 1000 * a.bytes
  {
    var windows := (now - w.start) / 1000;
    AdvanceIs(w, budget, now);
    hide Advance, Repaid;
    if windows >= w.bytes {
      ClearPays(w.start, w.bytes, budget, now);
    } else {
      RepaidPays(w.start, windows, budget);
    }
  }

  lemma ClearPays(start: nat, bytes: nat, budget: nat, now: nat)
    requires budget > 0 && start <= now && (now - start) / 1000 >= bytes
    ensures budget * start + 1000 * bytes <= budget * now
  {
    Monotone(budget, 1000 * bytes, now - start);
    Monotone(bytes, 1, budget);
    Regroup(bytes, budget);
    Split(budget, start, now - start);
  }

  lemma RepaidPays(start: nat, windows: nat, budget: nat)
    ensures budget * (start + windows * 1000) == budget * start + 1000 * (windows * budget)
    ensures Repaid(windows, budget) <= windows * budget
  {
    Split(budget, start, windows * 1000);
    Regroup(windows, budget);
    Wrapped(windows * budget);
  }

  /** Arithmetic in 64 bits never gives more. */
  lemma Wrapped(value: nat)
    ensures value % TWO64 <= value && (value < TWO64 ==> value % TWO64 == value)
  {
  }

  lemma Monotone(a: nat, b: nat, c: nat)
    requires b <= c
    ensures a * b <= a * c
  {
  }

  lemma Split(a: nat, b: nat, c: nat)
    ensures a * (b + c) == a * b + a * c
  {
  }

  lemma Regroup(windows: nat, budget: nat)
    ensures budget * (windows * 1000) == 1000 * (windows * budget) == budget * (1000 * windows)
  {
  }

  lemma {:induction false} CeilingFrom(w: Window, budget: nat, attempts: seq<Attempt>, from: nat, until: nat,
                                       largest: nat)
    requires budget > 0 && w.start <= from && until < TWO64 && w.bytes < budget + largest
    requires InOrder(attempts, from, until) && Within(w, budget, attempts, largest)
    ensures 1000 * Admitted(w, budget, attempts) + budget * w.start + 1000 * w.bytes <= budget * until +
            1000 * (budget + largest)
    decreases |attempts|
  {
    if attempts == [] {
      Monotone(budget, w.start, until);
    } else {
      var a := attempts[0];
      var next := Offered(w, budget, a.now, a.size);
      Ordered(attempts, |attempts| - 1);
      AdvancePays(w, budget, a.now);
      assert InOrder(attempts[1..], a.now, until);
      CeilingFrom(next, budget, attempts[1..], a.now, until, largest);
    }
  }

  /** A real ceiling: with a clock that never runs backwards, the bytes admitted
  by any time are at most the budget for the time since the window of the first
  admission opened, one budget more, and one message. */
  lemma RateCeiling(budget: nat, attempts: seq<Attempt>, until: nat, largest: nat)
    requires budget > 0 && attempts != [] && until < TWO64 && InOrder(attempts, 0, until)
    requires Within(FRESH_WINDOW, budget, attempts, largest)
    ensures var since := Advance(FRESH_WINDOW, budget, attempts[0].now).start;
            && Open(FRESH_WINDOW, budget, attempts[0].now) && since <= until
            && 1000 * Admitted(FRESH_WINDOW, budget, attempts) <= budget * (until - since) + 1000 * (budget + largest)
  {
    var a := attempts[0];
    var advanced := Advance(FRESH_WINDOW, budget, a.now);
    Ordered(attempts, |attempts| - 1);
    AdvancePays(FRESH_WINDOW, budget, a.now);
    AdvanceTwice(advanced, budget, a.now);
    CeilingFrom(advanced, budget, attempts, a.now, until, largest);
    Split(budget, until - advanced.start, advanced.start);
  }

  /** When the window of the first admission opened. */
  function Since(budget: nat, attempts: seq<Attempt>): nat {
    if attempts == [] then 0 else Advance(FRESH_WINDOW, budget, attempts[0].now).start
  }

  /** The same with nothing offered allowed. */
  lemma CeilingSince(budget: nat, attempts: seq<Attempt>, until: nat, largest: nat)
    requires budget > 0 && until < TWO64 && InOrder(attempts, 0, until)
    requires Within(FRESH_WINDOW, budget, attempts, largest)
    ensures var since := Since(budget, attempts);
            && since <= until
            && 1000 * Admitted(FRESH_WINDOW, budget, attempts) <= budget * (until - since) + 1000 * (budget + largest)
  {
    if attempts == [] {
      Monotone(budget, 0, until);
    } else {
      RateCeiling(budget, attempts, until, largest);
    }
  }

  lemma {:induction false} Ordered(attempts: seq<Attempt>, k: nat)
    requires k < |attempts| && forall j :: 0 < j < |attempts| ==> attempts[j - 1].now <= attempts[j].now
    ensures attempts[0].now <= attempts[k].now
  {
    if k > 0 { Ordered(attempts, k - 1); }
  }

  /** Advancing an empty window twice to the same time is advancing it once. */
  lemma AdvanceTwice(w: Window, budget: nat, now: nat)
    requires w == Advance(FRESH_WINDOW, budget, now)
    ensures Advance(w, budget, now) == w
  {
  }

  /** Exactly when a shut gate is open again: after the whole seconds its debt takes
  to repay, counted from the window's start - unless the product of seconds and
  budget passes 64 bits, when only what is left of it counts. It cannot for a
  debt whose product with the budget fits. */
  lemma ReopensExactlyAt(w: Window, budget: nat, now: nat)
    requires 0 < budget <= w.bytes < TWO64 && w.start <= now < TWO64 && w.start + 1000 < TWO64
    ensures var (windows, paid) := ((now - w.start) / 1000, now >= w.start + 1000 * (w.bytes / budget));
            && (Open(w, budget, now) <==>
                  paid &&
                    (windows * budget < TWO64 || windows >= w.bytes || w.bytes < Repaid(windows, budget) + budget))
            && (w.bytes * budget <= TWO64 ==> (Open(w, budget, now) <==> paid))
  {
    hide Open, Repaid, Advance;
    var windows := (now - w.start) / 1000;
    RepaidEnough(w.bytes, budget, windows);
    var owed := w.bytes / budget;
    SecondsReached(now - w.start, owed);
    OpenWhenRepaid(w, budget, now, windows);
  }

  lemma RepaidEnough(bytes: nat, budget: nat, windows: nat)
    requires 0 < budget <= bytes < TWO64
    ensures windows >= bytes || bytes - Repaid(windows, budget) < budget <==>
            windows >= bytes / budget &&
            (windows * budget < TWO64 || windows >= bytes || bytes < Repaid(windows, budget) + budget)
    ensures bytes * budget <= TWO64 && windows < bytes ==> windows * budget < TWO64
  {
    RepaidBy(bytes, budget, windows);
    var product := windows * budget;
    Wrapped(product);
    if windows < bytes { Less(windows, bytes, budget); }
  }

  lemma Less(windows: nat, bytes: nat, budget: nat)
    requires windows < bytes && 0 < budget
    ensures windows * budget < bytes * budget
  {
  }

  lemma OpenWhenRepaid(w: Window, budget: nat, now: nat, windows: nat)
    requires 0 < budget <= w.bytes && w.start <= now < TWO64 && w.start + 1000 < TWO64 &&
             windows == (now - w.start) / 1000
    ensures Open(w, budget, now) <==> windows >= w.bytes || w.bytes - Repaid(windows, budget) < budget
  {
    AdvanceIs(w, budget, now);
    hide Advance;
    if now < w.start + 1000 {
      assert windows == 0 && Repaid(windows, budget) == 0;
    } else {
      hide Repaid;
    }
  }

  /** Below the budget the gate is open. */
  lemma OpenBelowBudget(w: Window, budget: nat, now: nat)
    requires w.bytes < budget && w.start <= now < TWO64
    ensures Open(w, budget, now)
  {
    AdvancePays(w, budget, now);
    hide Advance;
  }

  lemma PaidInPart(bytes: nat, budget: nat, windows: nat)
    requires budget > 0 && windows * budget <= bytes
    ensures (bytes - windows * budget) / budget == bytes / budget - windows
  {
    var rest := bytes - windows * budget;
    Split(budget, windows, rest / budget);
    assert rest == budget * (rest / budget) + rest % budget;
    assert bytes == budget * (windows + rest / budget) + rest % budget;
    Quotient(bytes, budget, windows + rest / budget, rest % budget);
  }

  lemma Quotient(value: nat, divisor: nat, quotient: nat, rest: nat)
    requires value == divisor * quotient + rest && rest < divisor
    ensures value / divisor == quotient
  {
    var gap := value / divisor - quotient;
    assert value == divisor * (value / divisor) + value % divisor;
    assert divisor * gap == rest - value % divisor;
    Apart(divisor, gap);
  }

  lemma Apart(divisor: nat, gap: int)
    ensures (gap >= 1 ==> divisor * gap >= divisor) && (gap <= -1 ==> divisor * gap <= 0 - divisor)
  {
  }

  /** What asking leaves of a debt. */
  lemma AskedLeaves(w: Window, budget: nat, asked: nat)
    requires budget > 0 && w.start <= asked && asked + 1000 < TWO64 && w.bytes * budget <= TWO64
    ensures var (a, windows) := (Advance(w, budget, asked), (asked - w.start) / 1000);
            && w.start <= a.start <= asked && a.bytes <= w.bytes
            && (a == w
                || (windows >= w.bytes && a.bytes == 0)
                || (windows < w.bytes && a.start == w.start + 1000 * windows &&
                    a.bytes == Max(0, w.bytes - windows * budget)))
  {
    var windows := (asked - w.start) / 1000;
    AdvanceIs(w, budget, asked);
    AdvancePays(w, budget, asked);
    hide Advance;
    if windows < w.bytes { Less(windows, w.bytes, budget); }
    Wrapped(windows * budget);
  }

  /** Asking does not delay: a gate that was asked in between opens at the same moment
  as one that was not. */
  lemma AskingIsFree(w: Window, budget: nat, asked: nat, now: nat)
    requires budget > 0 && w.start <= asked <= now && now + 1000 < TWO64 && w.bytes * budget <= TWO64
    requires w.bytes < TWO64
    ensures Open(Advance(w, budget, asked), budget, now) <==> Open(w, budget, now)
  {
    hide Advance, Open;
    var a, windows := Advance(w, budget, asked), (asked - w.start) / 1000;
    AskedLeaves(w, budget, asked);
    if w.bytes < budget {
      OpenBelowBudget(w, budget, now);
      OpenBelowBudget(a, budget, now);
    } else if a != w {
      ReopensExactlyAt(w, budget, now);
      if a.bytes < budget {
        OpenBelowBudget(a, budget, now);
        PaidSoon(w.bytes, budget, windows);
      } else {
        AskedAgain(w, a, budget, windows, now);
      }
    }
  }

  lemma AskedAgain(w: Window, a: Window, budget: nat, windows: nat, now: nat)
    requires 0 < budget <= a.bytes && a.bytes == w.bytes - windows * budget && a.start == w.start + 1000 * windows
    requires a.start <= now && now + 1000 < TWO64 && w.bytes * budget <= TWO64 && w.bytes < TWO64
    ensures Open(a, budget, now) <==> now >= w.start + 1000 * (w.bytes / budget)
  {
    hide Open;
    PaidInPart(w.bytes, budget, windows);
    Monotone(budget, a.bytes, w.bytes);
    ReopensExactlyAt(a, budget, now);
  }

  /** Less than a budget left means that the whole seconds have passed. */
  lemma PaidSoon(bytes: nat, budget: nat, windows: nat)
    requires budget > 0 && (windows >= bytes || bytes - windows * budget < budget)
    ensures bytes / budget <= windows
  {
    Monotone(budget, bytes / budget, bytes / budget);
    assert bytes == budget * (bytes / budget) + bytes % budget;
    if bytes / budget > windows {
      Monotone(budget, windows + 1, bytes / budget);
      Monotone(bytes / budget, 1, budget);
    }
  }

  // ---- how much can be owed -------------------------------------------------------------------

  /** The window after a run of offers. */
  function AfterAttempts(w: Window, budget: nat, attempts: seq<Attempt>): Window
    decreases |attempts|
  {
    if attempts == [] then w
    else AfterAttempts(Offered(w, budget, attempts[0].now, attempts[0].size), budget, attempts[1..])
  }

  /** The debt is always less than one budget and one admitted message, and the
  window is never ahead of the clock. */
  lemma {:induction false} DebtBounded(w: Window, budget: nat, attempts: seq<Attempt>, from: nat, until: nat,
                                       largest: nat)
    requires budget > 0 && w.bytes < budget + largest && w.start <= from && until < TWO64
    requires InOrder(attempts, from, until) && Within(w, budget, attempts, largest)
    ensures var after := AfterAttempts(w, budget, attempts);
            after.bytes < budget + largest && after.start <= until
    decreases |attempts|
  {
    if attempts != [] {
      var a := attempts[0];
      Ordered(attempts, |attempts| - 1);
      AdvancePays(w, budget, a.now);
      assert InOrder(attempts[1..], a.now, until);
      DebtBounded(Offered(w, budget, a.now, a.size), budget, attempts[1..], a.now, until, largest);
    }
  }

  /** So where a budget times a budget and a message fits 64 bits, a shut gate opens
  exactly when its debt is paid, after any run of offers. */
  lemma GateReopens(budget: nat, attempts: seq<Attempt>, until: nat, largest: nat, now: nat)
    requires budget > 0 && until <= now && now + 1000 < TWO64
    requires InOrder(attempts, 0, until) && Within(FRESH_WINDOW, budget, attempts, largest)
    requires budget * (budget + largest) <= TWO64
    ensures var w := AfterAttempts(FRESH_WINDOW, budget, attempts);
            budget <= w.bytes ==> (Open(w, budget, now) <==> now >= w.start + 1000 * (w.bytes / budget))
  {
    DebtBounded(FRESH_WINDOW, budget, attempts, 0, until, largest);
    var w := AfterAttempts(FRESH_WINDOW, budget, attempts);
    Monotone(budget, w.bytes, budget + largest);
    Monotone(budget + largest, 1, budget);
    if budget <= w.bytes { ReopensExactlyAt(w, budget, now); }
  }

  /** `n` offers of one size before the clock moves. */
  function Burst(n: nat, size: nat): (attempts: seq<Attempt>)
    ensures |attempts| == n && forall k :: 0 <= k < n ==> attempts[k] == Attempt(0, size)
  {
    seq(n, _ => Attempt(0, size))
  }

  lemma OfferedAtOnce(owed: nat, budget: nat, size: nat)
    requires owed < budget
    ensures Open(Window(0, owed), budget, 0) && Offered(Window(0, owed), budget, 0, size) == Window(0, owed + size)
  {
  }

  lemma {:induction false} BurstOwes(n: nat, size: nat, last: nat, budget: nat, owed: nat)
    requires owed + n * size < budget && size <= last
    ensures var attempts := Burst(n, size) + [Attempt(0, last)];
            && AfterAttempts(Window(0, owed), budget, attempts) == Window(0, owed + n * size + last)
            && Within(Window(0, owed), budget, attempts, last) && InOrder(attempts, 0, 0)
    decreases n
  {
    hide Open, Offered, Advance;
    var attempts := Burst(n, size) + [Attempt(0, last)];
    if n == 0 {
      OfferedAtOnce(owed, budget, last);
      assert attempts == [Attempt(0, last)] && attempts[1..] == [];
    } else {
      assert n * size == (n - 1) * size + size;
      OfferedAtOnce(owed, budget, size);
      assert attempts[1..] == Burst(n - 1, size) + [Attempt(0, last)];
      BurstOwes(n - 1, size, last, budget, owed + size);
    }
  }

  /** Sixty-five messages of some 63 MiB, none above 64 MiB, at a budget just below
  2^32 leave a debt that one second should pay; 136 idle years later the product
  of seconds and budget is 65536 in 64 bits, and the gate is still shut. */
  lemma WrapKeepsGateShut()
    ensures var budget, attempts, now := 4294901761, Burst(64, 66153846) + [Attempt(0, 66153856)], 1000 * 4295032832;
            var w := AfterAttempts(FRESH_WINDOW, budget, attempts);
            && budget < 0x1_0000_0000 && now < TWO64
            && InOrder(attempts, 0, 0) && Within(FRESH_WINDOW, budget, attempts, 64 * 1024 * 1024)
            && w.start + 1000 * (w.bytes / budget) == 1000 && !Open(w, budget, now)
  {
    var budget, attempts := 4294901761, Burst(64, 66153846) + [Attempt(0, 66153856)];
    BurstOwes(64, 66153846, 66153856, budget, 0);
    WithinMore(FRESH_WINDOW, budget, attempts, 66153856, 64 * 1024 * 1024);
    assert 4295032832 * budget == TWO64 + 65536;
    assert Repaid(4295032832, budget) == 65536;
  }

  lemma {:induction false} WithinMore(w: Window, budget: nat, attempts: seq<Attempt>, largest: nat, more: nat)
    requires Within(w, budget, attempts, largest) && largest <= more
    ensures Within(w, budget, attempts, more)
    decreases |attempts|
  {
    if attempts != [] {
      WithinMore(Offered(w, budget, attempts[0].now, attempts[0].size), budget, attempts[1..], largest, more);
    }
  }

  lemma SecondsReached(elapsed: nat, seconds: nat)
    ensures elapsed / 1000 >= seconds <==> elapsed >= 1000 * seconds
  {
  }

  /** `windows` budgets leave less than one budget owed exactly when they are at
  least the whole budgets in the debt. */
  lemma RepaidBy(bytes: nat, budget: nat, windows: nat)
    requires 0 < budget <= bytes
    ensures bytes - windows * budget < budget <==> windows >= bytes / budget
    ensures 1 <= bytes / budget <= bytes
  {
    var owed, rest := bytes / budget, bytes % budget;
    assert bytes == budget * owed + rest;
    Monotone(owed, 1, budget);
    if windows >= owed {
      Monotone(budget, owed, windows);
    } else {
      Monotone(budget, windows, owed - 1);
      Split(budget, owed - 1, 1);
    }
  }
}
