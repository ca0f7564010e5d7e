/** A time slot of the weekly grid: a day of the week and a period within the day. */
module Periods {
  import opened Ids
  import opened Text

  /** `Period { day, slot }`; equality is componentwise, as the derived `PartialEq`. */
  datatype Period = Period(day: u8, slot: u8)

  lemma MulBounds(d: int, n: int)
    requires n > 0
    ensures d >= 1 ==> d * n >= n
    ensures d <= -1 ==> d * n <= -n
  {
    if d >= 1 {
      assert d * n == (d - 1) * n + n;
      assert (d - 1) * n >= 0;
    }
    if d <= -1 {
      assert d * n == (d + 1) * n - n;
      assert (d + 1) * n <= 0;
    }
  }

  /** Euclidean division recovers the quotient and remainder it was built from. */
  lemma DivModOf(q: nat, n: nat, s: nat)
    requires 0 < n && s < n
    ensures (q * n + s) / n == q && (q * n + s) % n == s
  {
    var a: int := q * n + s;
    var d: int := a / n - q;
    assert d * n == s - a % n;
    MulBounds(d, n);
  }

  /** `to_linear`: index of the period in a day-major grid of `n` periods per day.
      Within a day (slot < n) the day and slot are its quotient and remainder by `n`. */
  function ToLinear(p: Period, n: u8): (r: nat)
    ensures p.slot <= r
    ensures 0 < n && p.slot < n ==> r / n == p.day && r % n == p.slot
  {
    if 0 < n && p.slot < n then DivModOf(p.day, n, p.slot); p.day * n + p.slot
    else p.day * n + p.slot
  }

  /** `from_linear`: quotient and remainder by `n`, each cast to `u8` (the day wraps
      at 256). Rust divides by zero when `n` is 0. */
  function FromLinear(index: nat, n: u8): (p: Period)
    requires 0 < n
    ensures p.slot < n && p.slot == index % n
    ensures index / n < 0x100 ==> p.day == index / n
  {
    var q, s := index / n, index % n;
    assert s < n;
    Period((q % 0x100) as u8, s as u8)
  }

  /** `from_linear` inverts `to_linear` for every period whose slot fits in a day. */
  lemma FromToLinear(p: Period, n: u8)
    requires 0 < n && p.slot < n
    ensures FromLinear(ToLinear(p, n), n) == p
  {
  }

  /** Two periods of the same grid have the same linear index only if they are equal. */
  lemma ToLinearInjective(p: Period, q: Period, n: u8)
    requires 0 < n && p.slot < n && q.slot < n
    requires ToLinear(p, n) == ToLinear(q, n)
    ensures p == q
  {
    FromToLinear(p, n);
    FromToLinear(q, n);
  }

  /** `day_name`. */
  function DayName(day: u8): (r: string)
    ensures day < 5 <==> r != "Unknown"
    ensures ' ' !in r
  {
    match day
    case 0 => "Monday"
    case 1 => "Tuesday"
    case 2 => "Wednesday"
    case 3 => "Thursday"
    case 4 => "Friday"
    case _ => "Unknown"
  }

  /** The five weekdays have five different names. */
  lemma DayNamesDistinct(d1: u8, d2: u8)
    requires d1 < 5 && d2 < 5 && DayName(d1) == DayName(d2)
    ensures d1 == d2
  {
  }

  /** `display()`: "{day name} Period {slot + 1}". */
  function Describe(p: Period): string {
    DayName(p.day) + " Period " + NatToString(WrapIncU8(p.slot))
  }

  /** The long form tells apart any two periods, except that days past Friday all read
      as "Unknown". */
  lemma DescribeInjective(p: Period, q: Period)
    requires Describe(p) == Describe(q)
    ensures p.slot == q.slot
    ensures p.day < 5 ==> p.day == q.day
  {
    DescribeShape(p);
    DescribeShape(q);
    var tp, tq := "Period " + NatToString(WrapIncU8(p.slot)), "Period " + NatToString(WrapIncU8(q.slot));
    SplitAtFirst(DayName(p.day), tp, DayName(q.day), tq, ' ');
    assert tp[7..] == NatToString(WrapIncU8(p.slot));
    assert tq[7..] == NatToString(WrapIncU8(q.slot));
    NatToStringInjective(WrapIncU8(p.slot), WrapIncU8(q.slot));
  }

  /** The long form is the day name, a blank, and a tail naming the slot. */
  lemma DescribeShape(p: Period)
    ensures Describe(p) == DayName(p.day) + [' '] + ("Period " + NatToString(WrapIncU8(p.slot)))
  {
  }

  /** `Display`: "D{day + 1}P{slot + 1}", both 1-based. */
  function Show(p: Period): string {
    "D" + NatToString(WrapIncU8(p.day)) + "P" + NatToString(WrapIncU8(p.slot))
  }

  /** The short form is unambiguous: distinct periods never print alike. */
  lemma ShowInjective(p: Period, q: Period)
    requires Show(p) == Show(q)
    ensures p == q
  {
    var hp, hq := "D" + NatToString(WrapIncU8(p.day)), "D" + NatToString(WrapIncU8(q.day));
    assert Show(p) == hp + ['P'] + NatToString(WrapIncU8(p.slot));
    assert Show(q) == hq + ['P'] + NatToString(WrapIncU8(q.slot));
    assert 'P' !in hp && 'P' !in hq by {
      assert forall i :: 1 <= i < |hp| ==> IsDigit(hp[i]);
      assert forall i :: 1 <= i < |hq| ==> IsDigit(hq[i]);
    }
    SplitAtFirst(hp, NatToString(WrapIncU8(p.slot)), hq, NatToString(WrapIncU8(q.slot)), 'P');
    assert hp[1..] == NatToString(WrapIncU8(p.day));
    assert hq[1..] == NatToString(WrapIncU8(q.day));
    NatToStringInjective(WrapIncU8(p.day), WrapIncU8(q.day));
    NatToStringInjective(WrapIncU8(p.slot), WrapIncU8(q.slot));
  }
}
