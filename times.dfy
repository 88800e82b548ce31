/** Python's `datetime.time`, `date` and `datetime` values as the backend uses them.
    A `date` is a day number and a `datetime` a number of microseconds, both counted from a
    fixed epoch; a `time` keeps its four fields, because the validators read the hour and
    minute fields separately. */
module Times {

  /** `datetime.time(hour, minute, second, microsecond)` without a time zone. */
  datatype Time = Time(hour: nat, minute: nat, second: nat, micro: nat)
  {
    /** The ranges Python's constructor enforces. */
    predicate Valid()
    {
      hour < 24 && minute < 60 && second < 60 && micro < 1000000
    }

    /** Microseconds since midnight: the reference order for times. */
    function Micros(): nat
    {
      ((hour * 60 + minute) * 60 + second) * 1000000 + micro
    }

    /** Whole minutes since midnight, seconds and microseconds dropped. */
    function Minutes(): nat
    {
      hour * 60 + minute
    }
  }

  /** Python compares two `time` values field by field, most significant first. */
  predicate Before(a: Time, b: Time)
  {
    if a.hour != b.hour then a.hour < b.hour
    else if a.minute != b.minute then a.minute < b.minute
    else if a.second != b.second then a.second < b.second
    else a.micro < b.micro
  }

  /** The field-by-field order is the order of the instants the times denote. */
  lemma BeforeIsMicrosOrder(a: Time, b: Time)
    requires a.Valid() && b.Valid()
    ensures Before(a, b) <==> a.Micros() < b.Micros()
  {
    var sa := (a.hour * 60 + a.minute) * 60 + a.second;
    var sb := (b.hour * 60 + b.minute) * 60 + b.second;
    assert a.Micros() == sa * 1000000 + a.micro;
    assert b.Micros() == sb * 1000000 + b.micro;
    SecondsOrder(a, b);
    if sa < sb {
      LiftOrder(sa, a.micro, sb, b.micro);
    } else if sb < sa {
      LiftOrder(sb, b.micro, sa, a.micro);
    }
  }

  lemma SecondsOrder(a: Time, b: Time)
    requires a.Valid() && b.Valid()
    ensures var sa := (a.hour * 60 + a.minute) * 60 + a.second;
            var sb := (b.hour * 60 + b.minute) * 60 + b.second;
            (sa < sb <==> (a.hour, a.minute, a.second) != (b.hour, b.minute, b.second)
                          && (if a.hour != b.hour then a.hour < b.hour
                              else if a.minute != b.minute then a.minute < b.minute
                              else a.second < b.second))
            && (sa == sb <==> (a.hour, a.minute, a.second) == (b.hour, b.minute, b.second))
  {
    var ma := a.hour * 60 + a.minute;
    var mb := b.hour * 60 + b.minute;
    if a.hour < b.hour {
      assert ma < mb by { LiftOrder(a.hour, a.minute, b.hour, b.minute, 60); }
    } else if b.hour < a.hour {
      assert mb < ma by { LiftOrder(b.hour, b.minute, a.hour, a.minute, 60); }
    }
    if ma < mb {
      LiftOrder(ma, a.second, mb, b.second, 60);
    } else if mb < ma {
      LiftOrder(mb, b.second, ma, a.second, 60);
    }
  }

  /** A larger high digit wins whatever the low digits are. */
  lemma LiftOrder(hi1: nat, lo1: nat, hi2: nat, lo2: nat, base: nat := 1000000)
    requires hi1 < hi2 && lo1 < base && lo2 < base
    ensures hi1 * base + lo1 < hi2 * base + lo2
  {
    var k := hi2 - hi1;
    assert (k - 1) * base >= 0;
    assert k * base == base + (k - 1) * base;
    assert hi2 * base == hi1 * base + k * base;
  }
}
