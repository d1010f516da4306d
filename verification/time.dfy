/** The part of Rust's `std::time::Duration` the parser relies on: a
    whole-seconds count plus a nanosecond remainder kept below one second,
    the normalising constructor `Duration::new` and addition.

    Seconds are unbounded here; the `u64` overflow panics of `new` and `+`
    are not modelled. */
module Time {

  const NanosPerSec: nat := 1_000_000_000

  type Subsec = n: nat | n < NanosPerSec

  datatype Duration = Duration(secs: nat, nanos: Subsec)

  const Zero: Duration := Duration(0, 0)

  /** `Duration::as_nanos`: the whole duration counted in nanoseconds. */
  function AsNanos(d: Duration): nat
  {
    d.secs * NanosPerSec + d.nanos
  }

  /** The duration that is `n` nanoseconds long. */
  function FromNanos(n: nat): (d: Duration)
    ensures AsNanos(d) == n
  {
    Duration(n / NanosPerSec, n % NanosPerSec)
  }

  /** A duration is determined by its nanosecond count. */
  lemma AsNanosInjective(a: Duration, b: Duration)
    ensures AsNanos(a) == AsNanos(b) <==> a == b
  {
  }

  /** Converting to nanoseconds and back is the identity. */
  lemma FromNanosAsNanos(d: Duration)
    ensures FromNanos(AsNanos(d)) == d
  {
    AsNanosInjective(FromNanos(AsNanos(d)), d);
  }

  /** `Duration::new(secs, nanos)`: a nanosecond argument of a second or
      more is carried into the seconds. */
  function New(secs: nat, nanos: nat): (d: Duration)
    ensures AsNanos(d) == secs * NanosPerSec + nanos
    ensures nanos < NanosPerSec ==> d.secs == secs && d.nanos == nanos
  {
    if nanos < NanosPerSec then Duration(secs, nanos)
    else Duration(secs + nanos / NanosPerSec, nanos % NanosPerSec)
  }

  /** `a + b`: seconds and nanoseconds are added separately and one second
      is carried when the nanoseconds reach a full second. */
  function Add(a: Duration, b: Duration): (d: Duration)
    ensures AsNanos(d) == AsNanos(a) + AsNanos(b)
  {
    var nanos := a.nanos + b.nanos;
    if nanos >= NanosPerSec then Duration(a.secs + b.secs + 1, nanos - NanosPerSec)
    else Duration(a.secs + b.secs, nanos)
  }

  /** Addition is commutative, associative and has `Zero` as its unit, so
      the order in which spans are summed does not change the total. */
  lemma AddIsCommutativeMonoid(a: Duration, b: Duration, c: Duration)
    ensures Add(a, b) == Add(b, a)
    ensures Add(Add(a, b), c) == Add(a, Add(b, c))
    ensures Add(Zero, a) == a && Add(a, Zero) == a
  {
    AsNanosInjective(Add(a, b), Add(b, a));
    AsNanosInjective(Add(Add(a, b), c), Add(a, Add(b, c)));
    AsNanosInjective(Add(Zero, a), a);
    AsNanosInjective(Add(a, Zero), a);
  }
}
