/**
 * Shared vocabulary of the model: outcomes of operations that the Python code
 * signals with exceptions, ASCII decimal digits, the decimal rendering that
 * Python's `str(int)` produces, and the named columns of a table.
 */
module Common {

  datatype Option<+T> = None | Some(value: T)

  /** The success value of an operation, or the exception it raises. */
  datatype Result<+T, +E> = Ok(value: T) | Err(error: E)

  /** A loop that computes f of each element in order and stops at the first
      exception: the results of every element, or the first error. */
  function CollectAll<X, V, E>(f: X --> Result<V, E>, xs: seq<X>): Result<seq<V>, E>
    requires forall j :: 0 <= j < |xs| ==> f.requires(xs[j])
  {
    if xs == [] then Ok([])
    else
      var init := xs[..|xs| - 1];
      assert forall j :: 0 <= j < |init| ==> init[j] == xs[j];
      match CollectAll(f, init)
      case Err(e) => Err(e)
      case Ok(done) =>
        match f(xs[|xs| - 1])
        case Err(e) => Err(e)
        case Ok(v) => Ok(done + [v])
  }

  /** The loop succeeds exactly when no element fails. */
  lemma {:induction false} CollectAllOk<X, V, E>(f: X --> Result<V, E>, xs: seq<X>)
    requires forall j :: 0 <= j < |xs| ==> f.requires(xs[j])
    ensures CollectAll(f, xs).Ok? <==> forall j :: 0 <= j < |xs| ==> f(xs[j]).Ok?
  {
    if xs != [] {
      var n := |xs| - 1;
      var init := xs[..n];
      CollectAllOk(f, init);
      assert forall j :: 0 <= j < n ==> init[j] == xs[j];
    }
  }

  /** On success there is one result per element, in order. */
  lemma {:induction false} CollectAllEntries<X, V, E>(f: X --> Result<V, E>, xs: seq<X>)
    requires forall j :: 0 <= j < |xs| ==> f.requires(xs[j])
    requires CollectAll(f, xs).Ok?
    ensures |CollectAll(f, xs).value| == |xs|
    ensures forall j :: 0 <= j < |xs| ==> f(xs[j]) == Ok(CollectAll(f, xs).value[j])
  {
    if xs != [] {
      var n := |xs| - 1;
      var init := xs[..n];
      CollectAllEntries(f, init);
      assert forall j :: 0 <= j < n ==> init[j] == xs[j];
    }
  }

  /** On failure the error is that of the first element that fails. */
  lemma {:induction false} CollectAllFirstError<X, V, E>(f: X --> Result<V, E>, xs: seq<X>)
    requires forall j :: 0 <= j < |xs| ==> f.requires(xs[j])
    requires CollectAll(f, xs).Err?
    ensures exists j ::
      && 0 <= j < |xs|
      && f(xs[j]) == Err(CollectAll(f, xs).error)
      && forall l :: 0 <= l < j ==> f(xs[l]).Ok?
  {
    var n := |xs| - 1;
    var init := xs[..n];
    assert forall j :: 0 <= j < n ==> init[j] == xs[j];
    if CollectAll(f, init).Err? {
      CollectAllFirstError(f, init);
      var j :| 0 <= j < |init| && f(init[j]) == Err(CollectAll(f, init).error)
        && forall l :: 0 <= l < j ==> f(init[l]).Ok?;
      assert f(xs[j]) == Err(CollectAll(f, xs).error);
    } else {
      CollectAllOk(f, init);
      assert f(xs[n]) == Err(CollectAll(f, xs).error);
    }
  }

  /** One more element extends the results, or ends the loop with its error. */
  lemma CollectAllStep<X, V, E>(f: X --> Result<V, E>, xs: seq<X>, j: nat, done: seq<V>)
    requires forall j :: 0 <= j < |xs| ==> f.requires(xs[j])
    requires j < |xs| && CollectAll(f, xs[..j]) == Ok(done)
    ensures f.requires(xs[j])
    ensures CollectAll(f, xs[..j + 1]) ==
      match f(xs[j])
      case Err(e) => Err(e)
      case Ok(v) => Ok(done + [v])
  {
    assert xs[..j + 1][..j] == xs[..j] && xs[..j + 1][j] == xs[j];
  }

  /** Once a prefix fails, the loop fails with that error. */
  lemma {:induction false} CollectAllErrStops<X, V, E>(f: X --> Result<V, E>, xs: seq<X>, k: nat)
    requires forall j :: 0 <= j < |xs| ==> f.requires(xs[j])
    requires k <= |xs| && CollectAll(f, xs[..k]).Err?
    ensures CollectAll(f, xs) == CollectAll(f, xs[..k])
    decreases |xs| - k
  {
    if k < |xs| {
      assert xs[..k + 1][..k] == xs[..k];
      CollectAllErrStops(f, xs, k + 1);
    } else {
      assert xs[..k] == xs;
    }
  }

  /** A named column of a table: a column name and one value per row. */
  datatype Column = Column(name: string, values: seq<real>)

  /** No two columns share a name, as in a dictionary keyed by column name. */
  predicate DistinctNames(cols: seq<Column>) {
    forall i, j :: 0 <= i < j < |cols| ==> cols[i].name != cols[j].name
  }

  predicate IsDigit(c: char) {
    '0' <= c <= '9'
  }

  predicate AllDigits(s: string) {
    forall i :: 0 <= i < |s| ==> IsDigit(s[i])
  }

  function DigitValue(c: char): (d: nat)
    requires IsDigit(c)
    ensures d < 10
  {
    (c as int) - ('0' as int)
  }

  function DigitChar(d: nat): (c: char)
    requires d < 10
    ensures IsDigit(c) && DigitValue(c) == d
  {
    (('0' as int) + d) as char
  }

  function Pow10(k: nat): (p: nat)
    ensures p >= 1
  {
    if k == 0 then 1 else 10 * Pow10(k - 1)
  }

  /** The value of a string of decimal digits, as Python's `int()` reads it. */
  function DecimalValue(s: string): nat
    requires AllDigits(s)
  {
    if s == [] then 0 else 10 * DecimalValue(s[..|s| - 1]) + DigitValue(s[|s| - 1])
  }

  /** k digits can only spell a number below 10^k. */
  lemma {:induction false} DecimalValueBound(s: string)
    requires AllDigits(s)
    ensures DecimalValue(s) < Pow10(|s|)
  {
    if s != [] {
      DecimalValueBound(s[..|s| - 1]);
    }
  }

  /** Python's `str(n)` for a natural number: decimal digits, no leading zero. */
  function NatToDecimal(n: nat): (s: string)
    ensures 1 <= |s| && AllDigits(s)
    ensures s[0] == '0' <==> n == 0
    decreases n
  {
    if n < 10 then [DigitChar(n)] else NatToDecimal(n / 10) + [DigitChar(n % 10)]
  }

  /** Reading back the rendering of a natural number gives the number. */
  lemma {:induction false} DecimalRoundTrip(n: nat)
    ensures DecimalValue(NatToDecimal(n)) == n
  {
    if n >= 10 {
      DecimalRoundTrip(n / 10);
      var s := NatToDecimal(n);
      assert s[..|s| - 1] == NatToDecimal(n / 10);
    }
  }

  /** Python's `str(n)` for any integer: a minus sign before negative numbers. */
  function IntToDecimal(n: int): (s: string)
    ensures 1 <= |s|
    ensures s[0] == '-' <==> n < 0
  {
    if n < 0 then "-" + NatToDecimal(-n) else NatToDecimal(n)
  }

  /** Different integers render differently. */
  lemma IntToDecimalInjective(x: int, y: int)
    requires IntToDecimal(x) == IntToDecimal(y)
    ensures x == y
  {
    if x < 0 {
      assert IntToDecimal(x)[1..] == NatToDecimal(-x);
      assert IntToDecimal(y)[1..] == NatToDecimal(-y);
      DecimalRoundTrip(-x);
      DecimalRoundTrip(-y);
    } else {
      DecimalRoundTrip(x);
      DecimalRoundTrip(y);
    }
  }

  /** A positive multiple of n is at least n. */
  lemma {:induction false} MulAtLeast(x: int, n: nat)
    ensures x >= 1 ==> x * n >= n
    decreases if x < 0 then 0 else x
  {
    if x > 1 {
      MulAtLeast(x - 1, n);
    }
  }

  /** Multiplying by a natural number keeps the order. */
  lemma MulMono(a: int, b: int, n: nat)
    ensures a <= b ==> a * n <= b * n
  {
    MulAtLeast(b - a, n);
    assert (b - a) * n == b * n - a * n;
  }
}
