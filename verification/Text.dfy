/** Decimal numbers and port numbers as text. */
module Text {

  datatype Option<T> = None | Some(value: T)

  predicate IsDigit(c: char)
  {
    '0' <= c <= '9'
  }

  function DigitValue(c: char): (v: nat)
    requires IsDigit(c)
    ensures v < 10
  {
    c as int - '0' as int
  }

  function DigitChar(v: nat): (c: char)
    requires v < 10
    ensures IsDigit(c) && DigitValue(c) == v
  {
    ('0' as int + v) as char
  }

  /** The ten digits, in order. */
  lemma DigitsAreDecimal(c: char, v: nat)
    requires v < 10
    ensures IsDigit(c) && DigitValue(c) == v <==> c == "0123456789"[v]
    ensures DigitChar(v) == "0123456789"[v]
  {
  }

  predicate AllDigits(s: string)
  {
    forall i :: 0 <= i < |s| ==> IsDigit(s[i])
  }

  function DecimalValue(s: string): nat
    requires AllDigits(s)
  {
    if s == [] then 0 else DecimalValue(s[..|s| - 1]) * 10 + DigitValue(s[|s| - 1])
  }

  /** `std::to_string` of an unsigned number. */
  function Decimal(n: nat): (s: string)
    ensures s != [] && AllDigits(s) && (|s| > 1 ==> s[0] != '0')
  {
    if n < 10 then [DigitChar(n)] else Decimal(n / 10) + [DigitChar(n % 10)]
  }

  lemma {:induction false} ValueOfDecimal(n: nat)
    ensures DecimalValue(Decimal(n)) == n
  {
    if n < 10 {
      assert [DigitChar(n)][..0] == [];
    } else {
      ValueOfDecimal(n / 10);
      assert Decimal(n)[..|Decimal(n)| - 1] == Decimal(n / 10);
    }
  }

  function TenTo(n: nat): nat
  {
    if n == 0 then 1 else TenTo(n - 1) * 10
  }

  /** What the digits stand for by their places. */
  function ByPlaces(s: string): nat
    requires AllDigits(s)
  {
    if s == [] then 0 else DigitValue(s[0]) * TenTo(|s| - 1) + ByPlaces(s[1..])
  }

  /** Reading from the left, ten times what was read so far and the next digit, counts every digit by its place. */
  lemma {:induction false} DecimalIsByPlaces(s: string)
    requires AllDigits(s)
    ensures DecimalValue(s) == ByPlaces(s)
  {
    if s != [] {
      var n := |s| - 1;
      DecimalIsByPlaces(s[..n]);
      LastPlace(s[..n], s[n]);
      assert s == s[..n] + [s[n]];
    }
  }

  lemma {:induction false} LastPlace(front: string, c: char)
    requires AllDigits(front) && IsDigit(c)
    ensures AllDigits(front + [c]) && ByPlaces(front + [c]) == ByPlaces(front) * 10 + DigitValue(c)
  {
    if front == [] {
      assert (front + [c])[1..] == [];
      assert TenTo(0) == 1;
    } else {
      assert (front + [c])[1..] == front[1..] + [c];
      LastPlace(front[1..], c);
      var d, p := DigitValue(front[0]), TenTo(|front| - 1);
      assert TenTo(|front|) == p * 10;
      assert d * (p * 10) == d * p * 10;
    }
  }

  predicate NoLeadingZero(s: string)
  {
    s != [] && (|s| > 1 ==> s[0] != '0')
  }

  lemma {:induction false} LeadingDigitCounts(s: string)
    requires AllDigits(s) && s != [] && s[0] != '0'
    ensures DecimalValue(s) > 0
  {
    if |s| == 1 {
      assert s[..0] == [];
    } else {
      LeadingDigitCounts(s[..|s| - 1]);
    }
  }

  /** Without leading zeros a number has one decimal text. */
  lemma {:induction false} DecimalOfValue(s: string)
    requires AllDigits(s) && NoLeadingZero(s)
    ensures Decimal(DecimalValue(s)) == s
  {
    var n := |s| - 1;
    var v := DigitValue(s[n]);
    assert s == s[..n] + [s[n]] && DigitChar(v) == s[n];
    if n == 0 {
      assert DecimalValue(s[..0]) == 0;
    } else {
      DecimalOfValue(s[..n]);
      LeadingDigitCounts(s[..n]);
      assert (DecimalValue(s[..n]) * 10 + v) / 10 == DecimalValue(s[..n]);
    }
  }

  /** A longer text has no smaller value. */
  lemma {:induction false} PrefixIsLess(s: string, k: nat)
    requires AllDigits(s) && k <= |s|
    ensures AllDigits(s[..k]) && DecimalValue(s[..k]) <= DecimalValue(s)
    decreases |s|
  {
    if k == |s| {
      assert s[..k] == s;
    } else {
      var n := |s| - 1;
      assert s[..n][..k] == s[..k];
      PrefixIsLess(s[..n], k);
    }
  }

  lemma DecimalOneMore(s: string, k: nat)
    requires k < |s| && AllDigits(s[..k]) && IsDigit(s[k])
    ensures AllDigits(s[..k + 1]) && DecimalValue(s[..k + 1]) == DecimalValue(s[..k]) * 10 + DigitValue(s[k])
  {
    assert s[..k + 1][..k] == s[..k];
  }

  const MAX_PORT: nat := 0xFFFF

  /** What `parse_port` accepts: any non-empty run of digits whose value fits, leading zeros included. */
  function PortOf(s: string): Option<nat>
  {
    if s != [] && AllDigits(s) && DecimalValue(s) <= MAX_PORT then Some(DecimalValue(s)) else None
  }

  /** The loop gives up at the first character that is no digit or makes the value too large. */
  method ParsePort(s: string) returns (r: Option<nat>)
    ensures r == PortOf(s)
    ensures r.Some? <==> s != [] && AllDigits(s) && DecimalValue(s) < 65536
    ensures r.Some? ==> r.value == DecimalValue(s)
  {
    if s == [] {
      return None;
    }
    var value := 0;
    var i := 0;
    while i < |s|
      invariant 0 <= i <= |s| && AllDigits(s[..i]) && value == DecimalValue(s[..i]) <= MAX_PORT
    {
      if !IsDigit(s[i]) {
        return None;
      }
      DecimalOneMore(s, i);
      value := value * 10 + DigitValue(s[i]);
      if value > MAX_PORT {
        if AllDigits(s) {
          PrefixIsLess(s, i + 1);
        }
        return None;
      }
      i := i + 1;
    }
    assert s[..i] == s;
    return Some(value);
  }

  lemma PortRoundTrip(port: nat)
    requires port <= MAX_PORT
    ensures PortOf(Decimal(port)) == Some(port)
  {
    ValueOfDecimal(port);
  }

  /** `std::string_view::find` of a character: its first place, or the length. */
  function Find(s: string, c: char, i: nat): (r: nat)
    requires i <= |s|
    ensures i <= r <= |s| && (forall k :: i <= k < r ==> s[k] != c) && (r < |s| ==> s[r] == c)
    decreases |s| - i
  {
    if i == |s| || s[i] == c then i else Find(s, c, i + 1)
  }

  lemma FindInJoin(front: string, c: char, back: string)
    requires c !in front
    ensures Find(front + [c] + back, c, 0) == |front|
  {
    var s := front + [c] + back;
    assert s[|front|] == c;
    assert forall k :: 0 <= k < |front| ==> s[k] == front[k];
  }
}
