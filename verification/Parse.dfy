/** Decimal integers and the subscripts that name struct fields. */
module Parse {
  import opened Options

  const INT64_MIN: int := -0x8000_0000_0000_0000
  const INT64_MAX: int := 0x7fff_ffff_ffff_ffff
  const INT_MAX: int := 0x7fff_ffff

  // Assigning to a variable of this type proves the absence of overflow.
  type int64 = x: int | -0x8000_0000_0000_0000 <= x <= 0x7fff_ffff_ffff_ffff

  predicate IsDigit(c: char) {
    '0' <= c <= '9'
  }

  predicate AllDigits(s: string) {
    forall i :: 0 <= i < |s| ==> IsDigit(s[i])
  }

  function DigitOf(c: char): nat
    requires IsDigit(c)
  {
    c as int - '0' as int
  }

  function Value(s: string): (v: int)
    requires AllDigits(s)
    ensures v >= 0
  {
    if s == "" then 0 else 10 * Value(s[..|s| - 1]) + DigitOf(s[|s| - 1])
  }

  // The integer a string denotes: an optional minus sign and at least one
  // digit, within 64 bits.
  function Int64Of(s: string): Option<int> {
    if s != "" && s[0] == '-' then
      if |s| > 1 && AllDigits(s[1..]) && -Value(s[1..]) >= INT64_MIN then Some(-Value(s[1..])) else None
    else
      if s != "" && AllDigits(s) && Value(s) <= INT64_MAX then Some(Value(s)) else None
  }

  // C's division truncates toward zero.
  function TruncDiv(a: int, b: int): int
    requires b > 0
  {
    if a >= 0 then a / b else -((-a) / b)
  }

  lemma {:induction false} ValueGrows(s: string, i: nat)
    requires AllDigits(s) && i <= |s|
    ensures Value(s[..i]) <= Value(s)
    decreases |s|
  {
    if i < |s| {
      var front := s[..|s| - 1];
      assert front[..i] == s[..i];
      ValueGrows(front, i);
    } else {
      assert s[..i] == s;
    }
  }

  lemma ValueSnoc(s: string, i: nat)
    requires i < |s| && AllDigits(s[..i]) && IsDigit(s[i])
    ensures AllDigits(s[..i + 1])
    ensures Value(s[..i + 1]) == 10 * Value(s[..i]) + DigitOf(s[i])
  {
    assert s[..i + 1][..i] == s[..i];
  }

  // Parse digits `s`, accumulating the value or its negation.
  method ParseDigits(s: string, negative: bool) returns (r: Option<int>)
    ensures r == if AllDigits(s) && (if negative then -Value(s) >= INT64_MIN else Value(s) <= INT64_MAX)
                 then Some(if negative then -Value(s) else Value(s)) else None
  {
    var limit: int64 := if negative then INT64_MIN else INT64_MAX;
    var preLimit: int64 := TruncDiv(limit, 10);
    var val: int64 := 0;
    var i := 0;
    while i < |s|
      invariant 0 <= i <= |s|
      invariant AllDigits(s[..i])
      invariant val == if negative then -Value(s[..i]) else Value(s[..i])
    {
      var digit: int64 := s[i] as int - '0' as int;
      if digit < 0 || digit > 9 {
        return None;
      }
      ValueSnoc(s, i);
      if AllDigits(s) {
        ValueGrows(s, i + 1);
      }
      if negative {
        if val < preLimit {
          return None;
        }
        val := 10 * val;
        if val != 0 {
          var room: int64 := val - limit;
          if room < digit {
            return None;
          }
        }
        val := val - digit;
      } else {
        if val > preLimit {
          return None;
        }
        val := 10 * val;
        var room: int64 := limit - val;
        if room < digit {
          return None;
        }
        val := val + digit;
      }
      i := i + 1;
    }
    assert s[..|s|] == s;
    return Some(val);
  }

  // Succeeds exactly on the 64-bit integers written -?[0-9]+.
  method Int64Parse(s: string) returns (r: Option<int>)
    ensures r == Int64Of(s)
  {
    if |s| == 0 {
      return None;
    }
    if s[0] == '-' {
      if |s| == 1 {
        return None;
      }
      r := ParseDigits(s[1..], true);
    } else {
      r := ParseDigits(s, false);
    }
  }

  /** Struct subscripts: field indices separated by dots, null-terminated or not. */

  // Index of the first dot, or the length.
  function FirstDot(s: string): (d: nat)
    ensures d <= |s|
    ensures d < |s| ==> s[d] == '.'
    ensures forall i :: 0 <= i < d ==> s[i] != '.'
  {
    if s == "" || s[0] == '.' then 0 else 1 + FirstDot(s[1..])
  }

  datatype Popped = Popped(index: nat, consumed: nat, rest: Option<string>)

  // First component of a subscript, bytes consumed, and the remaining subscript.
  function StructPop(sub: string): Option<Popped>
    requires sub != ""
  {
    var d := FirstDot(sub);
    var component := if d < |sub| then sub[..d]
                     else if sub[|sub| - 1] == '\0' then sub[..|sub| - 1] else sub;
    var ix := Int64Of(component);
    if ix.None? || ix.value < 0 || ix.value > INT_MAX then None
    else if d < |sub| then Some(Popped(ix.value, d + 1, Some(sub[d + 1..])))
    else Some(Popped(ix.value, |sub|, None))
  }

  method StructSubscriptPop(sub: string) returns (r: Option<Popped>)
    requires sub != ""
    ensures r == StructPop(sub)
  {
    var d := 0;
    while d < |sub| && sub[d] != '.'
      invariant 0 <= d <= |sub|
      invariant forall i :: 0 <= i < d ==> sub[i] != '.'
      invariant FirstDot(sub) == d + FirstDot(sub[d..])
    {
      assert sub[d..][1..] == sub[d + 1..];
      d := d + 1;
    }
    var component, rest, consumed := sub, None, |sub|;
    if d < |sub| {
      component, rest, consumed := sub[..d], Some(sub[d + 1..]), d + 1;
    } else if sub[|sub| - 1] == '\0' {
      component := sub[..|sub| - 1];
    }
    var ix := Int64Parse(component);
    if ix.None? || ix.value < 0 || ix.value > INT_MAX {
      return None;
    }
    return Some(Popped(ix.value, consumed, rest));
  }

  function Decimal(n: nat): (s: string)
    ensures s != "" && AllDigits(s)
  {
    if n < 10 then [('0' as int + n) as char] else Decimal(n / 10) + [('0' as int + n % 10) as char]
  }

  lemma {:induction false} DecimalValue(n: nat)
    ensures Value(Decimal(n)) == n
  {
    if n >= 10 {
      DecimalValue(n / 10);
      assert Decimal(n)[..|Decimal(n)| - 1] == Decimal(n / 10);
    }
  }

  // The subscript of field i below the subscript of its parent.
  function ChildSub(parent: Option<string>, i: nat): (s: string)
    requires parent.Some? ==> parent.value != ""
    ensures s != ""
  {
    if parent.None? then Decimal(i) + ['\0']
    else parent.value[..|parent.value| - 1] + "." + Decimal(i) + ['\0']
  }

  // The subscript printed on the way down a path of field indices.
  function PathSub(path: seq<nat>): (s: string)
    requires path != []
    ensures s != ""
  {
    if |path| == 1 then ChildSub(None, path[0])
    else ChildSub(Some(PathSub(path[..|path| - 1])), path[|path| - 1])
  }

  // The field indices read off a subscript by popping until nothing is left.
  function PopAll(sub: Option<string>): Option<seq<nat>>
    decreases if sub.None? then 0 else |sub.value| + 1
  {
    if sub.None? then Some([])
    else if sub.value == "" then None
    else
      var p := StructPop(sub.value);
      if p.None? then None
      else
        var rest := PopAll(p.value.rest);
        if rest.None? then None else Some([p.value.index] + rest.value)
  }

  lemma {:induction false} FirstDotOf(a: string, b: string)
    requires forall i :: 0 <= i < |a| ==> a[i] != '.'
    ensures FirstDot(a + "." + b) == |a|
  {
    if a == "" {
      assert a + "." + b == "." + b;
    } else {
      assert (a + "." + b)[1..] == a[1..] + "." + b;
      FirstDotOf(a[1..], b);
    }
  }

  lemma {:induction false} NoDot(a: string)
    requires forall i :: 0 <= i < |a| ==> a[i] != '.'
    ensures FirstDot(a) == |a|
  {
  }

  lemma ChildSubUnder(d: string, p: string, i: nat)
    requires p != ""
    ensures ChildSub(Some(d + "." + p), i) == d + "." + ChildSub(Some(p), i)
  {
    hide Decimal;
    var e := "." + Decimal(i) + ['\0'];
    assert (d + "." + p)[..|d + "." + p| - 1] == d + "." + p[..|p| - 1];
    assert ChildSub(Some(p), i) == p[..|p| - 1] + e;
    assert ChildSub(Some(d + "." + p), i) == d + "." + p[..|p| - 1] + e;
  }

  lemma ChildSubOfRoot(i: nat, j: nat)
    ensures ChildSub(Some(ChildSub(None, i)), j) == Decimal(i) + "." + ChildSub(None, j)
  {
    hide Decimal;
    var d := Decimal(i);
    assert (d + ['\0'])[..|d|] == d;
  }

  // Below the first component a path's subscript is that of the rest of the path.
  lemma {:induction false} PathSubCons(path: seq<nat>)
    requires |path| > 1
    ensures PathSub(path) == Decimal(path[0]) + "." + PathSub(path[1..])
  {
    hide Decimal, ChildSub;
    var front, last := path[..|path| - 1], path[|path| - 1];
    var tail := path[1..];
    if |path| == 2 {
      assert front == [path[0]] && tail == [last];
      ChildSubOfRoot(path[0], last);
    } else {
      assert tail[..|tail| - 1] == front[1..] && tail[|tail| - 1] == last;
      PathSubCons(front);
      ChildSubUnder(Decimal(path[0]), PathSub(front[1..]), last);
    }
  }

  lemma PopDecimal(n: nat)
    requires n <= INT_MAX
    ensures Int64Of(Decimal(n)) == Some(n)
    ensures forall i :: 0 <= i < |Decimal(n)| ==> Decimal(n)[i] != '.' && Decimal(n)[i] != '\0'
  {
    DecimalValue(n);
    assert IsDigit(Decimal(n)[0]);
  }

  lemma PopLast(n: nat)
    requires n <= INT_MAX
    ensures StructPop(Decimal(n) + ['\0']) == Some(Popped(n, |Decimal(n)| + 1, None))
  {
    PopDecimal(n);
    var sub := Decimal(n) + ['\0'];
    NoDot(sub);
    assert sub[..|sub| - 1] == Decimal(n);
  }

  lemma PopFirst(n: nat, rest: string)
    requires n <= INT_MAX
    ensures StructPop(Decimal(n) + "." + rest) == Some(Popped(n, |Decimal(n)| + 1, Some(rest)))
  {
    PopDecimal(n);
    var d := Decimal(n);
    var sub := d + "." + rest;
    FirstDotOf(d, rest);
    assert sub[..|d|] == d && sub[|d| + 1..] == rest;
  }

  // Any path of field indices is read back exactly.
  lemma {:induction false} PathRoundTrip(path: seq<nat>)
    requires path != [] && forall i :: 0 <= i < |path| ==> path[i] <= INT_MAX
    ensures PopAll(Some(PathSub(path))) == Some(path)
  {
    hide StructPop, Decimal;
    if |path| == 1 {
      PopLast(path[0]);
      assert PopAll(Option<string>.None) == Some([]);
      assert path == [path[0]] + [];
    } else {
      PathSubCons(path);
      PathRoundTrip(path[1..]);
      PopFirst(path[0], PathSub(path[1..]));
      assert path == [path[0]] + path[1..];
    }
  }
}
