/** Shared vocabulary of the model: optional values, results, sums of reals,
    Python-style rounding, ASCII case mapping, substring search, Python's
    string order and `sorted` on a set of strings, and the
    column-oriented position table every venue adapter produces. */
module Common {

  datatype Option<T> = None | Some(value: T)

  datatype Result<T, E> = Ok(value: T) | Err(error: E)

  /** A calendar date and a wall-clock time stamp as `%Y-%m-%d %H:%M:%S` renders it. */
  datatype Date = Date(year: int, month: int, day: int)
  datatype Stamp = Stamp(date: Date, hour: int, minute: int, second: int)

  /** A cell of a dynamically typed column or row. `Blank` is an empty CSV field (NaN). */
  datatype Cell = Text(s: string) | Int(i: int) | Num(r: real) | When(t: Stamp) | Blank

  /** The names of named columns, in order. */
  function Names(columns: seq<(string, seq<Cell>)>): (ks: seq<string>)
    ensures |ks| == |columns| && forall i :: 0 <= i < |columns| ==> ks[i] == columns[i].0
  {
    seq(|columns|, i requires 0 <= i < |columns| => columns[i].0)
  }

  /** The cells of named columns, in order. */
  function Lists(columns: seq<(string, seq<Cell>)>): (ls: seq<seq<Cell>>)
    ensures |ls| == |columns| && forall i :: 0 <= i < |columns| ==> ls[i] == columns[i].1
  {
    seq(|columns|, i requires 0 <= i < |columns| => columns[i].1)
  }

  // ---------------------------------------------------------------------------
  // Sums

  /** Left-to-right sum, the value of a `total += x` accumulator loop. */
  function Sum(s: seq<real>): real
  {
    if s == [] then 0.0 else Sum(s[..|s| - 1]) + s[|s| - 1]
  }

  /** A running total after one more contribution; the first error sticks. */
  function Accrue(acc: Result<real, string>, v: Result<real, string>): Result<real, string>
  {
    match acc
    case Err(e) => Err(e)
    case Ok(s) =>
      match v
      case Err(e) => Err(e)
      case Ok(x) => Ok(s + x)
  }

  lemma {:induction false} SumAppend(a: seq<real>, b: seq<real>)
    ensures Sum(a + b) == Sum(a) + Sum(b)
    decreases |b|
  {
    if b == [] {
      assert a + b == a;
    } else {
      assert (a + b)[..|a + b| - 1] == a + b[..|b| - 1];
      SumAppend(a, b[..|b| - 1]);
    }
  }

  lemma SumSingle(x: real)
    ensures Sum([x]) == x
  {
    assert [x][..0] == [];
  }

  lemma SumPrefixStep(s: seq<real>, i: nat)
    requires i < |s|
    ensures Sum(s[..i + 1]) == Sum(s[..i]) + s[i]
  {
    assert s[..i + 1][..i] == s[..i];
  }

  // ---------------------------------------------------------------------------
  // Rounding

  function Pow10(n: nat): (r: nat)
    ensures r >= 1
  {
    if n == 0 then 1 else 10 * Pow10(n - 1)
  }

  /** Round half to even at `scaled`, as Python's round() does on an exact value. */
  function RoundHalfEven(scaled: real): (k: int)
    ensures scaled - 0.5 <= k as real <= scaled + 0.5
  {
    var f := scaled.Floor;
    var frac := scaled - f as real;
    if frac < 0.5 then f
    else if frac > 0.5 then f + 1
    else if f % 2 == 0 then f else f + 1
  }

  /** `10 ** digits` as a real. */
  function Scale(digits: nat): (r: real)
    ensures r >= 1.0
  {
    Pow10(digits) as real
  }

  /** `a * b`, named so that equal products are recognised by their operands. */
  function Mul(a: real, b: real): real
  {
    a * b
  }

  /** Python's `round(x, digits)` on the exact value of x. */
  function Round(x: real, digits: nat): real
  {
    (RoundHalfEven(Mul(x, Scale(digits))) as real) / Scale(digits)
  }

  /** The rounded value is within half a unit of the last digit. */
  lemma RoundClose(x: real, digits: nat)
    ensures x - 0.5 / Scale(digits) <= Round(x, digits) <= x + 0.5 / Scale(digits)
  {
    ScaledBack(x, Scale(digits), RoundHalfEven(Mul(x, Scale(digits))));
  }

  lemma ScaledBack(x: real, s: real, k: int)
    requires s >= 1.0 && Mul(x, s) - 0.5 <= k as real <= Mul(x, s) + 0.5
    ensures x - 0.5 / s <= (k as real) / s <= x + 0.5 / s
  {
    DivMonotone(x * s - 0.5, k as real, s);
    DivMonotone(k as real, x * s + 0.5, s);
    assert (x * s - 0.5) / s == x - 0.5 / s;
    assert (x * s + 0.5) / s == x + 0.5 / s;
  }

  /** Rounding a whole number changes nothing. */
  lemma RoundWhole(k: int, digits: nat)
    ensures Round(k as real, digits) == k as real
  {
    assert Mul(k as real, Scale(digits)) == (k * Pow10(digits)) as real;
    assert RoundHalfEven(Mul(k as real, Scale(digits))) == k * Pow10(digits);
    var t := RoundHalfEven(Mul(k as real, Scale(digits))) as real;
    assert t == (k * Pow10(digits)) as real;
    assert t / Scale(digits) == k as real;
  }

  lemma DivMonotone(a: real, b: real, p: real)
    requires a <= b && p > 0.0
    ensures a / p <= b / p
  {
  }


  /** Python's `round(x)`, which returns an int. */
  function RoundToInt(x: real): (k: int)
    ensures x - 0.5 <= k as real <= x + 0.5
  {
    RoundHalfEven(x)
  }

  /** Python's `int(x)` on a float: truncation toward zero. */
  function Trunc(x: real): (k: int)
    ensures 0.0 <= x ==> 0 <= k && k as real <= x < k as real + 1.0
    ensures x < 0.0 ==> k <= 0 && k as real - 1.0 < x <= k as real
  {
    if x >= 0.0 then x.Floor else -((-x).Floor)
  }

  // ---------------------------------------------------------------------------
  // Strings (ASCII case mapping; Python's full Unicode mapping is not modelled)

  function LowerChar(c: char): char
  {
    if 'A' <= c <= 'Z' then (c as int + 32) as char else c
  }

  function UpperChar(c: char): char
  {
    if 'a' <= c <= 'z' then (c as int - 32) as char else c
  }

  function Lower(s: string): (r: string)
    ensures |r| == |s|
    ensures forall i :: 0 <= i < |s| ==> r[i] == LowerChar(s[i])
  {
    if s == [] then [] else [LowerChar(s[0])] + Lower(s[1..])
  }

  function Upper(s: string): (r: string)
    ensures |r| == |s|
    ensures forall i :: 0 <= i < |s| ==> r[i] == UpperChar(s[i])
  {
    if s == [] then [] else [UpperChar(s[0])] + Upper(s[1..])
  }

  /** Python's `sub in s` for strings. */
  predicate Contains(s: string, sub: string)
    decreases |s|
  {
    |sub| <= |s| && (s[..|sub|] == sub || Contains(s[1..], sub))
  }

  lemma {:induction false} ContainsAt(s: string, sub: string, i: nat)
    requires i + |sub| <= |s| && s[i..i + |sub|] == sub
    ensures Contains(s, sub)
    decreases i
  {
    if i > 0 {
      assert s[1..][i - 1..i - 1 + |sub|] == s[i..i + |sub|];
      ContainsAt(s[1..], sub, i - 1);
    }
  }

  /** `str(n)` for a natural number. */
  function DecimalString(n: nat): (r: string)
    ensures |r| >= 1
    ensures forall i :: 0 <= i < |r| ==> '0' <= r[i] <= '9'
  {
    if n < 10 then [('0' as int + n) as char]
    else DecimalString(n / 10) + [('0' as int + n % 10) as char]
  }

  /** Joins `parts` with `sep`, as Python's `sep.join(parts)`. */
  function Join(parts: seq<string>, sep: string): string
  {
    if parts == [] then ""
    else if |parts| == 1 then parts[0]
    else parts[0] + sep + Join(parts[1..], sep)
  }

  /** No character of `s` is in `seps`. */
  predicate Plain(s: string, seps: set<char>)
  {
    forall i :: 0 <= i < |s| ==> s[i] !in seps
  }

  /** `re.split("[...]", s)` for a character class `seps`: the pieces between
      separators, empty pieces included; never fewer than one. */
  function Split(s: string, seps: set<char>): (parts: seq<string>)
    ensures |parts| >= 1
    ensures forall j :: 0 <= j < |parts| ==> Plain(parts[j], seps)
  {
    if s == [] then [""]
    else
      var init := Split(s[..|s| - 1], seps);
      if s[|s| - 1] in seps then init + [""]
      else init[..|init| - 1] + [init[|init| - 1] + [s[|s| - 1]]]
  }

  /** A character that is not a separator extends the last piece. */
  lemma SplitPlainChar(s: string, c: char, seps: set<char>)
    requires c !in seps
    ensures var p := Split(s, seps);
      Split(s + [c], seps) == p[..|p| - 1] + [p[|p| - 1] + [c]]
  {
    assert (s + [c])[..|s + [c]| - 1] == s;
  }

  /** Text without separators extends the last piece. */
  lemma {:induction false} SplitAppendPlain(a: string, t: string, seps: set<char>)
    requires Plain(t, seps)
    ensures var p := Split(a, seps);
      Split(a + t, seps) == p[..|p| - 1] + [p[|p| - 1] + t]
  {
    var p := Split(a, seps);
    if t != [] {
      var t', c := t[..|t| - 1], t[|t| - 1];
      assert Plain(t', seps);
      SplitAppendPlain(a, t', seps);
      var q := Split(a + t', seps);
      assert a + t == (a + t') + [c];
      SplitPlainChar(a + t', c, seps);
      assert q[..|q| - 1] == p[..|p| - 1];
      assert p[|p| - 1] + t' + [c] == p[|p| - 1] + t;
    } else {
      assert a + t == a;
      assert p[|p| - 1] + t == p[|p| - 1];
      assert p[..|p| - 1] + [p[|p| - 1]] == p;
    }
  }

  /** A string splits into one piece exactly when it has no separator, and
      that piece is the string itself. */
  lemma SplitSingle(s: string, seps: set<char>)
    ensures |Split(s, seps)| == 1 <==> Plain(s, seps)
    ensures Plain(s, seps) ==> Split(s, seps) == [s]
  {
    if Plain(s, seps) {
      SplitPlain(s, seps);
    } else {
      SplitSeparated(s, seps);
    }
  }

  lemma SplitPlain(s: string, seps: set<char>)
    requires Plain(s, seps)
    ensures Split(s, seps) == [s]
  {
    SplitAppendPlain([], s, seps);
    assert [] + s == s;
  }

  lemma SplitSeparated(s: string, seps: set<char>)
    requires !Plain(s, seps)
    ensures |Split(s, seps)| >= 2
  {
    var i :| 0 <= i < |s| && s[i] in seps;
    SplitLast(s[..i], s[i], s[i + 1..], seps);
    assert s[..i] + [s[i]] + s[i + 1..] == s;
  }

  /** Splitting a string with at least one separator: the pieces before the
      last separator, then the text after it. */
  lemma SplitLast(a: string, c: char, t: string, seps: set<char>)
    requires c in seps
    ensures |Split(a + [c] + t, seps)| >= 2
    ensures Plain(t, seps) ==> Split(a + [c] + t, seps) == Split(a, seps) + [t]
  {
    var p := Split(a + [c], seps);
    assert (a + [c])[..|a + [c]| - 1] == a;
    assert p == Split(a, seps) + [""];
    SplitMore(a + [c], t, seps);
    if Plain(t, seps) {
      SplitAppendPlain(a + [c], t, seps);
      assert "" + t == t;
    }
  }

  /** Appending text never lowers the number of pieces. */
  lemma {:induction false} SplitMore(a: string, t: string, seps: set<char>)
    ensures |Split(a + t, seps)| >= |Split(a, seps)|
  {
    if t != [] {
      SplitMore(a, t[..|t| - 1], seps);
      assert (a + t)[..|a + t| - 1] == a + t[..|t| - 1];
      var q := Split(a + t[..|t| - 1], seps);
      assert |Split(a + t, seps)| == |q| || |Split(a + t, seps)| == |q| + 1;
    } else {
      assert a + t == a;
    }
  }

  /** The last piece is what follows the last separator. */
  lemma SplitLastPiece(b: string, r: string, seps: set<char>)
    requires b == [] || b[|b| - 1] in seps
    requires Plain(r, seps)
    ensures var p := Split(b + r, seps); p[|p| - 1] == r
  {
    SplitAppendPlain(b, r, seps);
    assert "" + r == r;
  }

  /** Position of the first occurrence of `x` in `s`, as Python's `list.index`. */
  function IndexOf<T(==)>(s: seq<T>, x: T): (i: nat)
    requires x in s
    ensures i < |s| && s[i] == x
    ensures forall j :: 0 <= j < i ==> s[j] != x
  {
    if s[0] == x then 0 else 1 + IndexOf(s[1..], x)
  }

  lemma {:induction false} IndexOfLeft<T>(a: seq<T>, b: seq<T>, x: T)
    requires x in a
    ensures IndexOf(a + b, x) == IndexOf(a, x)
  {
    if a[0] != x {
      assert (a + b)[1..] == a[1..] + b;
      IndexOfLeft(a[1..], b, x);
    }
  }

  lemma {:induction false} IndexOfRight<T>(a: seq<T>, b: seq<T>, x: T)
    requires x !in a && x in b
    ensures IndexOf(a + b, x) == |a| + IndexOf(b, x)
  {
    if a == [] {
      assert a + b == b;
    } else {
      assert (a + b)[1..] == a[1..] + b;
      IndexOfRight(a[1..], b, x);
    }
  }

  /** Some element of `xs` passes the test `bad`, looked for from the back. */
  predicate AnyOf<T>(xs: seq<T>, bad: T -> bool)
  {
    xs != [] && (AnyOf(xs[..|xs| - 1], bad) || bad(xs[|xs| - 1]))
  }

  lemma {:induction false} AnyOfSpec<T>(xs: seq<T>, bad: T -> bool)
    ensures AnyOf(xs, bad) <==> exists j :: 0 <= j < |xs| && bad(xs[j])
    decreases |xs|
  {
    if xs != [] {
      var init := xs[..|xs| - 1];
      AnyOfSpec(init, bad);
      if exists j :: 0 <= j < |init| && bad(init[j]) {
        var j :| 0 <= j < |init| && bad(init[j]);
        assert xs[j] == init[j];
      }
      if exists j :: 0 <= j < |xs| && bad(xs[j]) {
        var j :| 0 <= j < |xs| && bad(xs[j]);
        if j < |init| {
          assert init[j] == xs[j];
        }
      }
    }
  }

  predicate Distinct<T(==)>(s: seq<T>)
  {
    forall i, j :: 0 <= i < j < |s| ==> s[i] != s[j]
  }

  /** In a sequence without repeats an element is found at its own index. */
  lemma IndexOfDistinct<T>(s: seq<T>, j: nat)
    requires Distinct(s) && j < |s|
    ensures IndexOf(s, s[j]) == j
  {
  }

  // ---------------------------------------------------------------------------
  // Strings in Python's order

  /** `a < b` on Python strings: lexicographic by code point. */
  predicate Less(a: string, b: string)
  {
    if b == [] then false
    else if a == [] then true
    else if a[0] != b[0] then a[0] < b[0]
    else Less(a[1..], b[1..])
  }

  lemma {:induction false} LessIrreflexive(a: string)
    ensures !Less(a, a)
  {
    if a != [] {
      LessIrreflexive(a[1..]);
    }
  }

  lemma {:induction false} LessTransitive(a: string, b: string, c: string)
    requires Less(a, b) && Less(b, c)
    ensures Less(a, c)
  {
    if a != [] && a[0] == b[0] && b[0] == c[0] {
      LessTransitive(a[1..], b[1..], c[1..]);
    }
  }

  lemma {:induction false} LessAsymmetric(a: string, b: string)
    ensures !(Less(a, b) && Less(b, a))
  {
    if a != [] && b != [] && a[0] == b[0] {
      LessAsymmetric(a[1..], b[1..]);
    }
  }

  lemma {:induction false} LessTotal(a: string, b: string)
    requires a != b
    ensures Less(a, b) || Less(b, a)
  {
    if a != [] && b != [] && a[0] == b[0] {
      assert a == [a[0]] + a[1..] && b == [b[0]] + b[1..];
      LessTotal(a[1..], b[1..]);
    }
  }

  /** Each element strictly below the ones after it. */
  predicate Increasing(r: seq<string>)
  {
    forall i, j :: 0 <= i < j < |r| ==> Less(r[i], r[j])
  }

  lemma {:induction false} MinimumExists(s: set<string>)
    requires s != {}
    ensures exists m :: IsMinimum(s, m)
    decreases |s|
  {
    var x :| x in s;
    if s != {x} {
      MinimumExists(s - {x});
      var m :| IsMinimum(s - {x}, m);
      if Less(m, x) {
        assert IsMinimum(s, m);
      } else {
        LessTotal(m, x);
        forall y | y in s && y != x
          ensures Less(x, y)
        {
          if y != m {
            LessTransitive(x, m, y);
          }
        }
        assert IsMinimum(s, x);
      }
    } else {
      assert IsMinimum(s, x);
    }
  }

  predicate IsMinimum(s: set<string>, m: string)
  {
    m in s && forall y :: y in s && y != m ==> Less(m, y)
  }

  lemma MinimumUnique(s: set<string>)
    ensures forall m1, m2 :: IsMinimum(s, m1) && IsMinimum(s, m2) ==> m1 == m2
  {
    forall m1, m2 | IsMinimum(s, m1) && IsMinimum(s, m2)
      ensures m1 == m2
    {
      LessAsymmetric(m1, m2);
    }
  }

  /** The least key of a non-empty set. */
  function Minimum(s: set<string>): (m: string)
    requires s != {}
    ensures IsMinimum(s, m)
  {
    MinimumExists(s);
    MinimumUnique(s);
    var m :| IsMinimum(s, m);
    m
  }

  /** `sorted(keys)`: the least key first, then the others sorted. */
  function SortedKeys(s: set<string>): (r: seq<string>)
    ensures |r| == |s|
    decreases |s|
  {
    if s == {} then [] else [Minimum(s)] + SortedKeys(s - {Minimum(s)})
  }

  /** `sorted` returns each key once, in strictly increasing order. */
  lemma {:induction false} SortedKeysSpec(s: set<string>)
    ensures forall k :: k in SortedKeys(s) <==> k in s
    ensures Increasing(SortedKeys(s))
    decreases |s|
  {
    if s != {} {
      var m := Minimum(s);
      var rest := SortedKeys(s - {m});
      SortedKeysSpec(s - {m});
      var r := SortedKeys(s);
      assert r == [m] + rest;
      assert forall k :: k in r <==> k == m || k in rest;
      assert Increasing(r) by {
        forall j | 0 <= j < |rest|
          ensures Less(m, rest[j])
        {
          assert rest[j] in rest;
          assert rest[j] in s && rest[j] != m;
        }
        IncreasingCons(m, rest);
      }
    }
  }

  /** A key below every key of an increasing sequence can go in front. */
  lemma IncreasingCons(m: string, rest: seq<string>)
    requires Increasing(rest)
    requires forall j :: 0 <= j < |rest| ==> Less(m, rest[j])
    ensures Increasing([m] + rest)
  {
    var r := [m] + rest;
    forall i, j | 0 <= i < j < |r|
      ensures Less(r[i], r[j])
    {
      assert r[j] == rest[j - 1];
      if i > 0 {
        assert r[i] == rest[i - 1];
      }
    }
  }

  /** The tail of an increasing sequence is increasing, and holds exactly the
      elements other than the head. */
  lemma IncreasingTail(a: seq<string>)
    requires a != [] && Increasing(a)
    ensures Increasing(a[1..])
    ensures forall k :: k in a[1..] <==> k in a && k != a[0]
  {
    forall i, j | 0 <= i < j < |a[1..]|
      ensures Less(a[1..][i], a[1..][j])
    {
      assert a[1..][i] == a[i + 1] && a[1..][j] == a[j + 1];
    }
    forall k | k in a && k != a[0]
      ensures k in a[1..]
    {
      var i :| 0 <= i < |a| && a[i] == k;
      assert a[1..][i - 1] == k;
    }
    forall k | k in a[1..]
      ensures k != a[0]
    {
      var i :| 0 <= i < |a[1..]| && a[1..][i] == k;
      assert a[i + 1] == k;
      LessIrreflexive(a[0]);
    }
  }

  /** Two strictly increasing sequences with the same elements are equal. */
  lemma {:induction false} SortedUnique(a: seq<string>, b: seq<string>)
    requires Increasing(a) && Increasing(b)
    ensures (forall k :: k in a <==> k in b) ==> a == b
    decreases |a| + |b|
  {
    if a != [] && b != [] && (forall k :: k in a <==> k in b) {
      assert a[0] in a && b[0] in b;
      assert a[0] == b[0] by {
        if a[0] != b[0] {
          var i :| 0 <= i < |a| && a[i] == b[0];
          var j :| 0 <= j < |b| && b[j] == a[0];
          assert i != 0 && j != 0;
          LessAsymmetric(a[0], b[0]);
        }
      }
      IncreasingTail(a);
      IncreasingTail(b);
      SortedUnique(a[1..], b[1..]);
      assert a == [a[0]] + a[1..] && b == [b[0]] + b[1..];
    } else if a != [] {
      assert a[0] in a;
    } else if b != [] {
      assert b[0] in b;
    }
  }

  // ---------------------------------------------------------------------------
  // Python dictionaries: keys in insertion order

  /** `s` without the elements of `drop`, order kept. */
  function Without(s: seq<string>, drop: set<string>): (r: seq<string>)
    ensures forall x :: x in r <==> x in s && x !in drop
  {
    if s == [] then []
    else Without(s[..|s| - 1], drop) + (if s[|s| - 1] in drop then [] else [s[|s| - 1]])
  }

  lemma {:induction false} WithoutDistinct(s: seq<string>, drop: set<string>)
    requires Distinct(s)
    ensures Distinct(Without(s, drop))
  {
    if s != [] {
      var init := s[..|s| - 1];
      assert Distinct(init) by {
        forall i, j | 0 <= i < j < |init|
          ensures init[i] != init[j]
        {
          assert init[i] == s[i] && init[j] == s[j];
        }
      }
      WithoutDistinct(init, drop);
      assert s[|s| - 1] !in init;
    }
  }

  lemma {:induction false} WithoutNothing(s: seq<string>)
    ensures Without(s, {}) == s
  {
    if s != [] {
      WithoutNothing(s[..|s| - 1]);
    }
  }

  lemma {:induction false} WithoutTwice(s: seq<string>, a: set<string>, b: set<string>)
    ensures Without(Without(s, a), b) == Without(s, a + b)
  {
    if s != [] {
      var init := s[..|s| - 1];
      WithoutTwice(init, a, b);
      var w := Without(init, a);
      if s[|s| - 1] !in a {
        assert Without(s, a)[..|Without(s, a)| - 1] == w;
      } else {
        assert Without(s, a) == w;
      }
    }
  }

  /** A dictionary: `keys` in insertion order, `values` the entries. */
  datatype Dict = Dict(keys: seq<string>, values: map<string, real>)
  {
    predicate Valid()
    {
      Distinct(keys) && (forall k :: k in keys ==> k in values) && (forall k :: k in values ==> k in keys)
    }

    /** `d[k] = v`: an existing key keeps its place, a new one goes last. */
    function Put(k: string, v: real): (d: Dict)
      ensures d.values == values[k := v]
      ensures Valid() ==> d.Valid()
    {
      if k in values then Dict(keys, values[k := v]) else Dict(keys + [k], values[k := v])
    }

    /** `d.pop(k)`. */
    function Pop(k: string): (d: Dict)
      ensures d.values == values - {k}
      ensures Valid() ==> d.Valid()
    {
      WithoutDistinctOf(keys, k);
      Dict(Without(keys, {k}), values - {k})
    }
  }

  lemma WithoutDistinctOf(s: seq<string>, k: string)
    ensures Distinct(s) ==> Distinct(Without(s, {k}))
  {
    if Distinct(s) {
      WithoutDistinct(s, {k});
    }
  }

  /** The values in key order, as `.items()` yields them. */
  function ValuesOf(keys: seq<string>, values: map<string, real>): (r: seq<real>)
    requires forall k :: k in keys ==> k in values
    ensures |r| == |keys| && forall i :: 0 <= i < |keys| ==> r[i] == values[keys[i]]
  {
    if keys == [] then [] else ValuesOf(keys[..|keys| - 1], values) + [values[keys[|keys| - 1]]]
  }

  // ---------------------------------------------------------------------------
  // Python dictionaries of cells, as ordered (key, value) lists

  function Keys(d: seq<(string, Cell)>): (ks: seq<string>)
    ensures |ks| == |d| && forall i :: 0 <= i < |d| ==> ks[i] == d[i].0
  {
    if d == [] then [] else [d[0].0] + Keys(d[1..])
  }

  /** `d.get(k)`. */
  function Lookup(d: seq<(string, Cell)>, k: string): Option<Cell>
  {
    if d == [] then None else if d[0].0 == k then Some(d[0].1) else Lookup(d[1..], k)
  }

  lemma {:induction false} LookupAt(d: seq<(string, Cell)>, i: nat)
    requires i < |d| && forall j :: 0 <= j < i ==> d[j].0 != d[i].0
    ensures Lookup(d, d[i].0) == Some(d[i].1)
    decreases i
  {
    if i > 0 {
      LookupAt(d[1..], i - 1);
    }
  }

  lemma {:induction false} LookupMissing(d: seq<(string, Cell)>, k: string)
    requires k !in Keys(d)
    ensures Lookup(d, k) == None
  {
    if d != [] {
      assert Keys(d[1..]) == Keys(d)[1..];
      LookupMissing(d[1..], k);
    }
  }

  lemma {:induction false} LookupPresent(d: seq<(string, Cell)>, k: string)
    requires k in Keys(d)
    ensures Lookup(d, k).Some?
  {
    if d[0].0 != k {
      assert Keys(d[1..]) == Keys(d)[1..];
      LookupPresent(d[1..], k);
    }
  }

  /** The values of a dictionary in key order: `list(d.values())`. */
  function Values(d: seq<(string, Cell)>): (vs: seq<Cell>)
    ensures |vs| == |d| && forall i :: 0 <= i < |d| ==> vs[i] == d[i].1
  {
    if d == [] then [] else [d[0].1] + Values(d[1..])
  }

  /** `[d.get(c, fill) for c in columns]`: a row laid out by `columns`. */
  function Cells(d: seq<(string, Cell)>, columns: seq<string>, fill: Cell): (r: seq<Cell>)
    ensures |r| == |columns|
    ensures forall i :: 0 <= i < |columns| ==> r[i] == (if Lookup(d, columns[i]).Some? then Lookup(d, columns[i]).value else fill)
  {
    if columns == [] then []
    else [if Lookup(d, columns[0]).Some? then Lookup(d, columns[0]).value else fill] + Cells(d, columns[1..], fill)
  }

  /** The cell of `row` under column `c` of `header`; blank when absent. */
  function At(header: seq<string>, row: seq<Cell>, c: string): Cell
  {
    if c in header && IndexOf(header, c) < |row| then row[IndexOf(header, c)] else Blank
  }

  /** A row laid out by a header, read back through it, gives each header
      column's cell. */
  lemma CellsAt(d: seq<(string, Cell)>, header: seq<string>, fill: Cell, k: string)
    requires k in header
    ensures At(header, Cells(d, header, fill), k) == (if Lookup(d, k).Some? then Lookup(d, k).value else fill)
  {
  }

  /** `zip(*columns)`: one row per index below the shortest column. */
  function Transpose(columns: seq<seq<Cell>>): (rows: seq<seq<Cell>>)
    ensures |rows| == Shortest(columns)
    ensures forall i :: 0 <= i < |rows| ==> |rows[i]| == |columns| && forall j :: 0 <= j < |columns| ==> i < |columns[j]| && rows[i][j] == columns[j][i]
  {
    seq(Shortest(columns), i requires 0 <= i < Shortest(columns) => RowOf(columns, i))
  }

  /** The length of the shortest column; no columns give no rows. */
  function Shortest(columns: seq<seq<Cell>>): (n: nat)
    ensures forall j :: 0 <= j < |columns| ==> n <= |columns[j]|
    ensures columns != [] ==> exists j :: 0 <= j < |columns| && n == |columns[j]|
  {
    if columns == [] then 0
    else if |columns| == 1 then |columns[0]|
    else
      var rest := Shortest(columns[1..]);
      if |columns[0]| <= rest then |columns[0]| else rest
  }

  function RowOf(columns: seq<seq<Cell>>, i: nat): (row: seq<Cell>)
    requires i < Shortest(columns)
    ensures |row| == |columns| && forall j :: 0 <= j < |columns| ==> i < |columns[j]| && row[j] == columns[j][i]
  {
    seq(|columns|, j requires 0 <= j < |columns| => columns[j][i])
  }

  // ---------------------------------------------------------------------------
  // The four-column position table every venue adapter returns:
  // {"Symbol": [...], "Multiplier": [...], "Quantity": [...], "Dollar Quantity": [...]}

  datatype Table = Table(symbol: seq<string>, multiplier: seq<int>, quantity: seq<real>, dollar: seq<real>)
  {
    predicate Valid()
    {
      |multiplier| == |symbol| && |quantity| == |symbol| && |dollar| == |symbol|
    }

    function Rows(): nat
    {
      |symbol|
    }

    /** Appends one row, as the four `list.append` calls in every adapter do. */
    function Append(sym: string, mult: int, qty: real, usd: real): (t: Table)
      ensures t.symbol == symbol + [sym] && t.multiplier == multiplier + [mult]
      ensures t.quantity == quantity + [qty] && t.dollar == dollar + [usd]
      ensures Valid() ==> t.Valid()
    {
      Table(symbol + [sym], multiplier + [mult], quantity + [qty], dollar + [usd])
    }
  }

  const EmptyTable: Table := Table([], [], [], [])

  const SymbolKey: string := "Symbol"
  const MultiplierKey: string := "Multiplier"
  const QuantityKey: string := "Quantity"
  const DollarKey: string := "Dollar Quantity"
}
