/** String and list helpers shared by the route handlers and forms: JavaScript's
    `String.prototype.trim`, `split`, `Array.prototype.join` / `toString`, the
    default `Array.prototype.sort` order on strings, and the integer subset of
    `Number(text)` / `String(number)`. */
module Text {

  datatype Option<T> = None | Some(value: T)

  /** Missing key, explicit `null`, or a value: the three states a zod `.nullish()` field distinguishes. */
  datatype Nullish<T> = Missing | Null | Present(value: T)

  // ---------------------------------------------------------------------------
  // Whitespace and trim
  // ---------------------------------------------------------------------------

  /** The ECMAScript WhiteSpace and LineTerminator code points that `trim` strips. */
  predicate IsWhitespace(c: char) {
    c == ' ' || c == '\t' || c == '\n' || c == '\r' || c == '\U{B}' || c == '\U{C}'
    || c == '\U{A0}' || c == '\U{1680}' || ('\U{2000}' <= c <= '\U{200A}')
    || c == '\U{2028}' || c == '\U{2029}' || c == '\U{202F}' || c == '\U{205F}'
    || c == '\U{3000}' || c == '\U{FEFF}'
  }

  predicate AllWhitespace(s: string) {
    forall i :: 0 <= i < |s| ==> IsWhitespace(s[i])
  }

  /** The number of leading whitespace characters. */
  function LeadingSpace(s: string): (i: nat)
    ensures i <= |s| && AllWhitespace(s[..i])
    ensures i == |s| || !IsWhitespace(s[i])
  {
    if s == [] || !IsWhitespace(s[0]) then 0
    else
      var k := LeadingSpace(s[1..]);
      assert s[..k + 1] == [s[0]] + s[1..][..k];
      k + 1
  }

  /** Where the trailing whitespace starts. */
  function TrailingSpace(s: string): (j: nat)
    ensures j <= |s| && AllWhitespace(s[j..])
    ensures j == 0 || !IsWhitespace(s[j - 1])
  {
    if s == [] || !IsWhitespace(s[|s| - 1]) then |s|
    else
      var k := TrailingSpace(s[..|s| - 1]);
      assert s[k..] == s[..|s| - 1][k..] + [s[|s| - 1]];
      k
  }

  /** `s.trim()`: strips leading and trailing whitespace and nothing else. */
  function Trim(s: string): (r: string)
    ensures r == [] || (!IsWhitespace(r[0]) && !IsWhitespace(r[|r| - 1]))
    ensures exists i, j :: 0 <= i <= j <= |s| && r == s[i..j] && AllWhitespace(s[..i]) && AllWhitespace(s[j..])
  {
    var i := LeadingSpace(s);
    var t := s[i..];
    var j := TrailingSpace(t);
    assert t[..j] == s[i..i + j];
    assert s[i + j..] == t[j..];
    if j == 0 then [] else
      assert t[..j][0] == s[i];
      t[..j]
  }

  /** A string with no whitespace at either end is its own trim. */
  lemma {:induction false} TrimOfTrimmed(s: string)
    requires s == [] || (!IsWhitespace(s[0]) && !IsWhitespace(s[|s| - 1]))
    ensures Trim(s) == s
  {
    assert LeadingSpace(s) == 0;
    assert TrailingSpace(s) == |s|;
  }

  /** `trim` is idempotent. */
  lemma TrimIdempotent(s: string)
    ensures Trim(Trim(s)) == Trim(s)
  {
    TrimOfTrimmed(Trim(s));
  }

  /** The trim is empty exactly when the string is whitespace only. */
  lemma {:induction false} TrimEmptyIff(s: string)
    ensures Trim(s) == [] <==> AllWhitespace(s)
  {
    var i, j :| 0 <= i <= j <= |s| && Trim(s) == s[i..j] && AllWhitespace(s[..i]) && AllWhitespace(s[j..]);
    if Trim(s) == [] {
      forall k | 0 <= k < |s| ensures IsWhitespace(s[k]) {
        if k < i { assert s[k] == s[..i][k]; } else { assert s[k] == s[j..][k - j]; }
      }
    } else {
      assert s[i] == Trim(s)[0];
    }
  }

  /** Text that starts with a non-space character keeps something after `trim`. */
  lemma TrimNonBlank(s: string)
    requires s != [] && !IsWhitespace(s[0])
    ensures Trim(s) != []
  {
    TrimEmptyIff(s);
  }

  /** Trimming adds no character: one missing from `s` is missing from its trim. */
  lemma TrimAvoids(s: string, c: char)
    requires c !in s
    ensures c !in Trim(s)
  {
    var i := LeadingSpace(s);
    var t := s[i..];
    var j := TrailingSpace(t);
    assert Trim(s) == t[..j];
    forall k | 0 <= k < |Trim(s)| ensures Trim(s)[k] != c {
      assert Trim(s)[k] == s[i + k];
    }
  }

  /** `xs.map(s => s.trim())`. */
  function TrimAll(xs: seq<string>): (r: seq<string>)
    ensures |r| == |xs| && forall i :: 0 <= i < |xs| ==> r[i] == Trim(xs[i])
  {
    seq(|xs|, i requires 0 <= i < |xs| => Trim(xs[i]))
  }

  /** The entries of `TrimAll(xs)` are exactly the trims of the entries of `xs`. */
  lemma TrimAllMembers(xs: seq<string>)
    ensures forall e :: e in TrimAll(xs) <==> exists p :: p in xs && e == Trim(p)
  {
    var r := TrimAll(xs);
    forall e | e in r ensures exists p :: p in xs && e == Trim(p) {
      var i :| 0 <= i < |r| && r[i] == e;
      assert xs[i] in xs;
    }
    forall p | p in xs ensures Trim(p) in r {
      var i :| 0 <= i < |xs| && xs[i] == p;
      assert r[i] == Trim(p);
    }
  }

  /** `xs.filter(s => s.length)`: the non-empty entries, in order. */
  function NonEmptyOnly(xs: seq<string>): (r: seq<string>)
    ensures forall s :: s in r <==> s in xs && s != ""
    ensures forall s :: s != "" ==> multiset(r)[s] == multiset(xs)[s]
    ensures SubsequenceOf(r, xs) && |r| <= |xs|
  {
    if xs == [] then []
    else
      var rest := NonEmptyOnly(xs[1..]);
      assert xs == [xs[0]] + xs[1..];
      if xs[0] == "" then
        assert rest == [] || rest[0] in rest;
        rest
      else
        assert ([xs[0]] + rest)[1..] == rest;
        [xs[0]] + rest
  }

  // ---------------------------------------------------------------------------
  // split and join
  // ---------------------------------------------------------------------------

  /** `s.split(sep)` for a one-character separator: `"".split(",") == [""]`, and
      adjacent or trailing separators give empty pieces. */
  function Split(s: string, sep: char): (r: seq<string>)
    ensures |r| >= 1
    ensures forall k :: 0 <= k < |r| ==> sep !in r[k]
  {
    if s == [] then [""]
    else
      var rest := Split(s[1..], sep);
      if s[0] == sep then [""] + rest
      else [[s[0]] + rest[0]] + rest[1..]
  }

  /** `pieces.join(sep)`; `Array.prototype.toString` is `Join(pieces, ',')`. */
  function Join(pieces: seq<string>, sep: char): string
  {
    if pieces == [] then ""
    else if |pieces| == 1 then pieces[0]
    else pieces[0] + [sep] + Join(pieces[1..], sep)
  }

  /** Joining the pieces of a split gives back the string. */
  lemma {:induction false} JoinSplit(s: string, sep: char)
    ensures Join(Split(s, sep), sep) == s
  {
    if s != [] {
      var rest := Split(s[1..], sep);
      JoinSplit(s[1..], sep);
      if s[0] == sep {
        assert Split(s, sep) == [""] + rest;
        assert ([""] + rest)[1..] == rest;
      } else {
        var r := Split(s, sep);
        assert r == [[s[0]] + rest[0]] + rest[1..];
        if |rest| == 1 {
          assert Join(r, sep) == [s[0]] + rest[0];
        } else {
          assert r[1..] == rest[1..];
          assert Join(rest, sep) == rest[0] + [sep] + Join(rest[1..], sep);
        }
        assert [s[0]] + s[1..] == s;
      }
    }
  }

  /** Splitting a separator-free piece followed by the separator and more text. */
  lemma {:induction false} SplitAfterPiece(x: string, sep: char, y: string)
    requires sep !in x
    ensures Split(x + [sep] + y, sep) == [x] + Split(y, sep)
  {
    if x != [] {
      SplitAfterPiece(x[1..], sep, y);
      assert (x + [sep] + y)[1..] == x[1..] + [sep] + y;
      assert [x[0]] + x[1..] == x;
    } else {
      assert x + [sep] + y == [sep] + y;
      assert ([sep] + y)[1..] == y;
    }
  }

  /** Appending the separator and a separator-free piece adds that piece at the end. */
  lemma {:induction false} SplitAppend(x: string, sep: char, y: string)
    requires sep !in y
    ensures Split(x + [sep] + y, sep) == Split(x, sep) + [y]
  {
    if x == [] {
      assert x + [sep] + y == [sep] + y;
      assert ([sep] + y)[1..] == y;
      SplitSingle(y, sep);
    } else {
      SplitAppend(x[1..], sep, y);
      assert (x + [sep] + y)[1..] == x[1..] + [sep] + y;
      var rest := Split(x[1..], sep);
      if x[0] != sep {
        assert (rest + [y])[0] == rest[0];
        assert (rest + [y])[1..] == rest[1..] + [y];
      }
    }
  }

  /** A separator-free string is one piece. */
  lemma {:induction false} SplitSingle(x: string, sep: char)
    requires sep !in x
    ensures Split(x, sep) == [x]
  {
    if x != [] {
      SplitSingle(x[1..], sep);
      assert [x[0]] + x[1..] == x;
    }
  }

  /** Splitting a join of separator-free pieces gives back the pieces. */
  lemma {:induction false} SplitJoin(pieces: seq<string>, sep: char)
    requires |pieces| >= 1
    requires forall k :: 0 <= k < |pieces| ==> sep !in pieces[k]
    ensures Split(Join(pieces, sep), sep) == pieces
  {
    if |pieces| == 1 {
      SplitSingle(pieces[0], sep);
    } else {
      SplitJoin(pieces[1..], sep);
      SplitAfterPiece(pieces[0], sep, Join(pieces[1..], sep));
      assert [pieces[0]] + pieces[1..] == pieces;
    }
  }

  // ---------------------------------------------------------------------------
  // String order and sorting (Array.prototype.sort without a comparator)
  // ---------------------------------------------------------------------------

  /** Lexicographic order by character code: `a` sorts no later than `b`. */
  predicate Leq(a: string, b: string) {
    if a == [] then true
    else if b == [] then false
    else if a[0] != b[0] then a[0] < b[0]
    else Leq(a[1..], b[1..])
  }

  lemma {:induction false} LeqTotal(a: string, b: string)
    ensures Leq(a, b) || Leq(b, a)
  {
    if a != [] && b != [] && a[0] == b[0] { LeqTotal(a[1..], b[1..]); }
  }

  lemma {:induction false} LeqAntisymmetric(a: string, b: string)
    requires Leq(a, b) && Leq(b, a)
    ensures a == b
  {
    if a != [] && b != [] {
      LeqAntisymmetric(a[1..], b[1..]);
      assert a == [a[0]] + a[1..] && b == [b[0]] + b[1..];
    }
  }

  lemma {:induction false} LeqTransitive(a: string, b: string, c: string)
    requires Leq(a, b) && Leq(b, c)
    ensures Leq(a, c)
  {
    if a != [] && b != [] && c != [] && a[0] == b[0] && b[0] == c[0] {
      LeqTransitive(a[1..], b[1..], c[1..]);
    }
  }

  predicate Sorted(s: seq<string>) {
    forall i, j :: 0 <= i < j < |s| ==> Leq(s[i], s[j])
  }

  function Insert(x: string, s: seq<string>): seq<string>
  {
    if s == [] then [x]
    else if Leq(x, s[0]) then [x] + s
    else [s[0]] + Insert(x, s[1..])
  }

  /** The sorted copy of `s` that `Array.prototype.sort` produces on strings. */
  function Sort(s: seq<string>): seq<string>
  {
    if s == [] then [] else Insert(s[0], Sort(s[1..]))
  }

  lemma {:induction false} InsertPermutes(x: string, s: seq<string>)
    ensures multiset(Insert(x, s)) == multiset(s) + multiset{x}
  {
    if s != [] && !Leq(x, s[0]) {
      InsertPermutes(x, s[1..]);
      assert s == [s[0]] + s[1..];
    }
  }

  lemma {:induction false} InsertSorted(x: string, s: seq<string>)
    requires Sorted(s)
    ensures Sorted(Insert(x, s))
  {
    if s != [] && !Leq(x, s[0]) {
      InsertSorted(x, s[1..]);
      InsertPermutes(x, s[1..]);
      LeqTotal(x, s[0]);
      var r := Insert(x, s);
      forall i, j | 0 <= i < j < |r| ensures Leq(r[i], r[j]) {
        if i == 0 {
          assert r[j] in multiset(Insert(x, s[1..]));
          assert r[j] == x || r[j] in multiset(s[1..]);
          if r[j] != x {
            var k :| 1 <= k < |s| && s[k] == r[j];
          }
        }
      }
    } else if s != [] {
      var r := Insert(x, s);
      forall i, j | 0 <= i < j < |r| ensures Leq(r[i], r[j]) {
        if i == 0 && j > 1 { LeqTransitive(x, s[0], s[j - 1]); }
      }
    }
  }

  /** `Sort` gives a sorted permutation of its input. */
  lemma {:induction false} SortCorrect(s: seq<string>)
    ensures Sorted(Sort(s))
    ensures multiset(Sort(s)) == multiset(s)
  {
    if s != [] {
      var rest := Sort(s[1..]);
      SortCorrect(s[1..]);
      assert Sort(s) == Insert(s[0], rest);
      InsertSorted(s[0], rest);
      assert multiset(Sort(s)) == multiset(s) by {
        InsertPermutes(s[0], rest);
        assert s == [s[0]] + s[1..];
      }
    }
  }

  /** The head of a sorted list sorts no later than any of its entries. */
  lemma SortedHead(s: seq<string>, x: string)
    requires Sorted(s) && x in s
    ensures Leq(s[0], x)
  {
    var i :| 0 <= i < |s| && s[i] == x;
    if i == 0 { LeqTotal(x, x); }
  }

  lemma TailMultiset(s: seq<string>)
    requires s != []
    ensures multiset(s[1..]) == multiset(s) - multiset{s[0]}
  {
    assert s == [s[0]] + s[1..];
  }

  /** Two sorted lists with the same elements are the same list: so any sorting
      algorithm agrees with `Sort`. */
  lemma {:induction false} SortedUnique(a: seq<string>, b: seq<string>)
    requires Sorted(a) && Sorted(b) && multiset(a) == multiset(b)
    ensures a == b
    decreases |a|
  {
    if a == [] {
      assert |multiset(b)| == 0;
    } else {
      SameHeads(a, b);
      SortedUnique(a[1..], b[1..]);
      assert a == [a[0]] + a[1..] && b == [b[0]] + b[1..];
    }
  }

  /** Two sorted permutations of a non-empty list start alike, and their tails
      are permutations of each other. */
  lemma SameHeads(a: seq<string>, b: seq<string>)
    requires Sorted(a) && Sorted(b) && multiset(a) == multiset(b) && a != []
    ensures b != [] && a[0] == b[0] && multiset(a[1..]) == multiset(b[1..])
  {
    assert a[0] in multiset(b);
    assert b[0] in multiset(a);
    SortedHead(a, b[0]);
    SortedHead(b, a[0]);
    LeqAntisymmetric(a[0], b[0]);
    TailMultiset(a);
    TailMultiset(b);
  }

  /** A list that is already sorted is left as it is. */
  lemma SortOfSorted(s: seq<string>)
    requires Sorted(s)
    ensures Sort(s) == s
  {
    SortCorrect(s);
    SortedUnique(Sort(s), s);
  }

  // ---------------------------------------------------------------------------
  // Lists
  // ---------------------------------------------------------------------------

  predicate NoDuplicates<T(==)>(s: seq<T>) {
    forall i, j :: 0 <= i < j < |s| ==> s[i] != s[j]
  }

  /** `t` keeps some of the entries of `s`, in their original order. */
  predicate SubsequenceOf<T(==)>(t: seq<T>, s: seq<T>) {
    if t == [] then true
    else if s == [] then false
    else if t[0] == s[0] then SubsequenceOf(t[1..], s[1..])
    else SubsequenceOf(t, s[1..])
  }

  /** The entries of `s` without `x`, in order. */
  function Without(s: seq<string>, x: string): (r: seq<string>)
    ensures x !in r
    ensures forall y :: y != x ==> multiset(r)[y] == multiset(s)[y]
    ensures SubsequenceOf(r, s) && |r| <= |s|
  {
    if s == [] then []
    else
      var rest := Without(s[1..], x);
      assert s == [s[0]] + s[1..];
      if s[0] == x then rest else [s[0]] + rest
  }

  /** Keeps the first occurrence of each entry, in order (the obvious meaning of
      the repository's unseen `removeDuplicates`). */
  function RemoveDuplicates(s: seq<string>): (r: seq<string>)
    ensures NoDuplicates(r)
    ensures forall x :: x in r <==> x in s
    decreases |s|
  {
    if s == [] then []
    else
      var rest := RemoveDuplicates(Without(s[1..], s[0]));
      assert forall x :: x in s <==> x == s[0] || x in s[1..];
      assert forall x :: x != s[0] ==> (x in s[1..] <==> x in multiset(s[1..]));
      [s[0]] + rest
  }

  // ---------------------------------------------------------------------------
  // Number text: `String(n)` and `Number(text)` restricted to integers
  // ---------------------------------------------------------------------------

  predicate IsDigit(c: char) { '0' <= c <= '9' }

  function DigitChar(d: nat): char
    requires d < 10
  {
    ('0' as int + d) as char
  }

  function DigitValue(c: char): nat
    requires IsDigit(c)
  {
    c as int - '0' as int
  }

  /** The value of a string of decimal digits. */
  function DigitsValue(s: string): nat
    requires forall i :: 0 <= i < |s| ==> IsDigit(s[i])
  {
    if s == [] then 0 else DigitsValue(s[..|s| - 1]) * 10 + DigitValue(s[|s| - 1])
  }

  /** `String(n)` for a natural number: decimal digits, no leading zero. */
  function NatToString(n: nat): (r: string)
    ensures r != [] && forall i :: 0 <= i < |r| ==> IsDigit(r[i])
  {
    if n < 10 then [DigitChar(n)] else NatToString(n / 10) + [DigitChar(n % 10)]
  }

  /** `String(n)` for an integer: a minus sign for a negative one, then the
      digits of its magnitude. */
  function IntToString(n: int): string
  {
    Sign(n) + NatToString(Magnitude(n))
  }

  function Sign(n: int): string
  {
    if n < 0 then "-" else ""
  }

  function Magnitude(n: int): nat
  {
    if n < 0 then -n else n
  }

  lemma {:induction false} DigitsOfNat(n: nat)
    ensures DigitsValue(NatToString(n)) == n
  {
    var s := NatToString(n);
    if n >= 10 {
      DigitsOfNat(n / 10);
      assert s[..|s| - 1] == NatToString(n / 10);
    }
  }

  predicate AllDigits(s: string) {
    forall i :: 0 <= i < |s| ==> IsDigit(s[i])
  }

  /** `Number(text)` where the result is an integer: surrounding whitespace is
      ignored, blank text is 0, an optional sign and one or more digits are
      accepted; `None` stands for `NaN`. */
  function NumberValue(text: string): (r: Option<int>)
    ensures AllDigits(Trim(text)) ==> r.Some? && (Trim(text) != [] ==> r.value == DigitsValue(Trim(text)))
    ensures var t := Trim(text);
            |t| > 1 && IsSign(t[0]) && AllDigits(t[1..]) ==>
              r == Some(if t[0] == '-' then -(DigitsValue(t[1..]) as int) else DigitsValue(t[1..]))
  {
    var t := Trim(text);
    if t == [] then Some(0)
    else if IsSign(t[0]) && |t| > 1 && AllDigits(t[1..]) then
      var v: int := DigitsValue(t[1..]);
      Some(if t[0] == '-' then -v else v)
    else if AllDigits(t) then Some(DigitsValue(t))
    else None
  }

  predicate IsSign(c: char) {
    c == '-' || c == '+'
  }

  /** `Number` gives `NaN` exactly when the trimmed text has a character that
      is neither a digit nor a sign at its head followed by more text. */
  lemma {:induction false} NumberNaNIff(text: string)
    ensures var t := Trim(text);
            NumberValue(text).None? <==>
              exists i :: 0 <= i < |t| && !IsDigit(t[i]) && !(i == 0 && IsSign(t[0]) && |t| > 1)
  {
    var t := Trim(text);
    if NumberValue(text).None? {
      assert t != [];
      if |t| > 1 && IsSign(t[0]) {
        var k :| 0 <= k < |t[1..]| && !IsDigit(t[1..][k]);
        assert !IsDigit(t[k + 1]);
      } else {
        var k :| 0 <= k < |t| && !IsDigit(t[k]);
        assert !(k == 0 && IsSign(t[0]) && |t| > 1);
      }
    } else {
      forall i | 0 <= i < |t| && !(i == 0 && IsSign(t[0]) && |t| > 1) ensures IsDigit(t[i]) {
        if |t| > 1 && IsSign(t[0]) && AllDigits(t[1..]) {
          assert t[1..][i - 1] == t[i];
        }
      }
    }
  }

  /** Reading back what `String(n)` writes gives `n`. */
  lemma NumberOfIntToString(n: int)
    ensures NumberValue(IntToString(n)) == Some(n)
  {
    DigitsOfNat(Magnitude(n));
    NumberOfSigned(n, NatToString(Magnitude(n)));
  }

  /** The sign of `n` before the digits of its magnitude reads as `n`. */
  lemma NumberOfSigned(n: int, d: string)
    requires d != [] && AllDigits(d) && DigitsValue(d) == Magnitude(n)
    ensures NumberValue(Sign(n) + d) == Some(n)
  {
    if n < 0 {
      NumberOfNegatedDigits(Sign(n) + d, d);
    } else {
      assert Sign(n) + d == d;
      NumberOfDigits(d);
    }
  }

  /** Digit text reads as its decimal value. */
  lemma NumberOfDigits(d: string)
    requires d != [] && AllDigits(d)
    ensures NumberValue(d) == Some(DigitsValue(d))
  {
    assert IsDigit(d[0]) && IsDigit(d[|d| - 1]);
    TrimOfTrimmed(d);
  }

  /** A minus sign before digit text negates its value. */
  lemma NumberOfNegatedDigits(s: string, d: string)
    requires d != [] && AllDigits(d) && s == "-" + d
    ensures NumberValue(s) == Some(-(DigitsValue(d) as int))
  {
    assert s[0] == '-' && s[1..] == d && s[|s| - 1] == d[|d| - 1];
    assert IsDigit(d[|d| - 1]);
    TrimOfTrimmed(s);
  }
}
