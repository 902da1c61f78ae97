/** The pieces of JavaScript's string semantics that the application relies on
    (`trim`, `includes`, `startsWith`, `substring(0, n)`, `split`/`join` on one character,
    ASCII `toLowerCase`, `String(n)` and `padStart`), JSON values with JavaScript truthiness,
    and thrown values. Strings are sequences of Unicode scalar values. */
module Js {
  import opened Wrappers

  // ---------------------------------------------------------------------------
  // Whitespace and trim

  /** The characters `String.prototype.trim` removes: WhiteSpace and LineTerminator of ECMA-262. */
  predicate IsWhitespace(c: char) {
    c == '\t' || c == '\n' || c == '\U{000B}' || c == '\U{000C}' || c == '\r' || c == ' '
    || c == '\U{00A0}' || c == '\U{1680}' || ('\U{2000}' <= c <= '\U{200A}')
    || c == '\U{2028}' || c == '\U{2029}' || c == '\U{202F}' || c == '\U{205F}'
    || c == '\U{3000}' || c == '\U{FEFF}'
  }

  predicate AllWhitespace(s: string) {
    forall i :: 0 <= i < |s| ==> IsWhitespace(s[i])
  }

  /** `s.trimStart()`: the suffix left after dropping the leading whitespace. */
  function TrimStart(s: string): (r: string)
    ensures |r| <= |s| && r == s[|s| - |r|..]
    ensures AllWhitespace(s[..|s| - |r|])
    ensures r == [] || !IsWhitespace(r[0])
  {
    if |s| > 0 && IsWhitespace(s[0]) then TrimStart(s[1..]) else s
  }

  /** `s.trimEnd()`: the prefix left after dropping the trailing whitespace. */
  function TrimEnd(s: string): (r: string)
    ensures |r| <= |s| && r == s[..|r|]
    ensures AllWhitespace(s[|r|..])
    ensures r == [] || !IsWhitespace(r[|r| - 1])
  {
    if |s| > 0 && IsWhitespace(s[|s| - 1]) then
      var r := TrimEnd(s[..|s| - 1]);
      assert s[|r|..] == s[..|s| - 1][|r|..] + [s[|s| - 1]];
      r
    else s
  }

  /** `s.trim()`: the infix between the leading and the trailing whitespace. */
  function Trim(s: string): (r: string)
    ensures |r| <= |s|
    ensures r == [] || (!IsWhitespace(r[0]) && !IsWhitespace(r[|r| - 1]))
  {
    TrimEnd(TrimStart(s))
  }

  /** Where the trimmed string starts inside `s`. */
  function TrimOffset(s: string): nat {
    |s| - |TrimStart(s)|
  }

  /** The trimmed string is a contiguous piece of `s` with only whitespace around it. */
  lemma TrimIsInfix(s: string)
    ensures var a, r := TrimOffset(s), Trim(s);
      a + |r| <= |s| && r == s[a..a + |r|] && AllWhitespace(s[..a]) && AllWhitespace(s[a + |r|..])
  {
    var t, a, r := TrimStart(s), TrimOffset(s), Trim(s);
    assert a == |s| - |t| && r == TrimEnd(t);
    assert t == s[a..];
    assert r == t[..|r|];
    SliceOfSuffix(s, a, |r|);
    assert AllWhitespace(s[..a]);
    assert AllWhitespace(t[|r|..]);
  }

  lemma SliceOfSuffix(s: string, a: nat, n: nat)
    requires a + n <= |s|
    ensures s[a..][..n] == s[a..a + n] && s[a..][n..] == s[a + n..]
  {
  }

  /** A string trims to the empty string exactly when it is all whitespace. */
  lemma TrimEmptyIff(s: string)
    ensures Trim(s) == [] <==> AllWhitespace(s)
  {
    if Trim(s) == [] {
      assert s[..|s|] == s;
    }
  }

  /** Trimming twice is trimming once. */
  lemma TrimIdempotent(s: string)
    ensures Trim(Trim(s)) == Trim(s)
  {
    var r := Trim(s);
    if r != [] {
      assert TrimStart(r) == r;
      assert TrimEnd(r) == r;
    }
  }

  /** JavaScript's `!s.trim()`: the string holds nothing but whitespace. */
  predicate IsBlank(s: string) {
    Trim(s) == []
  }

  // ---------------------------------------------------------------------------
  // Searching

  predicate StartsWith(s: string, prefix: string) {
    |prefix| <= |s| && s[..|prefix|] == prefix
  }

  predicate OccursAt(s: string, sub: string, i: int) {
    0 <= i && i + |sub| <= |s| && s[i..i + |sub|] == sub
  }

  /** `s.includes(sub)`, scanning left to right. */
  function Includes(s: string, sub: string): (b: bool)
    ensures b <==> exists i :: OccursAt(s, sub, i)
    decreases |s|
  {
    if |sub| > |s| then false
    else if s[..|sub|] == sub then (assert OccursAt(s, sub, 0); true)
    else
      var rest := Includes(s[1..], sub);
      assert forall i :: OccursAt(s[1..], sub, i) <==> OccursAt(s, sub, i + 1) by {
        forall i ensures OccursAt(s[1..], sub, i) <==> OccursAt(s, sub, i + 1) {
          if 0 <= i && i + |sub| <= |s[1..]| { assert s[1..][i..i + |sub|] == s[i + 1..i + 1 + |sub|]; }
        }
      }
      assert forall i :: OccursAt(s, sub, i) ==> i > 0 ==> OccursAt(s[1..], sub, i - 1);
      rest
  }

  /** `s.substring(0, n)` for `n >= 0`: the first `n` characters, or all of `s` if it is shorter. */
  function Prefix(s: string, n: nat): string {
    if n <= |s| then s[..n] else s
  }

  // ---------------------------------------------------------------------------
  // Case

  /** `toLowerCase` on ASCII letters; every other character is left as it is. */
  function LowerChar(c: char): char {
    if 'A' <= c <= 'Z' then (c as int + 32) as char else c
  }

  function ToLowerAscii(s: string): (r: string)
    ensures |r| == |s| && forall i :: 0 <= i < |s| ==> r[i] == LowerChar(s[i])
  {
    if s == [] then [] else [LowerChar(s[0])] + ToLowerAscii(s[1..])
  }

  // ---------------------------------------------------------------------------
  // split and join on a one-character separator

  /** `s.split(sep)` for a one-character separator: every piece between separators, empty ones included. */
  function Split(s: string, sep: char): (parts: seq<string>)
    ensures |parts| >= 1
    ensures forall k :: 0 <= k < |parts| ==> sep !in parts[k]
  {
    if s == [] then [[]]
    else
      var rest := Split(s[1..], sep);
      if s[0] == sep then [[]] + rest else [[s[0]] + rest[0]] + rest[1..]
  }

  /** `parts.join(sep)`. */
  function Join(parts: seq<string>, sep: string): string {
    if |parts| == 0 then []
    else if |parts| == 1 then parts[0]
    else parts[0] + sep + Join(parts[1..], sep)
  }

  /** Joining the pieces of a split with the same separator gives back the string. */
  lemma {:induction false} JoinSplit(s: string, sep: char)
    ensures Join(Split(s, sep), [sep]) == s
  {
    if s != [] {
      var rest := Split(s[1..], sep);
      JoinSplit(s[1..], sep);
      if s[0] != sep && |rest| > 1 {
        assert Join(rest, [sep]) == rest[0] + [sep] + Join(rest[1..], [sep]);
        assert Split(s, sep) == [[s[0]] + rest[0]] + rest[1..];
        assert s == [s[0]] + s[1..];
      } else if s[0] != sep {
        assert s == [s[0]] + s[1..];
      } else {
        assert s == [sep] + s[1..];
      }
    }
  }

  /** Splitting a join of separator-free pieces gives back the pieces. */
  lemma {:induction false} SplitJoin(parts: seq<string>, sep: char)
    requires |parts| >= 1
    requires forall k :: 0 <= k < |parts| ==> sep !in parts[k]
    ensures Split(Join(parts, [sep]), sep) == parts
    decreases |parts|, |parts[0]|
  {
    if |parts| == 1 {
      SplitNoSep(parts[0], sep);
    } else if parts[0] == [] {
      SplitJoin(parts[1..], sep);
      assert Join(parts, [sep]) == [sep] + Join(parts[1..], [sep]);
      assert parts == [[]] + parts[1..];
    } else {
      var p := parts[0];
      var shorter := [p[1..]] + parts[1..];
      assert shorter[1..] == parts[1..];
      assert sep !in p[1..] by { assert forall i :: 0 <= i < |p[1..]| ==> p[1..][i] == p[i + 1]; }
      SplitJoin(shorter, sep);
      var j := Join(parts, [sep]);
      assert j == [p[0]] + Join(shorter, [sep]);
      assert j[1..] == Join(shorter, [sep]);
      assert p == [p[0]] + p[1..];
      assert parts == [[p[0]] + p[1..]] + parts[1..];
    }
  }

  lemma {:induction false} SplitNoSep(s: string, sep: char)
    requires sep !in s
    ensures Split(s, sep) == [s]
  {
    if s != [] {
      assert sep !in s[1..] by { assert forall i :: 0 <= i < |s[1..]| ==> s[1..][i] == s[i + 1]; }
      SplitNoSep(s[1..], sep);
      assert s == [s[0]] + s[1..];
    }
  }

  /** Splitting `a + [sep] + b` where `a` has no separator gives `a` and then the pieces of `b`. */
  lemma {:induction false} SplitAtFirst(a: string, b: string, sep: char)
    requires sep !in a
    ensures Split(a + [sep] + b, sep) == [a] + Split(b, sep)
    decreases |a|
  {
    if a == [] {
      assert [] + [sep] + b == [sep] + b;
      assert ([sep] + b)[1..] == b;
    } else {
      assert (a + [sep] + b)[1..] == a[1..] + [sep] + b;
      assert sep !in a[1..] by { assert forall i :: 0 <= i < |a[1..]| ==> a[1..][i] == a[i + 1]; }
      SplitAtFirst(a[1..], b, sep);
      var rest := Split(a[1..] + [sep] + b, sep);
      assert rest[0] == a[1..] && rest[1..] == Split(b, sep);
      assert [a[0]] + a[1..] == a;
    }
  }

  /** `parts.filter(p => p)`: the non-empty pieces, in order. */
  function NonEmpty(parts: seq<string>): (r: seq<string>)
    ensures |r| <= |parts|
    ensures forall k :: 0 <= k < |r| ==> r[k] != [] && r[k] in parts
    ensures forall p :: p in parts && p != [] ==> p in r
  {
    if parts == [] then []
    else if parts[0] == [] then NonEmpty(parts[1..])
    else [parts[0]] + NonEmpty(parts[1..])
  }

  // ---------------------------------------------------------------------------
  // Decimal numbers

  predicate IsDigit(c: char) {
    '0' <= c <= '9'
  }

  predicate AllDigits(s: string) {
    forall i :: 0 <= i < |s| ==> IsDigit(s[i])
  }

  function DigitChar(d: nat): (c: char)
    requires d < 10
    ensures IsDigit(c)
  {
    ('0' as int + d) as char
  }

  function DigitValue(c: char): nat
    requires IsDigit(c)
  {
    c as int - '0' as int
  }

  /** The number a digit string denotes, most significant digit first. */
  function DecimalValue(s: string): nat
    requires AllDigits(s)
  {
    if s == [] then 0 else DecimalValue(s[..|s| - 1]) * 10 + DigitValue(s[|s| - 1])
  }

  function Pow10(k: nat): (p: nat)
    ensures p >= 1
  {
    if k == 0 then 1 else 10 * Pow10(k - 1)
  }

  /** `String(n)` for a natural number: its shortest decimal numeral. */
  function NatToString(n: nat): (s: string)
    ensures 1 <= |s| && AllDigits(s)
    ensures DecimalValue(s) == n
    ensures s[0] == '0' ==> n == 0
  {
    if n < 10 then [DigitChar(n)]
    else
      var t := NatToString(n / 10) + [DigitChar(n % 10)];
      assert t[..|t| - 1] == NatToString(n / 10);
      t
  }

  /** A numeral has at most `k` digits exactly when the number is below `10^k`. */
  lemma {:induction false} NatToStringLength(n: nat, k: nat)
    requires k >= 1
    ensures |NatToString(n)| <= k <==> n < Pow10(k)
  {
    if n >= 10 && k > 1 {
      NatToStringLength(n / 10, k - 1);
    }
  }

  /** A digit string denotes a number below `10^|s|`. */
  lemma {:induction false} DecimalValueBound(s: string)
    requires AllDigits(s)
    ensures DecimalValue(s) < Pow10(|s|)
  {
    if s != [] { DecimalValueBound(s[..|s| - 1]); }
  }

  /** The value of a digit string, read from its most significant digit. */
  lemma {:induction false} DecimalValueFront(s: string)
    requires AllDigits(s) && s != []
    ensures DecimalValue(s) == DigitValue(s[0]) * Pow10(|s| - 1) + DecimalValue(s[1..])
  {
    if |s| > 1 {
      var init := s[..|s| - 1];
      DecimalValueFront(init);
      assert init[1..] == s[1..][..|s| - 2];
      assert init[0] == s[0];
      var d, q := DigitValue(s[0]), Pow10(|s| - 2);
      var rest, last := DecimalValue(init[1..]), DigitValue(s[|s| - 1]);
      assert DecimalValue(s[1..]) == rest * 10 + last;
      assert Pow10(|s| - 1) == 10 * q;
      assert DecimalValue(s) == (d * q + rest) * 10 + last;
      ShiftDigit(d, q, rest, last);
    } else {
      assert s[1..] == [];
    }
  }

  /** Appending a digit on the right multiplies the value of the digits before it by ten. */
  lemma ShiftDigit(d: nat, q: nat, rest: nat, last: nat)
    ensures (d * q + rest) * 10 + last == d * (10 * q) + (rest * 10 + last)
  {
  }

  /** For digit strings of one length, the string order is the numeric order. */
  lemma {:induction false} DigitStringOrder(a: string, b: string)
    requires |a| == |b| && AllDigits(a) && AllDigits(b)
    ensures StrLess(a, b) <==> DecimalValue(a) < DecimalValue(b)
  {
    if a != [] {
      DecimalValueFront(a);
      DecimalValueFront(b);
      DecimalValueBound(a[1..]);
      DecimalValueBound(b[1..]);
      var p := Pow10(|a| - 1);
      if a[0] == b[0] {
        DigitStringOrder(a[1..], b[1..]);
      } else if a[0] < b[0] {
        LeadingDigitDominates(DigitValue(a[0]), DigitValue(b[0]), DecimalValue(a[1..]), DecimalValue(b[1..]), p);
      } else {
        LeadingDigitDominates(DigitValue(b[0]), DigitValue(a[0]), DecimalValue(b[1..]), DecimalValue(a[1..]), p);
      }
    }
  }

  lemma LeadingDigitDominates(da: nat, db: nat, ra: nat, rb: nat, p: nat)
    requires da < db && ra < p
    ensures da * p + ra < db * p + rb
  {
    calc {
      da * p + ra;
    <
      da * p + p;
    ==
      (da + 1) * p;
    <=  { MulMonotone(da + 1, db, p); }
      db * p;
    <=
      db * p + rb;
    }
  }

  lemma {:induction false} MulMonotone(a: nat, b: nat, p: nat)
    requires a <= b
    ensures a * p <= b * p
  {
    if a < b {
      MulMonotone(a, b - 1, p);
      assert b * p == (b - 1) * p + p;
    }
  }

  /** Leading zeros do not change the value of a digit string. */
  lemma {:induction false} DecimalValueLeadingZero(s: string)
    requires AllDigits(s)
    ensures AllDigits(['0'] + s) && DecimalValue(['0'] + s) == DecimalValue(s)
  {
    if s != [] {
      DecimalValueLeadingZero(s[..|s| - 1]);
      assert (['0'] + s)[..|s|] == ['0'] + s[..|s| - 1];
    }
  }

  /** Every digit string is the numeral of its value padded with leading zeros. */
  function Repeat(c: char, n: nat): (r: string)
    ensures |r| == n && forall i :: 0 <= i < n ==> r[i] == c
  {
    if n == 0 then [] else [c] + Repeat(c, n - 1)
  }

  /** `s.padStart(width, c)`. */
  function PadStart(s: string, width: nat, c: char): (r: string)
    ensures |s| >= width ==> r == s
    ensures |s| < width ==>
              |r| == width && r[width - |s|..] == s && forall i :: 0 <= i < width - |s| ==> r[i] == c
  {
    if |s| >= width then s else Repeat(c, width - |s|) + s
  }

  /** Padding a numeral with zeros keeps its value. */
  lemma {:induction false} ZeroPadValue(s: string, n: nat)
    requires AllDigits(s)
    ensures AllDigits(Repeat('0', n) + s) && DecimalValue(Repeat('0', n) + s) == DecimalValue(s)
  {
    if n > 0 {
      ZeroPadValue(s, n - 1);
      var t := Repeat('0', n - 1) + s;
      DecimalValueLeadingZero(t);
      assert Repeat('0', n) == ['0'] + Repeat('0', n - 1);
      assert Repeat('0', n) + s == ['0'] + t;
    } else {
      assert Repeat('0', n) + s == s;
    }
  }

  // ---------------------------------------------------------------------------
  // String order

  /** The order `<` puts on strings (code point by code point, a proper prefix first). */
  predicate StrLess(a: string, b: string) {
    if a == [] then b != []
    else if b == [] then false
    else a[0] < b[0] || (a[0] == b[0] && StrLess(a[1..], b[1..]))
  }

  lemma {:induction false} StrLessIrreflexive(a: string)
    ensures !StrLess(a, a)
  {
    if a != [] { StrLessIrreflexive(a[1..]); }
  }

  lemma {:induction false} StrLessTransitive(a: string, b: string, c: string)
    requires StrLess(a, b) && StrLess(b, c)
    ensures StrLess(a, c)
  {
    if a != [] && b != [] && c != [] && a[0] == b[0] && b[0] == c[0] {
      StrLessTransitive(a[1..], b[1..], c[1..]);
    }
  }

  /** Any two different strings are ordered one way or the other. */
  lemma {:induction false} StrLessTotal(a: string, b: string)
    ensures a == b || StrLess(a, b) || StrLess(b, a)
  {
    if a != [] && b != [] && a[0] == b[0] {
      StrLessTotal(a[1..], b[1..]);
      if a[1..] == b[1..] {
        assert a == [a[0]] + a[1..] && b == [b[0]] + b[1..];
      }
    }
  }

  /** "Not below" is transitive, since the order is total. */
  lemma NotLessTransitive(a: string, b: string, c: string)
    requires !StrLess(a, b) && !StrLess(b, c)
    ensures !StrLess(a, c)
  {
    StrLessTotal(a, b);
    StrLessTotal(b, c);
    if StrLess(a, c) && a != b && b != c {
      StrLessTransitive(c, b, a);
      StrLessTransitive(a, c, a);
      StrLessIrreflexive(a);
    }
  }

  /** Lower-casing leaves a string without upper-case ASCII letters as it is. */
  lemma ToLowerAsciiNoUpper(s: string)
    requires forall i :: 0 <= i < |s| ==> !('A' <= s[i] <= 'Z')
    ensures ToLowerAscii(s) == s
  {
  }

  // ---------------------------------------------------------------------------
  // JSON values and thrown values

  /** A parsed JSON value; numbers are modelled as integers. */
  datatype Json = JNull | JBool(b: bool) | JNum(n: int) | JStr(s: string) | JArr(items: seq<Json>) | JObj(fields: map<string, Json>)

  /** JavaScript truthiness of a JSON value. */
  predicate Truthy(j: Json) {
    match j
    case JNull => false
    case JBool(b) => b
    case JNum(n) => n != 0
    case JStr(s) => s != []
    case JArr(_) => true
    case JObj(_) => true
  }

  /** Truthiness of a possibly-undefined value (`None` is `undefined`). */
  predicate TruthyOpt(v: Option<Json>) {
    v.Some? && Truthy(v.value)
  }

  /** `v || fallback`: one of the two operands, truthy exactly when one of them is, and the
      left one whenever it is truthy. */
  function OrElse(v: Option<Json>, fallback: Json): (r: Json)
    ensures r == fallback || (v.Some? && r == v.value)
    ensures Truthy(r) <==> TruthyOpt(v) || Truthy(fallback)
    ensures TruthyOpt(v) ==> r == v.value
  {
    if TruthyOpt(v) then v.value else fallback
  }

  /** Property access `j.key`: `null` throws a TypeError, a missing key or a non-object gives `undefined`. */
  function Get(j: Json, key: string): Result<Option<Json>, Thrown> {
    match j
    case JNull => Failure(ErrorObject("Cannot read properties of null (reading '" + key + "')"))
    case JObj(m) => Success(if key in m then Some(m[key]) else None)
    case _ => Success(None)
  }

  /** Property access on a possibly-undefined value: `undefined.key` throws a TypeError. */
  function GetOpt(v: Option<Json>, key: string): (r: Result<Option<Json>, Thrown>)
    ensures r.Failure? <==> v.None? || v.value == JNull
    ensures v.Some? ==> r == Get(v.value, key)
  {
    if v.None? then Failure(ErrorObject("Cannot read properties of undefined (reading '" + key + "')"))
    else Get(v.value, key)
  }

  /** Reading `key` by destructuring the variable `name` (`const { key } = name`): as a property
      access, except that `null` throws the destructuring TypeError, which names the variable. */
  function Destructure(j: Json, key: string, name: string): (r: Result<Option<Json>, Thrown>)
    ensures r.Failure? <==> j == JNull
    ensures j != JNull ==> r == Get(j, key)
  {
    if j == JNull then Failure(ErrorObject("Cannot destructure property '" + key + "' of '" + name + "' as it is null."))
    else Get(j, key)
  }

  /** `String(n)` for an integer: a minus sign before the numeral of a negative number. */
  function IntToString(n: int): (s: string)
    ensures 1 <= |s|
    ensures n >= 0 ==> AllDigits(s) && DecimalValue(s) == n
    ensures n < 0 ==> s[0] == '-' && AllDigits(s[1..]) && DecimalValue(s[1..]) == -n
  {
    if n < 0 then
      var t := "-" + NatToString(-n);
      assert t[1..] == NatToString(-n);
      t
    else NatToString(n)
  }

  /** `String(v)`: a string as it is, an integer in decimal, booleans and `null` by name, an array
      as its elements' texts joined by commas (`null` giving the empty text), and an object as
      `[object Object]`. */
  function JsString(j: Json): (s: string)
    ensures j.JStr? ==> s == j.s
    ensures j.JNum? ==> s == IntToString(j.n)
    ensures j.JArr? && j.items == [] ==> s == []
    ensures j.JArr? && |j.items| == 1 && j.items[0] != JNull ==> s == JsString(j.items[0])
  {
    match j
    case JNull => "null"
    case JBool(b) => if b then "true" else "false"
    case JNum(n) => IntToString(n)
    case JStr(t) => t
    case JArr(items) => Join(seq(|items|, i requires 0 <= i < |items| => if items[i] == JNull then "" else JsString(items[i])), ",")
    case JObj(_) => "[object Object]"
  }

  /** A value a `throw` delivers: an `Error` object with its message, or any other value. */
  datatype Thrown = ErrorObject(message: string) | NonError(text: string)

  /** `error instanceof Error ? error.message : fallback`. */
  function MessageOr(t: Thrown, fallback: string): string {
    if t.ErrorObject? then t.message else fallback
  }
}
