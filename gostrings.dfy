/** The parts of Go's `strings` and `strconv` packages that the library relies
    on, stated over `string` (a sequence of characters).  Go compares and
    splits strings byte by byte; on characters that are whole code points the
    byte order of UTF-8 and the code-point order agree, so the model uses the
    order of `char`. */
module GoStrings {
  import opened Wrappers

  /** strings.HasSuffix */
  predicate HasSuffix(s: string, suffix: string) {
    |suffix| <= |s| && s[|s| - |suffix|..] == suffix
  }

  /** strings.TrimSuffix: removes one trailing `suffix`, if present. */
  function TrimSuffix(s: string, suffix: string): (r: string)
    ensures HasSuffix(s, suffix) ==> r + suffix == s
    ensures !HasSuffix(s, suffix) ==> r == s
  {
    if HasSuffix(s, suffix) then s[..|s| - |suffix|] else s
  }

  /** strings.TrimLeft with a one-character cutset. */
  function TrimLeft(s: string, c: char): (r: string)
    ensures |r| <= |s| && r == s[|s| - |r|..]
    ensures r == [] || r[0] != c
    ensures forall i :: 0 <= i < |s| - |r| ==> s[i] == c
  {
    if |s| > 0 && s[0] == c then TrimLeft(s[1..], c) else s
  }

  /** strings.TrimRight with a one-character cutset. */
  function TrimRight(s: string, c: char): (r: string)
    ensures |r| <= |s| && r == s[..|r|]
    ensures r == [] || r[|r| - 1] != c
    ensures forall i :: |r| <= i < |s| ==> s[i] == c
  {
    if |s| > 0 && s[|s| - 1] == c then TrimRight(s[..|s| - 1], c) else s
  }

  /** strings.Trim with a one-character cutset: every leading and every
      trailing `c` is removed; what is left neither starts nor ends with `c`,
      and it is empty exactly when `s` consists of `c` alone. */
  function Trim(s: string, c: char): (r: string)
    ensures r == [] || (r[0] != c && r[|r| - 1] != c)
    ensures r == [] <==> forall i :: 0 <= i < |s| ==> s[i] == c
    ensures (s == [] || (s[0] != c && s[|s| - 1] != c)) ==> r == s
    ensures exists i, j ::
      (0 <= i <= j <= |s| && r == s[i..j] &&
       (forall k :: 0 <= k < i ==> s[k] == c) && (forall k :: j <= k < |s| ==> s[k] == c))
  {
    var l := TrimLeft(s, c);
    var r := TrimRight(l, c);
    TrimFacts(s, c, r);
    TrimSlice(s, c, l, r);
    r
  }

  /** Cutting leading `c`s and then trailing `c`s leaves a middle slice with
      only `c` around it. */
  lemma TrimSlice(s: string, c: char, l: string, r: string)
    requires |l| <= |s| && l == s[|s| - |l|..]
    requires forall k :: 0 <= k < |s| - |l| ==> s[k] == c
    requires |r| <= |l| && r == l[..|r|]
    requires forall k :: |r| <= k < |l| ==> l[k] == c
    ensures exists i, j ::
      (0 <= i <= j <= |s| && r == s[i..j] &&
       (forall k :: 0 <= k < i ==> s[k] == c) && (forall k :: j <= k < |s| ==> s[k] == c))
  {
    var i := |s| - |l|;
    var j := i + |r|;
    SliceOfSlice(s, l, r, i);
    assert 0 <= i <= j <= |s| && r == s[i..j];
    assert forall k :: j <= k < |s| ==> s[k] == c;
  }

  /** A prefix of a suffix is a middle slice, and what follows the prefix in
      the suffix follows the slice in the whole. */
  lemma SliceOfSlice(s: string, l: string, r: string, i: int)
    requires 0 <= i <= |s| && l == s[i..] && |r| <= |l| && r == l[..|r|]
    ensures r == s[i..i + |r|]
    ensures forall k :: i + |r| <= k < |s| ==> s[k] == l[k - i]
  {
  }

  lemma TrimFacts(s: string, c: char, r: string)
    requires r == TrimRight(TrimLeft(s, c), c)
    ensures r == [] <==> forall i :: 0 <= i < |s| ==> s[i] == c
  {
    var l := TrimLeft(s, c);
    if r != [] {
      var k := |s| - |l|;
      assert s[k] == l[0] != c;
    }
  }

  /** A text that neither starts nor ends with `c` survives Trim with one
      leading `c` added. */
  lemma TrimLeading(s: string, c: char)
    requires s != [] && s[0] != c && s[|s| - 1] != c
    ensures Trim([c] + s, c) == s
  {
    assert ([c] + s)[1..] == s;
    assert TrimLeft([c] + s, c) == s;
  }

  /** strings.Split with a one-character separator: the text between the
      separators, so "a,,b" has three pieces and "" has one. */
  function Split(s: string, c: char): (pieces: seq<string>)
    ensures |pieces| >= 1
    ensures forall i :: 0 <= i < |pieces| ==> c !in pieces[i]
    decreases |s|
  {
    if s == [] then [""]
    else
      var rest := Split(s[1..], c);
      if s[0] == c then [""] + rest
      else [[s[0]] + rest[0]] + rest[1..]
  }

  /** strings.Join with a one-character separator. */
  function Join(pieces: seq<string>, c: char): string
    decreases |pieces|
  {
    if pieces == [] then ""
    else if |pieces| == 1 then pieces[0]
    else pieces[0] + [c] + Join(pieces[1..], c)
  }

  /** A join of non-empty pieces starts with the first piece's first
      character and ends with the last piece's last character. */
  lemma {:induction false} JoinEnds(pieces: seq<string>, c: char)
    requires |pieces| >= 1 && forall i :: 0 <= i < |pieces| ==> pieces[i] != []
    ensures var j := Join(pieces, c);
      j != [] && j[0] == pieces[0][0] && j[|j| - 1] == pieces[|pieces| - 1][|pieces[|pieces| - 1]| - 1]
    decreases |pieces|
  {
    if |pieces| > 1 {
      var rest := pieces[1..];
      assert forall i :: 0 <= i < |rest| ==> rest[i] == pieces[i + 1];
      JoinEnds(rest, c);
      assert rest[|rest| - 1] == pieces[|pieces| - 1];
    }
  }

  /** Joining the pieces of a split gives back the original text. */
  lemma {:induction false} JoinSplit(s: string, c: char)
    ensures Join(Split(s, c), c) == s
    decreases |s|
  {
    if s != [] {
      JoinSplit(s[1..], c);
      var rest := Split(s[1..], c);
      if s[0] == c {
        assert Split(s, c) == [""] + rest;
        assert ([""] + rest)[1..] == rest;
      } else {
        var p := Split(s, c);
        assert p == [[s[0]] + rest[0]] + rest[1..];
        if |rest| == 1 {
          assert Join(p, c) == [s[0]] + rest[0];
        } else {
          assert p[1..] == rest[1..];
          assert Join(rest, c) == rest[0] + [c] + Join(rest[1..], c);
        }
      }
    }
  }

  /** Splitting a join of separator-free pieces gives back the pieces. */
  lemma {:induction false} SplitJoin(pieces: seq<string>, c: char)
    requires |pieces| >= 1
    requires forall i :: 0 <= i < |pieces| ==> c !in pieces[i]
    ensures Split(Join(pieces, c), c) == pieces
    decreases |pieces|, |pieces[0]|
  {
    if |pieces| == 1 {
      SplitPlain(pieces[0], c);
    } else if pieces[0] == [] {
      var tail := Join(pieces[1..], c);
      assert Join(pieces, c) == [c] + tail;
      assert ([c] + tail)[1..] == tail;
      SplitJoin(pieces[1..], c);
      assert [""] + pieces[1..] == pieces;
    } else {
      var p0 := pieces[0];
      var shorter := [p0[1..]] + pieces[1..];
      assert forall i :: 0 <= i < |shorter| ==> c !in shorter[i] by {
        forall i | 0 <= i < |shorter| ensures c !in shorter[i] {
          if i == 0 { assert forall x :: x in p0[1..] ==> x in p0; } else { assert shorter[i] == pieces[i]; }
        }
      }
      SplitJoin(shorter, c);
      var j := Join(pieces, c);
      assert shorter[1..] == pieces[1..];
      assert j == [p0[0]] + Join(shorter, c);
      assert j[1..] == Join(shorter, c);
      assert p0[0] != c by { assert p0[0] in p0; }
      assert p0 == [p0[0]] + p0[1..];
      assert pieces == [p0] + pieces[1..];
    }
  }

  lemma {:induction false} SplitPlain(s: string, c: char)
    requires c !in s
    ensures Split(s, c) == [s]
    decreases |s|
  {
    if s != [] {
      assert forall x :: x in s[1..] ==> x in s;
      SplitPlain(s[1..], c);
      assert [s[0]] + s[1..] == s;
    }
  }

  /** The pieces of every value, in order: the effect of appending
      `strings.Split(v, ",")` for each value `v` in turn. */
  function SplitAll(values: seq<string>, c: char): (pieces: seq<string>)
    ensures |pieces| >= |values|
    decreases |values|
  {
    if values == [] then []
    else SplitAll(values[..|values| - 1], c) + Split(values[|values| - 1], c)
  }

  /** Go's `<` on strings: lexicographic order. */
  predicate Less(a: string, b: string)
    decreases |a|
  {
    if a == [] then b != []
    else if b == [] then false
    else if a[0] != b[0] then a[0] < b[0]
    else Less(a[1..], b[1..])
  }

  lemma {:induction false} LessIrreflexive(a: string)
    ensures !Less(a, a)
    decreases |a|
  {
    if a != [] { LessIrreflexive(a[1..]); }
  }

  lemma {:induction false} LessTransitive(a: string, b: string, d: string)
    requires Less(a, b) && Less(b, d)
    ensures Less(a, d)
    decreases |a|
  {
    if a != [] && b != [] && d != [] && a[0] == b[0] && b[0] == d[0] {
      LessTransitive(a[1..], b[1..], d[1..]);
    }
  }

  lemma {:induction false} LessTotal(a: string, b: string)
    ensures a == b || Less(a, b) || Less(b, a)
    decreases |a|
  {
    if a != [] && b != [] && a[0] == b[0] {
      LessTotal(a[1..], b[1..]);
      if a[1..] == b[1..] {
        assert a == [a[0]] + a[1..] && b == [b[0]] + b[1..];
      }
    }
  }

  lemma LessAsymmetric(a: string, b: string)
    requires Less(a, b)
    ensures !Less(b, a)
  {
    if Less(b, a) {
      LessTransitive(a, b, a);
      LessIrreflexive(a);
    }
  }

  /** `<` followed by `<=` is `<`. */
  lemma LessLessEq(a: string, b: string, d: string)
    requires Less(a, b) && !Less(d, b)
    ensures Less(a, d)
  {
    LessTotal(b, d);
    if Less(b, d) {
      LessTransitive(a, b, d);
    }
  }

  /** `<=` (not `>`) is transitive. */
  lemma LessEqTransitive(a: string, b: string, d: string)
    requires !Less(b, a) && !Less(d, b)
    ensures !Less(d, a)
  {
    if Less(d, a) {
      LessLessEq(d, a, b);
    }
  }

  // ---------------------------------------------------------------------------
  // strconv.Atoi and strconv.Itoa (64-bit int)

  const MinInt64: int := -0x8000_0000_0000_0000
  const MaxInt64: int :=  0x7FFF_FFFF_FFFF_FFFF

  predicate IsDigit(ch: char) { '0' <= ch <= '9' }

  predicate IsDigits(s: string) {
    s != [] && forall i :: 0 <= i < |s| ==> IsDigit(s[i])
  }

  function DigitValue(ch: char): nat
    requires IsDigit(ch)
  {
    ch as int - '0' as int
  }

  function DigitChar(d: nat): (ch: char)
    requires d < 10
    ensures IsDigit(ch) && DigitValue(ch) == d
  {
    ('0' as int + d) as char
  }

  /** The value of a string of decimal digits, most significant first. */
  function DigitsValue(s: string): nat
    requires forall i :: 0 <= i < |s| ==> IsDigit(s[i])
    decreases |s|
  {
    if s == [] then 0 else DigitsValue(s[..|s| - 1]) * 10 + DigitValue(s[|s| - 1])
  }

  /** The value of a sign followed by decimal digits. */
  function SignedValue(s: string): int
    requires |s| >= 2 && IsDigits(s[1..])
  {
    if s[0] == '-' then -(DigitsValue(s[1..]) as int) else DigitsValue(s[1..])
  }

  /** strconv.Atoi on a 64-bit platform: an optional `+` or `-` followed by
      one or more decimal digits whose value fits in 64 bits; anything else
      (empty, a sign alone, any other character, out of range) is an error. */
  function Atoi(s: string): (r: Option<int>)
    ensures r.Some? ==> MinInt64 <= r.value <= MaxInt64
    ensures r.Some? ==> s != [] && (IsDigits(s) || ((s[0] == '+' || s[0] == '-') && IsDigits(s[1..])))
    ensures IsDigits(s) && DigitsValue(s) <= MaxInt64 ==> r == Some(DigitsValue(s))
    ensures (|s| >= 2 && (s[0] == '+' || s[0] == '-') && IsDigits(s[1..]) &&
             MinInt64 <= SignedValue(s) <= MaxInt64) ==> r == Some(SignedValue(s))
    ensures r.Some? ==> r.value == if IsDigits(s) then DigitsValue(s) as int else SignedValue(s)
  {
    if s == [] then None
    else
      var negative := s[0] == '-';
      var digits := if s[0] == '+' || s[0] == '-' then s[1..] else s;
      if !IsDigits(digits) then None
      else
        var n: int := if negative then -(DigitsValue(digits) as int) else DigitsValue(digits);
        if MinInt64 <= n <= MaxInt64 then Some(n) else None
  }

  /** Decimal digits of a natural number, without leading zeros. */
  function NatDigits(n: nat): (s: string)
    ensures IsDigits(s) && DigitsValue(s) == n
    ensures s[0] != '0' || n == 0
    decreases n
  {
    if n < 10 then [DigitChar(n)]
    else
      var s := NatDigits(n / 10) + [DigitChar(n % 10)];
      assert s[..|s| - 1] == NatDigits(n / 10);
      s
  }

  /** strconv.Itoa */
  function Itoa(n: int): string {
    if n < 0 then "-" + NatDigits(-n) else NatDigits(n)
  }

  /** Atoi inverts Itoa on every 64-bit integer. */
  lemma ItoaAtoi(n: int)
    requires MinInt64 <= n <= MaxInt64
    ensures Atoi(Itoa(n)) == Some(n)
  {
    var s := Itoa(n);
    if n < 0 {
      assert s[1..] == NatDigits(-n);
    }
  }

  /** Different integers have different decimal forms. */
  lemma ItoaInjective(m: int, n: int)
    requires Itoa(m) == Itoa(n)
    ensures m == n
  {
    if m < 0 && n < 0 {
      assert Itoa(m)[1..] == NatDigits(-m) && Itoa(n)[1..] == NatDigits(-n);
    }
  }
}
