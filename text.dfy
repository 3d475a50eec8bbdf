/**
 * The string operations the traceability classes rely on: Kotlin's `split` with a
 * string delimiter, `joinToString` with a separator, and `Long.toString`.
 */
module Text {
  import opened Wrappers

  /** `sep` occurs in `s` starting at index `i`. */
  predicate OccursAt(s: string, sep: string, i: nat)
  {
    i + |sep| <= |s| && s[i..i + |sep|] == sep
  }

  /** `sep` occurs somewhere in `s`. */
  ghost predicate Occurs(s: string, sep: string)
  {
    exists i: nat :: OccursAt(s, sep, i)
  }

  /** The first index at or after `from` where `sep` occurs in `s` (Kotlin's `indexOf(sep, from)`). */
  function IndexOf(s: string, sep: string, from: nat): (r: Option<nat>)
    decreases |s| - from
    ensures r.Some? ==> from <= r.value && OccursAt(s, sep, r.value)
    ensures r.Some? ==> forall j: nat :: from <= j < r.value ==> !OccursAt(s, sep, j)
    ensures r.None? ==> forall j: nat :: from <= j ==> !OccursAt(s, sep, j)
  {
    if from + |sep| > |s| then None
    else if OccursAt(s, sep, from) then Some(from)
    else IndexOf(s, sep, from + 1)
  }

  /**
   * Kotlin's `s.split(sep)` for a non-empty delimiter: the pieces between the
   * occurrences of `sep` found left to right, each search resuming after the
   * previous occurrence. There is always at least one piece.
   */
  function Split(s: string, sep: string): (r: seq<string>)
    requires |sep| > 0
    decreases |s|
    ensures |r| >= 1
  {
    match IndexOf(s, sep, 0)
    case None => [s]
    case Some(i) => [s[..i]] + Split(s[i + |sep|..], sep)
  }

  /** The combined length of the values. */
  function TotalLength(vs: seq<string>): nat
  {
    if vs == [] then 0 else |vs[0]| + TotalLength(vs[1..])
  }

  /**
   * Kotlin's `vs.joinToString(sep)`: the values with `sep` between neighbours.
   * The result starts with the first value.
   */
  function Join(vs: seq<string>, sep: string): (r: string)
    ensures |vs| == 0 ==> r == ""
    ensures |vs| >= 1 ==> vs[0] <= r
  {
    if |vs| == 0 then ""
    else if |vs| == 1 then vs[0]
    else vs[0] + sep + Join(vs[1..], sep)
  }

  /** The join holds every value plus one separator per gap. */
  lemma {:induction false} JoinLength(vs: seq<string>, sep: string)
    requires |vs| >= 1
    ensures |Join(vs, sep)| == TotalLength(vs) + (|vs| - 1) * |sep|
    decreases |vs|
  {
    if |vs| > 1 {
      JoinLength(vs[1..], sep);
      assert (|vs| - 1) * |sep| == |sep| + (|vs| - 2) * |sep|;
    }
  }

  lemma JoinCons(v: string, vs: seq<string>, sep: string)
    requires |vs| >= 1
    ensures Join([v] + vs, sep) == v + sep + Join(vs, sep)
  {
    assert ([v] + vs)[1..] == vs;
  }

  /** An occurrence inside a prefix of `s` is an occurrence in `s`, ending within the prefix. */
  lemma OccursInPrefix(s: string, sep: string, n: nat, j: nat)
    requires n <= |s| && OccursAt(s[..n], sep, j)
    ensures OccursAt(s, sep, j) && j + |sep| <= n
  {
    assert s[..n][j..j + |sep|] == s[j..j + |sep|];
  }

  /** An occurrence in `v` is still one after something is appended to `v`. */
  lemma OccursInExtension(v: string, t: string, sep: string, j: nat)
    requires OccursAt(v, sep, j)
    ensures OccursAt(v + t, sep, j)
  {
    assert (v + t)[j..j + |sep|] == v[j..j + |sep|];
  }

  /** Joining the pieces of a split gives back the original string. */
  lemma {:induction false} JoinSplit(s: string, sep: string)
    requires |sep| > 0
    ensures Join(Split(s, sep), sep) == s
    decreases |s|
  {
    match IndexOf(s, sep, 0)
    case None =>
    case Some(i) =>
      var rest := s[i + |sep|..];
      assert Split(s, sep) == [s[..i]] + Split(rest, sep);
      JoinSplit(rest, sep);
      JoinCons(s[..i], Split(rest, sep), sep);
      assert s[i..i + |sep|] == sep;
      assert s == s[..i] + s[i..i + |sep|] + rest;
  }

  /** No piece of a split contains the separator. */
  lemma {:induction false} SplitPiecesSeparatorFree(s: string, sep: string)
    requires |sep| > 0
    ensures forall k :: 0 <= k < |Split(s, sep)| ==> !Occurs(Split(s, sep)[k], sep)
    decreases |s|
  {
    match IndexOf(s, sep, 0)
    case None =>
      assert Split(s, sep) == [s];
    case Some(i) =>
      var rest := s[i + |sep|..];
      SplitPiecesSeparatorFree(rest, sep);
      var r := Split(s, sep);
      assert r == [s[..i]] + Split(rest, sep);
      if Occurs(s[..i], sep) {
        var j: nat :| OccursAt(s[..i], sep, j);
        OccursInPrefix(s, sep, i, j);
        assert false;
      }
      forall k | 0 <= k < |r| ensures !Occurs(r[k], sep) {
        if k > 0 { assert r[k] == Split(rest, sep)[k - 1]; }
      }
  }

  /** A string that does not contain the separator splits into itself alone. */
  lemma SplitWithoutSeparator(s: string, sep: string)
    requires |sep| > 0 && !Occurs(s, sep)
    ensures Split(s, sep) == [s]
  {
  }

  /**
   * `v` can be joined with `sep` and recovered by a split: no occurrence of
   * `sep` starts inside `v`, even one that runs on into a following separator.
   */
  ghost predicate Separable(v: string, sep: string)
    requires |sep| > 0
  {
    !Occurs(v + sep[..|sep| - 1], sep)
  }

  /** A separable value does not contain the separator. */
  lemma SeparableIsSeparatorFree(v: string, sep: string)
    requires |sep| > 0 && Separable(v, sep)
    ensures !Occurs(v, sep)
  {
    if Occurs(v, sep) {
      var j: nat :| OccursAt(v, sep, j);
      OccursInExtension(v, sep[..|sep| - 1], sep, j);
      assert false;
    }
  }

  /** For a one-character separator, separable means not containing that character. */
  lemma SingleCharSeparable(v: string, c: char)
    ensures Separable(v, [c]) <==> c !in v
  {
    assert v + [c][..0] == v;
    if c in v {
      var j :| 0 <= j < |v| && v[j] == c;
      assert OccursAt(v, [c], j);
    }
    forall j: nat | OccursAt(v, [c], j) ensures v[j] == c {
      assert v[j..j + 1] == [c];
    }
  }

  /** Splitting a join of separable values gives back exactly those values, in order. */
  lemma {:induction false} SplitJoin(vs: seq<string>, sep: string)
    requires |sep| > 0 && |vs| >= 1
    requires forall k :: 0 <= k < |vs| ==> Separable(vs[k], sep)
    ensures Split(Join(vs, sep), sep) == vs
    decreases |vs|
  {
    var v := vs[0];
    SeparableIsSeparatorFree(v, sep);
    if |vs| == 1 {
      SplitWithoutSeparator(v, sep);
    } else {
      var rest := vs[1..];
      var tail := Join(rest, sep);
      var s := v + sep + tail;
      assert Join(vs, sep) == s;
      assert s[|v|..|v| + |sep|] == sep;
      assert OccursAt(s, sep, |v|);
      var p := v + sep[..|sep| - 1];
      assert p == s[..|v| + |sep| - 1];
      forall j: nat | j < |v| && OccursAt(s, sep, j) ensures OccursAt(p, sep, j) {
        assert p[j..j + |sep|] == s[j..j + |sep|];
      }
      assert IndexOf(s, sep, 0) == Some(|v|);
      assert s[..|v|] == v;
      assert s[|v| + |sep|..] == tail;
      SplitJoin(rest, sep);
      assert vs == [v] + rest;
    }
  }

  /**
   * With a separator of two or more characters, values that merely do not
   * contain it need not survive a join followed by a split.
   */
  lemma MultiCharSeparatorNotLossless()
    ensures !Occurs("a", "aa") && !Occurs("", "aa")
    ensures Join(["a", ""], "aa") == "aaa"
    ensures Split("aaa", "aa") == ["", "a"]
  {
    assert OccursAt("aaa", "aa", 0);
    assert IndexOf("aaa", "aa", 0) == Some(0);
    assert "aaa"[2..] == "a";
    assert IndexOf("a", "aa", 0) == None;
    assert Split("a", "aa") == ["a"];
  }

  /** With a one-character separator there is one more piece than occurrences of that character. */
  lemma {:induction false} SplitCountSingleChar(s: string, c: char)
    ensures |Split(s, [c])| == multiset(s)[c] + 1
    decreases |s|
  {
    match IndexOf(s, [c], 0)
    case None =>
      forall j | 0 <= j < |s| ensures s[j] != c {
        assert s[j..j + 1] == [s[j]];
        assert !OccursAt(s, [c], j);
      }
    case Some(i) =>
      var rest := s[i + 1..];
      SplitCountSingleChar(rest, c);
      forall j | 0 <= j < i ensures s[..i][j] != c {
        assert s[j..j + 1] == [s[j]];
        assert !OccursAt(s, [c], j);
      }
      assert s == s[..i] + [c] + rest;
      assert multiset(s) == multiset(s[..i]) + multiset([c]) + multiset(rest);
  }

  /** A separator with a character that is not a digit never occurs in a digit string. */
  lemma DigitsAvoidSeparator(s: string, sep: string, k: nat)
    requires IsDigits(s) && k < |sep| && !('0' <= sep[k] <= '9')
    ensures !Occurs(s, sep)
  {
  }

  /** The digit character for `d`. */
  function DigitChar(d: nat): (c: char)
    requires d < 10
    ensures '0' <= c <= '9' && c as int - '0' as int == d
  {
    ('0' as int + d) as char
  }

  /** Every character of `s` is a decimal digit. */
  predicate IsDigits(s: string)
  {
    forall k :: 0 <= k < |s| ==> '0' <= s[k] <= '9'
  }

  /** The decimal representation of `n`, most significant digit first, without leading zeros. */
  function Digits(n: nat): (r: string)
    decreases n
    ensures |r| >= 1 && IsDigits(r)
    ensures |r| > 1 ==> r[0] != '0'
  {
    if n < 10 then [DigitChar(n)] else Digits(n / 10) + [DigitChar(n % 10)]
  }

  /** The number a string of decimal digits denotes. */
  function ParseDigits(s: string): nat
    requires IsDigits(s)
  {
    if s == [] then 0 else ParseDigits(s[..|s| - 1]) * 10 + (s[|s| - 1] as int - '0' as int)
  }

  /** Reading back the decimal representation of `n` gives `n`. */
  lemma {:induction false} DigitsRoundTrip(n: nat)
    ensures ParseDigits(Digits(n)) == n
    decreases n
  {
    if n >= 10 {
      DigitsRoundTrip(n / 10);
      var r := Digits(n);
      assert r[..|r| - 1] == Digits(n / 10);
    }
  }

  const LongMin: int := -0x8000_0000_0000_0000
  const LongMax: int := 0x7FFF_FFFF_FFFF_FFFF

  /** Kotlin's 64-bit `Long`. */
  type Long = x: int | LongMin <= x <= LongMax

  /** Two's-complement wrap-around of a mathematical integer into a `Long`. */
  function WrapLong(x: int): (r: Long)
    ensures (x - r) % 0x1_0000_0000_0000_0000 == 0
    ensures LongMin <= x <= LongMax ==> r == x
  {
    (x - LongMin) % 0x1_0000_0000_0000_0000 + LongMin
  }

  /** Kotlin's `Long.toString()`: an optional minus sign followed by the decimal digits. */
  function LongToString(x: Long): (r: string)
    ensures x >= 0 ==> r == Digits(x)
    ensures x < 0 ==> r == "-" + Digits(-(x as int))
    ensures |r| >= 1 && (r[0] == '-' <==> x < 0)
    ensures x >= 0 ==> IsDigits(r) && ParseDigits(r) == x
    ensures x < 0 ==> IsDigits(r[1..]) && ParseDigits(r[1..]) == -(x as int)
  {
    DigitsRoundTrip(if x < 0 then -(x as int) else x);
    if x < 0 then "-" + Digits(-(x as int)) else Digits(x)
  }

}
