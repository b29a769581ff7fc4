/** The small part of Go's runtime and standard library the bot relies on:
    strings.Split, strings.Join, strings.HasPrefix, the `<` order on strings,
    `%d` formatting, and the run-time panic an out-of-range slice index raises. */
module GoRuntime {

  /** A computation that either yields a value or stops with Go's
      "index out of range" run-time panic. */
  datatype Result<T> = Ok(value: T) | IndexPanic

  /** strings.HasPrefix */
  predicate HasPrefix(s: string, p: string) {
    |p| <= |s| && s[..|p|] == p
  }

  /** Position of the first `c` in `s`, or -1 (strings.IndexByte). */
  function IndexOf(s: string, c: char): (i: int)
    ensures -1 <= i < |s|
    ensures i == -1 <==> c !in s
    ensures 0 <= i ==> s[i] == c && c !in s[..i]
  {
    if |s| == 0 then -1
    else if s[0] == c then 0
    else
      var j := IndexOf(s[1..], c);
      if j < 0 then -1 else assert s[1..][..j] == s[1..j + 1]; j + 1
  }

  /** strings.Split with a one-character separator: the pieces between
      consecutive separators, so n separators give n + 1 pieces (and the
      empty string gives one empty piece). */
  function Split(s: string, sep: char): (parts: seq<string>)
    ensures |parts| >= 1
    ensures forall i :: 0 <= i < |parts| ==> sep !in parts[i]
    decreases |s|
  {
    var i := IndexOf(s, sep);
    if i < 0 then [s] else [s[..i]] + Split(s[i + 1..], sep)
  }

  /** strings.Join */
  function Join(parts: seq<string>, sep: string): string {
    if |parts| == 0 then ""
    else if |parts| == 1 then parts[0]
    else parts[0] + sep + Join(parts[1..], sep)
  }

  /** Joining one more piece appends the separator and the piece. */
  lemma {:induction false} JoinSnoc(parts: seq<string>, last: string, sep: string)
    requires |parts| >= 1
    ensures Join(parts + [last], sep) == Join(parts, sep) + sep + last
    decreases |parts|
  {
    assert parts + [last] == [parts[0]] + (parts[1..] + [last]);
    JoinCons(parts[0], parts[1..] + [last], sep);
    if |parts| > 1 {
      JoinSnoc(parts[1..], last, sep);
      JoinCons(parts[0], parts[1..], sep);
      assert parts == [parts[0]] + parts[1..];
    }
  }

  /** Text without the separator is a single piece. */
  lemma SplitNone(s: string, c: char)
    requires c !in s
    ensures Split(s, c) == [s]
  {
    assert IndexOf(s, c) == -1;
  }

  /** Splitting at a separator that follows a separator-free piece. */
  lemma SplitAtFirst(a: string, b: string, c: char)
    requires c !in a
    ensures Split(a + [c] + b, c) == [a] + Split(b, c)
  {
    var s := a + [c] + b;
    assert s[..|a|] == a;
    assert s[|a| + 1..] == b;
  }

  /** The first piece of a split is the text up to the first separator. */
  lemma SplitHead(s: string, c: char)
    ensures HasPrefix(s, Split(s, c)[0])
    ensures Split(s, c)[0] == s <==> c !in s
  {
    var i := IndexOf(s, c);
    if i >= 0 {
      assert Split(s, c)[0] == s[..i];
      assert |s[..i]| < |s|;
    }
  }

  /** Appending after a separator does not change the first piece. */
  lemma SplitHeadOfAppend(a: string, b: string, c: char)
    ensures Split(a + [c] + b, c)[0] == Split(a, c)[0]
  {
    var s := a + [c] + b;
    if c !in a {
      SplitAtFirst(a, b, c);
    } else {
      var i := IndexOf(a, c);
      assert s[..i] == a[..i];
      assert s[i] == c;
      assert IndexOf(s, c) == i;
    }
  }

  /** Splitting what Join glued together gives the pieces back, provided no
      piece contains the separator. */
  lemma {:induction false} SplitJoin(parts: seq<string>, c: char)
    requires |parts| >= 1
    requires forall i :: 0 <= i < |parts| ==> c !in parts[i]
    ensures Split(Join(parts, [c]), c) == parts
    decreases |parts|
  {
    if |parts| == 1 {
      assert IndexOf(parts[0], c) == -1;
    } else {
      SplitJoin(parts[1..], c);
      SplitAtFirst(parts[0], Join(parts[1..], [c]), c);
      assert parts == [parts[0]] + parts[1..];
    }
  }

  /** Joining a piece in front of at least one more. */
  lemma JoinCons(first: string, rest: seq<string>, sep: string)
    requires |rest| >= 1
    ensures Join([first] + rest, sep) == first + sep + Join(rest, sep)
  {
    assert ([first] + rest)[1..] == rest;
  }

  /** Text containing `c` is its part before the first `c`, the `c`, and the
      rest. */
  lemma SplitsAtIndex(s: string, c: char) returns (a: string, b: string)
    requires c in s
    ensures c !in a && s == a + [c] + b && |b| < |s|
  {
    var i := IndexOf(s, c);
    a, b := s[..i], s[i + 1..];
    assert s == s[..i] + [s[i]] + s[i + 1..];
  }

  /** Joining the pieces of a split with the separator gives the text back. */
  lemma {:induction false} JoinSplit(s: string, c: char)
    ensures Join(Split(s, c), [c]) == s
    decreases |s|
  {
    if c in s {
      var a, b := SplitsAtIndex(s, c);
      JoinSplit(b, c);
      SplitAtFirst(a, b, c);
      JoinCons(a, Split(b, c), [c]);
    } else {
      assert IndexOf(s, c) == -1;
    }
  }

  /** n separators give exactly n + 1 pieces. */
  lemma {:induction false} SplitLength(s: string, c: char)
    ensures |Split(s, c)| == multiset(s)[c] + 1
    decreases |s|
  {
    if c in s {
      var a, b := SplitsAtIndex(s, c);
      SplitLength(b, c);
      SplitAtFirst(a, b, c);
      assert multiset(s) == multiset(a) + multiset{c} + multiset(b);
      assert multiset(a)[c] == 0;
    } else {
      assert IndexOf(s, c) == -1;
      assert multiset(s)[c] == 0;
    }
  }

  /** Go's `<` on strings: bytewise lexicographic order. On Unicode text this
      is the order of code points, because UTF-8 preserves it; a proper prefix
      is smaller than the longer string. */
  predicate LexLess(a: string, b: string) {
    if |a| == 0 then |b| > 0
    else if |b| == 0 then false
    else if a[0] < b[0] then true
    else if a[0] == b[0] then LexLess(a[1..], b[1..])
    else false
  }

  /** `<=` on strings. */
  predicate LexLe(a: string, b: string) {
    a == b || LexLess(a, b)
  }

  lemma {:induction false} LexIrreflexive(a: string)
    ensures !LexLess(a, a)
    decreases |a|
  {
    if |a| > 0 { LexIrreflexive(a[1..]); }
  }

  lemma {:induction false} LexTransitive(a: string, b: string, c: string)
    requires LexLess(a, b) && LexLess(b, c)
    ensures LexLess(a, c)
    decreases |a|
  {
    if |a| > 0 && a[0] == b[0] && b[0] == c[0] {
      LexTransitive(a[1..], b[1..], c[1..]);
    }
  }

  /** Any two different strings are ordered one way or the other. */
  lemma {:induction false} LexTotal(a: string, b: string)
    ensures a == b || LexLess(a, b) || LexLess(b, a)
    decreases |a|
  {
    if |a| > 0 && |b| > 0 && a[0] == b[0] {
      LexTotal(a[1..], b[1..]);
      if a[1..] == b[1..] {
        assert a == [a[0]] + a[1..] && b == [b[0]] + b[1..];
      }
    }
  }

  /** A string never sorts below one of its prefixes. */
  lemma {:induction false} PrefixNotBelow(s: string, p: string)
    requires HasPrefix(s, p)
    ensures !LexLess(s, p)
    decreases |p|
  {
    if |p| > 0 {
      assert s[1..][..|p| - 1] == p[1..];
      PrefixNotBelow(s[1..], p[1..]);
    }
  }

  /** Every string sorted between two strings sharing a prefix shares it too:
      in an ordered key space the keys with a given prefix are contiguous. */
  lemma {:induction false} PrefixBetween(a: string, b: string, c: string, p: string)
    requires HasPrefix(a, p) && HasPrefix(c, p)
    requires LexLe(a, b) && LexLe(b, c)
    ensures HasPrefix(b, p)
    decreases |p|
  {
    if |p| > 0 && a != b && b != c {
      assert a[0] == p[0] && c[0] == p[0];
      assert |b| > 0;
      assert b[0] == p[0];
      assert a[1..][..|p| - 1] == p[1..];
      assert c[1..][..|p| - 1] == p[1..];
      PrefixBetween(a[1..], b[1..], c[1..], p[1..]);
      assert b == [b[0]] + b[1..];
    }
  }

  function DigitChar(d: nat): (c: char)
    requires d < 10
    ensures '0' <= c <= '9'
  {
    "0123456789"[d]
  }

  /** Decimal digits of a natural number, most significant first. */
  function NatDigits(n: nat): (s: string)
    ensures |s| >= 1
    ensures forall i :: 0 <= i < |s| ==> '0' <= s[i] <= '9'
    decreases n
  {
    if n < 10 then [DigitChar(n)] else NatDigits(n / 10) + [DigitChar(n % 10)]
  }

  /** `%d` of a Go int64: an optional minus sign and decimal digits. */
  function DecimalString(n: int): (s: string)
    ensures |s| >= 1
    ensures forall i :: 0 <= i < |s| ==> s[i] == '-' || '0' <= s[i] <= '9'
  {
    if n < 0 then "-" + NatDigits(-n) else NatDigits(n)
  }
}
