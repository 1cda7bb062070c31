/** String operations with the meaning Python gives them (str.strip, str.split,
    str.join, str.lower, str.isupper, str(int), `in` on strings, slicing).
    Strings are sequences of Unicode scalar values. */
module Text {

  /** Python's str.isspace for one character: the Unicode White_Space set
      plus the ASCII separators \x1c-\x1f that Python also treats as space. */
  predicate IsSpace(c: char) {
    var n := c as int;
    (9 <= n <= 13) || (28 <= n <= 32) || n == 0x85 || n == 0xA0 || n == 0x1680
    || (0x2000 <= n <= 0x200A) || n == 0x2028 || n == 0x2029 || n == 0x202F
    || n == 0x205F || n == 0x3000
  }

  predicate IsAsciiDigit(c: char) { '0' <= c <= '9' }
  predicate IsAsciiUpper(c: char) { 'A' <= c <= 'Z' }
  predicate IsAsciiLower(c: char) { 'a' <= c <= 'z' }

  /** The regex class \w restricted to ASCII: letters, digits and '_'. */
  predicate IsWordChar(c: char) {
    IsAsciiUpper(c) || IsAsciiLower(c) || IsAsciiDigit(c) || c == '_'
  }

  predicate StartsWith(s: string, prefix: string) {
    |prefix| <= |s| && s[..|prefix|] == prefix
  }

  predicate EndsWith(s: string, suffix: string) {
    |suffix| <= |s| && s[|s| - |suffix|..] == suffix
  }

  /** Python's `sub in s`. */
  predicate Contains(s: string, sub: string)
    decreases |s|
  {
    StartsWith(s, sub) || (|s| > 0 && Contains(s[1..], sub))
  }

  /** A string contains each of its own characters as a one-character piece. */
  lemma {:induction false} ContainsChar(s: string, k: nat)
    requires k < |s|
    ensures Contains(s, [s[k]])
    decreases k
  {
    if k > 0 {
      ContainsChar(s[1..], k - 1);
    }
  }

  /** A string that has `sub` as a prefix, suffix or infix contains it. */
  lemma {:induction false} ContainsInfix(a: string, sub: string, b: string)
    ensures Contains(a + sub + b, sub)
    decreases |a|
  {
    if |a| == 0 {
      assert a + sub + b == sub + b;
      assert (sub + b)[..|sub|] == sub;
    } else {
      assert (a + sub + b)[1..] == a[1..] + sub + b;
      ContainsInfix(a[1..], sub, b);
    }
  }

  function StripLeft(s: string): (r: string)
    ensures |r| <= |s| && r == s[|s| - |r|..]
    ensures forall i :: 0 <= i < |s| - |r| ==> IsSpace(s[i])
    ensures |r| > 0 ==> !IsSpace(r[0])
    decreases |s|
  {
    if |s| > 0 && IsSpace(s[0]) then StripLeft(s[1..]) else s
  }

  function StripRight(s: string): (r: string)
    ensures |r| <= |s| && r == s[..|r|]
    ensures forall i :: |r| <= i < |s| ==> IsSpace(s[i])
    ensures |r| > 0 ==> !IsSpace(r[|r| - 1])
    decreases |s|
  {
    if |s| > 0 && IsSpace(s[|s| - 1]) then StripRight(s[..|s| - 1]) else s
  }

  /** Python's str.strip() with no argument. */
  function Strip(s: string): (r: string)
    ensures |r| <= |s|
    ensures |r| > 0 ==> !IsSpace(r[0]) && !IsSpace(r[|r| - 1])
    ensures forall i :: 0 <= i < |r| ==> r[i] in s
  {
    var l := StripLeft(s);
    var r := StripRight(l);
    assert forall i :: 0 <= i < |r| ==> r[i] in s by {
      forall i | 0 <= i < |r| ensures r[i] in s {
        assert r[i] == l[i];
        assert l[i] == s[|s| - |l| + i];
      }
    }
    r
  }

  /** Python's str.rstrip(c) for a single character c. */
  function StripRightChar(s: string, c: char): (r: string)
    ensures |r| <= |s| && r == s[..|r|]
    ensures forall i :: |r| <= i < |s| ==> s[i] == c
    ensures |r| > 0 ==> r[|r| - 1] != c
    decreases |s|
  {
    if |s| > 0 && s[|s| - 1] == c then StripRightChar(s[..|s| - 1], c) else s
  }

  /** Python's str.lower() on ASCII letters; other characters are kept. */
  function LowerAscii(s: string): (r: string)
    ensures |r| == |s|
    ensures forall i :: 0 <= i < |s| ==> !IsAsciiUpper(r[i])
    ensures forall i :: 0 <= i < |s| ==> (IsAsciiUpper(s[i]) || r[i] == s[i])
  {
    seq(|s|, i requires 0 <= i < |s| =>
      if IsAsciiUpper(s[i]) then (s[i] as int - 'A' as int + 'a' as int) as char else s[i])
  }

  /** Python's str.isupper(): there is a cased character and none is lower case
      (ASCII letters are the cased characters of this model). */
  predicate IsUpper(s: string) {
    (exists i :: 0 <= i < |s| && IsAsciiUpper(s[i]))
    && (forall i :: 0 <= i < |s| ==> !IsAsciiLower(s[i]))
  }

  /** Python's str.replace(from, to) for single characters. */
  function ReplaceChar(s: string, from: char, to: char): (r: string)
    ensures |r| == |s|
    ensures forall i :: 0 <= i < |s| ==> r[i] == (if s[i] == from then to else s[i])
  {
    seq(|s|, i requires 0 <= i < |s| => if s[i] == from then to else s[i])
  }

  /** Index of the first occurrence of c in s, if any. */
  function FirstIndex(s: string, c: char): (k: nat)
    requires c in s
    ensures k < |s| && s[k] == c && c !in s[..k]
    ensures forall j :: 0 <= j < k ==> s[j] != c
  {
    if s[0] == c then 0
    else
      assert c in s[1..] by { var j :| 0 <= j < |s| && s[j] == c; assert s[1..][j - 1] == c; }
      var k := FirstIndex(s[1..], c);
      assert s[..k + 1] == [s[0]] + s[1..][..k];
      k + 1
  }

  /** Python's s.split(c) for a one-character separator. */
  function Split(s: string, c: char): (r: seq<string>)
    ensures |r| >= 1
    ensures forall i :: 0 <= i < |r| ==> c !in r[i]
    decreases |s|
  {
    if c !in s then [s]
    else
      var k := FirstIndex(s, c);
      [s[..k]] + Split(s[k + 1..], c)
  }

  /** Python's sep.join(parts). */
  function Join(parts: seq<string>, sep: string): (r: string)
    decreases |parts|
  {
    if |parts| == 0 then ""
    else if |parts| == 1 then parts[0]
    else parts[0] + sep + Join(parts[1..], sep)
  }

  /** Splitting on a character and joining on it again gives back the text. */
  lemma {:induction false} JoinSplit(s: string, c: char)
    ensures Join(Split(s, c), [c]) == s
    decreases |s|
  {
    if c in s {
      var k := FirstIndex(s, c);
      var rest := Split(s[k + 1..], c);
      JoinSplit(s[k + 1..], c);
      var parts := [s[..k]] + rest;
      assert parts[0] == s[..k] && parts[1..] == rest;
      assert Join(parts, [c]) == s[..k] + [c] + s[k + 1..];
      assert s == s[..k] + [c] + s[k + 1..];
    }
  }

  /** Number of occurrences of c in s. */
  function CountChar(s: string, c: char): nat
    decreases |s|
  {
    if |s| == 0 then 0 else (if s[0] == c then 1 else 0) + CountChar(s[1..], c)
  }

  lemma {:induction false} CountCharAppend(a: string, b: string, c: char)
    ensures CountChar(a + b, c) == CountChar(a, c) + CountChar(b, c)
    decreases |a|
  {
    if |a| > 0 {
      assert (a + b)[1..] == a[1..] + b;
      CountCharAppend(a[1..], b, c);
    } else {
      assert a + b == b;
    }
  }

  lemma {:induction false} CountCharAbsent(s: string, c: char)
    requires c !in s
    ensures CountChar(s, c) == 0
    decreases |s|
  {
    if |s| > 0 {
      CountCharAbsent(s[1..], c);
    }
  }

  /** s.split(c) has one more piece than s has separators. */
  lemma {:induction false} SplitLength(s: string, c: char)
    ensures |Split(s, c)| == CountChar(s, c) + 1
    decreases |s|
  {
    if c !in s {
      CountCharAbsent(s, c);
    } else {
      var k := FirstIndex(s, c);
      SplitLength(s[k + 1..], c);
      assert s == s[..k] + ([c] + s[k + 1..]);
      CountCharAppend(s[..k], [c] + s[k + 1..], c);
      CountCharAbsent(s[..k], c);
      assert ([c] + s[k + 1..])[1..] == s[k + 1..];
    }
  }

  /** The text after the last occurrence of c, i.e. Python's s.split(c)[-1]. */
  function LastPiece(s: string, c: char): (r: string)
    ensures c !in r
    ensures EndsWith(s, r)
    decreases |s|
  {
    if c !in s then s
    else
      var k := FirstIndex(s, c);
      var r := LastPiece(s[k + 1..], c);
      assert s[|s| - |r|..] == s[k + 1..][|s[k + 1..]| - |r|..];
      r
  }

  /** Dropping a prefix that lies inside x from x + y. */
  lemma DropAppend<T>(x: seq<T>, y: seq<T>, i: nat)
    requires i <= |x|
    ensures (x + y)[i..] == x[i..] + y
  {
    assert forall j :: 0 <= j < |x| - i + |y| ==> (x + y)[i..][j] == (x[i..] + y)[j];
  }

  /** The last piece is what follows the last occurrence of c. */
  lemma {:induction false} LastPieceAt(s: string, c: char, j: nat)
    requires j < |s| && s[j] == c && c !in s[j + 1..]
    ensures LastPiece(s, c) == s[j + 1..]
    decreases |s|
  {
    assert c in s;
    var k := FirstIndex(s, c);
    var rest := s[k + 1..];
    assert LastPiece(s, c) == LastPiece(rest, c);
    assert k <= j;
    if k == j {
      assert LastPiece(rest, c) == rest;
    } else {
      assert LastPiece(rest, c) == s[j + 1..] by {
        assert rest[j - k - 1] == c;
        assert rest[j - k..] == s[j + 1..];
        LastPieceAt(rest, c, j - k - 1);
      }
    }
  }

  /** The last piece of a + [c] + b is b when b holds no c: a qualified
      call reduces to the name after its last separator. */
  lemma LastPieceAfter(a: string, b: string, c: char)
    requires c !in b
    ensures LastPiece(a + [c] + b, c) == b
  {
    var s := a + [c] + b;
    assert s[|a|] == c && s[|a| + 1..] == b;
    LastPieceAt(s, c, |a|);
  }

  /** The text before the first occurrence of c, i.e. Python's s.split(c)[0]. */
  function FirstPiece(s: string, c: char): (r: string)
    ensures c !in r
    ensures StartsWith(s, r)
    ensures c in s ==> |r| < |s| && s[|r|] == c
    ensures c !in s ==> r == s
  {
    if c !in s then s else s[..FirstIndex(s, c)]
  }

  /** Python's str.split() with no argument: the maximal runs of
      non-space characters. */
  function SplitWhitespace(s: string): (r: seq<string>)
    ensures forall i :: 0 <= i < |r| ==> |r[i]| > 0
    decreases |s|
  {
    if |s| == 0 then []
    else if IsSpace(s[0]) then SplitWhitespace(s[1..])
    else
      var w := WordPrefix(s);
      [w] + SplitWhitespace(s[|w|..])
  }

  /** The longest prefix of s with no space character. */
  function WordPrefix(s: string): (w: string)
    ensures |w| <= |s| && w == s[..|w|]
    ensures forall j :: 0 <= j < |w| ==> !IsSpace(w[j])
    ensures |w| < |s| ==> IsSpace(s[|w|])
    ensures |s| > 0 && !IsSpace(s[0]) ==> |w| > 0
    decreases |s|
  {
    if |s| == 0 || IsSpace(s[0]) then "" else [s[0]] + WordPrefix(s[1..])
  }

  /** Python's str(n) for a natural number. */
  function NatToString(n: nat): (r: string)
    ensures |r| > 0
    ensures forall i :: 0 <= i < |r| ==> IsAsciiDigit(r[i])
    ensures n < 10 <==> |r| == 1
    decreases n
  {
    var d := ['0' + (n % 10) as char];
    if n < 10 then d else NatToString(n / 10) + d
  }

  /** Python's str(i) for an integer. */
  function IntToString(i: int): (r: string)
    ensures |r| > 0
    ensures i < 0 <==> r[0] == '-'
  {
    if i < 0 then "-" + NatToString(-i) else NatToString(i)
  }

  /** Python's s[:k] for any integer k (a negative k counts from the end). */
  function PrefixSlice<T>(s: seq<T>, k: int): (r: seq<T>)
    ensures 0 <= k ==> |r| == (if k < |s| then k else |s|)
    ensures k < 0 ==> |r| == (if |s| + k > 0 then |s| + k else 0)
    ensures r == s[..|r|]
  {
    if k >= 0 then (if k < |s| then s[..k] else s)
    else (if |s| + k > 0 then s[..|s| + k] else [])
  }

  /** str(n) determines n. */
  lemma {:induction false} NatToStringInjective(m: nat, n: nat)
    requires NatToString(m) == NatToString(n)
    ensures m == n
    decreases m
  {
    var a, b := NatToString(m), NatToString(n);
    assert a[|a| - 1] == b[|b| - 1];
    assert m % 10 == n % 10;
    if m >= 10 {
      assert n >= 10;
      assert a[..|a| - 1] == NatToString(m / 10);
      assert b[..|b| - 1] == NatToString(n / 10);
      NatToStringInjective(m / 10, n / 10);
    }
  }

  /** The first occurrence of c is the position before which c does not occur. */
  lemma FirstIndexUnique(s: string, c: char, k: nat)
    requires k < |s| && s[k] == c && c !in s[..k]
    ensures FirstIndex(s, c) == k
  {
  }

  /** Joining pieces that hold no c on c and splitting the text again gives
      back the pieces. */
  lemma {:induction false} SplitJoin(parts: seq<string>, c: char)
    requires |parts| > 0
    requires forall i :: 0 <= i < |parts| ==> c !in parts[i]
    ensures Split(Join(parts, [c]), c) == parts
    decreases |parts|
  {
    if |parts| > 1 {
      var rest := parts[1..];
      var tail := Join(rest, [c]);
      SplitJoin(rest, c);
      var s := Join(parts, [c]);
      var k := |parts[0]|;
      assert s[..k] == parts[0] && s[k] == c && s[k + 1..] == tail by {
        assert s == parts[0] + [c] + tail;
      }
      assert c in s && FirstIndex(s, c) == k by {
        assert c !in parts[0];
        FirstIndexUnique(s, c, k);
      }
      assert Split(s, c) == [parts[0]] + rest;
      assert parts == [parts[0]] + rest;
    }
  }
}
