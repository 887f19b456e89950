/** Python string operations the driver relies on, over `seq<char>`:
    slicing, `replace(c, '')`, `split(sep)`, `strip()`, `lower()`,
    `isnumeric()` and the number parsers `int()` and `float()`. */
module Text {

  import opened Wrappers

  const NUL: char := '\0'

  /** Python `s[:n]`. */
  function Take(s: string, n: int): (r: string)
    ensures |r| == if n <= 0 then 0 else if n < |s| then n else |s|
    ensures r <= s
  {
    if n <= 0 then "" else if n < |s| then s[..n] else s
  }

  /** Python `s[n:]` for a non-negative `n`. */
  function Drop(s: string, n: nat): (r: string)
    ensures |r| == if n < |s| then |s| - n else 0
    ensures n < |s| ==> s == s[..n] + r
  {
    if n < |s| then s[n..] else ""
  }

  /** Python `s.replace(c, '')`. */
  function Remove(s: string, c: char): (r: string)
    ensures |r| <= |s|
    decreases |s|
  {
    if s == [] then [] else (if s[0] == c then [] else [s[0]]) + Remove(s[1..], c)
  }

  lemma AppendAssoc<T>(a: seq<T>, b: seq<T>, c: seq<T>)
    ensures (a + b) + c == a + (b + c)
  {
  }

  /** What `replace(c, "")` keeps: every other character, and no `c`. */
  lemma {:induction false} RemoveMembers(s: string, c: char)
    ensures forall x :: x in Remove(s, c) <==> x in s && x != c
    decreases |s|
  {
    if s != [] {
      RemoveMembers(s[1..], c);
      assert s == [s[0]] + s[1..];
    }
  }

  lemma {:induction false} RemoveAppend(a: string, b: string, c: char)
    ensures Remove(a + b, c) == Remove(a, c) + Remove(b, c)
    decreases |a|
  {
    if a != [] {
      assert (a + b)[1..] == a[1..] + b;
      RemoveAppend(a[1..], b, c);
    } else {
      assert a + b == b;
    }
  }

  /** `replace(c, "")` leaves a text without `c` as it is. */
  lemma {:induction false} RemoveNone(s: string, c: char)
    requires c !in s
    ensures Remove(s, c) == s
    decreases |s|
  {
    if s != [] {
      assert c !in s[1..];
      RemoveNone(s[1..], c);
      assert s == [s[0]] + s[1..];
    }
  }

  /** The characters for which Python's `str.isspace()` holds. */
  predicate IsSpace(c: char)
  {
    var n := c as int;
    (9 <= n <= 13) || (28 <= n <= 32) || n == 0x85 || n == 0xA0 || n == 0x1680
    || (0x2000 <= n <= 0x200A) || n == 0x2028 || n == 0x2029 || n == 0x202F
    || n == 0x205F || n == 0x3000
  }

  /** Python `s.lstrip()`. */
  function StripStart(s: string): (r: string)
    ensures r == [] || !IsSpace(r[0])
    ensures |r| <= |s|
    decreases |s|
  {
    if s != [] && IsSpace(s[0]) then StripStart(s[1..]) else s
  }

  /** Python `s.rstrip()`. */
  function StripEnd(s: string): (r: string)
    ensures r == [] || !IsSpace(r[|r| - 1])
    ensures |r| <= |s|
    decreases |s|
  {
    if s != [] && IsSpace(s[|s| - 1]) then StripEnd(s[..|s| - 1]) else s
  }

  /** What `lstrip` keeps is a suffix of the text. */
  lemma {:induction false} StripStartSuffix(s: string)
    ensures StripStart(s) == s[|s| - |StripStart(s)|..]
    decreases |s|
  {
    if s != [] && IsSpace(s[0]) {
      StripStartSuffix(s[1..]);
      assert s[1..][|s[1..]| - |StripStart(s[1..])|..] == s[|s| - |StripStart(s)|..];
    }
  }

  /** What `rstrip` keeps is a prefix of the text. */
  lemma {:induction false} StripEndPrefix(s: string)
    ensures StripEnd(s) == s[..|StripEnd(s)|]
    decreases |s|
  {
    if s != [] && IsSpace(s[|s| - 1]) {
      StripEndPrefix(s[..|s| - 1]);
      assert s[..|s| - 1][..|StripEnd(s)|] == s[..|StripEnd(s)|];
    }
  }

  /** Python `s.strip()`. */
  function Strip(s: string): string
  {
    StripEnd(StripStart(s))
  }

  function LowerChar(c: char): char
  {
    if 'A' <= c <= 'Z' then (c as int + 32) as char else c
  }

  /** Python `s.lower()` on the ASCII letters. */
  function Lower(s: string): (r: string)
    ensures |r| == |s|
    ensures forall i :: 0 <= i < |s| ==> r[i] == LowerChar(s[i])
  {
    seq(|s|, i requires 0 <= i < |s| => LowerChar(s[i]))
  }

  predicate IsDigit(c: char)
  {
    '0' <= c <= '9'
  }

  predicate AllDigits(s: string)
  {
    forall i :: 0 <= i < |s| ==> IsDigit(s[i])
  }

  /** Python `s.isnumeric()`, restricted to the ASCII digits. */
  predicate IsNumeric(s: string)
  {
    |s| > 0 && AllDigits(s)
  }

  function DigitValue(c: char): nat
    requires IsDigit(c)
  {
    c as int - '0' as int
  }

  /** The value of a string of decimal digits, most significant first. */
  function DigitsValue(s: string): (v: nat)
    requires AllDigits(s)
    decreases |s|
  {
    if s == [] then 0
    else DigitsValue(s[..|s| - 1]) * 10 + DigitValue(s[|s| - 1])
  }

  /** The value of the digits after a decimal point: ".25" is 0.25. */
  function FractionValue(s: string): (r: real)
    requires AllDigits(s)
    ensures 0.0 <= r < 1.0
    decreases |s|
  {
    if s == [] then 0.0 else (DigitValue(s[0]) as real + FractionValue(s[1..])) / 10.0
  }

  function IndexOf(s: string, c: char): (k: nat)
    ensures k <= |s|
    ensures k < |s| ==> s[k] == c
    decreases |s|
  {
    if s == [] then 0 else if s[0] == c then 0 else 1 + IndexOf(s[1..], c)
  }

  /** Python `int(s)` for `s` built from digits and signs: an optional sign,
      then at least one digit, with surrounding white space. */
  function ParseInt(s: string): Option<int>
  {
    var t := Strip(s);
    if |t| > 0 && (t[0] == '-' || t[0] == '+') then
      if IsNumeric(t[1..]) then
        Some(if t[0] == '-' then -(DigitsValue(t[1..]) as int) else DigitsValue(t[1..]))
      else None
    else if IsNumeric(t) then Some(DigitsValue(t))
    else None
  }

  /** Python `float(s)` for `s` with no exponent, no white space and no
      letters: an optional '-', then digits with at most one '.', and at
      least one digit. */
  function ParseDecimal(s: string): Option<real>
  {
    var neg := |s| > 0 && s[0] == '-';
    var u := if neg then s[1..] else s;
    var k := IndexOf(u, '.');
    var whole := u[..k];
    var frac := Drop(u, k + 1);
    if AllDigits(whole) && AllDigits(frac) && |whole| + |frac| > 0 then
      var mag := DigitsValue(whole) as real + FractionValue(frac);
      Some(if neg then -mag else mag)
    else None
  }

  /** Python `str.split(sep)`: the pieces between the non-overlapping
      occurrences of `sep`, found from the left. */
  function Split(s: string, sep: string): (r: seq<string>)
    requires |sep| > 0
    ensures |r| >= 1
    decreases |s|
  {
    if |s| == 0 then [""]
    else if |sep| <= |s| && s[..|sep|] == sep then [""] + Split(s[|sep|..], sep)
    else
      var rest := Split(s[1..], sep);
      [[s[0]] + rest[0]] + rest[1..]
  }

  /** Python `sep.join(pieces)`. */
  function Join(pieces: seq<string>, sep: string): string
    requires |pieces| >= 1
    decreases |pieces|
  {
    if |pieces| == 1 then pieces[0] else pieces[0] + sep + Join(pieces[1..], sep)
  }

  /** Python `pieces[1:-1]`. */
  function Interior<T>(pieces: seq<T>): (r: seq<T>)
    ensures |r| == if |pieces| <= 2 then 0 else |pieces| - 2
    ensures forall i :: 0 <= i < |r| ==> r[i] == pieces[i + 1]
  {
    if |pieces| <= 2 then [] else pieces[1..|pieces| - 1]
  }

  lemma {:induction false} JoinExtendFirst(x: string, pieces: seq<string>, sep: string)
    requires |pieces| >= 1
    ensures Join([x + pieces[0]] + pieces[1..], sep) == x + Join(pieces, sep)
  {
    var p := [x + pieces[0]] + pieces[1..];
    if |pieces| > 1 {
      assert p[1..] == pieces[1..];
    }
  }

  /** Joining the pieces of a split with the same separator gives back the text. */
  lemma {:induction false} SplitJoin(s: string, sep: string)
    requires |sep| > 0
    ensures Join(Split(s, sep), sep) == s
    decreases |s|, 1
  {
    if |s| == 0 {
    } else if |sep| <= |s| && s[..|sep|] == sep {
      SplitJoinAtSep(s, sep);
    } else {
      SplitJoinAtChar(s, sep);
    }
  }

  /** `SplitJoin` when the text starts with the separator. */
  lemma {:induction false} SplitJoinAtSep(s: string, sep: string)
    requires 0 < |sep| <= |s| && s[..|sep|] == sep
    ensures Join(Split(s, sep), sep) == s
    decreases |s|, 0
  {
    SplitJoin(s[|sep|..], sep);
    var rest := Split(s[|sep|..], sep);
    assert ([""] + rest)[1..] == rest;
    assert s == s[..|sep|] + s[|sep|..];
  }

  /** `SplitJoin` when the text starts with a character kept in the first piece. */
  lemma {:induction false} SplitJoinAtChar(s: string, sep: string)
    requires 0 < |sep| && 0 < |s| && !(|sep| <= |s| && s[..|sep|] == sep)
    ensures Join(Split(s, sep), sep) == s
    decreases |s|, 0
  {
    var rest := Split(s[1..], sep);
    SplitJoin(s[1..], sep);
    JoinExtendFirst([s[0]], rest, sep);
    assert s == [s[0]] + s[1..];
  }

  /** A single-character separator never occurs inside a piece. */
  lemma {:induction false} SplitPiecesFree(s: string, c: char)
    ensures forall i :: 0 <= i < |Split(s, [c])| ==> c !in Split(s, [c])[i]
    decreases |s|
  {
    if |s| > 0 {
      SplitPiecesFree(s[1..], c);
    }
  }

  /** A text without the separator is a single piece. */
  lemma {:induction false} SplitWithout(s: string, c: char)
    requires c !in s
    ensures Split(s, [c]) == [s]
    decreases |s|
  {
    if |s| > 0 {
      assert s[0] != c && s[..1] != [c];
      SplitWithout(s[1..], c);
      assert [s[0]] + s[1..] == s;
    }
  }

  /** One step of a split on a one-character separator. */
  lemma SplitStep(s: string, c: char)
    requires |s| > 0
    ensures var R := Split(s[1..], [c]);
      Split(s, [c]) == if s[0] == c then [""] + R else [[s[0]] + R[0]] + R[1..]
  {
    assert s[0] == c <==> s[..1] == [c];
  }

  /** Splitting a concatenation on a one-character separator: the last
      piece of the first part is glued to the first piece of the second. */
  lemma {:induction false} SplitAppend(a: string, b: string, c: char)
    ensures var A, B := Split(a, [c]), Split(b, [c]);
      Split(a + b, [c]) == A[..|A| - 1] + [A[|A| - 1] + B[0]] + B[1..]
    decreases |a|
  {
    var A, B := Split(a, [c]), Split(b, [c]);
    if |a| == 0 {
      assert a + b == b;
      assert A == [""];
      assert A[..|A| - 1] == [] && A[|A| - 1] + B[0] == B[0];
      assert B == [B[0]] + B[1..];
    } else {
      var R := Split(a[1..], [c]);
      var T := Split(a[1..] + b, [c]);
      var cut := a[0] == c;
      assert T == R[..|R| - 1] + [R[|R| - 1] + B[0]] + B[1..] by {
        SplitAppend(a[1..], b, c);
      }
      assert A == if cut then [""] + R else [[a[0]] + R[0]] + R[1..] by {
        SplitStep(a, c);
      }
      assert Split(a + b, [c]) == if cut then [""] + T else [[a[0]] + T[0]] + T[1..] by {
        assert (a + b)[0] == a[0] && (a + b)[1..] == a[1..] + b;
        SplitStep(a + b, c);
      }
      Glue(a[0], cut, R, B, T, A);
    }
  }

  /** The list algebra behind one step of `SplitAppend`. */
  lemma Glue(x: char, cut: bool, R: seq<string>, B: seq<string>, T: seq<string>, A: seq<string>)
    requires |R| >= 1 && |B| >= 1
    requires T == R[..|R| - 1] + [R[|R| - 1] + B[0]] + B[1..]
    requires A == if cut then [""] + R else [[x] + R[0]] + R[1..]
    ensures (if cut then [""] + T else [[x] + T[0]] + T[1..])
        == A[..|A| - 1] + [A[|A| - 1] + B[0]] + B[1..]
  {
    if !cut && |R| == 1 {
      assert A == [[x] + R[0]];
      assert T == [R[0] + B[0]] + B[1..];
      assert T[0] == R[0] + B[0] && T[1..] == B[1..];
      assert [x] + (R[0] + B[0]) == ([x] + R[0]) + B[0];
    } else if !cut {
      assert T[0] == R[0];
      assert T[1..] == R[1..|R| - 1] + [R[|R| - 1] + B[0]] + B[1..];
      assert A[..|A| - 1] == [[x] + R[0]] + R[1..|R| - 1];
      assert A[|A| - 1] == R[|R| - 1];
    }
  }
}
