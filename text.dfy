/** The two Python string methods the readers rely on: `str.strip()` with no
    argument and `str.split(sep)` with a one-character separator. */
module Text {

  /** `str.isspace()` for one character: the characters CPython strips by
      default (ASCII whitespace, the four separators U+001C..U+001F, and the
      Unicode spaces and line/paragraph separators). */
  predicate IsSpace(c: char) {
    var n := c as int;
    || 0x09 <= n <= 0x0D
    || 0x1C <= n <= 0x20
    || n == 0x85 || n == 0xA0 || n == 0x1680
    || 0x2000 <= n <= 0x200A
    || n == 0x2028 || n == 0x2029 || n == 0x202F || n == 0x205F || n == 0x3000
  }

  predicate AllSpace(s: string) {
    forall i :: 0 <= i < |s| ==> IsSpace(s[i])
  }

  /** Neither end of `s` is whitespace: the shape of every result of `strip()`. */
  predicate Trimmed(s: string) {
    |s| == 0 || (!IsSpace(s[0]) && !IsSpace(s[|s| - 1]))
  }

  /** `s.lstrip()`: drops leading whitespace only. */
  function StripLeft(s: string): (r: string)
    ensures |r| <= |s| && r == s[|s| - |r|..]
    ensures |r| == 0 || !IsSpace(r[0])
    decreases |s|
  {
    if |s| > 0 && IsSpace(s[0]) then StripLeft(s[1..]) else s
  }

  /** `s.rstrip()`: drops trailing whitespace only. */
  function StripRight(s: string): (r: string)
    ensures |r| <= |s| && r == s[..|r|]
    ensures |r| == 0 || !IsSpace(r[|r| - 1])
    decreases |s|
  {
    if |s| > 0 && IsSpace(s[|s| - 1]) then StripRight(s[..|s| - 1]) else s
  }

  /** `s.strip()`. Its result is a slice of `s` with only whitespace removed
      on either side, and has no whitespace at either end. */
  function Strip(s: string): (r: string)
    ensures Trimmed(r)
    ensures |r| <= |s|
    ensures AllSpace(s) ==> r == ""
  {
    StripRight(StripLeft(s))
  }

  /** A trimmed string is unchanged by `strip()`. */
  lemma {:induction false} StripTrimmed(s: string)
    requires Trimmed(s)
    ensures Strip(s) == s
  {
    if |s| > 0 {
      assert StripLeft(s) == s;
      assert StripRight(s) == s;
    }
  }

  /** `strip()` is idempotent. */
  lemma {:induction false} StripIdempotent(s: string)
    ensures Strip(Strip(s)) == Strip(s)
  {
    StripTrimmed(Strip(s));
  }

  lemma {:induction false} StripLeftPadded(pad: string, t: string)
    requires AllSpace(pad)
    requires |t| == 0 || !IsSpace(t[0])
    ensures StripLeft(pad + t) == t
    decreases |pad|
  {
    if |pad| == 0 {
      assert pad + t == t;
    } else {
      assert (pad + t)[1..] == pad[1..] + t;
      StripLeftPadded(pad[1..], t);
    }
  }

  lemma {:induction false} StripRightPadded(t: string, pad: string)
    requires AllSpace(pad)
    requires |t| == 0 || !IsSpace(t[|t| - 1])
    ensures StripRight(t + pad) == t
    decreases |pad|
  {
    if |pad| == 0 {
      assert t + pad == t;
    } else {
      var p' := pad[..|pad| - 1];
      assert (t + pad)[..|t + pad| - 1] == t + p';
      StripRightPadded(t, p');
    }
  }

  /** `strip()` removes exactly the whitespace around a trimmed core: any
      trimmed text padded with whitespace on both sides strips back to it. */
  lemma {:induction false} StripPadded(left: string, t: string, right: string)
    requires AllSpace(left) && AllSpace(right) && Trimmed(t) && |t| > 0
    ensures Strip(left + t + right) == t
  {
    assert left + t + right == left + (t + right);
    StripLeftPadded(left, t + right);
    StripRightPadded(t, right);
  }

  /** `s.split(sep)`: the pieces of `s` between occurrences of `sep`, in
      order. There is always at least one piece, and no piece contains `sep`. */
  function Split(s: string, sep: char): (parts: seq<string>)
    ensures |parts| >= 1
    ensures forall i :: 0 <= i < |parts| ==> sep !in parts[i]
    decreases |s|
  {
    if |s| == 0 then [""]
    else
      var rest := Split(s[1..], sep);
      if s[0] == sep then [""] + rest
      else [[s[0]] + rest[0]] + rest[1..]
  }

  /** `sep.join(parts)`: the inverse of `Split`. */
  function Join(parts: seq<string>, sep: char): (s: string)
    requires |parts| >= 1
    decreases |parts|
  {
    if |parts| == 1 then parts[0] else parts[0] + [sep] + Join(parts[1..], sep)
  }

  /** Text with no separator is one piece. */
  lemma {:induction false} SplitNoSep(s: string, sep: char)
    requires sep !in s
    ensures Split(s, sep) == [s]
    decreases |s|
  {
    if |s| > 0 {
      SplitNoSep(s[1..], sep);
      assert [s[0]] + s[1..] == s;
    }
  }

  /** Splitting distributes over a separator: the pieces of `a + sep + b` are
      the pieces of `a` followed by the pieces of `b`. */
  lemma {:induction false} SplitConcat(a: string, sep: char, b: string)
    ensures Split(a + [sep] + b, sep) == Split(a, sep) + Split(b, sep)
    decreases |a|
  {
    var s := a + [sep] + b;
    if |a| == 0 {
      assert s[1..] == b;
    } else {
      assert s[1..] == a[1..] + [sep] + b;
      SplitConcat(a[1..], sep, b);
    }
  }

  /** Joining the pieces gives back the text. */
  lemma {:induction false} JoinSplit(s: string, sep: char)
    ensures Join(Split(s, sep), sep) == s
    decreases |s|
  {
    if |s| > 0 {
      JoinSplit(s[1..], sep);
      var rest := Split(s[1..], sep);
      if s[0] == sep {
        assert ([""] + rest)[1..] == rest;
      } else {
        if |rest| > 1 {
          assert ([[s[0]] + rest[0]] + rest[1..])[1..] == rest[1..];
        }
      }
    }
  }

  /** Splitting a join of separator-free pieces gives back the pieces. */
  lemma {:induction false} SplitJoin(parts: seq<string>, sep: char)
    requires |parts| >= 1
    requires forall i :: 0 <= i < |parts| ==> sep !in parts[i]
    ensures Split(Join(parts, sep), sep) == parts
    decreases |parts|
  {
    SplitNoSep(parts[0], sep);
    if |parts| > 1 {
      SplitJoin(parts[1..], sep);
      SplitConcat(parts[0], sep, Join(parts[1..], sep));
      assert [parts[0]] + parts[1..] == parts;
    }
  }

  /** Indexing `split(sep)[1]` succeeds exactly when `sep` occurs. */
  lemma {:induction false} SplitHasSecond(s: string, sep: char)
    ensures |Split(s, sep)| >= 2 <==> sep in s
  {
    if sep in s {
      var i :| 0 <= i < |s| && s[i] == sep;
      assert s == s[..i] + [sep] + s[i + 1..];
      SplitConcat(s[..i], sep, s[i + 1..]);
    } else {
      SplitNoSep(s, sep);
    }
  }

  /** `(key + sep + rest).split(sep)[1]` when the key holds no separator is
      the first piece of `rest`. */
  lemma {:induction false} SplitAfterKey(key: string, sep: char, rest: string)
    requires sep !in key
    ensures |Split(key + [sep] + rest, sep)| >= 2
    ensures Split(key + [sep] + rest, sep)[1] == Split(rest, sep)[0]
    ensures Split(key + [sep] + rest, sep)[0] == key
  {
    SplitConcat(key, sep, rest);
    SplitNoSep(key, sep);
  }

  /** `(v + sep + tail).split(sep)[0] == v` when `v` holds no separator. */
  lemma {:induction false} SplitFirstPiece(v: string, sep: char, tail: string)
    requires sep !in v
    ensures Split(v + [sep] + tail, sep)[0] == v
  {
    SplitConcat(v, sep, tail);
    SplitNoSep(v, sep);
  }

  /** `(head + sep + v).split(sep)[-1] == v` when `v` holds no separator,
      whatever `head` holds. */
  lemma {:induction false} SplitLastPiece(head: string, sep: char, v: string)
    requires sep !in v
    ensures var parts := Split(head + [sep] + v, sep); parts[|parts| - 1] == v
  {
    SplitConcat(head, sep, v);
    SplitNoSep(v, sep);
  }

  /** A prefix free of the separator stays in the first piece. */
  lemma {:induction false} SplitFirstPrefix(a: string, sep: char, b: string)
    requires sep !in a
    ensures Split(a + b, sep)[0] == a + Split(b, sep)[0]
    decreases |a|
  {
    if |a| > 0 {
      assert (a + b)[1..] == a[1..] + b;
      SplitFirstPrefix(a[1..], sep, b);
      assert [a[0]] + (a[1..] + Split(b, sep)[0]) == a + Split(b, sep)[0];
    } else {
      assert a + b == b;
    }
  }

  /** A character absent from the text is absent from every piece. */
  lemma {:induction false} SplitKeepsAbsent(s: string, sep: char, c: char)
    requires c !in s
    ensures forall i :: 0 <= i < |Split(s, sep)| ==> c !in Split(s, sep)[i]
    decreases |s|
  {
    if |s| > 0 {
      SplitKeepsAbsent(s[1..], sep, c);
    }
  }

  /** The position of the first occurrence of `c` in `s`. */
  function IndexOf(s: string, c: char): (i: nat)
    requires c in s
    ensures i < |s| && s[i] == c
    ensures c !in s[..i]
    decreases |s|
  {
    if s[0] == c then 0
    else
      var j := IndexOf(s[1..], c);
      assert s[..j + 1] == [s[0]] + s[1..][..j];
      j + 1
  }
}
