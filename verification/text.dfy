/** The .NET string operations the report decoder relies on, over `seq<char>`:
    `String.Split(char)` (empty pieces kept), `String.Trim()` and the joining
    that `StringBuilder` performs when the feedback string is assembled. */
module Text {

  /** `Char.IsWhiteSpace`: the Unicode space separators, line and paragraph
      separators, and the control characters U+0009 to U+000D and U+0085. */
  predicate IsWhiteSpace(c: char)
  {
    || c == ' '
    || '\t' <= c <= '\r'
    || c == '\U{0085}'
    || c == '\U{00A0}'
    || c == '\U{1680}'
    || '\U{2000}' <= c <= '\U{200A}'
    || c == '\U{2028}'
    || c == '\U{2029}'
    || c == '\U{202F}'
    || c == '\U{205F}'
    || c == '\U{3000}'
  }

  /** Number of occurrences of `c` in `s`. */
  function Occurrences(s: string, c: char): nat
  {
    if |s| == 0 then 0
    else (if s[0] == c then 1 else 0) + Occurrences(s[1..], c)
  }

  /** `s.Split(sep)`: every occurrence of `sep` ends one piece; empty pieces
      are kept, so there is always one piece more than there are separators. */
  function Split(s: string, sep: char): (r: seq<string>)
    ensures |r| == Occurrences(s, sep) + 1
    ensures forall i :: 0 <= i < |r| ==> sep !in r[i]
  {
    if |s| == 0 then [""]
    else
      var rest := Split(s[1..], sep);
      if s[0] == sep then [""] + rest
      else [[s[0]] + rest[0]] + rest[1..]
  }

  /** A character absent from a string is absent from each of its pieces. */
  lemma {:induction false} SplitAbsent(s: string, sep: char, c: char)
    requires c !in s
    ensures forall i :: 0 <= i < |Split(s, sep)| ==> c !in Split(s, sep)[i]
    decreases |s|
  {
    if |s| > 0 {
      SplitAbsent(s[1..], sep, c);
    }
  }

  /** The pieces `xs`, in order, with one `sep` between neighbours. */
  function Join(xs: seq<string>, sep: char): string
    requires |xs| >= 1
  {
    if |xs| == 1 then xs[0] else xs[0] + [sep] + Join(xs[1..], sep)
  }

  /** Joining the pieces of a split gives back the split string. */
  lemma {:induction false} JoinSplit(s: string, sep: char)
    ensures Join(Split(s, sep), sep) == s
    decreases |s|
  {
    if |s| > 0 {
      var rest := Split(s[1..], sep);
      JoinSplit(s[1..], sep);
      if s[0] == sep {
        assert ([""] + rest)[1..] == rest;
        calc {
          Join([""] + rest, sep);
          "" + [sep] + Join(rest, sep);
          [s[0]] + s[1..];
          s;
        }
      } else {
        var xs := [[s[0]] + rest[0]] + rest[1..];
        if |rest| == 1 {
          calc {
            Join(xs, sep);
            [s[0]] + rest[0];
            [s[0]] + Join(rest, sep);
            s;
          }
        } else {
          assert xs[1..] == rest[1..];
          calc {
            Join(xs, sep);
            [s[0]] + rest[0] + [sep] + Join(rest[1..], sep);
            [s[0]] + (rest[0] + [sep] + Join(rest[1..], sep));
            [s[0]] + Join(rest, sep);
            s;
          }
        }
      }
    }
  }

  /** A prefix free of `sep` extends the first piece of whatever follows it. */
  lemma {:induction false} SplitPrefix(a: string, b: string, sep: char)
    requires sep !in a
    ensures Split(a + b, sep) == [a + Split(b, sep)[0]] + Split(b, sep)[1..]
    decreases |a|
  {
    if |a| > 0 {
      var t := a + b;
      assert t[0] == a[0];
      assert t[1..] == a[1..] + b;
      SplitPrefix(a[1..], b, sep);
      assert [a[0]] + (a[1..] + Split(b, sep)[0]) == a + Split(b, sep)[0];
    } else {
      var pieces := Split(b, sep);
      assert a + b == b;
      assert a + pieces[0] == pieces[0];
      assert pieces == [pieces[0]] + pieces[1..];
    }
  }

  /** Splitting joined pieces gives back the pieces, provided none of them
      contains the separator. */
  lemma {:induction false} SplitJoin(xs: seq<string>, sep: char)
    requires |xs| >= 1
    requires forall i :: 0 <= i < |xs| ==> sep !in xs[i]
    ensures Split(Join(xs, sep), sep) == xs
    decreases |xs|
  {
    if |xs| == 1 {
      SplitPrefix(xs[0], "", sep);
      assert xs[0] + "" == xs[0];
    } else {
      var tail := Join(xs[1..], sep);
      SplitJoin(xs[1..], sep);
      assert xs[0] + [sep] + tail == xs[0] + ([sep] + tail);
      SplitPrefix(xs[0], [sep] + tail, sep);
      assert ([sep] + tail)[1..] == tail;
      assert Split([sep] + tail, sep) == [""] + xs[1..];
      assert xs[0] + "" == xs[0];
    }
  }

  /** `s.TrimStart()`: drops the leading white space and nothing else. */
  function TrimStart(s: string): (r: string)
    ensures |r| <= |s| && r == s[|s| - |r|..]
    ensures forall k :: 0 <= k < |s| - |r| ==> IsWhiteSpace(s[k])
    ensures |r| > 0 ==> !IsWhiteSpace(r[0])
  {
    if |s| > 0 && IsWhiteSpace(s[0]) then TrimStart(s[1..]) else s
  }

  /** `s.TrimEnd()`: drops the trailing white space and nothing else. */
  function TrimEnd(s: string): (r: string)
    ensures |r| <= |s| && r == s[..|r|]
    ensures forall k :: |r| <= k < |s| ==> IsWhiteSpace(s[k])
    ensures |r| > 0 ==> !IsWhiteSpace(r[|r| - 1])
  {
    if |s| > 0 && IsWhiteSpace(s[|s| - 1]) then TrimEnd(s[..|s| - 1]) else s
  }

  /** `s.Trim()`: white space cut from both ends. */
  function Trim(s: string): (r: string)
    ensures |r| <= |s|
    ensures forall c :: c in r ==> c in s
    ensures |r| > 0 ==> !IsWhiteSpace(r[0]) && !IsWhiteSpace(r[|r| - 1])
  {
    TrimEnd(TrimStart(s))
  }

  /** How many characters `Trim` cuts from the front of `s`. */
  function TrimmedFront(s: string): (n: nat)
    ensures n <= |s|
  {
    |s| - |TrimStart(s)|
  }

  /** `Trim` keeps one contiguous slice of its input and cuts only white space
      on either side of it. */
  lemma {:induction false} TrimSlice(s: string)
    ensures TrimmedFront(s) + |Trim(s)| <= |s|
    ensures Trim(s) == s[TrimmedFront(s)..TrimmedFront(s) + |Trim(s)|]
    ensures forall k :: 0 <= k < TrimmedFront(s) ==> IsWhiteSpace(s[k])
    ensures forall k :: TrimmedFront(s) + |Trim(s)| <= k < |s| ==> IsWhiteSpace(s[k])
  {
    var t := TrimStart(s);
    var n := |s| - |t|;
    var r := TrimEnd(t);
    assert TrimmedFront(s) == n && Trim(s) == r;
    assert t == s[n..] && r == t[..|r|];
    assert s[n..][..|r|] == s[n..n + |r|];
    forall k | n + |r| <= k < |s|
      ensures IsWhiteSpace(s[k])
    {
      assert s[k] == t[k - n];
    }
  }

  /** A string that neither starts nor ends with white space is its own trim. */
  lemma TrimUnchanged(s: string)
    requires |s| > 0 ==> !IsWhiteSpace(s[0]) && !IsWhiteSpace(s[|s| - 1])
    ensures Trim(s) == s
  {
  }

  /** A string made of white space only (possibly empty). */
  predicate Blank(t: string)
  {
    forall k :: 0 <= k < |t| ==> IsWhiteSpace(t[k])
  }

  /** Leading white space is all that `TrimStart` removes. */
  lemma {:induction false} TrimStartBlank(pre: string, s: string)
    requires Blank(pre)
    requires |s| > 0 ==> !IsWhiteSpace(s[0])
    ensures TrimStart(pre + s) == s
    decreases |pre|
  {
    if |pre| > 0 {
      assert (pre + s)[0] == pre[0];
      assert (pre + s)[1..] == pre[1..] + s;
      TrimStartBlank(pre[1..], s);
    } else {
      assert pre + s == s;
    }
  }

  /** Trailing white space is all that `TrimEnd` removes. */
  lemma {:induction false} TrimEndBlank(s: string, post: string)
    requires Blank(post)
    requires |s| > 0 ==> !IsWhiteSpace(s[|s| - 1])
    ensures TrimEnd(s + post) == s
    decreases |post|
  {
    if |post| > 0 {
      var shorter := post[..|post| - 1];
      assert (s + post)[|s + post| - 1] == post[|post| - 1];
      assert (s + post)[..|s + post| - 1] == s + shorter;
      TrimEndBlank(s, shorter);
    } else {
      assert s + post == s;
    }
  }

  /** Trimming a string padded with white space on either side gives back
      the string, provided it neither starts nor ends with white space. */
  lemma TrimPadded(pre: string, s: string, post: string)
    requires Blank(pre) && Blank(post)
    requires |s| > 0 ==> !IsWhiteSpace(s[0]) && !IsWhiteSpace(s[|s| - 1])
    ensures Trim(pre + s + post) == s
  {
    if |s| > 0 {
      assert pre + s + post == pre + (s + post);
      assert (s + post)[0] == s[0];
      TrimStartBlank(pre, s + post);
      TrimEndBlank(s, post);
    } else {
      assert Blank(pre + s + post) by {
        assert pre + s + post == pre + post;
      }
      TrimStartBlank(pre + s + post, "");
      assert pre + s + post + "" == pre + s + post;
    }
  }

  /** Trimming twice is trimming once. */
  lemma TrimIdempotent(s: string)
    ensures Trim(Trim(s)) == Trim(s)
  {
    TrimUnchanged(Trim(s));
  }

}
