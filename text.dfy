/** The handful of Python string operations the client relies on: `str.isspace`, `str.strip`,
    `str.startswith`, `str.endswith` and `sep.join`. Strings are sequences of Unicode scalar values. */
module Text {

  /** The code points Python counts as whitespace, both for `str.isspace`/`str.strip` and for `\s`
      in a `str` regular expression. */
  predicate IsSpace(c: char) {
    var n := c as int;
    (9 <= n <= 13) || (28 <= n <= 32) || n == 0x85 || n == 0xA0 || n == 0x1680
    || (0x2000 <= n <= 0x200A) || n == 0x2028 || n == 0x2029 || n == 0x202F
    || n == 0x205F || n == 0x3000
  }

  /** `not s.strip()`: empty or whitespace only. */
  predicate IsBlank(s: string) {
    forall i :: 0 <= i < |s| ==> IsSpace(s[i])
  }

  /** The number of whitespace characters `s` starts with. */
  function LeadingSpaces(s: string): (n: nat)
    ensures n <= |s| && IsBlank(s[..n])
    ensures n == |s| || !IsSpace(s[n])
  {
    if |s| > 0 && IsSpace(s[0]) then
      var n := 1 + LeadingSpaces(s[1..]);
      assert s[..n] == [s[0]] + s[1..][..n - 1];
      n
    else 0
  }

  /** The first half of `s.strip()`: drops the leading whitespace and nothing else. */
  function TrimStart(s: string): (r: string)
    ensures |r| <= |s| && r == s[|s| - |r|..]
    ensures IsBlank(s[..|s| - |r|])
    ensures r == [] || !IsSpace(r[0])
  {
    s[LeadingSpaces(s)..]
  }

  /** The second half of `s.strip()`: drops the trailing whitespace and nothing else. */
  function TrimEnd(s: string): (r: string)
    ensures |r| <= |s| && r == s[..|r|]
    ensures IsBlank(s[|r|..])
    ensures r == [] || !IsSpace(r[|r| - 1])
  {
    if |s| > 0 && IsSpace(s[|s| - 1]) then
      var r := TrimEnd(s[..|s| - 1]);
      assert s[|r|..] == s[..|s| - 1][|r|..] + [s[|s| - 1]];
      r
    else s
  }

  /** Stripping leaves nothing exactly when the text is blank. */
  lemma {:induction false} TrimBothEmpty(s: string)
    ensures TrimEnd(TrimStart(s)) == [] <==> IsBlank(s)
  {
    if IsBlank(s) {
      BlankTrimsAway(s);
    }
    if TrimEnd(TrimStart(s)) == [] {
      TrimmedAwayIsBlank(s);
    }
  }

  lemma {:induction false} TrimmedAwayIsBlank(s: string)
    requires TrimEnd(TrimStart(s)) == []
    ensures IsBlank(s)
  {
    var t := TrimStart(s);
    var k := |s| - |t|;
    assert IsBlank(t[|TrimEnd(t)|..]) && t[0..] == t;
    BlankJoin(s[..k], t);
    assert s == s[..k] + t;
  }

  lemma {:induction false} BlankTrimsAway(s: string)
    requires IsBlank(s)
    ensures TrimStart(s) == []
  {
    if s != [] {
      assert IsSpace(s[0]);
      assert IsBlank(s[1..]) by {
        forall i | 0 <= i < |s[1..]| ensures IsSpace(s[1..][i]) {
          assert s[1..][i] == s[i + 1];
        }
      }
      BlankTrimsAway(s[1..]);
    }
  }

  lemma {:induction false} BlankJoin(a: string, b: string)
    requires IsBlank(a) && IsBlank(b)
    ensures IsBlank(a + b)
  {
    forall i | 0 <= i < |a + b| ensures IsSpace((a + b)[i]) {
      if i >= |a| {
        assert (a + b)[i] == b[i - |a|];
      }
    }
  }

  /** `s.strip()`. */
  function Strip(s: string): (r: string)
    ensures r == [] <==> IsBlank(s)
    ensures r == [] || (!IsSpace(r[0]) && !IsSpace(r[|r| - 1]))
    ensures s == [] || (!IsSpace(s[0]) && !IsSpace(s[|s| - 1])) ==> r == s
    ensures |s| > 0 && !IsSpace(s[0]) ==> r != [] && r[0] == s[0]
  {
    TrimBothEmpty(s);
    TrimEnd(TrimStart(s))
  }

  /** `strip` removes the surrounding whitespace and nothing else: the result is the slice of the
      input between a blank prefix and a blank suffix. */
  lemma {:induction false} StripIsSlice(s: string)
    ensures var i := |s| - |TrimStart(s)|; var r := Strip(s);
      i + |r| <= |s| && r == s[i..i + |r|] && IsBlank(s[..i]) && IsBlank(s[i + |r|..])
  {
    TrimEndOfSuffix(s, LeadingSpaces(s));
  }

  /** Trimming the end of a suffix of `s` leaves a slice of `s` followed by blanks. */
  lemma {:induction false} TrimEndOfSuffix(s: string, i: nat)
    requires i <= |s|
    ensures var r := TrimEnd(s[i..]);
      i + |r| <= |s| && r == s[i..i + |r|] && IsBlank(s[i + |r|..])
  {
    var t := s[i..];
    var r := TrimEnd(t);
    assert r == t[..|r|] && t[..|r|] == s[i..i + |r|];
    assert t[|r|..] == s[i + |r|..];
  }

  /** `s.startswith(prefix)`. */
  predicate StartsWith(s: string, prefix: string) {
    prefix <= s
  }

  /** `s.endswith(suffix)`. */
  predicate EndsWith(s: string, suffix: string) {
    |suffix| <= |s| && s[|s| - |suffix|..] == suffix
  }

  /** `sep.join(parts)`. */
  function Join(parts: seq<string>, sep: string): (r: string)
    ensures parts == [] ==> r == []
    ensures |parts| == 1 ==> r == parts[0]
  {
    if parts == [] then []
    else if |parts| == 1 then parts[0]
    else Join(parts[..|parts| - 1], sep) + sep + parts[|parts| - 1]
  }

  /** Where part `i` starts in the joined text: after each earlier part and one separator. */
  function PartOffset(parts: seq<string>, sep: string, i: nat): nat
    requires i <= |parts|
  {
    if i == 0 then 0 else PartOffset(parts, sep, i - 1) + |parts[i - 1]| + |sep|
  }

  lemma {:induction false} PartOffsetOfPrefix(parts: seq<string>, sep: string, k: nat, i: nat)
    requires i <= k <= |parts|
    ensures PartOffset(parts[..k], sep, i) == PartOffset(parts, sep, i)
  {
    if i > 0 {
      PartOffsetOfPrefix(parts, sep, k, i - 1);
      assert parts[..k][i - 1] == parts[i - 1];
    }
  }

  /** The joined text is as long as the parts and the separators between them. */
  lemma {:induction false} JoinLength(parts: seq<string>, sep: string)
    requires parts != []
    ensures |Join(parts, sep)| + |sep| == PartOffset(parts, sep, |parts|)
  {
    var n := |parts|;
    if n > 1 {
      JoinLength(parts[..n - 1], sep);
      PartOffsetOfPrefix(parts, sep, n - 1, n - 1);
    }
  }

  /** Part `i` sits at its offset in the joined text. */
  lemma {:induction false} JoinPartAt(parts: seq<string>, sep: string, i: nat)
    requires i < |parts|
    ensures PartOffset(parts, sep, i) + |parts[i]| <= |Join(parts, sep)|
    ensures Join(parts, sep)[PartOffset(parts, sep, i)..PartOffset(parts, sep, i) + |parts[i]|] == parts[i]
  {
    var n := |parts|;
    var r := Join(parts, sep);
    if n == 1 {
      assert r == parts[0];
    } else {
      var init := parts[..n - 1];
      var front := Join(init, sep);
      assert r == front + sep + parts[n - 1];
      JoinLength(init, sep);
      PartOffsetOfPrefix(parts, sep, n - 1, i);
      if i < n - 1 {
        JoinPartAt(init, sep, i);
        assert init[i] == parts[i];
        assert r[..|front|] == front;
      } else {
        PartOffsetOfPrefix(parts, sep, n - 1, n - 1);
        assert r[|front| + |sep|..] == parts[n - 1];
      }
    }
  }

  /** One separator follows every part but the last. */
  lemma {:induction false} JoinSepAt(parts: seq<string>, sep: string, i: nat)
    requires i + 1 < |parts|
    ensures PartOffset(parts, sep, i) + |parts[i]| + |sep| <= |Join(parts, sep)|
    ensures var o := PartOffset(parts, sep, i) + |parts[i]|; Join(parts, sep)[o..o + |sep|] == sep
  {
    var n := |parts|;
    var r := Join(parts, sep);
    var init := parts[..n - 1];
    var front := Join(init, sep);
    assert r == front + sep + parts[n - 1];
    JoinLength(init, sep);
    PartOffsetOfPrefix(parts, sep, n - 1, i);
    assert init[i] == parts[i];
    if i + 1 < n - 1 {
      JoinSepAt(init, sep, i);
      assert r[..|front|] == front;
    } else {
      PartOffsetOfPrefix(parts, sep, n - 1, n - 1);
      assert r[|front|..|front| + |sep|] == sep;
    }
  }
}
