/**
 * ASCII string primitives used by the storefront's rules: JavaScript's
 * `trim`, `toLowerCase`, `includes`, `endsWith` and `split(/\s+/)` restricted
 * to ASCII, and the character classes `\s`, `\d` and `\w` of its regular
 * expressions.
 */
module Text {

  /** `\s` on ASCII: space, tab, line feed, vertical tab, form feed, carriage return. */
  predicate IsSpace(c: char) {
    c == ' ' || c == '\t' || c == '\n' || c == '\U{000B}' || c == '\U{000C}' || c == '\r'
  }

  /** `\d`: an ASCII digit (JavaScript's `\d` never matches other digits). */
  predicate IsDigit(c: char) { '0' <= c <= '9' }

  predicate IsLower(c: char) { 'a' <= c <= 'z' }

  predicate IsUpper(c: char) { 'A' <= c <= 'Z' }

  /** `\w`: letters, digits and the underscore. */
  predicate IsWordChar(c: char) { IsLower(c) || IsUpper(c) || IsDigit(c) || c == '_' }

  /** The characters that `.` in a regular expression does not match (ASCII part). */
  predicate IsLineTerminator(c: char) { c == '\n' || c == '\r' }

  predicate AllDigits(s: string) { forall i :: 0 <= i < |s| ==> IsDigit(s[i]) }

  /** Every character is whitespace (the empty string included). */
  predicate IsBlank(s: string) { forall i :: 0 <= i < |s| ==> IsSpace(s[i]) }

  /** Drops leading whitespace. */
  function TrimStart(s: string): (r: string)
    ensures |r| <= |s| && r == s[|s| - |r|..]
    ensures IsBlank(s[..|s| - |r|])
    ensures r == [] || !IsSpace(r[0])
  {
    if s != [] && IsSpace(s[0]) then
      var r := TrimStart(s[1..]);
      TrimStartStep(s, r);
      r
    else
      assert s[..0] == [];
      s
  }

  /** One step of `TrimStart`: a leading space joins the blank prefix. */
  lemma TrimStartStep(s: string, r: string)
    requires s != [] && IsSpace(s[0])
    requires |r| <= |s| - 1 && r == s[1..][|s| - 1 - |r|..] && IsBlank(s[1..][..|s| - 1 - |r|])
    ensures r == s[|s| - |r|..] && IsBlank(s[..|s| - |r|])
  {
    var n := |s| - |r|;
    var tail := s[1..];
    assert tail[n - 1..] == s[n..];
    forall i | 0 <= i < n ensures IsSpace(s[..n][i]) {
      if i > 0 {
        assert s[..n][i] == tail[..n - 1][i - 1];
      }
    }
  }

  /** Drops trailing whitespace. */
  function TrimEnd(s: string): (r: string)
    ensures |r| <= |s| && r == s[..|r|]
    ensures IsBlank(s[|r|..])
    ensures r == [] || !IsSpace(r[|r| - 1])
  {
    if s != [] && IsSpace(s[|s| - 1]) then TrimEnd(s[..|s| - 1]) else s
  }

  /** `t` occurs in `s` starting at offset `i`. */
  predicate OccursAt(s: string, t: string, i: int) {
    0 <= i <= |s| - |t| && s[i..i + |t|] == t
  }

  /** `r` sits at offset `i` of `s`, with only whitespace before and after it. */
  predicate PaddedAt(s: string, r: string, i: int) {
    OccursAt(s, r, i) && IsBlank(s[..i]) && IsBlank(s[i + |r|..])
  }

  /**
   * `String.prototype.trim`: the slice of `s` left after removing whitespace
   * on both sides. Only whitespace is removed; the result is empty exactly
   * when `s` is blank, and otherwise starts and ends with a non-space
   * character.
   */
  function Trim(s: string): (r: string)
    ensures |r| <= |s|
    ensures r == [] <==> IsBlank(s)
    ensures r != [] ==> !IsSpace(r[0]) && !IsSpace(r[|r| - 1])
    ensures exists i :: PaddedAt(s, r, i)
  {
    var t := TrimStart(s);
    var r := TrimEnd(t);
    TrimBlank(s);
    TrimSlice(s);
    assert PaddedAt(s, r, |s| - |t|);
    r
  }

  lemma TrimBlank(s: string)
    ensures TrimEnd(TrimStart(s)) == [] <==> IsBlank(s)
  {
    var t := TrimStart(s);
    var r := TrimEnd(t);
    var n := |s| - |t|;
    if r == [] {
      assert t == [];
      assert s[..n] == s;
    } else {
      assert s[n..][0] == t[0];
    }
  }

  /** The trimmed value sits between a blank prefix and a blank suffix of `s`. */
  lemma TrimSlice(s: string)
    ensures PaddedAt(s, TrimEnd(TrimStart(s)), |s| - |TrimStart(s)|)
  {
    var t := TrimStart(s);
    var r := TrimEnd(t);
    var n := |s| - |t|;
    var m := |r|;
    assert t == s[n..] && IsBlank(s[..n]);
    assert r == t[..m] && IsBlank(t[m..]);
    SliceOfSlice(s, n, m);
    assert OccursAt(s, r, n);
    assert IsBlank(s[n + m..]);
  }

  /** Slicing a suffix is slicing the whole. */
  lemma SliceOfSlice(s: string, n: nat, m: nat)
    requires n + m <= |s|
    ensures s[n..][..m] == s[n..n + m]
    ensures s[n..][m..] == s[n + m..]
  {
  }

  /** A string that neither starts nor ends with whitespace is its own trim. */
  lemma TrimUnpadded(s: string)
    requires s != [] && !IsSpace(s[0]) && !IsSpace(s[|s| - 1])
    ensures Trim(s) == s
  {
  }

  /**
   * The `isEmpty` helper every form defines: nothing is left after
   * trimming, which is the case exactly when the value is all whitespace.
   */
  predicate IsEmpty(s: string)
    ensures IsEmpty(s) <==> IsBlank(s)
  {
    Trim(s) == []
  }

  /** ASCII `toLowerCase` of one character. */
  function LowerChar(c: char): (r: char)
    ensures IsUpper(c) ==> IsLower(r)
    ensures !IsUpper(c) ==> r == c
  {
    if IsUpper(c) then (c as int - 'A' as int + 'a' as int) as char else c
  }

  /** ASCII `toLowerCase`: every upper-case letter replaced by its lower-case partner. */
  function ToLower(s: string): (r: string)
    ensures |r| == |s|
    ensures forall i :: 0 <= i < |r| ==> !IsUpper(r[i])
    ensures forall i :: 0 <= i < |s| ==> r[i] == LowerChar(s[i])
  {
    seq(|s|, i requires 0 <= i < |s| => LowerChar(s[i]))
  }

  /** Lower-casing never creates or removes whitespace. */
  lemma LowerCharSpace(c: char)
    ensures IsSpace(LowerChar(c)) <==> IsSpace(c)
  {
  }

  predicate IsPrefix(p: string, s: string) { |p| <= |s| && s[..|p|] == p }

  /** `s.includes(t)`: `t` occurs in `s` at some offset (see `ContainsIff`). */
  function Contains(s: string, t: string): (r: bool)
    ensures r ==> |t| <= |s|
    ensures t == [] ==> r
    decreases |s|
  {
    IsPrefix(t, s) || (s != [] && Contains(s[1..], t))
  }

  /** An occurrence past the first character is an occurrence in the tail. */
  lemma OccursShift(s: string, t: string, i: int)
    requires s != [] && 0 < i
    ensures OccursAt(s, t, i) <==> OccursAt(s[1..], t, i - 1)
  {
    if 0 < i <= |s| - |t| {
      assert s[1..][i - 1..i - 1 + |t|] == s[i..i + |t|];
    }
  }

  /** `includes` means "occurs at some offset", in both directions. */
  lemma {:induction false} ContainsIff(s: string, t: string)
    ensures Contains(s, t) <==> exists i :: OccursAt(s, t, i)
    decreases |s|
  {
    if IsPrefix(t, s) {
      assert OccursAt(s, t, 0);
    } else if s == [] {
      forall i ensures !OccursAt(s, t, i) {
        assert i != 0 || !OccursAt(s, t, i);
      }
    } else {
      ContainsIff(s[1..], t);
      if Contains(s[1..], t) {
        var i :| OccursAt(s[1..], t, i);
        OccursShift(s, t, i + 1);
      } else {
        forall i ensures !OccursAt(s, t, i) {
          if i > 0 {
            OccursShift(s, t, i);
          }
        }
      }
    }
  }

  /** `s.endsWith(suffix)`: the last `|suffix|` characters of `s` are those of `suffix`. */
  predicate EndsWith(s: string, suffix: string)
    ensures EndsWith(s, suffix) <==>
      |suffix| <= |s| && forall k :: 0 <= k < |suffix| ==> s[|s| - |suffix| + k] == suffix[k]
  {
    |suffix| <= |s| && s[|s| - |suffix|..] == suffix
  }

  /** The leading run of non-space characters of `s`. */
  function TakeWord(s: string): (r: string)
    ensures |r| <= |s| && r == s[..|r|]
    ensures forall i :: 0 <= i < |r| ==> !IsSpace(r[i])
    ensures s != [] && !IsSpace(s[0]) ==> r != []
    ensures |r| < |s| ==> IsSpace(s[|r|])
  {
    if s == [] || IsSpace(s[0]) then [] else [s[0]] + TakeWord(s[1..])
  }

  /** A non-empty run of non-space characters. */
  predicate IsWord(w: string) {
    w != [] && forall i :: 0 <= i < |w| ==> !IsSpace(w[i])
  }

  /**
   * `s.split(/\s+/).filter(Boolean)`: the maximal runs of non-space
   * characters of `s`, in order. Every element is a word, and there is none
   * exactly when `s` is blank.
   */
  function Words(s: string): (r: seq<string>)
    ensures forall k :: 0 <= k < |r| ==> IsWord(r[k])
    ensures r == [] <==> IsBlank(s)
    decreases |s|
  {
    var t := TrimStart(s);
    if t == [] then
      assert s == s[..|s| - |t|];
      []
    else
      assert s[|s| - |t|] == t[0];
      assert !IsBlank(s);
      var w := TakeWord(t);
      assert IsWord(w);
      var rest := Words(t[|w|..]);
      WordsCons(w, rest);
      [w] + rest
  }

  lemma WordsCons(w: string, rest: seq<string>)
    requires IsWord(w) && forall k :: 0 <= k < |rest| ==> IsWord(rest[k])
    ensures forall k :: 0 <= k < |[w] + rest| ==> IsWord(([w] + rest)[k])
  {
    forall k | 0 <= k < |[w] + rest| ensures IsWord(([w] + rest)[k]) {
      if k > 0 { assert ([w] + rest)[k] == rest[k - 1]; }
    }
  }

  /** Leading whitespace does not change the words. */
  lemma {:induction false} TrimStartBlankPrefix(p: string, q: string)
    requires IsBlank(p)
    ensures TrimStart(p + q) == TrimStart(q)
    decreases |p|
  {
    if p != [] {
      assert (p + q)[0] == p[0];
      assert (p + q)[1..] == p[1..] + q;
      TrimStartBlankPrefix(p[1..], q);
    } else {
      assert p + q == q;
    }
  }

  lemma WordsSkipBlank(p: string, q: string)
    requires IsBlank(p)
    ensures Words(p + q) == Words(q)
  {
    TrimStartBlankPrefix(p, q);
  }

  /** A word ends at the first whitespace, whatever follows it. */
  lemma {:induction false} TakeWordAppend(a: string, x: string)
    requires x != [] && IsSpace(x[0])
    ensures TakeWord(a + x) == TakeWord(a)
    decreases |a|
  {
    if a == [] {
      assert a + x == x;
    } else if !IsSpace(a[0]) {
      assert (a + x)[0] == a[0];
      assert (a + x)[1..] == a[1..] + x;
      TakeWordAppend(a[1..], x);
    }
  }

  /** A single word splits into itself. */
  lemma WordOfWord(w: string)
    requires IsWord(w)
    ensures Words(w) == [w]
  {
    assert TrimStart(w) == w;
    assert TakeWord(w) == w;
    assert w[|w|..] == [];
  }

  /** A string that starts with a word splits into that word and the words after it. */
  lemma WordsUnfold(s: string)
    requires s != [] && !IsSpace(s[0])
    ensures Words(s) == [TakeWord(s)] + Words(s[|TakeWord(s)|..])
  {
    assert TrimStart(s) == s;
  }

  /** Leading whitespace of `a` can be dropped on both sides of `WordsAtSpace`. */
  lemma WordsAtSpaceTrim(a: string, c: char, b: string)
    ensures Words(a + [c] + b) == Words(TrimStart(a) + [c] + b)
    ensures Words(a) == Words(TrimStart(a))
  {
    var t := TrimStart(a);
    var n := |a| - |t|;
    var p := a[..n];
    assert a == p + t;
    Regroup(p, t, [c] + b);
    AppendSpace(t, c, b);
    AppendSpace(a, c, b);
    WordsSkipBlank(p, t + [c] + b);
    WordsSkipBlank(p, t);
  }

  /** Splitting at a whitespace character splits the words of both sides. */
  lemma {:induction false} WordsAtSpace(a: string, c: char, b: string)
    requires IsSpace(c)
    ensures Words(a + [c] + b) == Words(a) + Words(b)
    decreases |a|, 1
  {
    WordsAtSpaceTrim(a, c, b);
    var t := TrimStart(a);
    if t == [] {
      WordsAtSpaceEmpty(t, c, b);
    } else {
      WordsAtSpaceWord(t, c, b);
    }
  }

  /** The case of `WordsAtSpace` with nothing before the space. */
  lemma WordsAtSpaceEmpty(t: string, c: char, b: string)
    requires IsSpace(c) && t == []
    ensures Words(t + [c] + b) == Words(t) + Words(b)
  {
    assert t + [c] + b == [c] + b;
    assert IsBlank([c]);
    WordsSkipBlank([c], b);
    assert Words(t) == [];
  }

  lemma Regroup(p: string, t: string, x: string)
    ensures (p + t) + x == p + (t + x)
  {
  }

  lemma AppendSpace(a: string, c: char, b: string)
    ensures a + [c] + b == a + ([c] + b)
  {
  }

  lemma ConsAppend(w: string, p: seq<string>, q: seq<string>)
    ensures [w] + (p + q) == ([w] + p) + q
  {
  }

  lemma DropAppend(t: string, x: string, n: nat)
    requires n <= |t|
    ensures (t + x)[n..] == t[n..] + x
  {
  }

  /** The case of `WordsAtSpace` where `t` starts with a word. */
  lemma {:induction false} WordsAtSpaceWord(t: string, c: char, b: string)
    requires IsSpace(c) && t != [] && !IsSpace(t[0])
    ensures Words(t + [c] + b) == Words(t) + Words(b)
    decreases |t|, 0
  {
    var w := TakeWord(t);
    var u := t[|w|..];
    var x := [c] + b;
    var s := t + x;
    AppendSpace(t, c, b);
    TakeWordAppend(t, x);
    assert s[0] == t[0];
    WordsUnfold(s);
    WordsUnfold(t);
    DropAppend(t, x, |w|);
    AppendSpace(u, c, b);
    assert w != [] && |u| < |t|;
    WordsAtSpace(u, c, b);
    ConsAppend(w, Words(u), Words(b));
    calc {
      Words(s);
      [TakeWord(s)] + Words(s[|TakeWord(s)|..]);
      [w] + Words(s[|w|..]);
      [w] + Words(u + x);
      [w] + Words(u + [c] + b);
      [w] + (Words(u) + Words(b));
      ([w] + Words(u)) + Words(b);
      Words(t) + Words(b);
    }
  }

  /** Lower-casing a string keeps it blank or non-blank. */
  lemma LowerBlank(s: string)
    ensures IsBlank(ToLower(s)) <==> IsBlank(s)
  {
    forall i | 0 <= i < |s| ensures IsSpace(ToLower(s)[i]) <==> IsSpace(s[i]) {
      LowerCharSpace(s[i]);
    }
  }
}
