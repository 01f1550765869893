/**
 * The backend-address setup script, restricted to its validation step: the
 * typed address must match
 * `^(25[0-5]|2[0-4]\d|1?\d{1,2})(\.(25[0-5]|2[0-4]\d|1?\d{1,2})){3}$`
 * before anything else happens.
 */
module SetIp {
  import opened Text

  /**
   * One field of the regular expression, the alternation read literally.
   * A field is one to three digits, and a three-digit field never starts
   * with 0 (`OctetFieldIff` gives the whole meaning).
   */
  predicate IsOctetField(f: string)
    ensures IsOctetField(f) ==> 1 <= |f| <= 3 && AllDigits(f)
    ensures |f| == 3 && f[0] == '0' ==> !IsOctetField(f)
  {
    || (|f| == 3 && f[0] == '2' && f[1] == '5' && '0' <= f[2] <= '5')      // 25[0-5]
    || (|f| == 3 && f[0] == '2' && '0' <= f[1] <= '4' && IsDigit(f[2]))   // 2[0-4]\d
    || (1 <= |f| <= 2 && AllDigits(f))                                     // \d{1,2}
    || (|f| == 3 && f[0] == '1' && IsDigit(f[1]) && IsDigit(f[2]))        // 1\d{2}
  }

  function DigitValue(c: char): nat
    requires IsDigit(c)
  {
    c as int - '0' as int
  }

  /** The decimal value of a string of digits. */
  function Value(f: string): nat
    requires AllDigits(f)
  {
    if f == [] then 0 else 10 * Value(f[..|f| - 1]) + DigitValue(f[|f| - 1])
  }

  /** `dec-octet` of section 3.2.2 of RFC 3986: 0-255 written without leading zeros. */
  predicate DecOctet(f: string) {
    || (|f| == 1 && IsDigit(f[0]))
    || (|f| == 2 && '1' <= f[0] <= '9' && IsDigit(f[1]))
    || (|f| == 3 && f[0] == '1' && IsDigit(f[1]) && IsDigit(f[2]))
    || (|f| == 3 && f[0] == '2' && '0' <= f[1] <= '4' && IsDigit(f[2]))
    || (|f| == 3 && f[0] == '2' && f[1] == '5' && '0' <= f[2] <= '5')
  }

  /** The value of one to three digits, written out. */
  lemma ShortValue(f: string)
    requires 1 <= |f| <= 3 && AllDigits(f)
    ensures |f| == 1 ==> Value(f) == DigitValue(f[0])
    ensures |f| == 2 ==> Value(f) == 10 * DigitValue(f[0]) + DigitValue(f[1])
    ensures |f| == 3 ==> Value(f) == 100 * DigitValue(f[0]) + 10 * DigitValue(f[1]) + DigitValue(f[2])
  {
    var p1 := f[..1];
    assert p1[..0] == [];
    assert Value(p1) == DigitValue(f[0]);
    if |f| >= 2 {
      var p2 := f[..2];
      assert p2[..1] == p1;
      assert Value(p2) == 10 * DigitValue(f[0]) + DigitValue(f[1]);
      if |f| == 3 {
        assert f[..2] == p2;
      }
    }
  }

  /**
   * What a field means: one to three digits of value at most 255, where a
   * three-digit field may not start with 0 (but "0" and "01" are fields).
   */
  lemma OctetFieldIff(f: string)
    ensures IsOctetField(f) <==>
      1 <= |f| <= 3 && AllDigits(f) && Value(f) <= 255 && !(|f| == 3 && f[0] == '0')
  {
    if 1 <= |f| <= 3 && AllDigits(f) {
      ShortValue(f);
    }
  }

  /** The one departure from `dec-octet`: a two-digit field with a leading zero. */
  lemma OctetFieldVersusDecOctet(f: string)
    ensures IsOctetField(f) <==> DecOctet(f) || (|f| == 2 && f[0] == '0' && IsDigit(f[1]))
  {
  }

  lemma LeadingZeros()
    ensures IsOctetField("0") && IsOctetField("01") && !DecOctet("01")
    ensures !IsOctetField("001") && !IsOctetField("012")
    ensures IsOctetField("255") && !IsOctetField("256") && !IsOctetField("")
  {
  }

  /** `s.split(sep)`: the (possibly empty) runs between separators. */
  function Split(s: string, sep: char): (parts: seq<string>)
    ensures |parts| >= 1
    decreases |s|
  {
    if s == [] then [[]]
    else
      var rest := Split(s[1..], sep);
      if s[0] == sep then [[]] + rest else [[s[0]] + rest[0]] + rest[1..]
  }

  /** The parts joined back with the separator between them. */
  function Join(parts: seq<string>, sep: char): string
    requires |parts| >= 1
    decreases |parts|
  {
    if |parts| == 1 then parts[0] else parts[0] + [sep] + Join(parts[1..], sep)
  }

  predicate Free(w: string, sep: char) {
    forall i :: 0 <= i < |w| ==> w[i] != sep
  }

  lemma {:induction false} SplitPrefix(w: string, t: string, sep: char)
    requires Free(w, sep)
    ensures Split(w + t, sep) == [w + Split(t, sep)[0]] + Split(t, sep)[1..]
    decreases |w|
  {
    if w == [] {
      var st := Split(t, sep);
      assert w + t == t;
      assert w + st[0] == st[0];
      assert [st[0]] + st[1..] == st;
    } else {
      var st := Split(t, sep);
      assert (w + t)[1..] == w[1..] + t;
      assert (w + t)[0] == w[0] != sep;
      SplitPrefix(w[1..], t, sep);
      var rest := Split(w[1..] + t, sep);
      assert rest == [w[1..] + st[0]] + st[1..];
      assert rest[0] == w[1..] + st[0];
      assert rest[1..] == st[1..];
      assert Split(w + t, sep) == [[w[0]] + rest[0]] + rest[1..];
      assert [w[0]] + (w[1..] + st[0]) == w + st[0];
    }
  }

  /** Splitting undoes joining, when no part contains the separator. */
  lemma {:induction false} SplitJoin(parts: seq<string>, sep: char)
    requires |parts| >= 1
    requires forall k :: 0 <= k < |parts| ==> Free(parts[k], sep)
    ensures Split(Join(parts, sep), sep) == parts
    decreases |parts|
  {
    if |parts| == 1 {
      SplitPrefix(parts[0], [], sep);
      assert parts[0] + [] == parts[0];
    } else {
      var tail := Join(parts[1..], sep);
      SplitJoin(parts[1..], sep);
      assert Split([sep] + tail, sep) == [[]] + Split(tail, sep) by {
        assert ([sep] + tail)[1..] == tail;
      }
      SplitPrefix(parts[0], [sep] + tail, sep);
      assert parts[0] + [sep] + tail == parts[0] + ([sep] + tail);
      assert parts[0] + [] == parts[0];
      assert [parts[0]] + parts[1..] == parts;
    }
  }

  /** Joining undoes splitting. */
  lemma {:induction false} JoinSplit(s: string, sep: char)
    ensures Join(Split(s, sep), sep) == s
    decreases |s|
  {
    if s != [] {
      var rest := Split(s[1..], sep);
      JoinSplit(s[1..], sep);
      if s[0] != sep {
        if |rest| > 1 {
          assert ([[s[0]] + rest[0]] + rest[1..])[1..] == rest[1..];
        }
      }
    }
  }

  /**
   * `ipRegex.test(ip)`: four dot-separated fields, each a regular-expression
   * field. An accepted address has only digits and dots, does not start or
   * end with a dot, and never has two dots in a row.
   */
  predicate IsIpv4(s: string)
    ensures IsIpv4(s) ==> NoEmptyField(s, '.')
    ensures IsIpv4(s) ==> forall i :: 0 <= i < |s| ==> IsDigit(s[i]) || s[i] == '.'
  {
    var parts := Split(s, '.');
    if |parts| == 4 && forall k :: 0 <= k < 4 ==> IsOctetField(parts[k]) then
      JoinSplit(s, '.');
      FieldsShape(parts);
      true
    else
      false
  }

  function Quad(a: string, b: string, c: string, d: string): string {
    a + "." + b + "." + c + "." + d
  }

  lemma OctetFieldIsDotFree(f: string)
    requires IsOctetField(f)
    ensures Free(f, '.')
  {
  }

  lemma JoinFour(a: string, b: string, c: string, d: string)
    ensures Join([a, b, c, d], '.') == Quad(a, b, c, d)
  {
    var p := [a, b, c, d];
    assert p[1..] == [b, c, d] && p[1..][1..] == [c, d] && p[1..][1..][1..] == [d];
    assert Join([d], '.') == d;
    assert Join([c, d], '.') == c + "." + d;
    assert Join([b, c, d], '.') == b + "." + (c + "." + d);
  }

  /** An accepted string is four fields joined by single dots. */
  lemma AcceptedIsDottedQuad(s: string)
    requires IsIpv4(s)
    ensures exists a, b, c, d ::
      s == Quad(a, b, c, d) && IsOctetField(a) && IsOctetField(b) && IsOctetField(c) && IsOctetField(d)
  {
    var p := Split(s, '.');
    JoinSplit(s, '.');
    assert p == [p[0], p[1], p[2], p[3]];
    JoinFour(p[0], p[1], p[2], p[3]);
    assert IsOctetField(p[0]) && IsOctetField(p[1]) && IsOctetField(p[2]) && IsOctetField(p[3]);
  }

  /** Four fields joined by single dots are accepted. */
  lemma DottedQuadIsAccepted(a: string, b: string, c: string, d: string)
    requires IsOctetField(a) && IsOctetField(b) && IsOctetField(c) && IsOctetField(d)
    ensures IsIpv4(Quad(a, b, c, d))
  {
    var p := [a, b, c, d];
    OctetFieldIsDotFree(a);
    OctetFieldIsDotFree(b);
    OctetFieldIsDotFree(c);
    OctetFieldIsDotFree(d);
    JoinFour(a, b, c, d);
    SplitJoin(p, '.');
  }

  /**
   * The accepted strings are exactly the ones the regular expression
   * describes: four fields joined by single dots and nothing else.
   */
  lemma AcceptedIffDottedQuad(s: string)
    ensures IsIpv4(s) <==> exists a, b, c, d ::
      s == Quad(a, b, c, d) && IsOctetField(a) && IsOctetField(b) && IsOctetField(c) && IsOctetField(d)
  {
    if IsIpv4(s) {
      AcceptedIsDottedQuad(s);
    } else if exists a, b, c, d :: s == Quad(a, b, c, d) && IsOctetField(a) && IsOctetField(b) && IsOctetField(c) && IsOctetField(d) {
      var a, b, c, d :| s == Quad(a, b, c, d) && IsOctetField(a) && IsOctetField(b) && IsOctetField(c) && IsOctetField(d);
      DottedQuadIsAccepted(a, b, c, d);
    }
  }

  /** No field between separators is empty: no leading, trailing or doubled separator. */
  predicate NoEmptyField(s: string, sep: char) {
    && s != [] && s[0] != sep && s[|s| - 1] != sep
    && forall i :: 0 <= i < |s| - 1 && s[i] == sep ==> s[i + 1] != sep
  }

  lemma {:induction false} JoinNoEmptyField(parts: seq<string>, sep: char)
    requires |parts| >= 1
    requires forall k :: 0 <= k < |parts| ==> parts[k] != [] && Free(parts[k], sep)
    ensures NoEmptyField(Join(parts, sep), sep)
    decreases |parts|
  {
    if |parts| > 1 {
      JoinNoEmptyField(parts[1..], sep);
      var w, j := parts[0], Join(parts[1..], sep);
      var s := w + [sep] + j;
      assert s[0] == w[0] && s[|s| - 1] == j[|j| - 1];
      forall i | 0 <= i < |s| - 1 && s[i] == sep ensures s[i + 1] != sep {
        if i == |w| {
          assert s[i + 1] == j[0];
        } else if i > |w| {
          assert s[i] == j[i - |w| - 1] && s[i + 1] == j[i - |w|];
        }
      }
    }
  }

  /** Four fields joined by dots have the shape of an accepted address. */
  lemma FieldsShape(p: seq<string>)
    requires |p| == 4 && forall k :: 0 <= k < 4 ==> IsOctetField(p[k])
    ensures NoEmptyField(Join(p, '.'), '.')
    ensures forall i :: 0 <= i < |Join(p, '.')| ==> IsDigit(Join(p, '.')[i]) || Join(p, '.')[i] == '.'
  {
    forall k | 0 <= k < |p| ensures p[k] != [] && Free(p[k], '.') {
      OctetFieldIsDotFree(p[k]);
    }
    JoinNoEmptyField(p, '.');
    JoinFour(p[0], p[1], p[2], p[3]);
    assert p == [p[0], p[1], p[2], p[3]];
    forall i | 0 <= i < |Join(p, '.')| ensures IsDigit(Join(p, '.')[i]) || Join(p, '.')[i] == '.' {
      QuadChar(p[0], p[1], p[2], p[3], i);
    }
  }

  lemma QuadChar(a: string, b: string, c: string, d: string, i: int)
    requires AllDigits(a) && AllDigits(b) && AllDigits(c) && AllDigits(d)
    requires 0 <= i < |Quad(a, b, c, d)|
    ensures IsDigit(Quad(a, b, c, d)[i]) || Quad(a, b, c, d)[i] == '.'
  {
  }

  /** Examples of rejection, from the shape of accepted addresses. */
  lemma Rejections()
    ensures !IsIpv4("1.2.3.") && !IsIpv4(".1.2.3") && !IsIpv4("1..2.3") && !IsIpv4("1.2.3.4a")
  {
    assert "1.2.3."[5] == '.' && ".1.2.3"[0] == '.';
    assert "1..2.3"[1] == '.' && "1..2.3"[2] == '.';
    assert "1.2.3.4a"[7] == 'a';
  }

  /** A scenario: the script's own example address. */
  lemma Examples()
    ensures IsIpv4("192.168.1.100")
  {
    assert Quad("192", "168", "1", "100") == "192.168.1.100";
    DottedQuadIsAccepted("192", "168", "1", "100");
  }

  /** What the script does after the prompt. */
  datatype Step = Abort | Ping(ip: string)

  /** The early return: an address that fails the check is neither pinged nor saved. */
  function OnAnswer(ip: string): (r: Step)
    ensures r == Abort <==> !IsIpv4(ip)
    ensures r.Ping? ==> r.ip == ip
  {
    if !IsIpv4(ip) then Abort else Ping(ip)
  }
}
