/** String helpers standing in for the JavaScript string methods the
    generators call (`toLowerCase`, `toUpperCase`, `charAt`, `slice`,
    `Array.prototype.join`, number-to-string conversion).  Case mapping is
    ASCII only. */
module Text {

  predicate IsUpper(c: char) {
    'A' <= c <= 'Z'
  }

  predicate IsLower(c: char) {
    'a' <= c <= 'z'
  }

  function LowerChar(c: char): (r: char)
    ensures !IsUpper(r)
    ensures IsUpper(c) ==> IsLower(r)
    ensures !IsUpper(c) ==> r == c
  {
    if IsUpper(c) then (c as int + 32) as char else c
  }

  function UpperChar(c: char): (r: char)
    ensures !IsLower(r)
    ensures IsLower(c) ==> IsUpper(r)
    ensures !IsLower(c) ==> r == c
  {
    if IsLower(c) then (c as int - 32) as char else c
  }

  /** `s.toLowerCase()`: same length, no upper-case letter left. */
  function ToLower(s: string): (r: string)
    ensures |r| == |s|
    ensures forall i :: 0 <= i < |s| ==> r[i] == LowerChar(s[i])
  {
    seq(|s|, i requires 0 <= i < |s| => LowerChar(s[i]))
  }

  /** `s.slice(1)`: everything after the first character, or "" for "". */
  function DropFirst(s: string): (r: string)
    ensures |s| > 0 ==> s == [s[0]] + r
    ensures |s| == 0 ==> r == ""
  {
    if |s| == 0 then "" else s[1..]
  }

  /** `str.charAt(0).toUpperCase() + str.slice(1)`. */
  function CapitalizeFirst(s: string): string
  {
    if |s| == 0 then "" else [UpperChar(s[0])] + s[1..]
  }

  lemma CapitalizeFirstChangesOnlyTheHead(s: string)
    ensures |CapitalizeFirst(s)| == |s|
    ensures s == "" ==> CapitalizeFirst(s) == ""
    ensures |s| > 0 ==> CapitalizeFirst(s)[0] == UpperChar(s[0]) && !IsLower(CapitalizeFirst(s)[0])
    ensures forall i :: 1 <= i < |s| ==> CapitalizeFirst(s)[i] == s[i]
  {
  }

  /** `xs.join(sep)`. */
  function Join(xs: seq<string>, sep: string): string
  {
    if |xs| == 0 then ""
    else if |xs| == 1 then xs[0]
    else xs[0] + sep + Join(xs[1..], sep)
  }

  /** Five pieces joined with no separator are their concatenation. */
  lemma JoinNoSeparator(ps: seq<string>)
    requires |ps| == 5
    ensures Join(ps, "") == ps[0] + ps[1] + ps[2] + ps[3] + ps[4]
  {
    assert ps[1..][1..] == ps[2..];
    assert ps[2..][1..] == ps[3..];
    assert ps[3..][1..] == ps[4..];
    assert Join(ps[4..], "") == ps[4];
    assert Join(ps[3..], "") == ps[3] + "" + ps[4];
    assert Join(ps[2..], "") == ps[2] + "" + (ps[3] + ps[4]);
    assert Join(ps[1..], "") == ps[1] + "" + (ps[2] + ps[3] + ps[4]);
    assert Join(ps, "") == ps[0] + "" + (ps[1] + ps[2] + ps[3] + ps[4]);
  }

  /** `needle` occurs in `hay` starting at offset `i`. */
  predicate OccursAt(hay: string, needle: string, i: int) {
    0 <= i <= |hay| - |needle| && hay[i..i + |needle|] == needle
  }

  /** `needle` occurs somewhere inside `hay`. */
  ghost predicate Contains(hay: string, needle: string) {
    exists i :: OccursAt(hay, needle, i)
  }

  lemma ContainsMiddle(a: string, b: string, c: string)
    ensures Contains(a + b + c, b)
  {
    var h := a + b + c;
    assert h[|a|..|a| + |b|] == b;
    assert OccursAt(h, b, |a|);
  }

  /** Text found inside `b` is still found once `b` is surrounded. */
  lemma ContainsWithin(a: string, b: string, c: string, x: string)
    requires Contains(b, x)
    ensures Contains(a + b + c, x)
  {
    var j :| OccursAt(b, x, j);
    var h := a + b + c;
    assert h[|a| + j..|a| + j + |x|] == b[j..j + |x|];
    assert OccursAt(h, x, |a| + j);
  }

  /** Text found inside text found inside `hay` is found inside `hay`. */
  lemma ContainsTrans(hay: string, mid: string, x: string)
    requires Contains(hay, mid) && Contains(mid, x)
    ensures Contains(hay, x)
  {
    var j :| OccursAt(hay, mid, j);
    var k :| OccursAt(mid, x, k);
    assert hay[j..j + |mid|] == mid;
    forall t | 0 <= t < |x| ensures hay[j + k + t] == x[t] {
      assert hay[j + k + t] == hay[j..j + |mid|][k + t] == mid[k + t];
      assert mid[k + t] == mid[k..k + |x|][t];
    }
    assert hay[j + k..j + k + |x|] == x;
    assert OccursAt(hay, x, j + k);
  }

  /** Each piece of a join occurs in the joined text. */
  lemma {:induction false} JoinContainsEach(xs: seq<string>, sep: string, i: int)
    requires 0 <= i < |xs|
    ensures Contains(Join(xs, sep), xs[i])
  {
    if |xs| == 1 {
      ContainsMiddle("", xs[0], "");
      assert "" + xs[0] + "" == xs[0];
    } else if i == 0 {
      ContainsMiddle("", xs[0], sep + Join(xs[1..], sep));
      assert "" + xs[0] + (sep + Join(xs[1..], sep)) == Join(xs, sep);
    } else {
      JoinContainsEach(xs[1..], sep, i - 1);
      var j: int :| OccursAt(Join(xs[1..], sep), xs[i], j);
      var off := |xs[0] + sep|;
      assert Join(xs, sep) == (xs[0] + sep) + Join(xs[1..], sep);
      assert Join(xs, sep)[off + j..off + j + |xs[i]|] == xs[i];
      assert OccursAt(Join(xs, sep), xs[i], off + j);
    }
  }

  /** Neighbouring pieces of a join occur together, in order, with the
      separator between them. */
  lemma {:induction false} JoinContainsAdjacent(xs: seq<string>, sep: string, i: int)
    requires 0 <= i < |xs| - 1
    ensures Contains(Join(xs, sep), xs[i] + sep + xs[i + 1])
  {
    var pair := xs[i] + sep + xs[i + 1];
    if i == 0 {
      var rest := if |xs| == 2 then "" else sep + Join(xs[2..], sep);
      assert Join(xs[1..], sep) == xs[1] + rest by {
        assert xs[1..][0] == xs[1];
        if |xs| > 2 {
          assert xs[1..][1..] == xs[2..];
        }
      }
      ContainsMiddle("", pair, rest);
      assert "" + pair + rest == Join(xs, sep);
    } else {
      JoinContainsAdjacent(xs[1..], sep, i - 1);
      assert xs[1..][i - 1] == xs[i] && xs[1..][i] == xs[i + 1];
      ContainsWithin(xs[0] + sep, Join(xs[1..], sep), "", pair);
      assert (xs[0] + sep) + Join(xs[1..], sep) + "" == Join(xs, sep);
    }
  }

  function DigitChar(d: int): char
    requires 0 <= d < 10
  {
    "0123456789"[d]
  }

  /** Decimal text of a natural number, without leading zeros. */
  function NatToString(n: nat): (r: string)
    ensures |r| >= 1
    ensures forall i :: 0 <= i < |r| ==> '0' <= r[i] <= '9'
    decreases n
  {
    if n < 10 then [DigitChar(n)] else NatToString(n / 10) + [DigitChar(n % 10)]
  }

  /** `String(n)` for an integer-valued JavaScript number. */
  function IntToString(n: int): string
  {
    if n < 0 then "-" + NatToString(-n) else NatToString(n)
  }
}
