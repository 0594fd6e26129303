/** The handful of Python string operations the command line uses to build
    its output: `' ' * n`, the `'%13s'` field, `str.ljust`, `' '.join` and
    `str()` applied to an integer count. Strings are sequences of characters. */
module Text {
  import opened Seqs

  function Max(a: int, b: int): int
  {
    if a >= b then a else b
  }

  /** `' ' * n` */
  function Spaces(n: nat): (r: string)
    ensures |r| == n
    ensures forall i :: 0 <= i < n ==> r[i] == ' '
  {
    seq(n, _ => ' ')
  }

  /** `'%<w>s' % s`: right-justify in a field of width `w`, padding with
      blanks on the left and never truncating. */
  function RJust(s: string, w: nat): (r: string)
    ensures |r| == Max(w, |s|)
    ensures r[|r| - |s|..] == s
    ensures forall i :: 0 <= i < |r| - |s| ==> r[i] == ' '
  {
    if |s| >= w then s else Spaces(w - |s|) + s
  }

  /** `s.ljust(w)`: left-justify in a field of width `w`, padding with
      blanks on the right and never truncating. */
  function LJust(s: string, w: nat): (r: string)
    ensures |r| == Max(w, |s|)
    ensures r[..|s|] == s
    ensures forall i :: |s| <= i < |r| ==> r[i] == ' '
  {
    if |s| >= w then s else s + Spaces(w - |s|)
  }

  /** `sep.join(xs)` */
  function Join(sep: string, xs: seq<string>): string
  {
    if |xs| == 0 then ""
    else if |xs| == 1 then xs[0]
    else xs[0] + sep + Join(sep, xs[1..])
  }

  /** The length of each piece. */
  function Lengths(xs: seq<string>): (ws: seq<nat>)
    ensures |ws| == |xs|
    ensures forall i :: 0 <= i < |xs| ==> ws[i] == |xs[i]|
  {
    seq(|xs|, i requires 0 <= i < |xs| => |xs[i]|)
  }

  /** Where piece `k` starts in a join whose pieces have lengths `ws` and
      whose separator has length `sepLen`. */
  function Offset(ws: seq<nat>, sepLen: nat, k: nat): nat
    requires k <= |ws|
  {
    if k == 0 then 0 else ws[0] + sepLen + Offset(ws[1..], sepLen, k - 1)
  }

  /** Piece `k` of a join sits, unchanged, at its offset: the join loses
      nothing and moves nothing. */
  lemma {:induction false} JoinPiece(sep: string, xs: seq<string>, k: nat)
    requires k < |xs|
    ensures PlacedAt(Join(sep, xs), Offset(Lengths(xs), |sep|, k), xs[k])
  {
    if k == 0 {
      if |xs| == 1 {
        PlacedFront(xs[0], []);
        assert xs[0] + [] == xs[0];
      } else {
        PlacedFront(xs[0], sep + Join(sep, xs[1..]));
        assert Join(sep, xs) == xs[0] + (sep + Join(sep, xs[1..]));
      }
    } else {
      var head := xs[0] + sep;
      assert Join(sep, xs) == head + Join(sep, xs[1..]);
      assert Lengths(xs)[1..] == Lengths(xs[1..]);
      JoinPiece(sep, xs[1..], k - 1);
      PlacedBehind(head, Join(sep, xs[1..]), Offset(Lengths(xs[1..]), |sep|, k - 1), xs[k]);
    }
  }

  predicate IsDigit(c: char)
  {
    '0' <= c <= '9'
  }

  predicate IsNumeral(s: string)
  {
    |s| > 0 && forall i :: 0 <= i < |s| ==> IsDigit(s[i])
  }

  function DigitChar(d: nat): (c: char)
    requires d < 10
    ensures IsDigit(c)
    ensures c as int - '0' as int == d
  {
    "0123456789"[d]
  }

  /** The value of a string of decimal digits. */
  function DigitsValue(s: string): nat
    requires forall i :: 0 <= i < |s| ==> IsDigit(s[i])
  {
    if |s| == 0 then 0
    else DigitsValue(s[..|s| - 1]) * 10 + DigitValue(s[|s| - 1])
  }

  function DigitValue(c: char): nat
    requires IsDigit(c)
  {
    c as int - '0' as int
  }

  /** `str(n)` for a non-negative integer: its shortest decimal numeral. */
  function NatToString(n: nat): (r: string)
    ensures IsNumeral(r)
    ensures DigitsValue(r) == n
    ensures r[0] == '0' ==> r == "0"
    decreases n
  {
    if n < 10 then [DigitChar(n)]
    else
      var front := NatToString(n / 10);
      var r := front + [DigitChar(n % 10)];
      assert r[..|r| - 1] == front;
      r
  }

  /** `str(i)` for any integer: a minus sign before the numeral of a negative one. */
  function IntToString(i: int): (r: string)
    ensures i >= 0 ==> IsNumeral(r) && DigitsValue(r) == i
    ensures |r| > 0
    ensures i < 0 ==> r[0] == '-' && IsNumeral(r[1..]) && DigitsValue(r[1..]) == -i
    ensures i >= 0 && r[0] == '0' ==> r == "0"
    ensures i < 0 ==> r[1] != '0'
  {
    if i < 0 then "-" + NatToString(-i) else NatToString(i)
  }

  /** A count below ten prints as its one digit. */
  lemma SingleDigit(d: nat)
    requires d < 10
    ensures IntToString(d) == ["0123456789"[d]]
  {
  }

  /** Reads back what `IntToString` writes. */
  function ParseInt(s: string): int
    requires IsNumeral(s) || (|s| > 0 && s[0] == '-' && IsNumeral(s[1..]))
  {
    if s[0] == '-' then 0 - DigitsValue(s[1..]) as int else DigitsValue(s)
  }

  lemma IntToStringRoundTrip(i: int)
    ensures ParseInt(IntToString(i)) == i
  {
  }
}
