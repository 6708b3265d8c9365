/**
 * String primitives the JavaScript code leans on: `Array.prototype.join`,
 * `String.prototype.split` with a one-character separator,
 * `String.prototype.replace` with a string pattern (first occurrence only),
 * `String.prototype.trim` (only whether anything is left) and the decimal
 * rendering of an integer.
 */
module Text {

  /** `xs.join(sep)`: the elements with `sep` between neighbours. */
  function Join(xs: seq<string>, sep: string): string
  {
    if |xs| == 0 then ""
    else if |xs| == 1 then xs[0]
    else xs[0] + sep + Join(xs[1..], sep)
  }

  /** `s.split(c)` for a one-character separator: never empty, no piece holds `c`. */
  function Split(s: string, c: char): (pieces: seq<string>)
    ensures |pieces| >= 1
    ensures forall i :: 0 <= i < |pieces| ==> c !in pieces[i]
  {
    if |s| == 0 then [""]
    else if s[0] == c then [""] + Split(s[1..], c)
    else
      var rest := Split(s[1..], c);
      [[s[0]] + rest[0]] + rest[1..]
  }

  /** Splitting and re-joining with the same separator gives the string back. */
  lemma {:induction false} JoinSplit(s: string, c: char)
    ensures Join(Split(s, c), [c]) == s
  {
    if |s| == 0 {
    } else if s[0] == c {
      JoinSplit(s[1..], c);
      assert s == [c] + s[1..];
    } else {
      var rest := Split(s[1..], c);
      JoinSplit(s[1..], c);
      if |rest| == 1 {
        assert s == [s[0]] + s[1..];
      } else {
        assert Join(rest, [c]) == rest[0] + [c] + Join(rest[1..], [c]);
        assert s == [s[0]] + s[1..];
      }
    }
  }

  /** Joining pieces free of the separator and splitting again gives the pieces back. */
  lemma {:induction false} SplitJoin(xs: seq<string>, c: char)
    requires |xs| >= 1
    requires forall i :: 0 <= i < |xs| ==> c !in xs[i]
    ensures Split(Join(xs, [c]), c) == xs
    decreases |xs|, |xs[0]|
  {
    if |xs| == 1 {
      SplitNoSeparator(xs[0], c);
    } else if |xs[0]| == 0 {
      var s := Join(xs, [c]);
      assert s == [c] + Join(xs[1..], [c]);
      assert s[1..] == Join(xs[1..], [c]);
      SplitJoin(xs[1..], c);
      assert xs == [""] + xs[1..];
    } else {
      var ys := [xs[0][1..]] + xs[1..];
      assert forall i :: 0 <= i < |ys| ==> c !in ys[i] by {
        assert forall k :: 0 <= k < |xs[0][1..]| ==> xs[0][1..][k] == xs[0][k + 1];
        assert forall i :: 1 <= i < |ys| ==> ys[i] == xs[i];
      }
      SplitJoin(ys, c);
      SplitJoinStep(xs, ys, c);
    }
  }

  /** The step of `SplitJoin` that moves the first character of a non-empty
      first piece back in front. */
  lemma SplitJoinStep(xs: seq<string>, ys: seq<string>, c: char)
    requires |xs| >= 2 && |xs[0]| > 0 && xs[0][0] != c
    requires ys == [xs[0][1..]] + xs[1..]
    requires Split(Join(ys, [c]), c) == ys
    ensures Split(Join(xs, [c]), c) == xs
  {
    var s := Join(xs, [c]);
    JoinMovesFirstChar(xs, ys, [c]);
    assert s[1..] == Join(ys, [c]);
    UnfoldSplit(s, c);
    assert [xs[0][0]] + xs[0][1..] == xs[0];
  }

  /** Moving the first character of the first element out of a join. */
  lemma JoinMovesFirstChar(xs: seq<string>, ys: seq<string>, sep: string)
    requires |xs| >= 2 && |xs[0]| > 0
    requires ys == [xs[0][1..]] + xs[1..]
    ensures Join(xs, sep) == [xs[0][0]] + Join(ys, sep)
  {
    JoinFirst(ys, sep);
    JoinFirst(xs, sep);
    assert ys[1..] == xs[1..];
    assert xs[0] == [xs[0][0]] + xs[0][1..];
  }

  /** One step of `split` at a first character that is not the separator. */
  lemma UnfoldSplit(s: string, c: char)
    requires |s| > 0 && s[0] != c
    ensures Split(s, c) == [[s[0]] + Split(s[1..], c)[0]] + Split(s[1..], c)[1..]
  {
  }

  lemma {:induction false} SplitNoSeparator(s: string, c: char)
    requires c !in s
    ensures Split(s, c) == [s]
  {
    if |s| > 0 {
      assert c !in s[1..];
      SplitNoSeparator(s[1..], c);
      assert s == [s[0]] + s[1..];
    }
  }

  /** A string ends with the separator exactly when its split has at least
      two pieces and the last one is empty. */
  lemma SplitEndsWithSeparator(s: string, c: char)
    ensures (|s| > 0 && s[|s| - 1] == c) <==> (|Split(s, c)| >= 2 && Split(s, c)[|Split(s, c)| - 1] == "")
  {
    var pieces := Split(s, c);
    JoinSplit(s, c);
    var n := |pieces|;
    if n == 1 {
      assert s == pieces[0];
      if |s| > 0 {
        assert s[|s| - 1] in pieces[0];
      }
    } else if pieces[n - 1] == "" {
      JoinAppend(pieces[..n - 1], [""], [c]);
      assert pieces[..n - 1] + [""] == pieces;
    } else {
      JoinLast(pieces, [c]);
      assert pieces[n - 1][|pieces[n - 1]| - 1] in pieces[n - 1];
    }
  }

  /** Joining is associative over concatenation of the element lists. */
  lemma {:induction false} JoinAppend(xs: seq<string>, ys: seq<string>, sep: string)
    requires |xs| >= 1 && |ys| >= 1
    ensures Join(xs + ys, sep) == Join(xs, sep) + sep + Join(ys, sep)
  {
    if |xs| == 1 {
      assert (xs + ys)[1..] == ys;
    } else {
      assert (xs + ys)[1..] == xs[1..] + ys;
      JoinAppend(xs[1..], ys, sep);
    }
  }

  /** The last character of a join is the last character of its last non-empty element. */
  lemma {:induction false} JoinLast(xs: seq<string>, sep: string)
    requires |xs| >= 1 && |xs[|xs| - 1]| > 0
    ensures var j := Join(xs, sep); |j| > 0 && j[|j| - 1] == xs[|xs| - 1][|xs[|xs| - 1]| - 1]
  {
    if |xs| > 1 {
      JoinLast(xs[1..], sep);
    }
  }

  /** The first element of a join is a prefix of it. */
  lemma {:induction false} JoinFirst(xs: seq<string>, sep: string)
    requires |xs| >= 2
    ensures Join(xs, sep) == xs[0] + sep + Join(xs[1..], sep)
  {
  }

  /** A "\r\n" starts at index `i` of `s`. */
  predicate CrlfAt(s: string, i: int)
  {
    0 <= i && i + 1 < |s| && s[i] == '\r' && s[i + 1] == '\n'
  }

  /** `s.indexOf('\r\n')`, with `|s|` standing for "not found". */
  function FirstCrlf(s: string): (i: nat)
    ensures i <= |s|
    ensures i < |s| ==> CrlfAt(s, i)
  {
    if |s| < 2 then |s|
    else if CrlfAt(s, 0) then 0
    else 1 + FirstCrlf(s[1..])
  }

  /** No "\r\n" starts before the index FirstCrlf reports, and none at all when it reports "not found". */
  lemma {:induction false} FirstCrlfIsFirst(s: string, j: int)
    requires 0 <= j < |s|
    requires j < FirstCrlf(s) || FirstCrlf(s) == |s|
    ensures !CrlfAt(s, j)
  {
    if |s| >= 2 && !CrlfAt(s, 0) && j > 0 {
      FirstCrlfIsFirst(s[1..], j - 1);
    }
  }

  /** `s.replace('\r\n', '\n')`: a string pattern, so only the FIRST "\r\n" becomes "\n". */
  function NormalizeCrlf(s: string): string
  {
    var i := FirstCrlf(s);
    if i < |s| then s[..i] + "\n" + s[i + 2..] else s
  }

  /** The replacement removes exactly one character when there is a "\r\n", none otherwise,
      and everything after the first "\r\n" is left as it was (a second "\r\n" survives). */
  lemma NormalizeCrlfShape(s: string)
    ensures (forall j :: !CrlfAt(s, j)) <==> NormalizeCrlf(s) == s
    ensures |NormalizeCrlf(s)| == if FirstCrlf(s) < |s| then |s| - 1 else |s|
  {
    var i := FirstCrlf(s);
    if i == |s| {
      forall j ensures !CrlfAt(s, j) {
        if 0 <= j < |s| { FirstCrlfIsFirst(s, j); }
      }
    } else {
      assert |NormalizeCrlf(s)| == |s| - 1;
    }
  }

  /** Characters `String.prototype.trim` removes (ECMAScript WhiteSpace and LineTerminator). */
  predicate IsJsSpace(c: char)
  {
    c == '\t' || c == '\n' || c == '\U{B}' || c == '\U{C}' || c == '\r' || c == ' '
    || c == '\U{A0}' || c == '\U{1680}' || ('\U{2000}' <= c <= '\U{200A}')
    || c == '\U{2028}' || c == '\U{2029}' || c == '\U{202F}' || c == '\U{205F}'
    || c == '\U{3000}' || c == '\U{FEFF}'
  }

  /** `s.trim()` is the empty string, i.e. falsy. */
  predicate TrimsToEmpty(s: string)
  {
    forall i :: 0 <= i < |s| ==> IsJsSpace(s[i])
  }

  /** Every character is a decimal digit. */
  predicate IsDigits(s: string)
  {
    forall i :: 0 <= i < |s| ==> '0' <= s[i] <= '9'
  }

  /** The number a string of decimal digits denotes, most significant first. */
  function DecimalValue(s: string): nat
    requires IsDigits(s)
    decreases |s|
  {
    if |s| == 0 then 0
    else DecimalValue(s[..|s| - 1]) * 10 + (s[|s| - 1] as int - '0' as int)
  }

  /** Decimal rendering of an integer, as `String(n)` gives it: the digits of
      the value with no leading zero, behind a "-" for a negative value. */
  function IntToString(n: int): (r: string)
    ensures |r| >= 1
    ensures n >= 0 ==> IsDigits(r) && DecimalValue(r) == n
    ensures n == 0 ==> r == "0"
    ensures n > 0 ==> r[0] != '0'
    ensures n < 0 ==> r[0] == '-' && IsDigits(r[1..]) && DecimalValue(r[1..]) == -n && r[1] != '0'
    decreases if n < 0 then -n + 1 else n
  {
    if n < 0 then "-" + IntToString(-n)
    else if n < 10 then [DigitChar(n)]
    else
      var front := IntToString(n / 10);
      var r := front + [DigitChar(n % 10)];
      assert r[..|r| - 1] == front;
      r
  }

  function DigitChar(d: int): (c: char)
    requires 0 <= d < 10
    ensures '0' <= c <= '9' && c as int - '0' as int == d
  {
    ['0', '1', '2', '3', '4', '5', '6', '7', '8', '9'][d]
  }
}
