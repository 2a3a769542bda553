/**
 * The JavaScript string built-ins the sources rely on, on `seq<char>`:
 * `split` on one character, `join`, `trim`, ASCII `toLowerCase`, decimal
 * printing (`String(n)`), decimal parsing of a run of digits and `padStart`.
 */
module Strings {

  // ---------------------------------------------------------------------------
  // Whitespace and trim
  // ---------------------------------------------------------------------------

  /** The characters `String.prototype.trim` removes (white space and line terminators). */
  predicate IsWhitespace(c: char) {
    || c == ' ' || c == '\t' || c == '\n' || c == '\r'
    || c == '\U{000B}' || c == '\U{000C}' || c == '\U{00A0}' || c == '\U{1680}'
    || ('\U{2000}' <= c <= '\U{200A}')
    || c == '\U{2028}' || c == '\U{2029}' || c == '\U{202F}' || c == '\U{205F}'
    || c == '\U{3000}' || c == '\U{FEFF}'
  }

  function TrimStart(s: string): string
  {
    if s != [] && IsWhitespace(s[0]) then TrimStart(s[1..]) else s
  }

  function TrimEnd(s: string): string
  {
    if s != [] && IsWhitespace(s[|s| - 1]) then TrimEnd(s[..|s| - 1]) else s
  }

  /** `s.trim()`: white space removed at both ends. */
  function Trim(s: string): string
  {
    TrimEnd(TrimStart(s))
  }

  /** Neither end of `s` is white space. */
  predicate IsTrimmed(s: string) {
    s == [] || (!IsWhitespace(s[0]) && !IsWhitespace(s[|s| - 1]))
  }

  lemma {:induction false} TrimEndIsPrefix(s: string)
    ensures |TrimEnd(s)| <= |s| && TrimEnd(s) == s[..|TrimEnd(s)|]
    ensures TrimEnd(s) == [] || !IsWhitespace(TrimEnd(s)[|TrimEnd(s)| - 1])
    decreases |s|
  {
    if s != [] && IsWhitespace(s[|s| - 1]) {
      TrimEndIsPrefix(s[..|s| - 1]);
    }
  }

  lemma {:induction false} TrimStartShape(s: string)
    ensures TrimStart(s) == [] || !IsWhitespace(TrimStart(s)[0])
    decreases |s|
  {
    if s != [] && IsWhitespace(s[0]) {
      TrimStartShape(s[1..]);
    }
  }

  /** The result of `trim` has no white space at either end. */
  lemma TrimIsTrimmed(s: string)
    ensures IsTrimmed(Trim(s))
  {
    var t := TrimStart(s);
    TrimStartShape(s);
    TrimEndIsPrefix(t);
  }

  /** `trim` leaves a string without white space at its ends unchanged. */
  lemma TrimmedFixed(s: string)
    requires IsTrimmed(s)
    ensures Trim(s) == s
  {
  }

  /** `trim` is idempotent. */
  lemma TrimIdempotent(s: string)
    ensures Trim(Trim(s)) == Trim(s)
  {
    TrimIsTrimmed(s);
    TrimmedFixed(Trim(s));
  }

  /** A leading white-space character does not change the trimmed string. */
  lemma TrimDropsLeading(w: char, s: string)
    requires IsWhitespace(w)
    ensures Trim([w] + s) == Trim(s)
  {
    assert ([w] + s)[1..] == s;
  }

  lemma {:induction false} TrimStartAppend(x: string, y: string)
    ensures TrimStart(x + y) == if TrimStart(x) == [] then TrimStart(y) else TrimStart(x) + y
    decreases |x|
  {
    if x == [] {
      assert x + y == y;
    } else if IsWhitespace(x[0]) {
      assert (x + y)[1..] == x[1..] + y;
      TrimStartAppend(x[1..], y);
    }
  }

  /** A trailing white-space character does not change the trimmed string. */
  lemma TrimDropsTrailing(s: string, w: char)
    requires IsWhitespace(w)
    ensures Trim(s + [w]) == Trim(s)
  {
    TrimStartAppend(s, [w]);
    var t := TrimStart(s);
    if t == [] {
      assert TrimStart([w]) == TrimStart([w][1..]);
    } else {
      assert (t + [w])[..|t + [w]| - 1] == t;
    }
  }

  // ---------------------------------------------------------------------------
  // split and join
  // ---------------------------------------------------------------------------

  /** `s.split(c)` for a one-character separator: the maximal separator-free pieces, in order. */
  function Split(s: string, c: char): (parts: seq<string>)
    ensures |parts| >= 1
    decreases |s|
  {
    if s == [] then [""]
    else
      var rest := Split(s[1..], c);
      if s[0] == c then [""] + rest else [[s[0]] + rest[0]] + rest[1..]
  }

  /** `parts.join(sep)`. */
  function Join(parts: seq<string>, sep: string): string
    decreases |parts|
  {
    if |parts| == 0 then ""
    else if |parts| == 1 then parts[0]
    else parts[0] + sep + Join(parts[1..], sep)
  }

  /** Number of occurrences of `c` in `s`. */
  function Occurrences(s: string, c: char): nat
  {
    if s == [] then 0 else (if s[0] == c then 1 else 0) + Occurrences(s[1..], c)
  }

  /** Splitting yields one more piece than there are separators, and no piece holds a separator. */
  lemma {:induction false} SplitShape(s: string, c: char)
    ensures |Split(s, c)| == Occurrences(s, c) + 1
    ensures forall i :: 0 <= i < |Split(s, c)| ==> c !in Split(s, c)[i]
    decreases |s|
  {
    if s != [] {
      SplitShape(s[1..], c);
    }
  }

  /** A string without the separator is one piece. */
  lemma {:induction false} SplitWithout(s: string, c: char)
    requires c !in s
    ensures Split(s, c) == [s]
    decreases |s|
  {
    if s != [] {
      assert c !in s[1..];
      SplitWithout(s[1..], c);
      assert [s[0]] + s[1..] == s;
    }
  }

  /** Splitting around one separator splits each side independently. */
  lemma {:induction false} SplitAround(a: string, b: string, c: char)
    ensures Split(a + [c] + b, c) == Split(a, c) + Split(b, c)
    decreases |a|
  {
    if a == [] {
      assert a + [c] + b == [c] + b;
      assert ([c] + b)[1..] == b;
    } else {
      assert (a + [c] + b)[1..] == a[1..] + [c] + b;
      SplitAround(a[1..], b, c);
    }
  }

  /** Splitting `a + " c " + rest` where `a` has no `c`: the first piece, then the pieces of `" " + rest`. */
  lemma SplitSpacedCons(a: string, rest: string, c: char)
    requires c != ' ' && c !in a
    ensures Split(a + [' ', c, ' '] + rest, c) ==
            [a + " "] + ([" " + Split(rest, c)[0]] + Split(rest, c)[1..])
  {
    assert a + [' ', c, ' '] + rest == (a + " ") + [c] + (" " + rest);
    SplitAround(a + " ", " " + rest, c);
    assert c !in a + " ";
    SplitWithout(a + " ", c);
    assert (" " + rest)[1..] == rest;
  }

  /**
   * Splitting a list joined with `" " + c + " "` on `c` gives the list back up to
   * the white space next to each separator: as many pieces, each with the same trim.
   */
  lemma {:induction false} SplitSpacedJoin(qs: seq<string>, c: char)
    requires |qs| >= 1 && c != ' '
    requires forall i :: 0 <= i < |qs| ==> c !in qs[i]
    ensures |Split(Join(qs, [' ', c, ' ']), c)| == |qs|
    ensures forall i :: 0 <= i < |qs| ==> Trim(Split(Join(qs, [' ', c, ' ']), c)[i]) == Trim(qs[i])
    decreases |qs|
  {
    var sep := [' ', c, ' '];
    if |qs| == 1 {
      SplitWithout(qs[0], c);
    } else {
      var tail := qs[1..];
      var j := Join(tail, sep);
      assert Join(qs, sep) == qs[0] + sep + j;
      SplitSpacedCons(qs[0], j, c);
      assert forall i :: 0 <= i < |tail| ==> c !in tail[i] by {
        forall i | 0 <= i < |tail| ensures c !in tail[i] {
          assert tail[i] == qs[i + 1];
        }
      }
      SplitSpacedJoin(tail, c);
      assert qs == [qs[0]] + tail;
      SpacedStep(qs[0], tail, Split(j, c), Split(Join(qs, sep), c));
    }
  }

  /** The inductive step of `SplitSpacedJoin`: the first piece keeps a trailing blank, the next a leading one. */
  lemma SpacedStep(q0: string, tail: seq<string>, pieces: seq<string>, all: seq<string>)
    requires |pieces| == |tail| >= 1
    requires all == [q0 + " "] + ([" " + pieces[0]] + pieces[1..])
    requires forall i :: 0 <= i < |tail| ==> Trim(pieces[i]) == Trim(tail[i])
    ensures |all| == |tail| + 1
    ensures forall i :: 0 <= i < |tail| + 1 ==> Trim(all[i]) == Trim(([q0] + tail)[i])
  {
    TrimDropsTrailing(q0, ' ');
    TrimDropsLeading(' ', pieces[0]);
    forall i | 0 <= i < |tail| + 1 ensures Trim(all[i]) == Trim(([q0] + tail)[i]) {
      if i == 0 {
        assert all[0] == q0 + [' '];
      } else if i == 1 {
        assert all[1] == [' '] + pieces[0];
      } else {
        assert all[i] == pieces[i - 1];
      }
    }
  }

  // ---------------------------------------------------------------------------
  // ASCII lowercase
  // ---------------------------------------------------------------------------

  function LowerChar(c: char): char
  {
    if 'A' <= c <= 'Z' then (c as int + 32) as char else c
  }

  /** `s.toLowerCase()` on the ASCII letters. */
  function Lower(s: string): (r: string)
    ensures |r| == |s|
    ensures forall i :: 0 <= i < |s| ==> r[i] == LowerChar(s[i])
  {
    if s == [] then [] else [LowerChar(s[0])] + Lower(s[1..])
  }

  // ---------------------------------------------------------------------------
  // Decimal numerals
  // ---------------------------------------------------------------------------

  predicate IsDigit(c: char) {
    '0' <= c <= '9'
  }

  predicate AllDigits(s: string) {
    forall i :: 0 <= i < |s| ==> IsDigit(s[i])
  }

  function DigitChar(d: nat): (c: char)
    requires d < 10
    ensures IsDigit(c)
  {
    ('0' as int + d) as char
  }

  /** Value of a string of decimal digits (the empty string has value 0). */
  function ParseDigits(s: string): nat
    requires AllDigits(s)
    decreases |s|
  {
    if s == [] then 0 else 10 * ParseDigits(s[..|s| - 1]) + (s[|s| - 1] as int - '0' as int)
  }

  /** `String(n)` for a natural number: its decimal numeral without leading zeros. */
  function NatToString(n: nat): (s: string)
    ensures |s| >= 1 && AllDigits(s)
    ensures n < 10 <==> |s| == 1
  {
    if n < 10 then [DigitChar(n)] else NatToString(n / 10) + [DigitChar(n % 10)]
  }

  /** Printing and then parsing a natural number gives it back. */
  lemma {:induction false} ParsePrinted(n: nat)
    ensures ParseDigits(NatToString(n)) == n
  {
    if n >= 10 {
      var s := NatToString(n);
      assert s[..|s| - 1] == NatToString(n / 10);
      ParsePrinted(n / 10);
    }
  }

  /** Leading zeros do not change the value of a numeral. */
  lemma {:induction false} ParseLeadingZero(s: string)
    requires AllDigits(s)
    ensures ParseDigits("0" + s) == ParseDigits(s)
    decreases |s|
  {
    if s != [] {
      assert ("0" + s)[..|"0" + s| - 1] == "0" + s[..|s| - 1];
      ParseLeadingZero(s[..|s| - 1]);
    }
  }

  /** `s.padStart(width, fill)`. */
  function PadStart(s: string, width: nat, fill: char): (r: string)
    ensures |r| == if |s| >= width then |s| else width
    ensures r[|r| - |s|..] == s
    ensures forall i :: 0 <= i < |r| - |s| ==> r[i] == fill
    decreases width - |s|
  {
    if |s| >= width then s else PadStart([fill] + s, width, fill)
  }
}
