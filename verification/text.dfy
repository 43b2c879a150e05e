/** Character-level string helpers: Python's `str.split` on a one-character
    separator with its inverse `join`, and decimal digit strings. */
module Text {

  /** `s.split(sep)`: the pieces between occurrences of `sep`, empty pieces
      included, so there is always at least one piece. Defined one character
      at a time: a separator starts a new piece, any other character joins
      the first piece of the rest. */
  function Split(s: string, sep: char): (parts: seq<string>)
    ensures |parts| >= 1
  {
    if |s| == 0 then [""]
    else
      var rest := Split(s[1..], sep);
      if s[0] == sep then [""] + rest
      else [[s[0]] + rest[0]] + rest[1..]
  }

  /** `sep.join(parts)`. */
  function Join(parts: seq<string>, sep: char): string
    requires |parts| >= 1
  {
    if |parts| == 1 then parts[0]
    else parts[0] + [sep] + Join(parts[1..], sep)
  }

  /** The last piece of a split: what follows the last separator. */
  function LastPiece(s: string, sep: char): string {
    var parts := Split(s, sep);
    parts[|parts| - 1]
  }

  /** A string without the separator splits into itself alone. */
  lemma {:induction false} SplitWithoutSeparator(s: string, sep: char)
    requires sep !in s
    ensures Split(s, sep) == [s]
  {
    if |s| > 0 {
      assert sep !in s[1..];
      SplitWithoutSeparator(s[1..], sep);
      assert s == [s[0]] + s[1..];
    }
  }

  /** Splitting at the first separator: the separator-free prefix becomes
      the first piece, and the rest splits on its own. */
  lemma {:induction false} SplitAfterPrefix(p: string, sep: char, t: string)
    requires sep !in p
    ensures Split(p + [sep] + t, sep) == [p] + Split(t, sep)
  {
    var s := p + [sep] + t;
    if |p| == 0 {
      assert s[1..] == t;
    } else {
      assert s[1..] == p[1..] + [sep] + t;
      assert sep !in p[1..];
      SplitAfterPrefix(p[1..], sep, t);
      assert p == [p[0]] + p[1..];
    }
  }

  /** A split has a single piece exactly when the separator does not occur. */
  lemma {:induction false} SplitSingle(s: string, sep: char)
    ensures |Split(s, sep)| == 1 <==> sep !in s
  {
    if sep !in s {
      SplitWithoutSeparator(s, sep);
    } else {
      var i :| 0 <= i < |s| && s[i] == sep;
      SplitAfterPrefixCount(s, sep, i);
    }
  }

  lemma {:induction false} SplitAfterPrefixCount(s: string, sep: char, i: nat)
    requires i < |s| && s[i] == sep
    ensures |Split(s, sep)| >= 2
  {
    if i > 0 && s[0] != sep {
      SplitAfterPrefixCount(s[1..], sep, i - 1);
    }
  }

  /** Dropping a first character keeps the last piece, unless that
      character belongs to the only piece. */
  lemma LastPieceTail(s: string, sep: char)
    requires |s| > 0 && sep in s
    ensures LastPiece(s, sep) == LastPiece(s[1..], sep)
  {
    var rest := Split(s[1..], sep);
    if s[0] != sep {
      assert sep in s[1..];
      SplitSingle(s[1..], sep);
    }
  }

  /** No piece of a split contains the separator. */
  lemma {:induction false} SplitPiecesLackSeparator(s: string, sep: char)
    ensures forall i :: 0 <= i < |Split(s, sep)| ==> sep !in Split(s, sep)[i]
  {
    if |s| > 0 {
      SplitPiecesLackSeparator(s[1..], sep);
      var rest := Split(s[1..], sep);
      if s[0] != sep {
        assert sep !in [s[0]] + rest[0];
      }
    }
  }

  /** Joining the pieces of a split gives back the original string. */
  lemma {:induction false} JoinSplit(s: string, sep: char)
    ensures Join(Split(s, sep), sep) == s
  {
    if |s| > 0 {
      var rest := Split(s[1..], sep);
      JoinSplit(s[1..], sep);
      if s[0] == sep {
        assert ([""] + rest)[1..] == rest;
      } else if |rest| == 1 {
        assert s == [s[0]] + s[1..];
      } else {
        var parts := [[s[0]] + rest[0]] + rest[1..];
        assert parts[1..] == rest[1..];
        assert Join(rest, sep) == rest[0] + [sep] + Join(rest[1..], sep);
        assert s == [s[0]] + s[1..];
      }
    }
  }

  /** Splitting a join of separator-free pieces gives back the pieces. */
  lemma {:induction false} SplitJoin(parts: seq<string>, sep: char)
    requires |parts| >= 1
    requires forall i :: 0 <= i < |parts| ==> sep !in parts[i]
    ensures Split(Join(parts, sep), sep) == parts
    decreases |parts|
  {
    if |parts| == 1 {
      SplitWithoutSeparator(parts[0], sep);
    } else {
      SplitAfterPrefix(parts[0], sep, Join(parts[1..], sep));
      SplitJoin(parts[1..], sep);
      assert parts == [parts[0]] + parts[1..];
    }
  }

  predicate IsDigit(c: char) {
    '0' <= c <= '9'
  }

  predicate AllDigits(s: string) {
    forall i :: 0 <= i < |s| ==> IsDigit(s[i])
  }

  function DigitChar(d: nat): (c: char)
    requires d < 10
  {
    ('0' as int + d) as char
  }

  function DigitValue(c: char): nat
    requires IsDigit(c)
  {
    c as int - '0' as int
  }

  /** The number a string of decimal digits denotes (leading zeros allowed). */
  function Value(s: string): nat
    requires AllDigits(s)
  {
    if |s| == 0 then 0
    else Value(s[..|s| - 1]) * 10 + DigitValue(s[|s| - 1])
  }

  function Pow10(w: nat): (p: nat)
    ensures p >= 1
  {
    if w == 0 then 1 else 10 * Pow10(w - 1)
  }

  /** Python's decimal rendering of a natural number: no leading zeros. */
  function Decimal(n: nat): (s: string)
    ensures |s| >= 1 && AllDigits(s)
    ensures |s| > 1 ==> s[0] != '0'
  {
    if n < 10 then [DigitChar(n)]
    else Decimal(n / 10) + [DigitChar(n % 10)]
  }

  /** The last `width` decimal digits of `n`, zero-padded on the left
      (strftime's `%d`, `%I`, `%M`). */
  function Pad(n: nat, width: nat): (s: string)
    ensures |s| == width && AllDigits(s)
  {
    if width == 0 then ""
    else Pad(n / 10, width - 1) + [DigitChar(n % 10)]
  }

  lemma {:induction false} ValueDecimal(n: nat)
    ensures Value(Decimal(n)) == n
  {
    var s := Decimal(n);
    if n >= 10 {
      assert s[..|s| - 1] == Decimal(n / 10);
      ValueDecimal(n / 10);
    }
  }

  /** A digit string is the zero-padded rendering of its own value at its
      own width. */
  lemma {:induction false} PadValue(s: string)
    requires AllDigits(s)
    ensures Value(s) < Pow10(|s|)
    ensures Pad(Value(s), |s|) == s
  {
    if |s| > 0 {
      var init := s[..|s| - 1];
      assert AllDigits(init);
      PadValue(init);
      var d := DigitValue(s[|s| - 1]);
      assert Value(s) / 10 == Value(init) && Value(s) % 10 == d;
      assert DigitChar(d) == s[|s| - 1];
      assert s == init + [s[|s| - 1]];
    }
  }

  lemma {:induction false} ValuePad(n: nat, width: nat)
    requires n < Pow10(width)
    ensures Value(Pad(n, width)) == n
  {
    if width > 0 {
      var s := Pad(n, width);
      assert s[..|s| - 1] == Pad(n / 10, width - 1);
      ValuePad(n / 10, width - 1);
    }
  }
}
