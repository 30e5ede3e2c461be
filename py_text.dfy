/**
 * The Python string built-ins the definition converter relies on, over the ASCII text the
 * spreadsheet cells are scrubbed to: str.rstrip(), str.split(sep), int() of a decimal
 * text, and the replacement of newlines and carriage returns by spaces.
 */
module PyText {
  import opened Wrappers

  /**
   * The whitespace of a Python 2 byte string (what its rstrip() removes and its int() skips):
   * space, tab, line feed, vertical tab, form feed and carriage return.
   */
  predicate IsSpace(c: char)
  {
    c == ' ' || 9 <= c as int <= 13
  }

  predicate IsDigit(c: char)
  {
    '0' as int <= c as int <= '9' as int
  }

  /** str.rstrip(): the text without its trailing whitespace. */
  function RStrip(s: string): (r: string)
    ensures |r| <= |s| && r == s[..|r|]
    ensures r == [] || !IsSpace(r[|r| - 1])
    ensures forall k | |r| <= k < |s| :: IsSpace(s[k])
  {
    if s != [] && IsSpace(s[|s| - 1]) then RStrip(s[..|s| - 1]) else s
  }

  /** str.lstrip(): the text without its leading whitespace. */
  function LStrip(s: string): (r: string)
    ensures |r| <= |s| && r == s[|s| - |r|..]
    ensures r == [] || !IsSpace(r[0])
    ensures forall k | 0 <= k < |s| - |r| :: IsSpace(s[k])
  {
    if s != [] && IsSpace(s[0]) then LStrip(s[1..]) else s
  }

  /** Stripping is idempotent: a stripped text has nothing more to strip. */
  lemma RStripIdempotent(s: string)
    ensures RStrip(RStrip(s)) == RStrip(s)
  {
  }

  /** str.replace('\n', ' ').replace('\r', ' '). */
  function ScrubNewlines(s: string): string
  {
    seq(|s|, k requires 0 <= k < |s| => if s[k] == '\n' || s[k] == '\r' then ' ' else s[k])
  }

  /** Scrubbing leaves no line breaks, keeps every other character, and changes nothing more when repeated. */
  lemma ScrubNewlinesFacts(s: string)
    ensures |ScrubNewlines(s)| == |s|
    ensures forall k | 0 <= k < |s| :: ScrubNewlines(s)[k] != '\n' && ScrubNewlines(s)[k] != '\r'
    ensures forall k | 0 <= k < |s| && s[k] != '\n' && s[k] != '\r' :: ScrubNewlines(s)[k] == s[k]
    ensures ScrubNewlines(ScrubNewlines(s)) == ScrubNewlines(s)
  {
  }

  /** The value of a non-empty run of decimal digits. */
  function DigitsValue(ds: string): (r: nat)
    requires AllDigits(ds)
  {
    if ds == [] then 0
    else
      assert IsDigit(ds[|ds| - 1]);
      10 * DigitsValue(ds[..|ds| - 1]) + (ds[|ds| - 1] as int - '0' as int)
  }

  predicate AllDigits(ds: string)
  {
    forall k | 0 <= k < |ds| :: IsDigit(ds[k])
  }

  /**
   * int() of a text: optional surrounding whitespace, an optional sign, then at least one
   * decimal digit; None where Python raises ValueError.
   */
  function ParseInt(s: string): (r: Option<int>)
    ensures r.Some? <==> ValidIntText(Strip(s))
  {
    SignedValue(Strip(s))
  }

  /** The value of a stripped text: a sign at most, then at least one digit. */
  function SignedValue(t: string): (r: Option<int>)
    ensures r.Some? <==> ValidIntText(t)
  {
    if t == [] then None
    else if t[0] == '-' || t[0] == '+' then
      var ds := t[1..];
      if ds != [] && AllDigits(ds) then
        var v: int := DigitsValue(ds);
        Some(if t[0] == '-' then -v else v)
      else None
    else if AllDigits(t) then Some(DigitsValue(t))
    else None
  }

  /** str.strip(). */
  function Strip(s: string): string
  {
    LStrip(RStrip(s))
  }

  /** A text int() accepts once stripped: a sign at most, then digits only. */
  predicate ValidIntText(t: string)
  {
    || (t != [] && AllDigits(t))
    || (|t| >= 2 && (t[0] == '-' || t[0] == '+') && AllDigits(t[1..]))
  }

  /** The decimal digits of a natural number, without leading zeros. */
  function ShowNat(n: nat): (r: string)
    ensures r != [] && AllDigits(r)
  {
    if n < 10 then [('0' as int + n) as char] else ShowNat(n / 10) + [('0' as int + n % 10) as char]
  }

  /** Reading back the digits of a number gives the number. */
  lemma {:induction false} ShowNatRoundTrip(n: nat)
    ensures DigitsValue(ShowNat(n)) == n
  {
    var r := ShowNat(n);
    if n >= 10 {
      assert r[..|r| - 1] == ShowNat(n / 10);
      ShowNatRoundTrip(n / 10);
    }
  }

  /** int() reads back the decimal text of any integer. */
  lemma ParseShowRoundTrip(n: int)
    ensures n >= 0 ==> ParseInt(ShowNat(n)) == Some(n)
    ensures n < 0 ==> ParseInt("-" + ShowNat(-n)) == Some(n)
  {
    if n >= 0 {
      ParseDigits(ShowNat(n));
      ShowNatRoundTrip(n);
    } else {
      var m: nat := -n;
      var ds := ShowNat(m);
      ShowNatRoundTrip(m);
      ParseNegativeDigits(ds, n);
    }
  }

  lemma ParseDigits(ds: string)
    requires ds != [] && AllDigits(ds)
    ensures ParseInt(ds) == Some(DigitsValue(ds))
  {
    NoSpaceInDigits(ds);
  }

  lemma ParseNegativeDigits(ds: string, n: int)
    requires ds != [] && AllDigits(ds) && n + DigitsValue(ds) == 0
    ensures ParseInt("-" + ds) == Some(n)
  {
    var t := "-" + ds;
    StripSigned(ds);
    assert t[1..] == ds;
    assert t[0] == '-';
  }

  lemma StripSigned(ds: string)
    requires ds != [] && AllDigits(ds)
    ensures Strip("-" + ds) == "-" + ds
  {
    var t := "-" + ds;
    assert !IsSpace(t[|t| - 1]) by { assert t[|t| - 1] == ds[|ds| - 1]; }
    assert RStrip(t) == t;
    assert LStrip(t) == t by { assert !IsSpace(t[0]); }
  }

  lemma NoSpaceInDigits(ds: string)
    requires ds != [] && AllDigits(ds)
    ensures Strip(ds) == ds
  {
    assert !IsSpace(ds[|ds| - 1]);
    assert RStrip(ds) == ds;
    assert !IsSpace(ds[0]);
  }

  /** str.split(sep) for a one-character separator: the pieces between separators, at least one. */
  function Split(s: string, sep: char): (r: seq<string>)
    ensures |r| >= 1
    ensures forall k, j | 0 <= k < |r| && 0 <= j < |r[k]| :: r[k][j] != sep
  {
    if s == [] then [[]]
    else
      var parts := Split(s[..|s| - 1], sep);
      var c := s[|s| - 1];
      if c == sep then parts + [[]]
      else parts[..|parts| - 1] + [parts[|parts| - 1] + [c]]
  }

  /** str.join: the pieces with the separator between each two. */
  function Join(parts: seq<string>, sep: char): string
  {
    if parts == [] then []
    else if |parts| == 1 then parts[0]
    else Join(parts[..|parts| - 1], sep) + [sep] + parts[|parts| - 1]
  }

  lemma JoinAppendLast(parts: seq<string>, sep: char, c: char)
    requires parts != []
    ensures Join(parts[..|parts| - 1] + [parts[|parts| - 1] + [c]], sep) == Join(parts, sep) + [c]
  {
    var front := parts[..|parts| - 1];
    var q := front + [parts[|parts| - 1] + [c]];
    if |parts| > 1 {
      assert q[..|q| - 1] == front;
    }
  }

  /** Joining the pieces of a split gives back the text. */
  lemma {:induction false} JoinSplit(s: string, sep: char)
    ensures Join(Split(s, sep), sep) == s
  {
    if s != [] {
      var front := s[..|s| - 1];
      var c := s[|s| - 1];
      var parts := Split(front, sep);
      JoinSplit(front, sep);
      assert front + [c] == s;
      if c == sep {
        assert Split(s, sep) == parts + [[]];
        JoinSepLast(parts, sep);
      } else {
        assert Split(s, sep) == parts[..|parts| - 1] + [parts[|parts| - 1] + [c]];
        JoinAppendLast(parts, sep, c);
      }
    }
  }

  lemma JoinSepLast(parts: seq<string>, sep: char)
    requires parts != []
    ensures Join(parts + [[]], sep) == Join(parts, sep) + [sep]
  {
    var q := parts + [[]];
    assert q[..|q| - 1] == parts;
  }

  /** Splitting a join of separator-free pieces gives back the pieces. */
  lemma {:induction false} SplitJoin(parts: seq<string>, sep: char)
    requires |parts| >= 1
    requires forall k, j | 0 <= k < |parts| && 0 <= j < |parts[k]| :: parts[k][j] != sep
    ensures Split(Join(parts, sep), sep) == parts
  {
    if |parts| == 1 {
      SplitPlain(parts[0], sep);
    } else {
      var front := parts[..|parts| - 1];
      var last := parts[|parts| - 1];
      forall k, j | 0 <= k < |front| && 0 <= j < |front[k]| ensures front[k][j] != sep {
        assert front[k] == parts[k];
      }
      SplitJoin(front, sep);
      assert forall j | 0 <= j < |last| :: last[j] != sep;
      SplitAfterSep(Join(front, sep), last, sep);
      assert Join(parts, sep) == Join(front, sep) + [sep] + last;
      assert front + [last] == parts;
    }
  }

  /** A text without separators splits into itself. */
  lemma {:induction false} SplitPlain(s: string, sep: char)
    requires forall j | 0 <= j < |s| :: s[j] != sep
    ensures Split(s, sep) == [s]
  {
    if s != [] {
      var front := s[..|s| - 1];
      SplitPlain(front, sep);
      assert front + [s[|s| - 1]] == s;
    }
  }

  /** Appending a separator and a separator-free text adds that text as one more piece. */
  lemma {:induction false} SplitAfterSep(a: string, b: string, sep: char)
    requires forall j | 0 <= j < |b| :: b[j] != sep
    ensures Split(a + [sep] + b, sep) == Split(a, sep) + [b]
  {
    var s := a + [sep] + b;
    if b == [] {
      assert s[..|s| - 1] == a;
    } else {
      var bf := b[..|b| - 1];
      assert s[..|s| - 1] == a + [sep] + bf;
      SplitAfterSep(a, bf, sep);
      assert bf + [b[|b| - 1]] == b;
    }
  }
}
