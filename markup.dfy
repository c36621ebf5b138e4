/**
  String assembly used by the generator: Python's `''.join` and `sep.join`,
  the `<ruby>` construct, and two reference definitions used to state what
  the output means: `Split`, the inverse of joining on one character, and
  `StripRuby`, which removes ruby markup and the reading it carries.
 */
module Markup {

  const RubyOpen := "<ruby>"
  const RubyClose := "</ruby>"
  const RtOpen := "<rt>"
  const RtClose := "</rt>"

  /** `''.join(parts)`. */
  function Concat(parts: seq<string>): string {
    if parts == [] then [] else parts[0] + Concat(parts[1..])
  }

  /** Joining two lists of parts is joining each and concatenating the results. */
  lemma {:induction false} ConcatAppend(a: seq<string>, b: seq<string>)
    ensures Concat(a + b) == Concat(a) + Concat(b)
  {
    if a != [] {
      assert (a + b)[1..] == a[1..] + b;
      ConcatAppend(a[1..], b);
    } else {
      assert a + b == b;
    }
  }

  /** A character occurs in a concatenation iff it occurs in one of the parts. */
  lemma {:induction false} ConcatAbsent(parts: seq<string>, c: char)
    ensures c !in Concat(parts) <==> forall i :: 0 <= i < |parts| ==> c !in parts[i]
  {
    if parts != [] {
      ConcatAbsent(parts[1..], c);
      assert Concat(parts) == parts[0] + Concat(parts[1..]);
      forall i | 0 < i < |parts|
        ensures parts[i] == parts[1..][i - 1]
      {
      }
    }
  }

  /** `sep.join(parts)`. */
  function Join(parts: seq<string>, sep: string): string {
    if |parts| == 0 then []
    else if |parts| == 1 then parts[0]
    else parts[0] + sep + Join(parts[1..], sep)
  }

  /** `s.split(sep)` for a one-character separator: always at least one piece. */
  function Split(s: string, sep: char): (pieces: seq<string>)
    ensures |pieces| > 0
  {
    if s == [] then [[]]
    else
      var rest := Split(s[1..], sep);
      if s[0] == sep then [[]] + rest else [[s[0]] + rest[0]] + rest[1..]
  }

  /** A string without the separator splits into itself. */
  lemma {:induction false} SplitNoSeparator(s: string, sep: char)
    requires sep !in s
    ensures Split(s, sep) == [s]
  {
    if s != [] {
      SplitNoSeparator(s[1..], sep);
      assert [s[0]] + s[1..] == s;
    }
  }

  /** Splitting `x + [sep] + y` cuts at the first separator when `x` has none. */
  lemma {:induction false} SplitAfterPiece(x: string, sep: char, y: string)
    requires sep !in x
    ensures Split(x + [sep] + y, sep) == [x] + Split(y, sep)
  {
    if x == [] {
      assert x + [sep] + y == [sep] + y;
      assert ([sep] + y)[1..] == y;
    } else {
      var s := x + [sep] + y;
      assert s[0] == x[0];
      assert s[1..] == x[1..] + [sep] + y;
      SplitAfterPiece(x[1..], sep, y);
      assert [x[0]] + x[1..] == x;
    }
  }

  /** Joining pieces free of the separator and splitting again gives the pieces back. */
  lemma {:induction false} SplitJoin(parts: seq<string>, sep: char)
    requires |parts| > 0
    requires forall i :: 0 <= i < |parts| ==> sep !in parts[i]
    ensures Split(Join(parts, [sep]), sep) == parts
  {
    if |parts| == 1 {
      SplitNoSeparator(parts[0], sep);
    } else {
      SplitJoin(parts[1..], sep);
      SplitAfterPiece(parts[0], sep, Join(parts[1..], [sep]));
      assert [parts[0]] + parts[1..] == parts;
    }
  }

  /** `f"<ruby>{base}<rt>{text}</rt></ruby>"`. */
  function RubyTag(base: string, text: string): string {
    RubyOpen + base + RtOpen + text + RtClose + RubyClose
  }

  predicate StartsWith(s: string, prefix: string) {
    |prefix| <= |s| && s[..|prefix|] == prefix
  }

  /** What follows the first `</rt>` of `s`; nothing if there is none. */
  function SkipReading(s: string): (r: string)
    ensures |r| < |s| || r == s == []
  {
    if s == [] then []
    else if s[0] != '<' then SkipReading(s[1..])
    else if StartsWith(s, RtClose) then s[|RtClose|..]
    else SkipReading(s[1..])
  }

  /**
    The text a reader sees once ruby glosses are dropped: `<ruby>` and
    `</ruby>` tags vanish, and `<rt>` vanishes together with everything up
    to and including the next `</rt>`.
   */
  function StripRuby(s: string): (r: string)
    ensures |r| <= |s|
    decreases |s|
  {
    if s == [] then []
    else if s[0] != '<' then [s[0]] + StripRuby(s[1..])
    else if StartsWith(s, RubyOpen) then StripRuby(s[|RubyOpen|..])
    else if StartsWith(s, RubyClose) then StripRuby(s[|RubyClose|..])
    else if StartsWith(s, RtOpen) then StripRuby(SkipReading(s[|RtOpen|..]))
    else [s[0]] + StripRuby(s[1..])
  }

  /** Text without '<' passes through `StripRuby` unchanged. */
  lemma {:induction false} StripRubyPlain(x: string, rest: string)
    requires '<' !in x
    ensures StripRuby(x + rest) == x + StripRuby(rest)
  {
    if x != [] {
      var s := x + rest;
      assert s[0] == x[0] != '<';
      assert s[1..] == x[1..] + rest;
      assert '<' !in x[1..];
      StripRubyPlain(x[1..], rest);
      assert StripRuby(s) == [x[0]] + StripRuby(x[1..] + rest);
      assert [x[0]] + (x[1..] + StripRuby(rest)) == x + StripRuby(rest);
    } else {
      assert x + rest == rest;
    }
  }

  /** A reading without '<' is skipped up to its closing `</rt>`. */
  lemma {:induction false} SkipReadingPlain(text: string, rest: string)
    requires '<' !in text
    ensures SkipReading(text + RtClose + rest) == rest
  {
    var s := text + RtClose + rest;
    if text == [] {
      assert s == RtClose + rest;
      assert s[..|RtClose|] == RtClose;
    } else {
      assert s[0] == text[0] != '<';
      assert s[1..] == text[1..] + RtClose + rest;
      SkipReadingPlain(text[1..], rest);
    }
  }

  /** An opening `<ruby>` tag is dropped. */
  lemma StripRubyOpen(rest: string)
    ensures StripRuby(RubyOpen + rest) == StripRuby(rest)
  {
    var s := RubyOpen + rest;
    assert s[..|RubyOpen|] == RubyOpen && s[|RubyOpen|..] == rest;
  }

  /** A closing `</ruby>` tag is dropped. */
  lemma StripRubyClose(rest: string)
    ensures StripRuby(RubyClose + rest) == StripRuby(rest)
  {
    var s := RubyClose + rest;
    // the second character '/' rules out the `<ruby>` branch of StripRuby
    assert s[..|RubyOpen|][1] == '/';
    assert s[..|RubyClose|] == RubyClose && s[|RubyClose|..] == rest;
  }

  /** A `<rt>` element is dropped together with its reading. */
  lemma StripRubyReading(text: string, rest: string)
    requires '<' !in text
    ensures StripRuby(RtOpen + text + RtClose + rest) == StripRuby(rest)
  {
    var s := RtOpen + (text + RtClose + rest);
    assert s == RtOpen + text + RtClose + rest;
    // 't' and 'r' rule out the `<ruby>` and `</ruby>` branches of StripRuby
    assert s[..|RubyOpen|][2] == 't';
    assert s[..|RubyClose|][1] == 'r';
    assert s[..|RtOpen|] == RtOpen && s[|RtOpen|..] == text + RtClose + rest;
    SkipReadingPlain(text, rest);
  }

  /** A ruby construct strips to its base text. */
  lemma StripRubyTag(base: string, text: string, rest: string)
    requires '<' !in base && '<' !in text
    ensures StripRuby(RubyTag(base, text) + rest) == base + StripRuby(rest)
  {
    var afterReading := RubyClose + rest;
    var afterBase := RtOpen + text + RtClose + afterReading;
    assert RubyTag(base, text) + rest == RubyOpen + (base + afterBase) by {
      assert RubyTag(base, text) == RubyOpen + base + RtOpen + text + RtClose + RubyClose;
    }
    StripRubyOpen(base + afterBase);
    StripRubyPlain(base, afterBase);
    StripRubyReading(text, afterReading);
    StripRubyClose(rest);
  }
}
