/** Stack frames, the wrap-site merge into a root stack trace, and frame rendering
    (stack.go). Program counters are abstracted to the frames they resolve to, so a
    stack is a sequence of StackFrame values ordered deepest call first. */
module Stacks {
  import opened Sequences

  /** One call site in human readable form. */
  datatype StackFrame = StackFrame(Name: string, File: string, Line: int)

  /** The zero value of StackFrame. */
  const ZeroFrame := StackFrame("", "", 0)

  // ---------------------------------------------------------------------------
  // Decimal rendering of a frame's line number (the `%v` verb on an int)

  function DigitChar(d: nat): char
    requires d < 10
  {
    ('0' as int + d) as char
  }

  predicate IsDigit(c: char) {
    '0' <= c <= '9'
  }

  predicate AllDigits(s: string) {
    forall i :: 0 <= i < |s| ==> IsDigit(s[i])
  }

  /** The decimal digits of `n`, most significant first, without leading zeros. */
  function NatDigits(n: nat): (s: string)
    ensures |s| > 0
  {
    if n < 10 then [DigitChar(n)] else NatDigits(n / 10) + [DigitChar(n % 10)]
  }

  /** Decimal text of an integer, with a leading '-' when negative. */
  function Decimal(n: int): (s: string)
    ensures |s| > 0
  {
    if n < 0 then "-" + NatDigits(-n) else NatDigits(n)
  }

  function ParseNat(s: string): nat
    requires AllDigits(s)
  {
    if |s| == 0 then 0 else ParseNat(s[..|s| - 1]) * 10 + (s[|s| - 1] as int - '0' as int)
  }

  function ParseDecimal(s: string): int
    requires |s| > 0
    requires (s[0] == '-' && AllDigits(s[1..])) || AllDigits(s)
  {
    if s[0] == '-' && AllDigits(s[1..]) then -(ParseNat(s[1..]) as int) else ParseNat(s)
  }

  /** The digits of `n` are decimal digits that read back as `n`. */
  lemma {:induction false} ParseNatDigits(n: nat)
    ensures AllDigits(NatDigits(n)) && ParseNat(NatDigits(n)) == n
  {
    if n >= 10 {
      ParseNatDigits(n / 10);
      var s := NatDigits(n);
      assert s[..|s| - 1] == NatDigits(n / 10);
    }
  }

  /** The decimal rendering of a line number loses nothing: parsing it gives the number back. */
  lemma DecimalRoundTrip(n: int)
    ensures (Decimal(n)[0] == '-' && AllDigits(Decimal(n)[1..])) || AllDigits(Decimal(n))
    ensures ParseDecimal(Decimal(n)) == n
  {
    if n < 0 {
      ParseNatDigits(-n);
      assert Decimal(n)[1..] == NatDigits(-n);
    } else {
      ParseNatDigits(n);
    }
  }

  // ---------------------------------------------------------------------------
  // StackFrame.format and Stack.format

  /** `<Name><sep><File><sep><Line>`. */
  function FormatFrame(f: StackFrame, sep: string): string
  {
    f.Name + sep + f.File + sep + Decimal(f.Line)
  }

  /** A rendered frame starts with the function name followed by the separator and
      ends with the line number, which can be read back from it. */
  lemma FormatFrameParts(f: StackFrame, sep: string)
    ensures |FormatFrame(f, sep)| == |f.Name| + |f.File| + 2 * |sep| + |Decimal(f.Line)|
    ensures FormatFrame(f, sep)[..|f.Name| + |sep|] == f.Name + sep
    ensures var r := FormatFrame(f, sep);
      r[|r| - |Decimal(f.Line)|..] == Decimal(f.Line)
    ensures var r := FormatFrame(f, sep);
      var tail := r[|r| - |Decimal(f.Line)|..];
      ((tail[0] == '-' && AllDigits(tail[1..])) || AllDigits(tail)) && ParseDecimal(tail) == f.Line
  {
    var r := FormatFrame(f, sep);
    assert r == (f.Name + sep) + (f.File + sep + Decimal(f.Line));
    assert r[|r| - |Decimal(f.Line)|..] == Decimal(f.Line);
    DecimalRoundTrip(f.Line);
  }

  /** Every frame of `s` rendered, in stored order. */
  function FrameTexts(s: seq<StackFrame>, sep: string): (r: seq<string>)
    ensures |r| == |s|
  {
    if |s| == 0 then [] else FrameTexts(s[..|s| - 1], sep) + [FormatFrame(s[|s| - 1], sep)]
  }

  lemma {:induction false} FrameTextsIndex(s: seq<StackFrame>, sep: string)
    ensures forall i :: 0 <= i < |s| ==> FrameTexts(s, sep)[i] == FormatFrame(s[i], sep)
  {
    if |s| > 0 {
      FrameTextsIndex(s[..|s| - 1], sep);
    }
  }

  /** What Stack.format returns: the rendered frames, each appended when `invert` is
      set and put in front of the previous ones otherwise. */
  function FormattedStack(s: seq<StackFrame>, sep: string, invert: bool): (r: seq<string>)
    ensures |r| == |s|
  {
    Stacked(FrameTexts(s, sep), invert)
  }

  /** Stack.format. */
  method FormatStack(s: seq<StackFrame>, sep: string, invert: bool) returns (str: seq<string>)
    ensures str == FormattedStack(s, sep, invert)
  {
    str := [];
    for i := 0 to |s|
      invariant str == Stacked(FrameTexts(s[..i], sep), invert)
    {
      assert s[..i + 1][..i] == s[..i];
      StackedSnoc(FrameTexts(s[..i], sep), FormatFrame(s[i], sep), invert);
      if invert {
        str := str + [FormatFrame(s[i], sep)];
      } else {
        str := [FormatFrame(s[i], sep)] + str;
      }
    }
    assert s[..|s|] == s;
  }

  /** With `invert` the rendered frames follow the stored order (deepest call
      first); without it they are in the opposite order. */
  lemma FormattedStackOrder(s: seq<StackFrame>, sep: string, invert: bool)
    ensures forall i :: 0 <= i < |s| ==>
      FormattedStack(s, sep, invert)[i] == FormatFrame(s[if invert then i else |s| - 1 - i], sep)
    ensures FormattedStack(s, sep, false) == Reverse(FormattedStack(s, sep, true))
  {
    FrameTextsIndex(s, sep);
    StackedOrder(FrameTexts(s, sep), true);
    StackedOrder(FrameTexts(s, sep), false);
  }

  // ---------------------------------------------------------------------------
  // insert and stack.insertPC

  /** `u` placed at index `at` of `s`, shifting the rest right. */
  function Insert<T>(s: seq<T>, u: T, at: nat): (r: seq<T>)
    requires at <= |s|
    ensures |r| == |s| + 1 && r[at] == u
    ensures r[..at] == s[..at] && r[at + 1..] == s[at..]
    ensures r[..at] + r[at + 1..] == s
  {
    s[..at] + [u] + s[at..]
  }

  /** The index of the first element of `s` equal to `a` or `b`, or |s| if none is. */
  function FirstHit<T(==)>(s: seq<T>, a: T, b: T): (k: nat)
    ensures k <= |s|
    ensures forall i :: 0 <= i < k ==> s[i] != a && s[i] != b
    ensures k < |s| ==> s[k] == a || s[k] == b
  {
    if |s| == 0 then 0
    else if s[0] == a || s[0] == b then 0
    else 1 + FirstHit(s[1..], a, b)
  }

  /** The root stack after merging a wrap-site capture `w` (site frame first,
      then its caller, ...): nothing for an empty capture, the site frame appended
      for a one-frame capture, and otherwise the site frame spliced in just before
      the caller frame when that caller is met before the site itself. */
  function InsertedPC<T(==)>(s: seq<T>, w: seq<T>): seq<T>
  {
    if |w| == 0 then s
    else if |w| == 1 then s + [w[0]]
    else
      var at := FirstHit(s, w[0], w[1]);
      if at < |s| && s[at] != w[0] then Insert(s, w[0], at) else s
  }

  /** stack.insertPC: the `for range` scan with its two early exits. */
  method InsertPC<T(==)>(s: seq<T>, wrapPCs: seq<T>) returns (r: seq<T>)
    ensures r == InsertedPC(s, wrapPCs)
  {
    r := s;
    if |wrapPCs| == 0 {
      return;
    } else if |wrapPCs| == 1 {
      r := s + [wrapPCs[0]];
      return;
    }
    var at := 0;
    while at < |s|
      invariant at <= |s|
      invariant forall i :: 0 <= i < at ==> s[i] != wrapPCs[0] && s[i] != wrapPCs[1]
      invariant r == s
    {
      if s[at] == wrapPCs[0] {
        break;
      } else if s[at] == wrapPCs[1] {
        r := Insert(s, wrapPCs[0], at);
        break;
      }
      at := at + 1;
    }
  }

  /** When the caller frame w[1] is met at index `at` before any occurrence of the
      site frame w[0], the site frame is spliced in right before it. */
  lemma InsertedPCSplices<T>(s: seq<T>, w: seq<T>, at: nat)
    requires |w| >= 2 && at < |s|
    requires s[at] == w[1] && s[at] != w[0]
    requires forall i :: 0 <= i < at ==> s[i] != w[0] && s[i] != w[1]
    ensures InsertedPC(s, w) == s[..at] + [w[0]] + s[at..]
    ensures InsertedPC(s, w)[at] == w[0] && InsertedPC(s, w)[at + 1] == w[1]
  {
  }

  /** When the site frame is met first, or the caller frame does not occur, the
      stack is left as it is. */
  lemma InsertedPCKeepsUnchanged<T>(s: seq<T>, w: seq<T>)
    requires |w| >= 2
    requires (forall i :: 0 <= i < |s| ==> s[i] != w[1]) ||
             (exists j :: 0 <= j < |s| && s[j] == w[0] && forall i :: 0 <= i < j ==> s[i] != w[1])
    ensures InsertedPC(s, w) == s
  {
  }

  /** Merging never loses or reorders frames and adds at most one. */
  lemma InsertedPCGrowth<T>(s: seq<T>, w: seq<T>)
    ensures |s| <= |InsertedPC(s, w)| <= |s| + 1
    ensures IsSubsequence(s, InsertedPC(s, w))
  {
    if |w| == 0 {
      SubsequenceReflexive(s);
    } else if |w| == 1 {
      SubsequenceOfInsertion(s, w[0], []);
      assert s + [] == s;
      assert s + [w[0]] + [] == s + [w[0]];
    } else {
      var at := FirstHit(s, w[0], w[1]);
      if at < |s| && s[at] != w[0] {
        SubsequenceOfInsertion(s[..at], w[0], s[at..]);
        assert s[..at] + s[at..] == s;
      } else {
        SubsequenceReflexive(s);
      }
    }
  }

  /** Merging the same capture twice equals merging it once, except for a one-frame
      capture, which is appended again on every merge. */
  lemma InsertedPCIdempotent<T>(s: seq<T>, w: seq<T>)
    ensures |w| != 1 ==> InsertedPC(InsertedPC(s, w), w) == InsertedPC(s, w)
    ensures |w| == 1 ==> |InsertedPC(InsertedPC(s, w), w)| == |InsertedPC(s, w)| + 1
  {
    if |w| >= 2 {
      var at := FirstHit(s, w[0], w[1]);
      if at < |s| && s[at] != w[0] {
        var r := Insert(s, w[0], at);
        assert FirstHit(r, w[0], w[1]) == at;
      }
    }
  }

  // ---------------------------------------------------------------------------
  // stack.isGlobal

  /** Lower-casing of one character: the ASCII capitals, and the two non-ASCII
      capitals whose lower case is an ASCII letter (capital I with dot above lowers
      to 'i', the Kelvin sign to 'k'). Other letters are kept as they are. */
  function LowerChar(c: char): char {
    if 'A' <= c <= 'Z' then (c as int - 'A' as int + 'a' as int) as char
    else if c == '\U{0130}' then 'i'
    else if c == '\U{212A}' then 'k'
    else c
  }

  function ToLower(s: string): (r: string)
    ensures |r| == |s|
    ensures forall i :: 0 <= i < |s| ==> r[i] == LowerChar(s[i])
  {
    if |s| == 0 then [] else [LowerChar(s[0])] + ToLower(s[1..])
  }

  /** The frame name that marks a stack captured during package initialisation. */
  const InitFrameName := "runtime.doinit"

  /** stack.isGlobal over the resolved frames: some frame is the package initialiser. */
  method IsGlobal(frames: seq<StackFrame>) returns (global: bool)
    ensures global <==> exists i :: 0 <= i < |frames| && ToLower(frames[i].Name) == InitFrameName
  {
    for i := 0 to |frames|
      invariant forall j :: 0 <= j < i ==> ToLower(frames[j].Name) != InitFrameName
    {
      if ToLower(frames[i].Name) == InitFrameName {
        return true;
      }
    }
    return false;
  }
}
