/** Unpacking a chain into a value snapshot and rendering that snapshot as a
    string or a JSON-shaped map (format.go). */
module Formats {
  import opened Sequences
  import opened Stacks
  import opened Errors

  /** Output format of the default formatter. */
  datatype Format = Format(
    WithTrace: bool,       // stack trace output enabled
    MsgStackSep: string,   // between an error message and its stack data
    PreStackSep: string,   // at the beginning of each stack frame
    StackElemSep: string,  // between the elements of each stack frame
    ErrorSep: string)      // between the errors of the chain

  /** The basic format: only an error separator without trace; newline-and-tab
      layout with ':' inside frames with trace. */
  function NewDefaultFormat(withTrace: bool): (f: Format)
    ensures f.WithTrace == withTrace
    ensures !withTrace ==>
      f.ErrorSep == ":" && f.MsgStackSep == "" && f.PreStackSep == "" && f.StackElemSep == ""
    ensures withTrace ==>
      f.MsgStackSep == "\n" && f.PreStackSep == "\t" && f.StackElemSep == ":" && f.ErrorSep == "\n"
  {
    var stringFmt := Format(withTrace, "", "", "", ":");
    if withTrace then
      stringFmt.(MsgStackSep := "\n", PreStackSep := "\t", StackElemSep := ":", ErrorSep := "\n")
    else stringFmt
  }

  /** The root of an unpacked chain: its message and its merged stack. */
  datatype ErrRoot = ErrRoot(Msg: string, Stack: seq<StackFrame>)

  /** One wrap layer of an unpacked chain: its message and its site frame. */
  datatype ErrLink = ErrLink(Msg: string, Frame: StackFrame)

  /** Complete information about an error, detached from the live chain. */
  datatype UnpackedError = UnpackedError(ErrRoot: ErrRoot, ErrChain: seq<ErrLink>, ExternalErr: string)

  const EmptyRoot := ErrRoot("", [])
  const EmptyUnpacked := UnpackedError(EmptyRoot, [], "")

  /** The link recorded for a wrap layer: its message and the head of its capture. */
  function LinkOf(msg: string, frames: seq<StackFrame>): ErrLink
  {
    ErrLink(msg, if |frames| > 0 then frames[0] else ZeroFrame)
  }

  // ---------------------------------------------------------------------------
  // Unpack

  /** What Unpack produces: nothing for nil, the message and stack of a root, the
      text of a foreign error, and for a wrap chain one link per layer (innermost
      first) over the terminal root, whose stack has every layer's capture merged
      in, innermost layer first. A foreign or nil cause under a wrap contributes
      nothing. */
  function Unpacked(e: Error): UnpackedError
    reads Roots(e)
  {
    match e
    case Nil => EmptyUnpacked
    case RootErr(r) => UnpackedError(ErrRoot(r.msg, r.stack), [], "")
    case External(f) => UnpackedError(EmptyRoot, [], f.text)
    case WrapErr(m, n, frames) =>
      var inner := if n.RootErr? || n.WrapErr? then Unpacked(n) else EmptyUnpacked;
      UnpackedError(
        ErrRoot(inner.ErrRoot.Msg, InsertedPC(inner.ErrRoot.Stack, frames)),
        inner.ErrChain + [LinkOf(m, frames)],
        "")
  }

  /** The root a chain ends in exists already, so a method that only changes
      fresh objects leaves the chain's rendering as it was. */
  lemma {:induction false} RootsAllocated(e: Error)
    ensures forall r :: r in Roots(e) ==> allocated(r)
  {
    match e
    case WrapErr(_, n, _) => RootsAllocated(n);
    case _ =>
  }

  /** The `upErr` value that Unpack fills through its pointer-receiver methods. */
  class Unpacking {
    var errRoot: ErrRoot
    var errChain: seq<ErrLink>
    var externalErr: string

    constructor ()
      ensures errRoot == EmptyRoot && errChain == [] && externalErr == ""
    {
      errRoot := EmptyRoot;
      errChain := [];
      externalErr := "";
    }

    function Value(): UnpackedError
      reads this
    {
      UnpackedError(errRoot, errChain, externalErr)
    }

    /** unpackRootErr: record the root's message and stack. */
    method UnpackRootErr(r: RootError)
      modifies this
      ensures errRoot == ErrRoot(r.msg, r.stack)
      ensures errChain == old(errChain) && externalErr == old(externalErr)
    {
      errRoot := ErrRoot(r.msg, r.stack);
    }

    /** unpackWrapErr: prepend this layer's link, unpack the cause, then merge this
        layer's capture into the root stack. */
    method UnpackWrapErr(e: Error)
      requires e.WrapErr?
      requires errRoot == EmptyRoot && externalErr == ""
      modifies this
      ensures errRoot == Unpacked(e).ErrRoot
      ensures errChain == Unpacked(e).ErrChain + old(errChain)
      ensures externalErr == ""
      decreases e
    {
      ghost var inner := if e.next.RootErr? || e.next.WrapErr? then Unpacked(e.next) else EmptyUnpacked;
      var link := LinkOf(e.msg, e.frames);
      errChain := [link] + errChain;
      AppendAssociative(inner.ErrChain, [link], old(errChain));
      match e.next {
        case RootErr(r) =>
          UnpackRootErr(r);
        case WrapErr(_, _, _) =>
          RootsAllocated(e.next);
          UnpackWrapErr(e.next);
        case _ =>
      }
      var merged := InsertPC(errRoot.Stack, e.frames);
      errRoot := errRoot.(Stack := merged);
    }
  }

  /** Unpack: build the snapshot of a chain. */
  method Unpack(e: Error) returns (u: UnpackedError)
    ensures u == Unpacked(e)
  {
    var upErr := new Unpacking();
    match e {
      case Nil =>
        return upErr.Value();
      case RootErr(r) =>
        upErr.UnpackRootErr(r);
      case WrapErr(_, _, _) =>
        upErr.UnpackWrapErr(e);
      case External(f) =>
        upErr.externalErr := f.text;
    }
    u := upErr.Value();
  }

  /** The links of a chain read outermost first, as repeated Unwrap meets them. */
  function Layers(e: Error): (ls: seq<ErrLink>)
    ensures |ls| == Depth(e)
  {
    match e
    case WrapErr(m, n, c) => [LinkOf(m, c)] + Layers(n)
    case _ => []
  }

  /** The root stack with every capture merged in, innermost (last) capture first. */
  function MergeAll(s: seq<StackFrame>, captures: seq<seq<StackFrame>>): seq<StackFrame>
  {
    if |captures| == 0 then s else InsertedPC(MergeAll(s, captures[1..]), captures[0])
  }

  /** Unpack lists one link per wrap layer, ordered from the first-applied wrap to
      the outermost one, each carrying its layer's message and site frame. */
  lemma {:induction false} UnpackedChainOrder(e: Error)
    ensures Unpacked(e).ErrChain == Reverse(Layers(e))
    ensures |Unpacked(e).ErrChain| == Depth(e)
  {
    match e
    case WrapErr(m, n, c) =>
      UnpackedChainOrder(n);
      assert ([LinkOf(m, c)] + Layers(n))[1..] == Layers(n);
    case _ =>
  }

  /** A chain ending in a root unpacks to that root's message, and its stack is the
      root's stack with every wrap capture merged in, innermost wrap first; no
      external text is recorded. */
  lemma {:induction false} UnpackedRoot(e: Error)
    requires Rooted(e)
    ensures Unpacked(e).ErrRoot.Msg == Terminal(e).root.msg
    ensures Unpacked(e).ErrRoot.Stack == MergeAll(Terminal(e).root.stack, Captures(e))
    ensures Unpacked(e).ExternalErr == ""
  {
    match e
    case WrapErr(m, n, c) =>
      UnpackedRoot(n);
      assert ([c] + Captures(n))[1..] == Captures(n);
    case RootErr(_) =>
  }

  /** Merging never drops or reorders the root's own frames, and each wrap layer adds
      at most one frame. */
  lemma {:induction false} UnpackedRootKeepsStack(e: Error)
    requires Rooted(e)
    ensures IsSubsequence(Terminal(e).root.stack, Unpacked(e).ErrRoot.Stack)
    ensures |Unpacked(e).ErrRoot.Stack| <= |Terminal(e).root.stack| + Depth(e)
  {
    match e
    case WrapErr(m, n, c) =>
      UnpackedRootKeepsStack(n);
      var inner := Unpacked(n).ErrRoot.Stack;
      InsertedPCGrowth(inner, c);
      SubsequenceTransitive(Terminal(e).root.stack, inner, InsertedPC(inner, c));
    case RootErr(r) =>
      SubsequenceReflexive(r.stack);
  }

  /** Unpacking nil gives the empty value; unpacking a foreign error records only
      its text. */
  lemma UnpackedNilOrForeign(f: ForeignError)
    ensures Unpacked(Nil) == UnpackedError(ErrRoot("", []), [], "")
    ensures Unpacked(External(f)) == UnpackedError(ErrRoot("", []), [], f.text)
  {
  }

  /** Each layer's link carries that layer's message and the head of its capture,
      or the zero frame when the capture is empty. */
  lemma {:induction false} LayersOfChain(e: Error)
    ensures forall i :: 0 <= i < Depth(e) ==>
      && Layers(e)[i].Msg == LayerMessages(e)[i]
      && Layers(e)[i].Frame == (if |Captures(e)[i]| > 0 then Captures(e)[i][0] else ZeroFrame)
  {
    match e
    case WrapErr(m, n, c) =>
      LayersOfChain(n);
      assert Layers(e) == [LinkOf(m, c)] + Layers(n);
      assert LayerMessages(e) == [m] + LayerMessages(n);
      assert Captures(e) == [c] + Captures(n);
    case _ =>
  }

  // ---------------------------------------------------------------------------
  // String rendering

  /** ToCustomString and ToCustomJSON replace the error separator by ": " when the
      trace is off. */
  function Effective(format: Format): Format
  {
    if format.WithTrace then format else format.(ErrorSep := ": ")
  }

  /** The rendered frames, each preceded by `pre`, with `sep` between consecutive
      ones and none after the last. */
  function Joined(xs: seq<string>, pre: string, sep: string): string
  {
    if |xs| == 0 then ""
    else if |xs| == 1 then pre + xs[0]
    else Joined(xs[..|xs| - 1], pre, sep) + sep + pre + xs[|xs| - 1]
  }

  /** The joined frames start with `pre` and the first frame and end with the last
      frame: no separator trails. */
  lemma {:induction false} JoinedEnds(xs: seq<string>, pre: string, sep: string)
    requires |xs| > 0
    ensures var j := Joined(xs, pre, sep);
      && |pre| + |xs[0]| <= |j| && j[..|pre| + |xs[0]|] == pre + xs[0]
      && |xs[|xs| - 1]| <= |j| && j[|j| - |xs[|xs| - 1]|..] == xs[|xs| - 1]
  {
    if |xs| > 1 {
      var init := xs[..|xs| - 1];
      JoinedEnds(init, pre, sep);
      var prev := Joined(init, pre, sep);
      var last := xs[|xs| - 1];
      assert init[0] == xs[0];
      assert Joined(xs, pre, sep) == prev + (sep + pre + last);
      assert (prev + (sep + pre + last))[..|pre| + |xs[0]|] == prev[..|pre| + |xs[0]|];
    }
  }

  /** ErrRoot.formatStr as a value: message, message/stack separator, and with trace
      the root frames (see Joined). */
  function RootStr(root: ErrRoot, f: Format, invert: bool): string
  {
    root.Msg + f.MsgStackSep +
    (if f.WithTrace then Joined(FormattedStack(root.Stack, f.StackElemSep, invert), f.PreStackSep, f.ErrorSep) else "")
  }

  /** The text of ErrRoot.formatStr after `n` rounds of its frame loop, starting
      from `start`: each frame preceded by `pre`, followed by `sep` unless it is the
      last. */
  function Emitted(start: string, xs: seq<string>, n: nat, pre: string, sep: string): string
    requires n <= |xs|
  {
    if n == 0 then start
    else Emitted(start, xs, n - 1, pre, sep) + pre + xs[n - 1] + (if n < |xs| then sep else "")
  }

  /** After every round, the loop has written the frames so far, joined, plus the
      separator that announces the next frame; at the end, exactly Joined. */
  lemma {:induction false} EmittedJoined(start: string, xs: seq<string>, n: nat, pre: string, sep: string)
    requires n <= |xs|
    ensures Emitted(start, xs, n, pre, sep) == start + Joined(xs[..n], pre, sep) + (if 0 < n < |xs| then sep else "")
  {
    if n > 0 {
      EmittedJoined(start, xs, n - 1, pre, sep);
      var prev := Emitted(start, xs, n - 1, pre, sep);
      var x := xs[n - 1];
      if n == 1 {
        assert prev == start + "" + "" == start;
        assert Joined(xs[..1], pre, sep) == pre + x;
        AppendAssociative(start, pre, x);
      } else {
        assert xs[..n][..n - 1] == xs[..n - 1];
        var j := Joined(xs[..n - 1], pre, sep);
        assert prev == start + j + sep;
        assert Joined(xs[..n], pre, sep) == j + sep + pre + x;
        AppendAssociative(start, j + sep + pre, x);
        AppendAssociative(start, j + sep, pre);
        AppendAssociative(start, j, sep);
      }
    }
  }

  /** ErrRoot.formatStr: the loop that emits each frame and a separator after every
      frame but the last. */
  method FormatRootStr(root: ErrRoot, f: Format, invert: bool) returns (str: string)
    ensures str == RootStr(root, f, invert)
  {
    str := root.Msg;
    str := str + f.MsgStackSep;
    if f.WithTrace {
      var stackArr := FormatStack(root.Stack, f.StackElemSep, invert);
      ghost var start := str;
      for i := 0 to |stackArr|
        invariant str == Emitted(start, stackArr, i, f.PreStackSep, f.ErrorSep)
      {
        str := str + f.PreStackSep;
        str := str + stackArr[i];
        if i < |stackArr| - 1 {
          str := str + f.ErrorSep;
        }
      }
      EmittedJoined(start, stackArr, |stackArr|, f.PreStackSep, f.ErrorSep);
      assert stackArr[..|stackArr|] == stackArr;
    }
  }

  /** ErrLink.formatStr: message, message/stack separator, and with trace the site frame. */
  function LinkStr(link: ErrLink, f: Format): string
  {
    link.Msg + f.MsgStackSep +
    (if f.WithTrace then f.PreStackSep + FormatFrame(link.Frame, f.StackElemSep) else "")
  }

  /** The text of ToCustomString after its link loop has run over `links`, starting
      from `start`: per link, the error separator when the trace is off, the link's
      own text, then the message/stack separator. */
  function LinksText(start: string, links: seq<ErrLink>, f: Format): string
  {
    if |links| == 0 then start
    else
      var prev := LinksText(start, links[..|links| - 1], f);
      (if f.WithTrace then prev else prev + f.ErrorSep) + LinkStr(links[|links| - 1], f) + f.MsgStackSep
  }

  /** The root segment of ToCustomString: empty for a root without message and
      stack, and otherwise the root's text, followed with trace by the error
      separator when links follow. */
  function RootSegment(root: ErrRoot, hasLinks: bool, f: Format, invert: bool): string
  {
    if root.Msg == "" && |root.Stack| == 0 then ""
    else if f.WithTrace && hasLinks then RootStr(root, f, invert) + f.ErrorSep
    else RootStr(root, f, invert)
  }

  /** What ToCustomString returns for an unpacked error: the root segment, the
      links, then the external text. */
  function RenderedString(u: UnpackedError, format: Format, invert: bool): string
  {
    var f := Effective(format);
    var body := LinksText(RootSegment(u.ErrRoot, |u.ErrChain| > 0, f, invert), u.ErrChain, f);
    if u.ExternalErr != "" then body + u.ExternalErr else body
  }

  /** The link loop of ToCustomString: per link, the error separator when the trace
      is off, the link's text and the message/stack separator, appended to `start`. */
  method FormatLinks(start: string, links: seq<ErrLink>, f: Format) returns (str: string)
    ensures str == LinksText(start, links, f)
  {
    str := start;
    for i := 0 to |links|
      invariant str == LinksText(start, links[..i], f)
    {
      assert links[..i + 1][..i] == links[..i];
      if !f.WithTrace {
        str := str + f.ErrorSep;
      }
      str := str + LinkStr(links[i], f);
      str := str + f.MsgStackSep;
    }
    assert links[..|links|] == links;
  }

  /** The body of ToCustomString after Unpack: the root segment, the links and the
      external text of an unpacked error. */
  method FormatUnpackedStr(upErr: UnpackedError, format: Format, invert: bool) returns (str: string)
    ensures str == RenderedString(upErr, format, invert)
  {
    var f := Effective(format);
    str := "";
    if upErr.ErrRoot.Msg != "" || |upErr.ErrRoot.Stack| > 0 {
      str := FormatRootStr(upErr.ErrRoot, f, invert);
      if f.WithTrace && |upErr.ErrChain| > 0 {
        str := str + f.ErrorSep;
      }
    }
    str := FormatLinks(str, upErr.ErrChain, f);
    if upErr.ExternalErr != "" {
      str := str + upErr.ExternalErr;
    }
  }

  /** ToCustomString: unpack the chain, then render the snapshot. */
  method ToCustomString(e: Error, format: Format, invert: bool) returns (str: string)
    ensures str == RenderedString(Unpacked(e), format, invert)
  {
    RootsAllocated(e);
    var upErr := Unpack(e);
    str := FormatUnpackedStr(upErr, format, invert);
  }

  /** ToString: ToCustomString under the default format. */
  method ToString(e: Error, withTrace: bool, invert: bool) returns (str: string)
    ensures str == RenderedString(Unpacked(e), NewDefaultFormat(withTrace), invert)
  {
    str := ToCustomString(e, NewDefaultFormat(withTrace), invert);
  }

  /** The messages of the links, in order. */
  function Messages(links: seq<ErrLink>): (ms: seq<string>)
    ensures |ms| == |links|
    ensures forall i :: 0 <= i < |links| ==> ms[i] == links[i].Msg
  {
    if |links| == 0 then [] else [links[0].Msg] + Messages(links[1..])
  }

  /** Each message preceded by ": ". */
  function ContextText(ms: seq<string>): string
  {
    if |ms| == 0 then "" else ": " + ms[0] + ContextText(ms[1..])
  }

  lemma {:induction false} ContextTextSnoc(ms: seq<string>, m: string)
    ensures ContextText(ms + [m]) == ContextText(ms) + ": " + m
  {
    if |ms| > 0 {
      assert (ms + [m])[1..] == ms[1..] + [m];
      ContextTextSnoc(ms[1..], m);
    }
  }

  lemma MessagesSnoc(links: seq<ErrLink>, link: ErrLink)
    ensures Messages(links + [link]) == Messages(links) + [link.Msg]
  {
    assert |Messages(links + [link])| == |Messages(links) + [link.Msg]|;
  }

  /** Without trace, one more link adds ": " and its message. */
  lemma LinksTextStep(start: string, links: seq<ErrLink>, f: Format)
    requires !f.WithTrace && f.MsgStackSep == "" && f.ErrorSep == ": " && |links| > 0
    ensures LinksText(start, links, f) == LinksText(start, links[..|links| - 1], f) + ": " + links[|links| - 1].Msg
  {
    var m := links[|links| - 1].Msg;
    assert LinkStr(links[|links| - 1], f) == m + "" + "" == m;
  }

  lemma {:induction false} LinksTextWithoutTrace(start: string, links: seq<ErrLink>, f: Format)
    requires !f.WithTrace && f.MsgStackSep == "" && f.ErrorSep == ": "
    ensures LinksText(start, links, f) == start + ContextText(Messages(links))
  {
    if |links| > 0 {
      var n := |links| - 1;
      var init := links[..n];
      var m := links[n].Msg;
      var ms := Messages(init);
      LinksTextStep(start, links, f);
      LinksTextWithoutTrace(start, init, f);
      assert links == init + [links[n]];
      MessagesSnoc(init, links[n]);
      ContextTextSnoc(ms, m);
      calc {
        LinksText(start, links, f);
        LinksText(start, init, f) + ": " + m;
        start + ContextText(ms) + ": " + m;
        { AppendAssociative(start, ContextText(ms), ": ");
          AppendAssociative(start, ContextText(ms) + ": ", m); }
        start + (ContextText(ms) + ": " + m);
        start + ContextText(ms + [m]);
        start + ContextText(Messages(links));
      }
    }
  }

  /** With the default trace format, each link adds its message, a newline and a
      tab, its site frame as `name:file:line`, and the newline the loop appends
      after the link. */
  lemma LinksTextWithTrace(start: string, links: seq<ErrLink>, link: ErrLink)
    ensures var f := Effective(NewDefaultFormat(true));
      LinksText(start, links + [link], f) ==
        LinksText(start, links, f) + link.Msg + "\n\t" +
        link.Frame.Name + ":" + link.Frame.File + ":" + Decimal(link.Frame.Line) + "\n"
  {
    var f := Effective(NewDefaultFormat(true));
    var fr := link.Frame;
    var m := link.Msg;
    assert (links + [link])[..|links|] == links;
    var prev := LinksText(start, links, f);
    var frame := fr.Name + ":" + fr.File + ":" + Decimal(fr.Line);
    var x := prev + m + "\n\t";
    assert FormatFrame(fr, ":") == frame;
    assert LinkStr(link, f) == m + "\n" + ("\t" + frame + "");
    calc {
      LinksText(start, links + [link], f);
      prev + (m + "\n" + ("\t" + frame + "")) + "\n";
      { assert m + "\n" + ("\t" + frame + "") == m + "\n\t" + frame; }
      prev + (m + "\n\t" + frame) + "\n";
      { AppendAssociative(prev, m + "\n\t", frame);
        AppendAssociative(prev, m, "\n\t"); }
      x + frame + "\n";
      { AppendAssociative(x, fr.Name + ":" + fr.File + ":", Decimal(fr.Line));
        AppendAssociative(x, fr.Name + ":" + fr.File, ":");
        AppendAssociative(x, fr.Name + ":", fr.File);
        AppendAssociative(x, fr.Name, ":"); }
      x + fr.Name + ":" + fr.File + ":" + Decimal(fr.Line) + "\n";
    }
  }

  /** Without trace (and without a message/stack separator, as in the default
      format) the rendering is the root message, then ": " and each link's message
      in chain order, then the external text; the stack order is irrelevant. */
  lemma RenderedStringWithoutTrace(u: UnpackedError, format: Format, invert: bool)
    requires !format.WithTrace && format.MsgStackSep == ""
    ensures RenderedString(u, format, invert) == u.ErrRoot.Msg + ContextText(Messages(u.ErrChain)) + u.ExternalErr
    ensures RenderedString(u, format, invert) == RenderedString(u, format, !invert)
  {
    var f := Effective(format);
    var head := RootSegment(u.ErrRoot, |u.ErrChain| > 0, f, invert);
    assert head == u.ErrRoot.Msg;
    LinksTextWithoutTrace(head, u.ErrChain, f);
  }

  // ---------------------------------------------------------------------------
  // JSON rendering

  /** A JSON-shaped value. */
  datatype Json = JString(str: string) | JArray(items: seq<Json>) | JObject(fields: map<string, Json>)

  function StringItems(xs: seq<string>): (r: seq<Json>)
    ensures |r| == |xs| && forall i :: 0 <= i < |xs| ==> r[i] == JString(xs[i])
  {
    if |xs| == 0 then [] else [JString(xs[0])] + StringItems(xs[1..])
  }

  /** ErrRoot.formatJSON: the message, and with trace the rendered frames. */
  function RootJSON(root: ErrRoot, f: Format, invert: bool): (m: map<string, Json>)
    ensures "message" in m && m["message"] == JString(root.Msg)
    ensures "stack" in m <==> f.WithTrace
    ensures m.Keys <= {"message", "stack"}
  {
    var rootMap := map["message" := JString(root.Msg)];
    if f.WithTrace then
      rootMap["stack" := JArray(StringItems(FormattedStack(root.Stack, f.StackElemSep, invert)))]
    else rootMap
  }

  /** ErrLink.formatJSON: the message, and with trace the site frame. */
  function LinkJSON(link: ErrLink, f: Format): (m: map<string, Json>)
    ensures "message" in m && m["message"] == JString(link.Msg)
    ensures "stack" in m <==> f.WithTrace
    ensures f.WithTrace ==> m["stack"] == JString(FormatFrame(link.Frame, f.StackElemSep))
    ensures m.Keys <= {"message", "stack"}
  {
    var wrapMap := map["message" := JString(link.Msg)];
    if f.WithTrace then wrapMap["stack" := JString(FormatFrame(link.Frame, f.StackElemSep))] else wrapMap
  }

  /** The "wrap" array: one object per link, in chain order. */
  function WrapItems(links: seq<ErrLink>, f: Format): (r: seq<Json>)
    ensures |r| == |links|
  {
    if |links| == 0 then []
    else WrapItems(links[..|links| - 1], f) + [JObject(LinkJSON(links[|links| - 1], f))]
  }

  lemma {:induction false} WrapItemsIndex(links: seq<ErrLink>, f: Format)
    ensures forall i :: 0 <= i < |links| ==> WrapItems(links, f)[i] == JObject(LinkJSON(links[i], f))
  {
    if |links| > 0 {
      WrapItemsIndex(links[..|links| - 1], f);
    }
  }

  /** What ToCustomJSON returns for an unpacked error. */
  function RenderedJSON(u: UnpackedError, format: Format, invert: bool): map<string, Json>
  {
    var f := Effective(format);
    var m0: map<string, Json> :=
      if u.ErrRoot.Msg != "" || |u.ErrRoot.Stack| > 0 then map["root" := JObject(RootJSON(u.ErrRoot, f, invert))]
      else map[];
    var m1 := if |u.ErrChain| > 0 then m0["wrap" := JArray(WrapItems(u.ErrChain, f))] else m0;
    if u.ExternalErr != "" then m1["external" := JString(u.ExternalErr)] else m1
  }

  /** The JSON map has a "root" entry exactly when the root has a message or a
      stack, a "wrap" array with one object per link, in chain order, exactly when
      there are links, and an "external" entry exactly when there is external text;
      nothing else. */
  lemma RenderedJSONShape(u: UnpackedError, format: Format, invert: bool)
    ensures var m := RenderedJSON(u, format, invert);
      && ("root" in m <==> u.ErrRoot.Msg != "" || |u.ErrRoot.Stack| > 0)
      && ("root" in m ==> m["root"] == JObject(RootJSON(u.ErrRoot, Effective(format), invert)))
      && ("wrap" in m <==> |u.ErrChain| > 0)
      && ("wrap" in m ==>
        && m["wrap"].JArray?
        && |m["wrap"].items| == |u.ErrChain|
        && forall i :: 0 <= i < |u.ErrChain| ==> m["wrap"].items[i] == JObject(LinkJSON(u.ErrChain[i], Effective(format))))
      && ("external" in m <==> u.ExternalErr != "")
      && ("external" in m ==> m["external"] == JString(u.ExternalErr))
      && m.Keys <= {"root", "wrap", "external"}
  {
    WrapItemsIndex(u.ErrChain, Effective(format));
  }

  /** The body of ToCustomJSON after Unpack: the root entry, the wrap array built
      link by link, and the external entry. */
  method FormatUnpackedJSON(upErr: UnpackedError, format: Format, invert: bool) returns (jsonMap: map<string, Json>)
    ensures jsonMap == RenderedJSON(upErr, format, invert)
  {
    var f := Effective(format);
    jsonMap := map[];
    if upErr.ErrRoot.Msg != "" || |upErr.ErrRoot.Stack| > 0 {
      jsonMap := jsonMap["root" := JObject(RootJSON(upErr.ErrRoot, f, invert))];
    }
    if |upErr.ErrChain| > 0 {
      var wrapArr: seq<Json> := [];
      for i := 0 to |upErr.ErrChain|
        invariant wrapArr == WrapItems(upErr.ErrChain[..i], f)
      {
        assert upErr.ErrChain[..i + 1][..i] == upErr.ErrChain[..i];
        var wrapMap := LinkJSON(upErr.ErrChain[i], f);
        wrapArr := wrapArr + [JObject(wrapMap)];
      }
      assert upErr.ErrChain[..|upErr.ErrChain|] == upErr.ErrChain;
      jsonMap := jsonMap["wrap" := JArray(wrapArr)];
    }
    if upErr.ExternalErr != "" {
      jsonMap := jsonMap["external" := JString(upErr.ExternalErr)];
    }
  }

  /** ToCustomJSON: unpack the chain, then render the snapshot as a map. */
  method ToCustomJSON(e: Error, format: Format, invert: bool) returns (jsonMap: map<string, Json>)
    ensures jsonMap == RenderedJSON(Unpacked(e), format, invert)
  {
    RootsAllocated(e);
    var upErr := Unpack(e);
    jsonMap := FormatUnpackedJSON(upErr, format, invert);
  }

  /** ToJSON: ToCustomJSON under the default format. */
  method ToJSON(e: Error, withTrace: bool, invert: bool) returns (jsonMap: map<string, Json>)
    ensures jsonMap == RenderedJSON(Unpacked(e), NewDefaultFormat(withTrace), invert)
  {
    jsonMap := ToCustomJSON(e, NewDefaultFormat(withTrace), invert);
  }
}
