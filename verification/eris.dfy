/** Building chains (New, Wrap), walking them (Cause, Is) and the default error
    text (eris.go). Stack captures are parameters: `callers` stands for the stack
    the runtime would record for a root, `site` for the frames recorded at a wrap
    site, the site frame first. */
module Eris {
  import opened Sequences
  import opened Stacks
  import opened Errors
  import opened Formats

  // ---------------------------------------------------------------------------
  // Error(): the default rendering without trace

  /** What Error() returns for any node of the library: `%v` formatting, which is
      ToCustomString under the default format without trace. */
  function ErrorText(e: Error): string
    reads Roots(e)
  {
    RenderedString(Unpacked(e), NewDefaultFormat(false), true)
  }

  /** printError: `%+v` turns the trace on, every other verb and flag leaves it off. */
  method FormatError(err: Error, verb: char, plus: bool, invert: bool) returns (str: string)
    ensures str == RenderedString(Unpacked(err), NewDefaultFormat(verb == 'v' && plus), invert)
  {
    var withTrace := false;
    if verb == 'v' && plus {
      withTrace := true;
    }
    var format := NewDefaultFormat(withTrace);
    str := ToCustomString(err, format, invert);
  }

  /** rootError.Error and wrapError.Error: `fmt.Sprint(e)`, i.e. the `%v` verb. */
  method ErrorString(err: Error) returns (s: string)
    ensures s == ErrorText(err)
  {
    s := FormatError(err, 'v', false, true);
  }

  /** The text of a root is its message. */
  lemma ErrorTextOfRoot(r: RootError)
    ensures ErrorText(RootErr(r)) == r.msg
  {
    RenderedStringWithoutTrace(Unpacked(RootErr(r)), NewDefaultFormat(false), true);
  }

  /** The text of a foreign error, seen through this library, is its own text. */
  lemma ErrorTextOfForeign(f: ForeignError)
    ensures ErrorText(External(f)) == f.text
  {
    RenderedStringWithoutTrace(Unpacked(External(f)), NewDefaultFormat(false), true);
  }

  /** Wrapping a root or a wrap node appends ": " and the new message to its text:
      the text reads root first, outermost context last. */
  lemma ErrorTextOfWrap(m: string, n: Error, c: seq<StackFrame>)
    requires n.RootErr? || n.WrapErr?
    ensures ErrorText(WrapErr(m, n, c)) == ErrorText(n) + ": " + m
  {
    var d := NewDefaultFormat(false);
    var u := Unpacked(n);
    var w := Unpacked(WrapErr(m, n, c));
    assert u.ExternalErr == "";
    assert w.ErrChain == u.ErrChain + [LinkOf(m, c)];
    RenderedStringWithoutTrace(u, d, true);
    RenderedStringWithoutTrace(w, d, true);
    MessagesSnoc(u.ErrChain, LinkOf(m, c));
    ContextTextSnoc(Messages(u.ErrChain), m);
    var ct := ContextText(Messages(u.ErrChain));
    assert ErrorText(n) == u.ErrRoot.Msg + ct;
    assert ErrorText(WrapErr(m, n, c)) == u.ErrRoot.Msg + (ct + ": " + m);
    AppendAssociative(u.ErrRoot.Msg, ct + ": ", m);
    AppendAssociative(u.ErrRoot.Msg, ct, ": ");
  }

  /** Wrapping a foreign error reads as its text followed by ": " and the new
      message, since the root that replaces it carries that text. */
  lemma ErrorTextOfWrappedForeign(m: string, f: ForeignError, r: RootError, c: seq<StackFrame>)
    requires r.msg == f.text
    ensures ErrorText(WrapErr(m, RootErr(r), c)) == ErrorText(External(f)) + ": " + m
  {
    ErrorTextOfRoot(r);
    ErrorTextOfForeign(f);
    ErrorTextOfWrap(m, RootErr(r), c);
  }

  /** The text of a chain that ends in a root: the root message, then each wrap
      message preceded by ": ", from the first wrap applied to the last. */
  lemma {:induction false} ErrorTextRootFirst(e: Error)
    requires Rooted(e)
    ensures ErrorText(e) == Terminal(e).root.msg + ContextText(Reverse(LayerMessages(e)))
  {
    match e
    case RootErr(r) =>
      ErrorTextOfRoot(r);
    case WrapErr(m, n, c) =>
      ErrorTextRootFirst(n);
      ErrorTextOfWrap(m, n, c);
      var ms := LayerMessages(n);
      assert ([m] + ms)[1..] == ms;
      assert Reverse(LayerMessages(e)) == Reverse(ms) + [m];
      ContextTextSnoc(Reverse(ms), m);
      AppendAssociative(Terminal(n).root.msg, ContextText(Reverse(ms)) + ": ", m);
      AppendAssociative(Terminal(n).root.msg, ContextText(Reverse(ms)), ": ");
  }

  // ---------------------------------------------------------------------------
  // New, Errorf, Wrap, Wrapf

  /** New: a fresh root error with the given message and the captured stack. */
  method New(msg: string, callers: seq<StackFrame>) returns (err: Error)
    ensures err.RootErr? && fresh(err.root)
    ensures err.root.msg == msg && err.root.stack == callers
  {
    var r := new RootError(msg, callers);
    err := RootErr(r);
  }

  /** Errorf: New with a message already formatted by the caller. */
  method Errorf(formatted: string, callers: seq<StackFrame>) returns (err: Error)
    ensures err.RootErr? && fresh(err.root)
    ensures err.root.msg == formatted && err.root.stack == callers
  {
    err := New(formatted, callers);
  }

  /** wrap: nil stays nil; a root gets its stack reset in place to the current
      callers; a foreign error is first replaced by a fresh root carrying its text;
      the result is a new wrap node over that cause. */
  method Wrap(err: Error, msg: string, callers: seq<StackFrame>, site: seq<StackFrame>) returns (w: Error)
    modifies if err.RootErr? then {err.root} else {}
    ensures err == Nil <==> w == Nil
    ensures err != Nil ==> w.WrapErr? && w.msg == msg && w.frames == site
    ensures err != Nil ==> w.next.RootErr? || w.next.WrapErr?
    ensures err.RootErr? || err.WrapErr? ==> Unwrap(w) == err
    ensures err.RootErr? ==> err.root.stack == callers
    ensures err.External? ==>
      && w.next.RootErr? && fresh(w.next.root)
      && w.next.root.msg == err.foreign.text && w.next.root.stack == callers
    ensures err.RootErr? || err.WrapErr? ==> Depth(w) == Depth(err) + 1
    ensures err.External? ==> Depth(w) == 1
    ensures WellFormed(err) ==> WellFormed(w)
    ensures Rooted(err) || err.External? ==> Rooted(w)
    ensures Rooted(err) ==> Terminal(w) == Terminal(err)
  {
    if err == Nil {
      return Nil;
    }
    var cause := err;
    if err.RootErr? {
      err.root.stack := callers;
    } else if !err.WrapErr? {
      var r := new RootError(err.foreign.text, callers);
      cause := RootErr(r);
    }
    w := WrapErr(msg, cause, site);
  }

  /** Wrapf: Wrap with a message already formatted by the caller. */
  method Wrapf(err: Error, formatted: string, callers: seq<StackFrame>, site: seq<StackFrame>) returns (w: Error)
    modifies if err.RootErr? then {err.root} else {}
    ensures err == Nil <==> w == Nil
    ensures err != Nil ==> w.WrapErr? && w.msg == formatted && w.frames == site
    ensures err != Nil ==> w.next.RootErr? || w.next.WrapErr?
    ensures err.RootErr? || err.WrapErr? ==> Unwrap(w) == err
    ensures err.RootErr? ==> err.root.stack == callers
    ensures err.External? ==>
      && w.next.RootErr? && fresh(w.next.root)
      && w.next.root.msg == err.foreign.text && w.next.root.stack == callers
    ensures err.RootErr? || err.WrapErr? ==> Depth(w) == Depth(err) + 1
    ensures err.External? ==> Depth(w) == 1
    ensures WellFormed(err) ==> WellFormed(w)
    ensures Rooted(err) || err.External? ==> Rooted(w)
    ensures Rooted(err) ==> Terminal(w) == Terminal(err)
  {
    w := Wrap(err, formatted, callers, site);
  }

  // ---------------------------------------------------------------------------
  // Cause

  /** Cause: Unwrap until there is nothing left to unwrap. */
  method Cause(err: Error) returns (c: Error)
    ensures c == Terminal(err)
  {
    c := err;
    while true
      invariant Terminal(c) == Terminal(err)
      decreases c
    {
      var u := Unwrap(c);
      if u == Nil {
        return;
      }
      c := u;
    }
  }

  /** Wrapping does not change the cause of a chain, and the cause of a chain that
      ends in a root is that root object itself. */
  lemma {:induction false} CauseOfWraps(e: Error)
    requires Rooted(e)
    ensures Terminal(e) == RootErr(Terminal(e).root)
    ensures Terminal(e).root in Roots(e)
    ensures forall m, c :: Terminal(WrapErr(m, e, c)) == Terminal(e)
  {
    match e
    case RootErr(_) =>
    case WrapErr(_, n, _) =>
      CauseOfWraps(n);
  }

  // ---------------------------------------------------------------------------
  // Is

  /** rootError.Is: a root target matches by message, any other target by its text. */
  function RootIs(r: RootError, target: Error): bool
    reads Roots(target)
  {
    if target.RootErr? then r.msg == target.root.msg else r.msg == ErrorText(target)
  }

  /** wrapError.Is: a wrap target matches by message, any other target by its text. */
  function WrapIs(msg: string, target: Error): bool
    reads Roots(target)
  {
    if target.WrapErr? then msg == target.msg else msg == ErrorText(target)
  }

  /** rootError.Is compares the root's message with the target's Error() text,
      whatever kind of error the target is: for a root target, comparing the
      messages is the same as comparing with its text. */
  lemma RootIsByText(r: RootError, target: Error)
    ensures RootIs(r, target) <==> r.msg == ErrorText(target)
  {
    if target.RootErr? {
      ErrorTextOfRoot(target.root);
    }
  }

  /** wrapError.Is compares the wrap's message with the message of a wrap target,
      so what the target wraps is irrelevant, and with the Error() text of any
      other target, which for a root target is its message. */
  lemma WrapIsByText(m: string, target: Error)
    ensures target.WrapErr? ==> forall n: Error, c: seq<StackFrame> ::
      WrapIs(m, target) == WrapIs(m, WrapErr(target.msg, n, c))
    ensures !target.WrapErr? ==> (WrapIs(m, target) <==> m == ErrorText(target))
    ensures target.RootErr? ==> (WrapIs(m, target) <==> m == target.root.msg)
  {
    if target.RootErr? {
      ErrorTextOfRoot(target.root);
    }
  }

  /** One round of Is: the node is the target, or its own Is method accepts it. */
  function Matches(e: Error, target: Error): bool
    reads Roots(target)
  {
    e == target ||
    match e
    case RootErr(r) => RootIs(r, target)
    case WrapErr(m, _, _) => WrapIs(m, target)
    case _ => false
  }

  /** Some element of the chain from `e` on matches the target. */
  function AnyMatches(e: Error, target: Error): bool
    reads Roots(target)
    decreases e
  {
    Matches(e, target) || (var u := Unwrap(e); u != Nil && AnyMatches(u, target))
  }

  /** What Is reports. */
  function IsSpec(err: Error, target: Error): bool
    reads Roots(target)
  {
    if target == Nil then err == Nil else AnyMatches(err, target)
  }

  /** Is: the walk along the chain with its three exits. */
  method Is(err: Error, target: Error) returns (b: bool)
    ensures b == IsSpec(err, target)
    ensures target == Nil ==> (b <==> err == Nil)
  {
    if target == Nil {
      return err == target;
    }
    var e := err;
    while true
      invariant AnyMatches(e, target) == AnyMatches(err, target)
      decreases e
    {
      if e == target {
        return true;
      }
      var accepts := match e
        case RootErr(r) => RootIs(r, target)
        case WrapErr(m, _, _) => WrapIs(m, target)
        case _ => false;
      if accepts {
        return true;
      }
      e := Unwrap(e);
      if e == Nil {
        return false;
      }
    }
  }

  /** On a chain that ends in a root, Is holds exactly when the root's Is method or
      the Is method of some wrap layer accepts the target: identity never matters
      beyond what the messages already say. */
  lemma {:induction false} IsByMessage(err: Error, target: Error)
    requires Rooted(err) && target != Nil
    ensures IsSpec(err, target) <==>
      RootIs(Terminal(err).root, target) || exists m :: m in LayerMessages(err) && WrapIs(m, target)
  {
    match err
    case RootErr(r) =>
    case WrapErr(m, n, c) =>
      IsByMessage(n, target);
      var ms := LayerMessages(n);
      assert LayerMessages(err) == [m] + ms;
      assert Matches(err, target) == WrapIs(m, target);
      assert IsSpec(err, target) == (WrapIs(m, target) || AnyMatches(n, target));
      assert (exists x :: x in LayerMessages(err) && WrapIs(x, target)) <==>
        WrapIs(m, target) || exists x :: x in ms && WrapIs(x, target);
  }

  /** Is with a root target: true exactly when the chain's root has the target's
      message or some wrap layer's message equals it. */
  lemma IsRootTarget(err: Error, t: RootError)
    requires Rooted(err)
    ensures IsSpec(err, RootErr(t)) <==> Terminal(err).root.msg == t.msg || t.msg in LayerMessages(err)
  {
    IsByMessage(err, RootErr(t));
    ErrorTextOfRoot(t);
  }

  /** Is with a wrap target: true exactly when some wrap layer has the target's
      message or the chain's root message equals the target's whole text. */
  lemma IsWrapTarget(err: Error, target: Error)
    requires Rooted(err) && target.WrapErr?
    ensures IsSpec(err, target) <==> target.msg in LayerMessages(err) || Terminal(err).root.msg == ErrorText(target)
  {
    IsByMessage(err, target);
  }

  /** Is with a foreign target: compared by its text, with the root and with every
      wrap layer. */
  lemma IsForeignTarget(err: Error, f: ForeignError)
    requires Rooted(err)
    ensures IsSpec(err, External(f)) <==> Terminal(err).root.msg == f.text || f.text in LayerMessages(err)
  {
    IsByMessage(err, External(f));
    ErrorTextOfForeign(f);
  }

  /** A bare foreign error has no Is and no Unwrap: it is only its own target. */
  lemma IsOnForeign(f: ForeignError, target: Error)
    requires target != Nil
    ensures IsSpec(External(f), target) <==> target == External(f)
  {
  }
}
