/** Concrete chains from the library's own usage, with the exact text, answers
    and JSON the model gives for them. Stack captures stay parameters: none of
    these results depends on them. */
module Scenarios {
  import opened Stacks
  import opened Errors
  import opened Formats
  import opened Eris

  /** The texts met while unwrapping a two-wrap chain over a root: each is the
      root message followed by the contexts still in the chain. */
  lemma TwoWrapTexts(r: RootError, first: string, second: string, c1: seq<StackFrame>, c2: seq<StackFrame>)
    ensures var e := WrapErr(second, WrapErr(first, RootErr(r), c1), c2);
      && ErrorText(e) == r.msg + ": " + first + ": " + second
      && ErrorText(Unwrap(e)) == r.msg + ": " + first
      && ErrorText(Unwrap(Unwrap(e))) == r.msg
  {
    ErrorTextOfRoot(r);
    ErrorTextOfWrap(first, RootErr(r), c1);
    ErrorTextOfWrap(second, WrapErr(first, RootErr(r), c1), c2);
  }

  /** Two Wrapf calls over a new root, read back by Unwrap one layer at a time. */
  method UnwrapInternal(msg: string, first: string, second: string, callers: seq<StackFrame>, site: seq<StackFrame>)
    returns (texts: seq<string>, last: Error)
    ensures texts == [msg + ": " + first + ": " + second, msg + ": " + first, msg]
    ensures last.RootErr? && last.root.msg == msg && Unwrap(last) == Nil
  {
    var root := New(msg, callers);
    var r := root.root;
    var w1 := Wrapf(root, first, callers, site);
    var w2 := Wrapf(w1, second, callers, site);
    assert w2 == WrapErr(second, WrapErr(first, RootErr(r), site), site);
    var u1 := Unwrap(w2);
    last := Unwrap(u1);
    TwoWrapTexts(r, first, second, site, site);
    texts := [ErrorText(w2), ErrorText(u1), ErrorText(last)];
  }

  /** Two Wrapf calls over a foreign error: the first turns it into a root carrying
      its text, so the last Unwrap reaches that root, not the foreign error. */
  method UnwrapExternal(text: string, first: string, second: string, callers: seq<StackFrame>, site: seq<StackFrame>)
    returns (texts: seq<string>, foreign: Error, last: Error)
    ensures texts == [text + ": " + first + ": " + second, text + ": " + first, text]
    ensures foreign.External? && last.RootErr? && last != foreign && Unwrap(last) == Nil
  {
    var f := new ForeignError(text);
    foreign := External(f);
    var w1 := Wrapf(foreign, first, callers, site);
    var r := w1.next.root;
    var w2 := Wrapf(w1, second, callers, site);
    assert w2 == WrapErr(second, WrapErr(first, RootErr(r), site), site);
    var u1 := Unwrap(w2);
    last := Unwrap(u1);
    TwoWrapTexts(r, first, second, site, site);
    texts := [ErrorText(w2), ErrorText(u1), ErrorText(last)];
  }

  /** An empty root message still gets its separator. */
  method EmptyRootMessage(context: string, callers: seq<StackFrame>, site: seq<StackFrame>) returns (text: string)
    ensures text == ": " + context
  {
    var root := New("", callers);
    var r := root.root;
    var w := Wrap(root, context, callers, site);
    assert w == WrapErr(context, RootErr(r), site);
    ErrorTextOfRoot(r);
    ErrorTextOfWrap(context, RootErr(r), site);
    assert "" + ": " == ": ";
    text := ErrorString(w);
  }

  /** Is against fresh roots: the root's message and each wrap message match, an
      unrelated message and the nil target do not. */
  method IsInternal(callers: seq<StackFrame>, site: seq<StackFrame>) returns (answers: seq<bool>)
    ensures answers == [true, true, true, false, false]
  {
    var root := New("root error", callers);
    var w1 := Wrap(root, "additional context", callers, site);
    var err := Wrap(w1, "even more context", callers, site);
    assert LayerMessages(err) == ["even more context", "additional context"];
    var sameRoot := New("root error", callers);
    var a0 := Is(err, sameRoot);
    IsRootTarget(err, sameRoot.root);
    var middle := New("additional context", callers);
    var a1 := Is(err, middle);
    IsRootTarget(err, middle.root);
    var outer := New("even more context", callers);
    var a2 := Is(err, outer);
    IsRootTarget(err, outer.root);
    var other := New("other error", callers);
    var a3 := Is(root, other);
    IsRootTarget(root, other.root);
    var a4 := Is(root, Nil);
    answers := [a0, a1, a2, a3, a4];
  }

  /** Is on a chain built over a foreign error: a root target with the foreign
      text matches, and so does a different foreign error with the same text. */
  method IsExternal(callers: seq<StackFrame>, site: seq<StackFrame>) returns (answers: seq<bool>)
    ensures answers == [true, true]
  {
    var f := new ForeignError("external error");
    var w1 := Wrap(External(f), "additional context", callers, site);
    var err := Wrap(w1, "even more context", callers, site);
    var asRoot := New("external error", callers);
    var a0 := Is(err, asRoot);
    IsRootTarget(err, asRoot.root);
    var g := new ForeignError("external error");
    var a1 := Is(err, External(g));
    IsForeignTarget(err, g);
    answers := [a0, a1];
  }

  /** Is with a shared root: a wrap target matches by its message, an error
      matches itself, and two nils match. */
  method IsShared(callers: seq<StackFrame>, site: seq<StackFrame>) returns (answers: seq<bool>)
    ensures answers == [true, true, true]
  {
    var global := New("global error", callers);
    var w1 := Wrap(global, "additional context", callers, site);
    var err := Wrap(w1, "even more context", callers, site);
    var target := Wrap(global, "additional context", callers, site);
    var a0 := Is(err, target);
    IsWrapTarget(err, target);
    var a1 := Is(global, global);
    var a2 := Is(Nil, Nil);
    answers := [a0, a1, a2];
  }

  /** Cause returns the very root object the chain was built on, and nil for nil. */
  method CauseOfShared(callers: seq<StackFrame>, site: seq<StackFrame>) returns (global: Error, cause: Error, none: Error)
    ensures global.RootErr? && cause == global && none == Nil
  {
    global := New("global error", callers);
    var w1 := Wrap(global, "additional context", callers, site);
    var err := Wrap(w1, "even more context", callers, site);
    cause := Cause(err);
    none := Cause(Nil);
  }

  /** Wrapping a shared root resets its stack in place: an earlier chain over the
      same root now unpacks with the stack captured by the later wrap. */
  method SharedRootReset(first: seq<StackFrame>, second: seq<StackFrame>, site: seq<StackFrame>) returns (a: Error, b: Error)
    ensures Unpacked(a).ErrRoot.Stack == InsertedPC(second, site)
    ensures Unpacked(b).ErrRoot.Stack == InsertedPC(second, site)
  {
    var global := New("global error", first);
    a := Wrap(global, "first", first, site);
    b := Wrap(global, "second", second, site);
  }

  /** A two-wrap chain over a root unpacks to the root message, the root stack
      with both captures merged in, and one link per wrap, first wrap first. */
  lemma TwoWrapUnpacked(r: RootError, first: string, second: string, c1: seq<StackFrame>, c2: seq<StackFrame>)
    ensures Unpacked(WrapErr(second, WrapErr(first, RootErr(r), c1), c2))
      == UnpackedError(ErrRoot(r.msg, InsertedPC(InsertedPC(r.stack, c1), c2)), [LinkOf(first, c1), LinkOf(second, c2)], "")
  {
    assert Unpacked(RootErr(r)).ErrChain == [];
    var inner := Unpacked(WrapErr(first, RootErr(r), c1));
    assert inner.ErrChain == [] + [LinkOf(first, c1)] == [LinkOf(first, c1)];
  }

  /** Without trace, the JSON of a root with a message and two links holds only
      messages: the root's, then the links' in chain order. */
  lemma TwoLinkJson(root: ErrRoot, l1: ErrLink, l2: ErrLink, invert: bool)
    requires root.Msg != ""
    ensures RenderedJSON(UnpackedError(root, [l1, l2], ""), NewDefaultFormat(false), invert)
      == map[
        "root" := JObject(map["message" := JString(root.Msg)]),
        "wrap" := JArray([JObject(map["message" := JString(l1.Msg)]), JObject(map["message" := JString(l2.Msg)])])]
  {
    var f := Effective(NewDefaultFormat(false));
    assert RootJSON(root, f, invert) == map["message" := JString(root.Msg)];
    assert LinkJSON(l1, f) == map["message" := JString(l1.Msg)];
    assert LinkJSON(l2, f) == map["message" := JString(l2.Msg)];
    WrapItemsIndex([l1, l2], f);
    assert WrapItems([l1, l2], f) == [JObject(LinkJSON(l1, f)), JObject(LinkJSON(l2, f))];
  }

  /** ToJSON of a two-wrap chain built with New and Wrap. */
  method JsonOfChain(callers: seq<StackFrame>, site: seq<StackFrame>, invert: bool) returns (json: map<string, Json>)
    ensures json == map[
      "root" := JObject(map["message" := JString("root error")]),
      "wrap" := JArray([JObject(map["message" := JString("additional context")]),
                        JObject(map["message" := JString("even more context")])])]
  {
    var root := New("root error", callers);
    var r := root.root;
    var w1 := Wrap(root, "additional context", callers, site);
    var err := Wrap(w1, "even more context", callers, site);
    assert err == WrapErr("even more context", WrapErr("additional context", RootErr(r), site), site);
    TwoWrapUnpacked(r, "additional context", "even more context", site, site);
    TwoLinkJson(Unpacked(err).ErrRoot, LinkOf("additional context", site), LinkOf("even more context", site), invert);
    json := ToJSON(err, false, invert);
  }
}
