/** The editing buffer of a `Textbox2D` widget.

    The widget keeps its text as three code-point strings: the text before
    the cursor, the uncommitted input-method composition that sits at the
    cursor, and the text after the cursor. Every editing operation is a pure
    transition on that triple; drawing, hit-testing and layout are not part
    of this module.
 */
module Textbox {

  import opened Char32

  type Text = seq<CodePoint>

  /** `pre` is `preCursor`, `comp` is `composition`, `post` is `postCursor`;
      `active` is the public focus flag the scenes toggle. */
  datatype Textbox = Textbox(pre: Text, comp: Text, post: Text, active: bool)

  /** The whole string the box holds (its conversion to `std::u32string`). */
  function Content(t: Textbox): (s: Text)
    ensures |s| == |t.pre| + |t.comp| + |t.post|
  {
    t.pre + t.comp + t.post
  }

  /** The string reads the text before the cursor, then the composition,
      then the text after the cursor, each at its own offset. */
  lemma ContentLayout(t: Textbox)
    ensures var s := Content(t);
            && s[..|t.pre|] == t.pre
            && s[|t.pre|..|t.pre| + |t.comp|] == t.comp
            && s[|t.pre| + |t.comp|..] == t.post
  {
  }

  /** A freshly constructed text box. */
  function Initial(): (t: Textbox)
    ensures t.pre == [] && t.comp == [] && t.post == []
    ensures !t.active
    ensures Content(t) == []
  {
    Textbox([], [], [], false)
  }

  // ---------------------------------------------------------------------
  // Reference view: a committed string with a caret position
  // ---------------------------------------------------------------------

  /** The box holding the same string as `t`, with nothing composing and the
      cursor after the first `pos` code points. This is the independent
      description the cursor operations are proved against. */
  function Place(t: Textbox, pos: nat): (r: Textbox)
    requires pos <= |Content(t)|
  {
    Textbox(Content(t)[..pos], [], Content(t)[pos..], t.active)
  }

  /** `Place` is the only box with the same string, no composition, the same
      focus flag and the cursor at `pos`. */
  lemma PlaceUnique(t: Textbox, r: Textbox, pos: nat)
    requires pos <= |Content(t)|
    requires r.comp == [] && r.active == t.active
    requires Content(r) == Content(t) && |r.pre| == pos
    ensures r == Place(t, pos)
  {
    assert r.pre + r.post == Content(t);
    assert r.pre == Content(t)[..pos];
    assert r.post == Content(t)[pos..];
  }

  // ---------------------------------------------------------------------
  // Text entry
  // ---------------------------------------------------------------------

  /** `textEditing`: the input method reports new uncommitted text. */
  function TextEditing(t: Textbox, text: Text): (r: Textbox)
    ensures r.comp == text
    ensures r.pre == t.pre && r.post == t.post && r.active == t.active
    ensures Content(r) == t.pre + text + t.post
  {
    t.(comp := text)
  }

  /** `textInput`: committed text lands before the cursor. A pending
      composition is left where it is. */
  function TextInput(t: Textbox, text: Text): (r: Textbox)
    ensures r.pre == t.pre + text
    ensures r.comp == t.comp && r.post == t.post && r.active == t.active
    ensures Content(r) == t.pre + text + t.comp + t.post
  {
    t.(pre := t.pre + text)
  }

  // ---------------------------------------------------------------------
  // Cursor movement
  // ---------------------------------------------------------------------

  /** `cursorLeft`: the composition is committed after the cursor, then the
      last code point before the cursor (if any) moves across it. */
  function CursorLeft(t: Textbox): (r: Textbox)
    ensures Content(r) == Content(t) && r.comp == [] && r.active == t.active
    ensures |t.pre| > 0 ==>
              r.pre == t.pre[..|t.pre| - 1] && r.post == [t.pre[|t.pre| - 1]] + t.comp + t.post
    ensures |t.pre| == 0 ==> r.pre == [] && r.post == t.comp + t.post
    ensures r == Place(t, if |t.pre| > 0 then |t.pre| - 1 else 0)
  {
    var post := t.comp + t.post;
    if |t.pre| > 0 then
      var r := Textbox(t.pre[..|t.pre| - 1], [], [t.pre[|t.pre| - 1]] + post, t.active);
      assert r.pre + r.comp + r.post == t.pre + t.comp + t.post by {
        assert t.pre == r.pre + [t.pre[|t.pre| - 1]];
      }
      PlaceUnique(t, r, |t.pre| - 1);
      r
    else
      var r := Textbox(t.pre, [], post, t.active);
      PlaceUnique(t, r, 0);
      r
  }

  /** `cursorRight`: the composition is committed before the cursor, then the
      first code point after the cursor (if any) moves across it. */
  function CursorRight(t: Textbox): (r: Textbox)
    ensures Content(r) == Content(t) && r.comp == [] && r.active == t.active
    ensures |t.post| > 0 ==> r.pre == t.pre + t.comp + [t.post[0]] && r.post == t.post[1..]
    ensures |t.post| == 0 ==> r.pre == t.pre + t.comp && r.post == []
    ensures r == Place(t, if |t.post| > 0 then |t.pre| + |t.comp| + 1 else |t.pre| + |t.comp|)
  {
    var pre := t.pre + t.comp;
    if |t.post| > 0 then
      var r := Textbox(pre + [t.post[0]], [], t.post[1..], t.active);
      assert r.pre + r.comp + r.post == t.pre + t.comp + t.post by {
        assert t.post == [t.post[0]] + t.post[1..];
      }
      PlaceUnique(t, r, |t.pre| + |t.comp| + 1);
      r
    else
      var r := Textbox(pre, [], t.post, t.active);
      PlaceUnique(t, r, |t.pre| + |t.comp|);
      r
  }

  /** `cursorHome`: everything ends up after the cursor. */
  function CursorHome(t: Textbox): (r: Textbox)
    ensures r.pre == [] && r.comp == [] && r.post == Content(t)
    ensures Content(r) == Content(t) && r.active == t.active
    ensures r == Place(t, 0)
  {
    Textbox([], [], t.pre + t.comp + t.post, t.active)
  }

  /** `cursorEnd`: everything ends up before the cursor. */
  function CursorEnd(t: Textbox): (r: Textbox)
    ensures r.post == [] && r.comp == [] && r.pre == Content(t)
    ensures Content(r) == Content(t) && r.active == t.active
    ensures r == Place(t, |Content(t)|)
  {
    Textbox(t.pre + t.comp + t.post, [], [], t.active)
  }

  // ---------------------------------------------------------------------
  // Deletion
  // ---------------------------------------------------------------------

  /** `backspace`: deletes the last composing code point if there is one,
      otherwise the code point just before the cursor, otherwise nothing. */
  function Backspace(t: Textbox): (r: Textbox)
    ensures r.post == t.post && r.active == t.active
    ensures |t.comp| > 0 ==> r.pre == t.pre && r.comp == t.comp[..|t.comp| - 1]
    ensures |t.comp| == 0 && |t.pre| > 0 ==> r.pre == t.pre[..|t.pre| - 1] && r.comp == []
    ensures |t.comp| == 0 && |t.pre| == 0 ==> r == t
    ensures var k := |t.pre| + |t.comp|;
            k > 0 ==> Content(r) == Content(t)[..k - 1] + Content(t)[k..]
  {
    if |t.comp| > 0 then
      var r := t.(comp := t.comp[..|t.comp| - 1]);
      assert Content(t) == t.pre + r.comp + [t.comp[|t.comp| - 1]] + t.post by {
        assert t.comp == r.comp + [t.comp[|t.comp| - 1]];
      }
      assert Content(t)[..|t.pre| + |t.comp| - 1] == t.pre + r.comp;
      r
    else if |t.pre| > 0 then
      var r := t.(pre := t.pre[..|t.pre| - 1]);
      assert Content(t) == r.pre + [t.pre[|t.pre| - 1]] + t.post by {
        assert t.pre == r.pre + [t.pre[|t.pre| - 1]];
      }
      assert Content(t)[..|t.pre| - 1] == r.pre;
      r
    else
      t
  }

  // ---------------------------------------------------------------------
  // Properties relating several operations
  // ---------------------------------------------------------------------

  /** With nothing composing, moving left and then right restores the split. */
  lemma LeftThenRight(t: Textbox)
    requires t.comp == [] && |t.pre| > 0
    ensures CursorRight(CursorLeft(t)) == t
  {
    assert t.pre[..|t.pre| - 1] + [t.pre[|t.pre| - 1]] == t.pre;
  }

  /** With nothing composing, moving right and then left restores the split. */
  lemma RightThenLeft(t: Textbox)
    requires t.comp == [] && |t.post| > 0
    ensures CursorLeft(CursorRight(t)) == t
  {
    var r := CursorRight(t);
    assert r.pre[..|r.pre| - 1] == t.pre;
    assert [t.post[0]] + t.post[1..] == t.post;
  }

  /** `cursorHome` and `cursorEnd` are idempotent, and a cursor already at
      an end does not move further in that direction. */
  lemma HomeEndIdempotent(t: Textbox)
    ensures CursorHome(CursorHome(t)) == CursorHome(t)
    ensures CursorEnd(CursorEnd(t)) == CursorEnd(t)
    ensures CursorLeft(CursorHome(t)) == CursorHome(t)
    ensures CursorRight(CursorEnd(t)) == CursorEnd(t)
  {
  }

  /** Backspace on an empty box changes nothing. */
  lemma BackspaceOnEmpty()
    ensures Backspace(Initial()) == Initial()
  {
  }

  /** `n` presses of the left arrow. */
  function Lefts(t: Textbox, n: nat): Textbox
    decreases n
  {
    if n == 0 then t else Lefts(CursorLeft(t), n - 1)
  }

  /** `n` presses of the right arrow. */
  function Rights(t: Textbox, n: nat): Textbox
    decreases n
  {
    if n == 0 then t else Rights(CursorRight(t), n - 1)
  }

  /** After at least one left press the cursor sits `n` code points before
      where it was (clamped at the start), and the string is intact. */
  lemma {:induction false} LeftsMoveCaret(t: Textbox, n: nat)
    requires n >= 1
    ensures Lefts(t, n) == Place(t, if n <= |t.pre| then |t.pre| - n else 0)
    decreases n
  {
    var l := CursorLeft(t);
    if n > 1 {
      LeftsMoveCaret(l, n - 1);
    }
  }

  /** After at least one right press the cursor sits `n` code points after
      the committed composition (clamped at the end), the string intact. */
  lemma {:induction false} RightsMoveCaret(t: Textbox, n: nat)
    requires n >= 1
    ensures Rights(t, n) == Place(t, if n <= |t.post| then |t.pre| + |t.comp| + n else |Content(t)|)
    decreases n
  {
    var r := CursorRight(t);
    if n > 1 {
      RightsMoveCaret(r, n - 1);
    }
  }

  /** Holding the left arrow long enough reaches the start of the text. */
  lemma LeftsReachHome(t: Textbox, n: nat)
    requires n >= 1 && n >= |t.pre|
    ensures Lefts(t, n) == CursorHome(t)
  {
    LeftsMoveCaret(t, n);
  }

  /** Holding the right arrow long enough reaches the end of the text. */
  lemma RightsReachEnd(t: Textbox, n: nat)
    requires n >= 1 && n >= |t.post|
    ensures Rights(t, n) == CursorEnd(t)
  {
    RightsMoveCaret(t, n);
  }

  /** `n` presses of backspace. */
  function Backspaces(t: Textbox, n: nat): Textbox
    decreases n
  {
    if n == 0 then t else Backspaces(Backspace(t), n - 1)
  }

  /** With nothing composing, deleting as many code points as were just
      typed undoes the typing. */
  lemma {:induction false} BackspaceUndoesInput(t: Textbox, text: Text)
    requires t.comp == []
    ensures Backspaces(TextInput(t, text), |text|) == t
    decreases |text|
  {
    if |text| > 0 {
      var shorter := text[..|text| - 1];
      assert (t.pre + text)[..|t.pre + text| - 1] == t.pre + shorter;
      assert Backspace(TextInput(t, text)) == TextInput(t, shorter);
      BackspaceUndoesInput(t, shorter);
    } else {
      assert t.pre + text == t.pre;
    }
  }

  /** `textInput` does not clear a pending composition: if the input method
      commits text without first reporting an empty composition, the text
      shows up twice. */
  lemma InputKeepsComposition(t: Textbox, text: Text)
    ensures Content(TextInput(TextEditing(t, text), text)) == t.pre + text + text + t.post
  {
  }

  /** Only the latest composition report matters. */
  lemma EditingOverwrites(t: Textbox, a: Text, b: Text)
    ensures TextEditing(TextEditing(t, a), b) == TextEditing(t, b)
  {
  }

  // ---------------------------------------------------------------------
  // Sequences of events
  // ---------------------------------------------------------------------

  /** One keyboard or input-method event delivered to a focused text box. */
  datatype Edit =
    | Editing(text: Text)
    | Input(text: Text)
    | Left
    | Right
    | Home
    | End
    | Back

  function Apply(t: Textbox, e: Edit): Textbox {
    match e
    case Editing(s) => TextEditing(t, s)
    case Input(s) => TextInput(t, s)
    case Left => CursorLeft(t)
    case Right => CursorRight(t)
    case Home => CursorHome(t)
    case End => CursorEnd(t)
    case Back => Backspace(t)
  }

  function ApplyAll(t: Textbox, es: seq<Edit>): Textbox
    decreases |es|
  {
    if |es| == 0 then t else ApplyAll(Apply(t, es[0]), es[1..])
  }

  predicate IsMove(e: Edit) {
    e.Left? || e.Right? || e.Home? || e.End?
  }

  /** Any run of cursor movements keeps the string and the focus flag, and
      a non-empty run leaves nothing composing. */
  lemma {:induction false} MovesPreserveContent(t: Textbox, es: seq<Edit>)
    requires forall i :: 0 <= i < |es| ==> IsMove(es[i])
    ensures Content(ApplyAll(t, es)) == Content(t)
    ensures ApplyAll(t, es).active == t.active
    ensures |es| > 0 ==> ApplyAll(t, es).comp == []
    decreases |es|
  {
    if |es| > 0 {
      var t' := Apply(t, es[0]);
      assert Content(t') == Content(t) && t'.comp == [] && t'.active == t.active;
      MovesPreserveContent(t', es[1..]);
      if |es| > 1 {
        assert ApplyAll(t, es) == ApplyAll(t', es[1..]);
      }
    }
  }

  /** No event touches the focus flag. */
  lemma {:induction false} EditsKeepFocus(t: Textbox, es: seq<Edit>)
    ensures ApplyAll(t, es).active == t.active
    decreases |es|
  {
    if |es| > 0 {
      EditsKeepFocus(Apply(t, es[0]), es[1..]);
    }
  }
}
