/**
 A terminal line that interprets what the line editor sends, and the proof that it shows the text being
 edited. Only the controls the editor uses are interpreted: CR, BS, CUB and CUF (sections 8.3.15, 8.3.5,
 8.3.18 and 8.3.20 of ECMA-48), and the graphic characters.
 */
module Terminal {
  import opened Common
  import opened LineEditor

  datatype Mode = Ground | Escape | Csi

  /** One screen line. `wrapped` records that a character reached the right margin. */
  datatype Screen = Screen(cells: seq<byte>, column: nat, mode: Mode, wrapped: bool)

  function Blanks(n: nat): seq<byte> {
    if n == 0 then [] else [SPACE] + Blanks(n - 1)
  }

  predicate Graphic(b: byte) {
    0x20 <= b <= 0x7E
  }

  function Feed(t: Screen, b: byte): Screen {
    match t.mode
    case Ground =>
      if b == CR then t.(column := 0)
      else if b == BS then t.(column := if t.column > 0 then t.column - 1 else 0)
      else if b == ESC then t.(mode := Escape)
      else if Graphic(b) then
        if t.column < |t.cells| then
          t.(cells := t.cells[t.column := b], column := t.column + 1, wrapped := t.wrapped || t.column + 1 == |t.cells|)
        else t.(wrapped := true)
      else t
    case Escape => t.(mode := if b == BRACKET then Csi else Ground)
    case Csi =>
      if b == 0x44 then t.(mode := Ground, column := if t.column > 0 then t.column - 1 else 0)
      else if b == 0x43 then t.(mode := Ground, column := t.column + 1)
      else t.(mode := Ground)
  }

  function FeedAll(t: Screen, bytes: seq<byte>): Screen
    decreases |bytes|
  {
    if bytes == [] then t else FeedAll(Feed(t, bytes[0]), bytes[1..])
  }

  /** The screen shows the text padded with spaces, and its cursor is the edit cursor. */
  ghost predicate Shows(t: Screen, l: Line) {
    && |l.text| < |t.cells|
    && t == Screen(l.text + Blanks(|t.cells| - |l.text|), l.cursor, Ground, false)
  }

  ghost predicate AllGraphic(s: seq<byte>) {
    forall i :: 0 <= i < |s| ==> Graphic(s[i])
  }

  /** The line holds printable characters and spaces only. */
  ghost predicate Printable(l: Line) {
    l.cursor <= |l.text| && AllGraphic(l.text)
  }

  // ---------------------------------------------------------------- the parts of an echo

  lemma {:induction false} FeedSplit(t: Screen, a: seq<byte>, b: seq<byte>)
    ensures FeedAll(t, a + b) == FeedAll(FeedAll(t, a), b)
    decreases |a|
  {
    if a == [] {
      assert a + b == b;
    } else {
      assert (a + b)[1..] == a[1..] + b;
      FeedSplit(Feed(t, a[0]), a[1..], b);
    }
  }

  /** Graphic characters overwrite the cells from the cursor on. */
  lemma {:induction false} FeedText(t: Screen, s: seq<byte>)
    requires t.mode == Ground && !t.wrapped && t.column + |s| < |t.cells| && AllGraphic(s)
    ensures FeedAll(t, s)
         == t.(cells := t.cells[..t.column] + s + t.cells[t.column + |s|..], column := t.column + |s|)
    decreases |s|
  {
    if s == [] {
      assert t.cells[..t.column] + s + t.cells[t.column..] == t.cells;
    } else {
      var t' := Feed(t, s[0]);
      FeedText(t', s[1..]);
      assert t'.cells[..t'.column] + s[1..] + t'.cells[t'.column + |s[1..]|..]
          == t.cells[..t.column] + s + t.cells[t.column + |s|..];
    }
  }

  lemma {:induction false} FeedBack(t: Screen, n: nat)
    requires t.mode == Ground && n <= t.column
    ensures FeedAll(t, CursorBack(n)) == t.(column := t.column - n)
    decreases n
  {
    if n > 0 {
      var step := [ESC, BRACKET, 0x44];
      FeedSplit(t, step, CursorBack(n - 1));
      FeedOneBack(t);
      FeedBack(t.(column := t.column - 1), n - 1);
    }
  }

  lemma FeedOneBack(t: Screen)
    requires t.mode == Ground && t.column > 0
    ensures FeedAll(t, [ESC, BRACKET, 0x44]) == t.(column := t.column - 1)
  {
    var s: seq<byte> := [ESC, BRACKET, 0x44];
    assert s[1..] == [BRACKET, 0x44] && s[1..][1..] == [0x44];
    var t1, t2 := Feed(t, ESC), Feed(Feed(t, ESC), BRACKET);
    assert FeedAll(t2, [0x44]) == Feed(t2, 0x44);
    assert FeedAll(t1, [BRACKET, 0x44]) == FeedAll(t2, [0x44]);
  }

  lemma FeedForward(t: Screen)
    requires t.mode == Ground
    ensures FeedAll(t, CURSOR_FORWARD) == t.(column := t.column + 1)
  {
    var s: seq<byte> := [ESC, BRACKET, 0x43];
    assert s[1..] == [BRACKET, 0x43] && s[1..][1..] == [0x43];
    var t1, t2 := Feed(t, ESC), Feed(Feed(t, ESC), BRACKET);
    assert FeedAll(t2, [0x43]) == Feed(t2, 0x43);
    assert FeedAll(t1, [BRACKET, 0x43]) == FeedAll(t2, [0x43]);
  }

  lemma FeedOne(t: Screen, b: byte)
    ensures FeedAll(t, [b]) == Feed(t, b)
  {
    assert [b][1..] == [];
  }

  lemma {:induction false} BlanksAre(n: nat)
    ensures |Blanks(n)| == n && forall i :: 0 <= i < n ==> Blanks(n)[i] == SPACE
  {
    if n > 0 {
      BlanksAre(n - 1);
    }
  }

  /** From the left margin: text, then the way back. */
  lemma FeedDrawn(t: Screen, drawn: seq<byte>, n: nat)
    requires t.mode == Ground && !t.wrapped && t.column == 0 && n <= |drawn| < |t.cells| && AllGraphic(drawn)
    ensures FeedAll(t, drawn + CursorBack(n)) == t.(cells := drawn + t.cells[|drawn|..], column := |drawn| - n)
  {
    hide FeedAll, CursorBack, AllGraphic;
    FeedSplit(t, drawn, CursorBack(n));
    FeedText(t, drawn);
    assert t.cells[..0] + drawn + t.cells[0 + |drawn|..] == drawn + t.cells[|drawn|..];
    FeedBack(t.(cells := drawn + t.cells[|drawn|..], column := |drawn|), n);
  }

  /** A redraw replaces the line by the text, blanks what it is told to, and puts the cursor back. */
  lemma FeedRedraw(t: Screen, l: Line, blank: seq<byte>)
    requires t.mode == Ground && !t.wrapped && Printable(l) && AllGraphic(blank) && |l.text| + |blank| < |t.cells|
    ensures FeedAll(t, Redraw(l, blank))
         == t.(cells := l.text + blank + t.cells[|l.text| + |blank|..], column := l.cursor)
  {
    var drawn, n := l.text + blank, |l.text| + |blank| - l.cursor;
    assert AllGraphic(drawn);
    hide FeedAll, CursorBack, AllGraphic;
    assert Redraw(l, blank) == [CR] + (drawn + CursorBack(n));
    hide Redraw;
    FeedSplit(t, [CR], drawn + CursorBack(n));
    FeedOne(t, CR);
    FeedDrawn(t.(column := 0), drawn, n);
  }

  // ---------------------------------------------------------------- the main result

  /** Only printable characters and spaces are inserted. */
  predicate Typed(k: Key) {
    k.Insert? ==> Graphic(k.c)
  }

  /** Redrawing over a line that is not longer leaves only blanks after the text. */
  lemma RedrawShows(t: Screen, l: Line, l': Line, blank: seq<byte>)
    requires Shows(t, l) && Printable(l') && (blank == [] || blank == [SPACE])
    requires |l.text| <= |l'.text| + |blank| < |t.cells|
    ensures Shows(FeedAll(t, Redraw(l', blank)), l') && |FeedAll(t, Redraw(l', blank)).cells| == |t.cells|
  {
    hide FeedAll, Redraw;
    FeedRedraw(t, l', blank);
    BlanksAre(|t.cells| - |l.text|);
    BlanksAre(|t.cells| - |l'.text|);
    assert l'.text + blank + t.cells[|l'.text| + |blank|..] == l'.text + Blanks(|t.cells| - |l'.text|);
  }

  /** After every key, what was sent has made the screen show the new line. */
  lemma EchoShows(t: Screen, l: Line, k: Key)
    requires Shows(t, l) && Printable(l) && Typed(k) && |Step(l, k).text| < |t.cells|
    ensures Shows(FeedAll(t, Echo(l, k)), Step(l, k)) && Printable(Step(l, k))
    ensures |FeedAll(t, Echo(l, k)).cells| == |t.cells|
  {
    hide Redraw;
    var l' := Step(l, k);
    if |l'.text| > |l.text| {
      RedrawShows(t, l, l', []);
    } else if |l'.text| < |l.text| {
      RedrawShows(t, l, l', [SPACE]);
    } else {
      hide FeedAll;
      FeedOne(t, BS);
      FeedForward(t);
    }
  }

  /**
   The whole session: on a screen line wider than the buffer, however the input breaks off, the screen shows
   the text in the buffer with the cursor in its place.
   */
  lemma {:induction false} SessionShows(t: Screen, l: Line, keys: seq<Key>, limit: nat)
    requires Shows(t, l) && Printable(l) && |l.text| <= limit < |t.cells|
    requires forall i :: 0 <= i < |keys| ==> Typed(keys[i])
    ensures Shows(FeedAll(t, Echoes(l, keys, limit)), Edit(l, keys, limit))
    decreases |keys|
  {
    if keys != [] && |l.text| < limit && !keys[0].Enter? {
      EchoShows(t, l, keys[0]);
      FeedSplit(t, Echo(l, keys[0]), Echoes(Step(l, keys[0]), keys[1..], limit));
      hide FeedAll, Echo, Shows, Printable;
      SessionShows(FeedAll(t, Echo(l, keys[0])), Step(l, keys[0]), keys[1..], limit);
    }
  }
}
