/**
 What the bytes typed at the line editor do, in terms of the bytes themselves (kernel/serial.c:89-195). `Reached`
 says how far a session has come; SerialPoll returns what it comes to in the end.
 */
module Keystrokes {
  import opened Common
  import opened LineEditor

  /** A session begins with an empty line. */
  lemma Begins(input: seq<byte>, limit: nat)
    ensures Reached(Line([], 0), [], input, 0, limit)
  {
    assert [] + Echoes(Line([], 0), Keys(input, 0), limit) == Echoes(Line([], 0), Keys(input, 0), limit);
  }

  /** One more key, given by the line it makes and what it sends. */
  lemma Types(l: Line, sent: seq<byte>, input: seq<byte>, p: nat, limit: nat, l': Line, more: seq<byte>, p': nat)
    requires Reached(l, sent, input, p, limit) && |l.text| < limit
    requires HasKey(input, p) && !KeyAt(input, p).Enter? && p' == p + KeyLength(input, p)
    requires l' == LineEditor.Step(l, KeyAt(input, p)) && more == Echo(l, KeyAt(input, p))
    ensures Reached(l', sent + more, input, p', limit)
  {
    hide Reached, HasKey, KeyAt, KeyLength, LineEditor.Step, Echo;
    Continues(l, sent, input, p, limit);
  }

  /** ESC [ D moves the cursor left by one, if it can. */
  lemma TypeLeft(l: Line, sent: seq<byte>, input: seq<byte>, p: nat, limit: nat)
    requires Reached(l, sent, input, p, limit) && |l.text| < limit
    requires p + 3 <= |input| && input[p] == 0x1B && input[p + 1] == 0x5B && input[p + 2] == 0x44
    ensures if l.cursor == 0 then Reached(l, sent, input, p + 3, limit)
            else Reached(Line(l.text, l.cursor - 1), sent + [0x08], input, p + 3, limit)
  {
    var l', more := LineEditor.Step(l, Left), Echo(l, Left);
    assert KeyAt(input, p) == Left;
    assert sent + [] == sent;
    hide Reached;
    Types(l, sent, input, p, limit, l', more, p + 3);
  }

  /** ESC [ C moves it right by one, if it can. */
  lemma TypeRight(l: Line, sent: seq<byte>, input: seq<byte>, p: nat, limit: nat)
    requires Reached(l, sent, input, p, limit) && |l.text| < limit
    requires p + 3 <= |input| && input[p] == 0x1B && input[p + 1] == 0x5B && input[p + 2] == 0x43
    ensures if l.cursor == |l.text| then Reached(l, sent, input, p + 3, limit)
            else Reached(Line(l.text, l.cursor + 1), sent + [0x1B, 0x5B, 0x43], input, p + 3, limit)
  {
    var l', more := LineEditor.Step(l, Right), Echo(l, Right);
    assert KeyAt(input, p) == Right;
    assert sent + [] == sent;
    hide Reached;
    Types(l, sent, input, p, limit, l', more, p + 3);
  }

  /** 0x08 removes the byte before the cursor. */
  lemma TypeBackspace(l: Line, sent: seq<byte>, input: seq<byte>, p: nat, limit: nat)
    requires Reached(l, sent, input, p, limit) && |l.text| < limit && p < |input| && input[p] == 0x08
    ensures if l.cursor == 0 then Reached(l, sent, input, p + 1, limit)
            else var l' := Line(l.text[..l.cursor - 1] + l.text[l.cursor..], l.cursor - 1);
                 Reached(l', sent + Redraw(l', [0x20]), input, p + 1, limit)
  {
    var l', more := LineEditor.Step(l, Backspace), Echo(l, Backspace);
    assert KeyAt(input, p) == Backspace;
    assert sent + [] == sent;
    hide Reached;
    Types(l, sent, input, p, limit, l', more, p + 1);
  }

  /** 0x7F removes the byte at the cursor. */
  lemma TypeDelete(l: Line, sent: seq<byte>, input: seq<byte>, p: nat, limit: nat)
    requires Reached(l, sent, input, p, limit) && |l.text| < limit && p < |input| && input[p] == 0x7F
    ensures if l.cursor == |l.text| then Reached(l, sent, input, p + 1, limit)
            else var l' := Line(l.text[..l.cursor] + l.text[l.cursor + 1..], l.cursor);
                 Reached(l', sent + Redraw(l', [0x20]), input, p + 1, limit)
  {
    var l', more := LineEditor.Step(l, Delete), Echo(l, Delete);
    assert KeyAt(input, p) == Delete;
    assert sent + [] == sent;
    hide Reached;
    Types(l, sent, input, p, limit, l', more, p + 1);
  }

  /** The characters ! to ~, the space, the tab, the vertical tab and the form feed enter the text at the cursor. */
  lemma TypeText(l: Line, sent: seq<byte>, input: seq<byte>, p: nat, limit: nat)
    requires Reached(l, sent, input, p, limit) && |l.text| < limit && p < |input|
    requires 0x21 <= input[p] <= 0x7E || input[p] in [0x20, 0x09, 0x0B, 0x0C]
    ensures var l' := Line(l.text[..l.cursor] + [input[p]] + l.text[l.cursor..], l.cursor + 1);
            Reached(l', sent + Redraw(l', []), input, p + 1, limit)
  {
    hide Redraw, Keys, Edit, Echoes;
    var l', more := LineEditor.Step(l, Insert(input[p])), Echo(l, Insert(input[p]));
    assert KeyAt(input, p) == Insert(input[p]);
    hide Reached;
    Types(l, sent, input, p, limit, l', more, p + 1);
  }

  /** Any other byte does nothing, and neither does any other escape sequence, of two bytes or of three. */
  lemma TypeOther(l: Line, sent: seq<byte>, input: seq<byte>, p: nat, limit: nat)
    requires Reached(l, sent, input, p, limit) && |l.text| < limit && p < |input|
    ensures input[p] != 0x08 && input[p] != 0x1B && !(0x20 <= input[p] <= 0x7F) && !(0x09 <= input[p] <= 0x0D) ==>
              Reached(l, sent, input, p + 1, limit)
    ensures input[p] == 0x1B && p + 1 < |input| && input[p + 1] != 0x5B ==> Reached(l, sent, input, p + 2, limit)
    ensures input[p] == 0x1B && p + 2 < |input| && input[p + 1] == 0x5B && input[p + 2] !in [0x43, 0x44] ==>
              Reached(l, sent, input, p + 3, limit)
  {
    assert sent + [] == sent;
    if HasKey(input, p) && KeyAt(input, p).Other? {
      var p' := p + KeyLength(input, p);
      Types(l, sent, input, p, limit, LineEditor.Step(l, Key.Other), Echo(l, Key.Other), p');
    }
    hide Reached;
  }

  /** LF and CR end the line; so do a full line, the end of the input and an escape sequence that it breaks off. */
  lemma LineEnds(l: Line, sent: seq<byte>, input: seq<byte>, p: nat, limit: nat)
    requires Reached(l, sent, input, p, limit)
    requires || |l.text| == limit || p >= |input| || input[p] == 0x0A || input[p] == 0x0D
             || (input[p] == 0x1B && p + 1 == |input|)
             || (input[p] == 0x1B && p + 2 == |input| && input[p + 1] == 0x5B)
    ensures Edit(Line([], 0), Keys(input, 0), limit) == l && Echoes(Line([], 0), Keys(input, 0), limit) == sent
  {
    Stops(l, sent, input, p, limit);
  }

  /** A redraw: from the left margin the text and what blanks the rest, then ESC [ D as often as the cursor is off. */
  lemma RedrawIs(l: Line, blank: seq<byte>)
    requires l.cursor <= |l.text|
    ensures var r, from, n := Redraw(l, blank), 1 + |l.text| + |blank|, |l.text| + |blank| - l.cursor;
            && |r| == from + 3 * n && r[..from] == [0x0D] + l.text + blank
            && forall j :: 0 <= j < n ==> r[from + 3 * j..from + 3 * j + 3] == [0x1B, 0x5B, 0x44]
  {
    BackIs(|l.text| + |blank| - l.cursor);
  }

  lemma {:induction false} BackIs(n: nat)
    ensures |CursorBack(n)| == 3 * n
    ensures forall j :: 0 <= j < n ==> CursorBack(n)[3 * j..3 * j + 3] == [0x1B, 0x5B, 0x44]
  {
    if n > 0 {
      BackIs(n - 1);
      var b, rest := CursorBack(n), CursorBack(n - 1);
      forall j | 0 <= j < n ensures b[3 * j..3 * j + 3] == [0x1B, 0x5B, 0x44] {
        assert j > 0 ==> b[3 * j..3 * j + 3] == rest[3 * (j - 1)..3 * (j - 1) + 3];
      }
    }
  }
}
