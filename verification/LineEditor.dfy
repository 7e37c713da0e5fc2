/**
 The polled line editor (kernel/serial.c): what each key does to the text and the cursor, what is echoed,
 and the loop that edits the caller's buffer in place.
 */
module LineEditor {
  import opened Common

  const BS: byte := 0x08
  const LF: byte := 0x0A
  const ESC: byte := 0x1B
  const SPACE: byte := 0x20
  const BRACKET: byte := 0x5B
  const DEL: byte := 0x7F

  datatype Line = Line(text: seq<byte>, cursor: nat)

  datatype Key = Insert(c: byte) | Backspace | Delete | Left | Right | Enter | Other

  /** A key that needs one byte. */
  function PlainKey(c: byte): Key {
    if c == BS then Backspace
    else if c == DEL then Delete
    else if 0x21 <= c <= 0x7E || IsSpace(c) then if c == LF || c == CR then Enter else Insert(c)
    else Other
  }

  /** The key after ESC and the bracket. */
  function ArrowKey(c: byte): Key {
    if c == 0x44 then Left else if c == 0x43 then Right else Other
  }

  /** Bytes that the key starting at byte `p` takes. */
  function KeyLength(input: seq<byte>, p: nat): nat
    requires p < |input|
  {
    if input[p] != ESC then 1
    else if p + 1 == |input| || input[p + 1] == BRACKET then 3
    else 2
  }

  /** An escape sequence that the input breaks off is no key yet. */
  predicate HasKey(input: seq<byte>, p: nat) {
    p < |input| && p + KeyLength(input, p) <= |input|
  }

  function KeyAt(input: seq<byte>, p: nat): Key
    requires HasKey(input, p)
  {
    if input[p] != ESC then PlainKey(input[p])
    else if input[p + 1] == BRACKET then ArrowKey(input[p + 2])
    else Other
  }

  /** The keys that the bytes from `p` on spell. */
  function Keys(input: seq<byte>, p: nat): seq<Key>
    decreases |input| - p
  {
    if !HasKey(input, p) then []
    else [KeyAt(input, p)] + Keys(input, p + KeyLength(input, p))
  }

  /** What a key does to the text and the cursor. */
  function Step(l: Line, k: Key): (r: Line)
    requires l.cursor <= |l.text|
    ensures r.cursor <= |r.text|
  {
    match k
    case Insert(c) => Line(InsertAt(l.text, l.cursor, c), l.cursor + 1)
    case Backspace => if l.cursor > 0 then Line(RemoveAt(l.text, l.cursor - 1), l.cursor - 1) else l
    case Delete => if l.cursor < |l.text| then Line(RemoveAt(l.text, l.cursor), l.cursor) else l
    case Left => if l.cursor > 0 then Line(l.text, l.cursor - 1) else l
    case Right => if l.cursor < |l.text| then Line(l.text, l.cursor + 1) else l
    case _ => l
  }

  /** CUB and CUF, sections 8.3.18 and 8.3.20 of ECMA-48. */
  function CursorBack(n: nat): seq<byte> {
    if n == 0 then [] else [ESC, BRACKET, 0x44] + CursorBack(n - 1)
  }

  const CURSOR_FORWARD: seq<byte> := [ESC, BRACKET, 0x43]

  /** Redraw the text from the left margin, blank what follows it by `blank`, and step back to the cursor. */
  function Redraw(l: Line, blank: seq<byte>): seq<byte>
    requires l.cursor <= |l.text|
  {
    [CR] + l.text + blank + CursorBack(|l.text| + |blank| - l.cursor)
  }

  /** What a key makes the editor send. */
  function Echo(l: Line, k: Key): seq<byte>
    requires l.cursor <= |l.text|
  {
    match k
    case Insert(c) => Redraw(Step(l, k), [])
    case Backspace => if l.cursor > 0 then Redraw(Step(l, k), [SPACE]) else []
    case Delete => if l.cursor < |l.text| then Redraw(Step(l, k), [SPACE]) else []
    case Left => if l.cursor > 0 then [BS] else []
    case Right => if l.cursor < |l.text| then CURSOR_FORWARD else []
    case _ => []
  }

  /** Editing ends at Enter, when the text reaches `limit`, or when nothing more is typed. */
  function Edit(l: Line, keys: seq<Key>, limit: nat): (r: Line)
    requires l.cursor <= |l.text| <= limit
    ensures r.cursor <= |r.text| <= limit
    decreases |keys|
  {
    if keys == [] || |l.text| >= limit || keys[0].Enter? then l
    else Edit(Step(l, keys[0]), keys[1..], limit)
  }

  function Echoes(l: Line, keys: seq<Key>, limit: nat): seq<byte>
    requires l.cursor <= |l.text| <= limit
    decreases |keys|
  {
    if keys == [] || |l.text| >= limit || keys[0].Enter? then []
    else Echo(l, keys[0]) + Echoes(Step(l, keys[0]), keys[1..], limit)
  }

  // ---------------------------------------------------------------- the buffer

  /** Moves `count` bytes one place down, onto index `at`. */
  method CloseGap(buffer: array<byte>, at: nat, count: nat)
    requires at + count < buffer.Length
    modifies buffer
    ensures forall k :: 0 <= k < at || at + count <= k < buffer.Length ==> buffer[k] == old(buffer[k])
    ensures forall k :: at <= k < at + count ==> buffer[k] == old(buffer[k + 1])
  {
    for b := 0 to count
      invariant forall k :: 0 <= k < at || at + b <= k < buffer.Length ==> buffer[k] == old(buffer[k])
      invariant forall k :: at <= k < at + b ==> buffer[k] == old(buffer[k + 1])
    {
      buffer[at + b] := buffer[at + b + 1];
    }
  }

  /** Moves `count` bytes from index `at` one place up. */
  method OpenGap(buffer: array<byte>, at: nat, count: nat)
    requires at + count < buffer.Length
    modifies buffer
    ensures forall k :: 0 <= k <= at || at + count < k < buffer.Length ==> buffer[k] == old(buffer[k])
    ensures forall k :: at < k <= at + count ==> buffer[k] == old(buffer[k - 1])
  {
    var b := count;
    while b > 0
      invariant 0 <= b <= count
      invariant forall k :: 0 <= k <= at + b || at + count < k < buffer.Length ==> buffer[k] == old(buffer[k])
      invariant forall k :: at + b < k <= at + count ==> buffer[k] == old(buffer[k - 1])
    {
      buffer[at + b] := buffer[at + b - 1];
      b := b - 1;
    }
  }

  /** Takes byte `at` out of the text; Delete also shifts the byte after the text. */
  method Erase(buffer: array<byte>, size: nat, at: nat, count: nat)
    requires at < size < buffer.Length && size - 1 - at <= count <= size - at
    modifies buffer
    ensures buffer[..size - 1] == RemoveAt(old(buffer[..size]), at) && buffer[size - 1] == 0
    ensures forall k :: size <= k < buffer.Length ==> buffer[k] == old(buffer[k])
  {
    CloseGap(buffer, at, count);
    buffer[size - 1] := 0;
  }

  /** Puts a byte into the text. */
  method Put(buffer: array<byte>, size: nat, at: nat, c: byte)
    requires at <= size < buffer.Length
    modifies buffer
    ensures buffer[..size + 1] == InsertAt(old(buffer[..size]), at, c)
    ensures forall k :: size < k < buffer.Length ==> buffer[k] == old(buffer[k])
  {
    OpenGap(buffer, at, size - at);
    buffer[at] := c;
  }

  /** The echo of an edit: the redraw loops. */
  method SendRedraw(buffer: array<byte>, size: nat, cursor: nat, blank: seq<byte>) returns (sent: seq<byte>)
    requires cursor <= size <= buffer.Length
    ensures sent == Redraw(Line(buffer[..size], cursor), blank)
  {
    sent := [CR];
    for b := 0 to size
      invariant sent == [CR] + buffer[..b]
    {
      sent := sent + [buffer[b]];
    }
    sent := sent + blank;
    ghost var drawn := sent;
    ghost var total := size + |blank| - cursor;
    var b := 0;
    while b < size - cursor + |blank|
      invariant 0 <= b <= total
      invariant sent == drawn + CursorBack(b)
    {
      CursorBackLast(b);
      sent := sent + [ESC] + [BRACKET] + [0x44];
      b := b + 1;
    }
  }

  lemma {:induction false} CursorBackLast(n: nat)
    ensures CursorBack(n + 1) == CursorBack(n) + [ESC, BRACKET, 0x44]
  {
    if n > 0 {
      CursorBackLast(n - 1);
    }
  }

  /**
   What the first `len` bytes of the caller's buffer hold while `l` is edited: the last one is NUL, and in a
   buffer that was zeroed all bytes behind the text are.
   */
  ghost predicate Holds(buffer: seq<byte>, len: nat, l: Line, zeroed: bool) {
    && |l.text| < len <= |buffer| && buffer[len - 1] == 0
    && buffer[..|l.text|] == l.text
    && (zeroed ==> forall k :: |l.text| <= k < len ==> buffer[k] == 0)
  }

  /** One key other than Enter. */
  method HandleKey(buffer: array<byte>, len: nat, size: nat, cursor: nat, k: Key, ghost l: Line, ghost zeroed: bool)
    returns (size': nat, cursor': nat, sent: seq<byte>)
    requires cursor == l.cursor <= |l.text| == size < len - 1 && !k.Enter?
    requires Holds(buffer[..], len, l, zeroed)
    modifies buffer
    ensures size' == |Step(l, k).text| && cursor' == Step(l, k).cursor
    ensures Holds(buffer[..], len, Step(l, k), zeroed)
    ensures forall j :: len <= j < buffer.Length ==> buffer[j] == old(buffer[j])
    ensures sent == Echo(l, k)
  {
    hide Redraw, InsertAt, RemoveAt;
    size', cursor', sent := size, cursor, [];
    match k {
      case Backspace =>
        if cursor > 0 {
          Erase(buffer, size, cursor - 1, size - cursor);
          cursor', size' := cursor - 1, size - 1;
          sent := SendRedraw(buffer, size', cursor', [SPACE]);
        }
      case Delete =>
        if cursor < size {
          Erase(buffer, size, cursor, size - cursor);
          size' := size - 1;
          sent := SendRedraw(buffer, size', cursor', [SPACE]);
        }
      case Left =>
        if cursor > 0 {
          cursor', sent := cursor - 1, [BS];
        }
      case Right =>
        if cursor < size {
          cursor', sent := cursor + 1, CURSOR_FORWARD;
        }
      case Insert(c) =>
        Put(buffer, size, cursor, c);
        cursor', size' := cursor + 1, size + 1;
        sent := SendRedraw(buffer, size', cursor', []);
      case Other =>
    }
  }

  /** After the keys before byte `p`, editing an empty line has come to `l` and has sent `sent`. */
  ghost predicate Reached(l: Line, sent: seq<byte>, input: seq<byte>, p: nat, limit: nat) {
    && l.cursor <= |l.text| <= limit
    && Edit(l, Keys(input, p), limit) == Edit(Line([], 0), Keys(input, 0), limit)
    && sent + Echoes(l, Keys(input, p), limit) == Echoes(Line([], 0), Keys(input, 0), limit)
  }

  /** Editing by one key, and its echo. */
  lemma OneKey(l: Line, input: seq<byte>, p: nat, limit: nat)
    requires l.cursor <= |l.text| < limit && HasKey(input, p) && !KeyAt(input, p).Enter?
    ensures var k, p' := KeyAt(input, p), p + KeyLength(input, p);
            && |Step(l, k).text| <= limit
            && Edit(l, Keys(input, p), limit) == Edit(Step(l, k), Keys(input, p'), limit)
            && Echoes(l, Keys(input, p), limit) == Echo(l, k) + Echoes(Step(l, k), Keys(input, p'), limit)
  {
    hide Echo, KeyAt, KeyLength;
    StepGrows(l, KeyAt(input, p));
    hide Step, InsertAt, RemoveAt;
    var k, rest := KeyAt(input, p), Keys(input, p + KeyLength(input, p));
    assert Keys(input, p) == [k] + rest;
    assert ([k] + rest)[1..] == rest;
  }

  lemma StepGrows(l: Line, k: Key)
    requires l.cursor <= |l.text|
    ensures |Step(l, k).text| <= |l.text| + 1
  {
  }

  lemma Continues(l: Line, sent: seq<byte>, input: seq<byte>, p: nat, limit: nat)
    requires Reached(l, sent, input, p, limit) && |l.text| < limit
    requires HasKey(input, p) && !KeyAt(input, p).Enter?
    ensures Reached(Step(l, KeyAt(input, p)), sent + Echo(l, KeyAt(input, p)), input, p + KeyLength(input, p), limit)
  {
    hide Echo, Step, Keys, Edit, Echoes, KeyAt, KeyLength;
    var k, p' := KeyAt(input, p), p + KeyLength(input, p);
    OneKey(l, input, p, limit);
    Associate(sent, Echo(l, k), Echoes(Step(l, k), Keys(input, p'), limit));
  }

  lemma Stops(l: Line, sent: seq<byte>, input: seq<byte>, p: nat, limit: nat)
    requires Reached(l, sent, input, p, limit)
    requires |l.text| == limit || !HasKey(input, p) || KeyAt(input, p).Enter?
    ensures l == Edit(Line([], 0), Keys(input, 0), limit) && sent == Echoes(Line([], 0), Keys(input, 0), limit)
  {
  }

  /** Reads one key from the bytes the device delivers, starting with byte `p`. */
  method ReadKey(input: seq<byte>, p: nat) returns (complete: bool, k: Key, p': nat)
    requires p < |input|
    ensures complete == HasKey(input, p)
    ensures complete ==> k == KeyAt(input, p) && p < p' == p + KeyLength(input, p) <= |input|
  {
    var c := input[p];
    complete, k, p' := true, PlainKey(c), p + 1;
    if c == ESC {
      if p' == |input| {
        return false, k, p';
      }
      c := input[p'];
      p' := p' + 1;
      if c == BRACKET {
        if p' == |input| {
          return false, k, p';
        }
        k := ArrowKey(input[p']);
        p' := p' + 1;
      } else {
        k := Other;
      }
    }
  }

  /** The polling loop: lines 81-198. */
  method PollKeys(buffer: array<byte>, len: nat, input: seq<byte>, ghost zeroed: bool)
    returns (size: nat, cursor: nat, sent: seq<byte>, ghost l: Line)
    requires Holds(buffer[..], len, Line([], 0), zeroed)
    modifies buffer
    ensures l == Edit(Line([], 0), Keys(input, 0), len - 1) && sent == Echoes(Line([], 0), Keys(input, 0), len - 1)
    ensures size == |l.text| && cursor == l.cursor && Holds(buffer[..], len, l, zeroed)
    ensures forall k :: len <= k < buffer.Length ==> buffer[k] == old(buffer[k])
  {
    l := Line([], 0);
    ghost var limit := len - 1;
    var currsz, i, p := 0, 0, 0;
    sent := [];
    assert Reached(l, sent, input, p, limit);
    hide Reached, Keys, Edit, Echoes, Echo, Step, KeyLength, HasKey, KeyAt, Holds;
    while currsz < len - 1 && p < |input|
      invariant p <= |input| && i == l.cursor <= |l.text| == currsz <= limit
      invariant Holds(buffer[..], len, l, zeroed)
      invariant forall k :: len <= k < buffer.Length ==> buffer[k] == old(buffer[k])
      invariant Reached(l, sent, input, p, limit)
      decreases |input| - p
    {
      var complete, k, p' := ReadKey(input, p);
      if !complete || k.Enter? {
        break;
      }
      Continues(l, sent, input, p, limit);
      var more;
      currsz, i, more := HandleKey(buffer, len, currsz, i, k, l, zeroed);
      l, p, sent := Step(l, k), p', sent + more;
    }
    Stops(l, sent, input, p, limit);
    size, cursor := currsz, i;
  }

  /**
   serial_poll. `input` is what the device delivers; `initialized` is its flag. The last byte of the
   caller's buffer is kept for a NUL.
   */
  method SerialPoll(initialized: bool, buffer: array<byte>, len: nat, input: seq<byte>)
    returns (size: int, cursor: nat, sent: seq<byte>)
    requires 1 <= len <= buffer.Length
    modifies buffer
    ensures !initialized ==> size == -1 && sent == [] && buffer[..] == old(buffer[..])
    ensures initialized ==>
              var l := Edit(Line([], 0), Keys(input, 0), len - 1);
              && size == |l.text| && cursor == l.cursor
              && buffer[..size] == l.text
              && sent == Echoes(Line([], 0), Keys(input, 0), len - 1)
    ensures initialized ==> buffer[len - 1] == 0
    ensures forall k :: len <= k < buffer.Length ==> buffer[k] == old(buffer[k])
    ensures initialized && (forall k :: 0 <= k < len ==> old(buffer[k]) == 0) ==>
              forall k :: size <= k < len ==> buffer[k] == 0
  {
    if !initialized {
      return -1, 0, [];
    }
    buffer[len - 1] := 0;
    hide Keys, Edit, Echoes;
    ghost var l;
    size, cursor, sent, l := PollKeys(buffer, len, input, forall k :: 0 <= k < len ==> old(buffer[k]) == 0);
  }
}
